/** The reports of `evaluation/audio_device/evidence.cpp`: the contract report, the candidate reports and
    the full report that holds one of each, to JSON and back, and the length of their text. */
module AudioReports {
  import opened Provenance
  import opened Wrappers
  import opened JsonTrees
  import opened AudioEvidence

  // ---------------------------------------------------------------------------------------------
  // Rows
  // ---------------------------------------------------------------------------------------------

  function RowsJson(rows: seq<Record>): (items: seq<Json>)
    ensures |items| == |rows| && forall i | 0 <= i < |rows| :: items[i] == RecordJson(rows[i])
  {
    seq(|rows|, i requires 0 <= i < |rows| => RecordJson(rows[i]))
  }

  /** `parse_probes`: all rows, or the error of the first that does not decode. */
  function DecodeRows(items: seq<Json>): Result<seq<Record>> {
    if items == [] then Ok([]) else
      match DecodeRecord(items[0])
      case Err(error) => Err(error)
      case Ok(row) => Preceded([row], DecodeRows(items[1..]))
  }

  function Preceded(rows: seq<Record>, rest: Result<seq<Record>>): Result<seq<Record>> {
    match rest case Err(error) => Err(error) case Ok(more) => Ok(rows + more)
  }

  ghost predicate AllValid(rows: seq<Record>) { forall i | 0 <= i < |rows| :: ValidRecord(rows[i]) }

  lemma {:induction false} RowsExact(items: seq<Json>, rows: seq<Record>)
    ensures DecodeRows(items) == Ok(rows) <==> AllValid(rows) && items == RowsJson(rows)
  {
    if items != [] && rows != [] {
      RecordExact(items[0], rows[0]);
      RowsExact(items[1..], rows[1..]);
      RowsSplit(items, rows);
    }
    if items == [] && rows == [] { assert RowsJson(rows) == []; }
  }

  lemma RowsSplit(items: seq<Json>, rows: seq<Record>)
    requires items != [] && rows != []
    ensures items == RowsJson(rows) <==> items[0] == RecordJson(rows[0]) && items[1..] == RowsJson(rows[1..])
    ensures AllValid(rows) <==> ValidRecord(rows[0]) && AllValid(rows[1..])
    ensures forall row, rest :: [row] + rest == rows <==> row == rows[0] && rest == rows[1..]
  {
    assert forall i | 0 < i < |rows| :: rows[i] == rows[1..][i - 1];
    if items[0] == RecordJson(rows[0]) && items[1..] == RowsJson(rows[1..]) {
      forall i | 0 <= i < |rows| ensures items[i] == RowsJson(rows)[i] {
        if i > 0 { assert items[1..][i - 1] == RecordJson(rows[1..][i - 1]); }
      }
    }
    if items == RowsJson(rows) {
      forall i | 0 <= i < |rows| - 1 ensures items[1..][i] == RowsJson(rows[1..])[i] {}
    }
    forall row: Record, rest: seq<Record> ensures [row] + rest == rows <==> row == rows[0] && rest == rows[1..] {
      if [row] + rest == rows { assert ([row] + rest)[1..] == rest && ([row] + rest)[0] == row; }
      if row == rows[0] && rest == rows[1..] { assert [row] + rest == rows; }
    }
  }

  /** The loop that builds the rows. */
  method ParseProbes(j: Json) returns (r: Result<seq<Record>>)
    ensures !j.Array? ==> r == Err(InvalidValue)
    ensures j.Array? ==> r == DecodeRows(j.items)
  {
    if !j.Array? {
      return Err(InvalidValue);
    }
    var rows: seq<Record> := [];
    assert j.items[0..] == j.items;
    assert forall r: seq<Record> :: rows + r == r;
    for i := 0 to |j.items|
      invariant DecodeRows(j.items) == Preceded(rows, DecodeRows(j.items[i..]))
    {
      PrecededStep(rows, j.items, i);
      var row := DecodeRecord(j.items[i]);
      if row.Err? {
        return Err(row.error);
      }
      rows := rows + [row.value];
    }
    assert j.items[|j.items|..] == [] && rows + [] == rows;
    return Ok(rows);
  }

  lemma PrecededStep(rows: seq<Record>, items: seq<Json>, i: nat)
    requires i < |items|
    ensures Preceded(rows, DecodeRows(items[i..]))
         == match DecodeRecord(items[i])
            case Err(error) => Err(error)
            case Ok(row) => Preceded(rows + [row], DecodeRows(items[i + 1..]))
  {
    assert items[i..][1..] == items[i + 1..];
    var rest := DecodeRows(items[i + 1..]);
    if DecodeRecord(items[i]).Ok? && rest.Ok? {
      assert rows + ([DecodeRecord(items[i]).value] + rest.value) == rows + [DecodeRecord(items[i]).value] + rest.value;
    }
  }

  // ---------------------------------------------------------------------------------------------
  // Validity
  // ---------------------------------------------------------------------------------------------

  datatype Key = Key(probe: Probe, direction: Direction)

  function ContractKeys(): seq<Key> {
    [ Key(InvalidFormatRejected, Neither), Key(MalformedWavRejected, Playback), Key(OversizedWavRejected, Playback),
      Key(PermissionDenialClassified, Capture), Key(DeviceLossClassified, Playback), Key(DeviceLossClassified, Capture),
      Key(PlaybackUnderrunObserved, Playback), Key(CaptureOverrunRejected, Capture), Key(ConcurrentOperationRejected, Neither),
      Key(CancelDuringOpen, Playback), Key(CancelDuringOpen, Capture), Key(CancelDuringStart, Playback),
      Key(CancelDuringStart, Capture), Key(CancelDuringStream, Playback), Key(CancelDuringStream, Capture),
      Key(CancelDuringStop, Playback), Key(CancelDuringStop, Capture), Key(CancelDuringClose, Playback),
      Key(CancelDuringClose, Capture), Key(PlaybackOwnerQuiescent, Playback), Key(CaptureBoundEnforced, Capture),
      Key(PartialCaptureNotPublished, Capture), Key(LateCallbackRejected, Neither), Key(TeardownQuiescent, Neither) ]
  }

  function CandidateKeys(): seq<Key> {
    [ Key(RuntimeBackendForced, Neither), Key(PhysicalDeviceAccessExcluded, Neither), Key(DeviceAvailabilityBehavior, Playback),
      Key(DeviceAvailabilityBehavior, Capture), Key(PlaybackCallbackLifecycle, Playback), Key(CaptureCallbackLifecycle, Capture),
      Key(ControllerThreadCancellation, Playback), Key(ControllerThreadCancellation, Capture),
      Key(CallbackQuiescentAfterClose, Playback), Key(CallbackQuiescentAfterClose, Capture) ]
  }

  /** `validate_probe_order`. */
  predicate InOrder(rows: seq<Record>, required: seq<Key>) {
    |rows| == |required|
    && forall i | 0 <= i < |rows| :: Key(rows[i].probe, rows[i].direction) == required[i] && ValidRecord(rows[i])
  }

  datatype CandidateReport = CandidateReport(candidate: Candidate, version: string, source: Source, linkage: Linkage,
                                             backend: Backend, deviceAccess: bool, codecFeatures: bool, rows: seq<Record>)

  datatype Report = Report(sourceSha: string, platform: string, architecture: string,
                           contract: seq<Record>, candidates: seq<CandidateReport>)

  predicate ValidContract(rows: seq<Record>) { InOrder(rows, ContractKeys()) }

  function Version(c: Candidate): string { if c == Rtaudio then "6.0.1" else "0.11.25" }

  predicate ValidCandidate(c: CandidateReport) {
    && c.version == Version(c.candidate) && !c.deviceAccess && !c.codecFeatures
    && c.backend == (if c.candidate == Rtaudio then Dummy else NullBackend)
    && InOrder(c.rows, CandidateKeys())
  }

  predicate ValidReport(r: Report) {
    && ValidSha(r.sourceSha) && r.platform == "linux" && ValidMetadata(r.architecture) && ValidContract(r.contract)
    && |r.candidates| == 2 && r.candidates[0].candidate == Rtaudio && r.candidates[1].candidate == Miniaudio
    && ValidCandidate(r.candidates[0]) && ValidCandidate(r.candidates[1])
  }

  // ---------------------------------------------------------------------------------------------
  // The contract report
  // ---------------------------------------------------------------------------------------------

  const SCHEMA: string := "aiforge.audio-device-evaluation"

  const CONTRACT_FIELDS: set<Field> := {Kind, Probes, SchemaId, SchemaVersion}

  function ContractJson(rows: seq<Record>): Json {
    Object(map[Kind := Text("contract"), Probes := Array(RowsJson(rows)), SchemaId := Text(SCHEMA), SchemaVersion := Number(1)])
  }

  function DecodeContract(j: Json): Result<seq<Record>> {
    var shape := Shape(j, CONTRACT_FIELDS);
    if shape.Some? then Err(shape.value)
    else if j.fields[SchemaId] != Text(SCHEMA) || j.fields[SchemaVersion] != Number(1) then Err(InvalidSchema)
    else if j.fields[Kind] != Text("contract") then Err(InvalidValue)
    else if !j.fields[Probes].Array? then Err(InvalidValue)
    else
      match DecodeRows(j.fields[Probes].items)
      case Err(error) => Err(error)
      case Ok(rows) => if ValidContract(rows) then Ok(rows) else Err(InvalidValue)
  }

  lemma ContractFields(j: Json, rows: seq<Record>)
    ensures j == ContractJson(rows) <==>
              && j.Object? && j.fields.Keys == CONTRACT_FIELDS && j.fields[Kind] == Text("contract")
              && j.fields[Probes] == Array(RowsJson(rows)) && j.fields[SchemaId] == Text(SCHEMA) && j.fields[SchemaVersion] == Number(1)
  {
    if && j.Object? && j.fields.Keys == CONTRACT_FIELDS && j.fields[Kind] == Text("contract")
       && j.fields[Probes] == Array(RowsJson(rows)) && j.fields[SchemaId] == Text(SCHEMA) && j.fields[SchemaVersion] == Number(1) {
      assert j.fields == ContractJson(rows).fields;
    }
  }

  /** The decoder accepts exactly the encodings of valid contract reports. */
  lemma ContractExact(j: Json, rows: seq<Record>)
    ensures DecodeContract(j) == Ok(rows) <==> ValidContract(rows) && j == ContractJson(rows)
  {
    ShapeExact(j, CONTRACT_FIELDS);
    ContractFields(j, rows);
    OrderedValid(rows, ContractKeys());
    if j.Object? && j.fields.Keys == CONTRACT_FIELDS && j.fields[Probes].Array? { RowsExact(j.fields[Probes].items, rows); }
  }

  lemma OrderedValid(rows: seq<Record>, required: seq<Key>)
    ensures InOrder(rows, required) ==> AllValid(rows)
  {
  }

  // ---------------------------------------------------------------------------------------------
  // Candidate reports
  // ---------------------------------------------------------------------------------------------

  function CandidateName(c: Candidate): string { EnumName(c, CANDIDATES, CANDIDATE_NAMES) }
  function SourceName(s: Source): string { EnumName(s, SOURCES, SOURCE_NAMES) }
  function LinkageName(l: Linkage): string { EnumName(l, LINKAGES, LINKAGE_NAMES) }
  function BackendName(b: Backend): string { EnumName(b, BACKENDS, BACKEND_NAMES) }

  function ParseCandidate(j: Json): Option<Candidate> { ParseEnum(j, CANDIDATES, CANDIDATE_NAMES) }
  function ParseSource(j: Json): Option<Source> { ParseEnum(j, SOURCES, SOURCE_NAMES) }
  function ParseLinkage(j: Json): Option<Linkage> { ParseEnum(j, LINKAGES, LINKAGE_NAMES) }
  function ParseBackend(j: Json): Option<Backend> { ParseEnum(j, BACKENDS, BACKEND_NAMES) }

  lemma CandidateEnums(a: Json, b: Json, c: Json, d: Json)
    ensures forall e :: ParseCandidate(a) == Some(e) <==> a == Text(CandidateName(e))
    ensures forall e :: ParseSource(b) == Some(e) <==> b == Text(SourceName(e))
    ensures forall e :: ParseLinkage(c) == Some(e) <==> c == Text(LinkageName(e))
    ensures forall e :: ParseBackend(d) == Some(e) <==> d == Text(BackendName(e))
  {
    SmallTables();
    EnumExact(a, CANDIDATES, CANDIDATE_NAMES);
    EnumExact(b, SOURCES, SOURCE_NAMES);
    EnumExact(c, LINKAGES, LINKAGE_NAMES);
    EnumExact(d, BACKENDS, BACKEND_NAMES);
  }

  const CANDIDATE_FIELDS: set<Field> :=
    {CandidateIdField, CandidateVersion, CodecFeatures, DependencySourceField, DeviceAccess, LinkageField, Probes, RuntimeBackendField}

  function CandidateJson(c: CandidateReport): Json {
    Object(map[CandidateIdField := Text(CandidateName(c.candidate)),
               CandidateVersion := Text(c.version),
               CodecFeatures := Bool(c.codecFeatures),
               DependencySourceField := Text(SourceName(c.source)),
               DeviceAccess := Bool(c.deviceAccess),
               LinkageField := Text(LinkageName(c.linkage)),
               Probes := Array(RowsJson(c.rows)),
               RuntimeBackendField := Text(BackendName(c.backend))])
  }

  ghost predicate SaysCandidate(f: map<Field, Json>, c: CandidateReport) {
    && f.Keys == CANDIDATE_FIELDS
    && f[CandidateIdField] == Text(CandidateName(c.candidate)) && f[CandidateVersion] == Text(c.version)
    && f[CodecFeatures] == Bool(c.codecFeatures) && f[DependencySourceField] == Text(SourceName(c.source))
    && f[DeviceAccess] == Bool(c.deviceAccess) && f[LinkageField] == Text(LinkageName(c.linkage))
    && f[Probes] == Array(RowsJson(c.rows)) && f[RuntimeBackendField] == Text(BackendName(c.backend))
  }

  lemma CandidateFields(j: Json, c: CandidateReport)
    ensures j == CandidateJson(c) <==> j.Object? && SaysCandidate(j.fields, c)
  {
    if j.Object? && SaysCandidate(j.fields, c) {
      assert j.fields == CandidateJson(c).fields;
    }
  }

  function DecodeCandidate(j: Json): Result<CandidateReport> {
    var shape := Shape(j, CANDIDATE_FIELDS);
    if shape.Some? then Err(shape.value) else
      var f := j.fields;
      match (ParseCandidate(f[CandidateIdField]), ParseSource(f[DependencySourceField]), ParseLinkage(f[LinkageField]), ParseBackend(f[RuntimeBackendField]))
      case (Some(candidate), Some(source), Some(linkage), Some(backend)) =>
        if !(f[CandidateVersion].Text? && f[DeviceAccess].Bool? && f[CodecFeatures].Bool? && f[Probes].Array?) then Err(InvalidValue) else (
          match DecodeRows(f[Probes].items)
          case Err(error) => Err(error)
          case Ok(rows) =>
            var c := CandidateReport(candidate, f[CandidateVersion].s, source, linkage, backend, f[DeviceAccess].b, f[CodecFeatures].b, rows);
            if ValidCandidate(c) then Ok(c) else Err(InvalidValue))
      case _ => Err(InvalidValue)
  }

  /** What the decoder has found when it accepts. */
  ghost predicate FoundCandidate(f: map<Field, Json>, c: CandidateReport) {
    && f.Keys == CANDIDATE_FIELDS
    && ParseCandidate(f[CandidateIdField]) == Some(c.candidate) && ParseSource(f[DependencySourceField]) == Some(c.source)
    && ParseLinkage(f[LinkageField]) == Some(c.linkage) && ParseBackend(f[RuntimeBackendField]) == Some(c.backend)
    && f[CandidateVersion] == Text(c.version) && f[DeviceAccess] == Bool(c.deviceAccess) && f[CodecFeatures] == Bool(c.codecFeatures)
    && f[Probes].Array? && DecodeRows(f[Probes].items) == Ok(c.rows)
  }

  lemma DecodeCandidateIs(j: Json, c: CandidateReport)
    ensures DecodeCandidate(j) == Ok(c) <==> ValidCandidate(c) && j.Object? && FoundCandidate(j.fields, c)
  {
    ShapeExact(j, CANDIDATE_FIELDS);
  }

  lemma FoundCandidateSays(f: map<Field, Json>, c: CandidateReport)
    requires AllValid(c.rows)
    ensures FoundCandidate(f, c) <==> SaysCandidate(f, c)
  {
    if f.Keys == CANDIDATE_FIELDS {
      CandidateEnums(f[CandidateIdField], f[DependencySourceField], f[LinkageField], f[RuntimeBackendField]);
      if f[Probes].Array? { RowsExact(f[Probes].items, c.rows); }
    }
  }

  /** The decoder accepts exactly the encodings of valid candidate reports. */
  lemma CandidateExact(j: Json, c: CandidateReport)
    ensures DecodeCandidate(j) == Ok(c) <==> ValidCandidate(c) && j == CandidateJson(c)
  {
    DecodeCandidateIs(j, c);
    CandidateFields(j, c);
    OrderedValid(c.rows, CandidateKeys());
    if ValidCandidate(c) && j.Object? { FoundCandidateSays(j.fields, c); }
  }

  /** On its own a candidate report also says what it is. */
  function CandidateDocument(c: CandidateReport): Json {
    Object(CandidateJson(c).fields + Said())
  }

  function DecodeCandidateDocument(j: Json): Result<CandidateReport> {
    var shape := Shape(j, CANDIDATE_FIELDS + {Kind, SchemaId, SchemaVersion});
    if shape.Some? then Err(shape.value)
    else if j.fields[SchemaId] != Text(SCHEMA) || j.fields[SchemaVersion] != Number(1) then Err(InvalidSchema)
    else if j.fields[Kind] != Text("candidate") then Err(InvalidValue)
    else DecodeCandidate(Object(j.fields - {Kind, SchemaId, SchemaVersion}))
  }

  function Said(): map<Field, Json> { map[Kind := Text("candidate"), SchemaId := Text(SCHEMA), SchemaVersion := Number(1)] }

  lemma DecodeCandidateDocumentIs(j: Json, c: CandidateReport)
    ensures DecodeCandidateDocument(j) == Ok(c) <==>
              && j.Object? && j.fields.Keys == CANDIDATE_FIELDS + Said().Keys
              && (forall f | f in Said() :: f in j.fields && j.fields[f] == Said()[f])
              && DecodeCandidate(Object(j.fields - Said().Keys)) == Ok(c)
  {
    var all := CANDIDATE_FIELDS + {Kind, SchemaId, SchemaVersion};
    ShapeExact(j, all);
    assert Said().Keys == {Kind, SchemaId, SchemaVersion};
  }

  /** The decoder accepts exactly the documents of valid candidate reports. */
  lemma CandidateDocumentExact(j: Json, c: CandidateReport)
    ensures DecodeCandidateDocument(j) == Ok(c) <==> ValidCandidate(c) && j == CandidateDocument(c)
  {
    DecodeCandidateDocumentIs(j, c);
    DocumentIs(j, c);
    if j.Object? { CandidateExact(Object(j.fields - Said().Keys), c); }
  }

  lemma DocumentIs(j: Json, c: CandidateReport)
    ensures j == CandidateDocument(c) <==>
              && j.Object? && j.fields.Keys == CANDIDATE_FIELDS + Said().Keys
              && (forall f | f in Said() :: f in j.fields && j.fields[f] == Said()[f])
              && Object(j.fields - Said().Keys) == CandidateJson(c)
  {
    CandidateFields(CandidateJson(c), c);
    if j.Object? { Reassembled(j.fields, CandidateJson(c).fields, Said()); }
  }

  /** Taking fields away and adding them again. */
  lemma Reassembled(whole: map<Field, Json>, part: map<Field, Json>, rest: map<Field, Json>)
    requires part.Keys !! rest.Keys
    ensures whole == part + rest <==> whole.Keys == part.Keys + rest.Keys && whole - rest.Keys == part && forall f | f in rest :: f in whole && whole[f] == rest[f]
  {
    if whole == part + rest { assert whole - rest.Keys == part; }
    if whole.Keys == part.Keys + rest.Keys && whole - rest.Keys == part && forall f | f in rest :: f in whole && whole[f] == rest[f] {
      forall f | f in part ensures whole[f] == part[f] { assert f in whole - rest.Keys; }
      assert whole == part + rest;
    }
  }

  // ---------------------------------------------------------------------------------------------
  // The full report
  // ---------------------------------------------------------------------------------------------

  function CandidatesJson(cs: seq<CandidateReport>): (items: seq<Json>)
    ensures |items| == |cs| && forall i | 0 <= i < |cs| :: items[i] == CandidateJson(cs[i])
  {
    seq(|cs|, i requires 0 <= i < |cs| => CandidateJson(cs[i]))
  }

  function DecodeCandidates(items: seq<Json>): Result<seq<CandidateReport>> {
    if items == [] then Ok([]) else
      match DecodeCandidate(items[0])
      case Err(error) => Err(error)
      case Ok(c) =>
        match DecodeCandidates(items[1..])
        case Err(error) => Err(error)
        case Ok(rest) => Ok([c] + rest)
  }

  lemma {:induction false} CandidatesExact(items: seq<Json>, cs: seq<CandidateReport>)
    ensures DecodeCandidates(items) == Ok(cs) <==> (forall i | 0 <= i < |cs| :: ValidCandidate(cs[i])) && items == CandidatesJson(cs)
  {
    if items != [] && cs != [] {
      CandidateExact(items[0], cs[0]);
      CandidatesExact(items[1..], cs[1..]);
      CandidatesSplit(items, cs);
    }
    if items == [] && cs == [] { assert CandidatesJson(cs) == []; }
  }

  lemma CandidatesSplit(items: seq<Json>, cs: seq<CandidateReport>)
    requires items != [] && cs != []
    ensures items == CandidatesJson(cs) <==> items[0] == CandidateJson(cs[0]) && items[1..] == CandidatesJson(cs[1..])
    ensures (forall i | 0 <= i < |cs| :: ValidCandidate(cs[i])) <==> ValidCandidate(cs[0]) && forall i | 0 <= i < |cs[1..]| :: ValidCandidate(cs[1..][i])
    ensures forall c, rest :: [c] + rest == cs <==> c == cs[0] && rest == cs[1..]
  {
    assert forall i | 0 < i < |cs| :: cs[i] == cs[1..][i - 1];
    if items[0] == CandidateJson(cs[0]) && items[1..] == CandidatesJson(cs[1..]) {
      forall i | 0 <= i < |cs| ensures items[i] == CandidatesJson(cs)[i] {
        if i > 0 { assert items[1..][i - 1] == CandidateJson(cs[1..][i - 1]); }
      }
    }
    if items == CandidatesJson(cs) {
      forall i | 0 <= i < |cs| - 1 ensures items[1..][i] == CandidatesJson(cs[1..])[i] {}
    }
    forall c: CandidateReport, rest: seq<CandidateReport> ensures [c] + rest == cs <==> c == cs[0] && rest == cs[1..] {
      if [c] + rest == cs { assert ([c] + rest)[1..] == rest && ([c] + rest)[0] == c; }
      if c == cs[0] && rest == cs[1..] { assert [c] + rest == cs; }
    }
  }

  const REPORT_FIELDS: set<Field> := {Architecture, Candidates, ContractProbes, Platform, SchemaId, SchemaVersion, SourceSha}

  function ReportJson(r: Report): Json {
    Object(map[Architecture := Text(r.architecture),
               Candidates := Array(CandidatesJson(r.candidates)),
               ContractProbes := Array(RowsJson(r.contract)),
               Platform := Text(r.platform),
               SchemaId := Text(SCHEMA),
               SchemaVersion := Number(1),
               SourceSha := Text(r.sourceSha)])
  }

  ghost predicate SaysReport(f: map<Field, Json>, r: Report) {
    && f.Keys == REPORT_FIELDS
    && f[Architecture] == Text(r.architecture) && f[Candidates] == Array(CandidatesJson(r.candidates))
    && f[ContractProbes] == Array(RowsJson(r.contract)) && f[Platform] == Text(r.platform)
    && f[SchemaId] == Text(SCHEMA) && f[SchemaVersion] == Number(1) && f[SourceSha] == Text(r.sourceSha)
  }

  lemma ReportFields(j: Json, r: Report)
    ensures j == ReportJson(r) <==> j.Object? && SaysReport(j.fields, r)
  {
    if j.Object? && SaysReport(j.fields, r) {
      assert j.fields == ReportJson(r).fields;
    }
  }

  function DecodeReport(j: Json): Result<Report> {
    var shape := Shape(j, REPORT_FIELDS);
    if shape.Some? then Err(shape.value) else
      var f := j.fields;
      if f[SchemaId] != Text(SCHEMA) || f[SchemaVersion] != Number(1) then Err(InvalidSchema)
      else if !(f[SourceSha].Text? && f[Platform].Text? && f[Architecture].Text? && f[Candidates].Array?) then Err(InvalidValue)
      else if !f[ContractProbes].Array? then Err(InvalidValue)
      else
        match DecodeRows(f[ContractProbes].items)
        case Err(error) => Err(error)
        case Ok(contract) =>
          match DecodeCandidates(f[Candidates].items)
          case Err(error) => Err(error)
          case Ok(candidates) =>
            var r := Report(f[SourceSha].s, f[Platform].s, f[Architecture].s, contract, candidates);
            if ValidReport(r) then Ok(r) else Err(InvalidValue)
  }

  /** What the decoder has found when it accepts. */
  ghost predicate Found(f: map<Field, Json>, r: Report) {
    && f.Keys == REPORT_FIELDS && f[SchemaId] == Text(SCHEMA) && f[SchemaVersion] == Number(1)
    && f[Architecture] == Text(r.architecture) && f[Platform] == Text(r.platform) && f[SourceSha] == Text(r.sourceSha)
    && f[ContractProbes].Array? && DecodeRows(f[ContractProbes].items) == Ok(r.contract)
    && f[Candidates].Array? && DecodeCandidates(f[Candidates].items) == Ok(r.candidates)
  }

  lemma DecodeReportIs(j: Json, r: Report)
    ensures DecodeReport(j) == Ok(r) <==> ValidReport(r) && j.Object? && Found(j.fields, r)
  {
    ShapeExact(j, REPORT_FIELDS);
  }

  lemma ValidParts(r: Report)
    requires ValidReport(r)
    ensures AllValid(r.contract) && forall i | 0 <= i < |r.candidates| :: ValidCandidate(r.candidates[i])
  {
    OrderedValid(r.contract, ContractKeys());
  }

  lemma FoundSays(f: map<Field, Json>, r: Report)
    requires AllValid(r.contract) && forall i | 0 <= i < |r.candidates| :: ValidCandidate(r.candidates[i])
    ensures Found(f, r) <==> SaysReport(f, r)
  {
    if f.Keys == REPORT_FIELDS {
      if f[ContractProbes].Array? { RowsExact(f[ContractProbes].items, r.contract); }
      if f[Candidates].Array? { CandidatesExact(f[Candidates].items, r.candidates); }
    }
  }

  /** The decoder accepts exactly the encodings of valid reports. */
  lemma ReportExact(j: Json, r: Report)
    ensures DecodeReport(j) == Ok(r) <==> ValidReport(r) && j == ReportJson(r)
  {
    DecodeReportIs(j, r);
    ReportFields(j, r);
    if ValidReport(r) && j.Object? {
      ValidParts(r);
      FoundSays(j.fields, r);
    }
  }
}
