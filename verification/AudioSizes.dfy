/** The byte limits of `evaluation/audio_device/evidence.hpp`: the text of every valid report fits, so that
    `serialize_bounded` never refuses one for its size. */
module AudioSizes {
  import opened Provenance
  import opened JsonTrees
  import opened AudioEvidence
  import opened AudioReports
  import opened AudioNames

  const CHILD_LIMIT: nat := 16 * 1024
  const REPORT_LIMIT: nat := 64 * 1024

  const RECORD_BYTES: nat := 613

  /** The name of a closed value, as a JSON string. */
  lemma NameLength(name: string, names: seq<string>)
    requires name in names && Short(names)
    ensures Length(Text(name)) <= NAME_BYTES + 2
  {
    PlainLength(name);
  }

  lemma RecordNames(r: Record)
    ensures Length(Text(ProbeName(r.probe))) <= NAME_BYTES + 2 && Length(Text(DirectionName(r.direction))) <= NAME_BYTES + 2
    ensures Length(Text(StateName(r.state))) <= NAME_BYTES + 2 && Length(Text(ReasonName(r.reason))) <= NAME_BYTES + 2
  {
    ProbeTable(); ReasonTable(); SmallTables();
    ShortProbes(); ShortReasons(); ShortOthers();
    EnumExact(Other(0), PROBES, PROBE_NAMES);
    EnumExact(Other(0), DIRECTIONS, DIRECTION_NAMES);
    EnumExact(Other(0), STATES, STATE_NAMES);
    EnumExact(Other(0), REASONS, REASON_NAMES);
    NameLength(ProbeName(r.probe), PROBE_NAMES);
    NameLength(DirectionName(r.direction), DIRECTION_NAMES);
    NameLength(StateName(r.state), STATE_NAMES);
    NameLength(ReasonName(r.reason), REASON_NAMES);
  }

  /** All the known fields of an object, each once. */
  ghost predicate Enumerates(list: seq<Field>, keys: set<Field>) {
    && (forall i | 0 <= i < |list| :: list[i] in keys && !list[i].Unknown?)
    && (forall i, k | 0 <= i < k < |list| :: list[i] != list[k])
    && (forall f | f in keys :: f in list)
  }

  /** Fields with values of at most `most` bytes each. */
  lemma {:induction false} FieldsBound(j: Json, list: seq<Field>, most: nat)
    requires j.Object? && forall i | 0 <= i < |list| :: list[i] in j.fields && !list[i].Unknown? && Length(j.fields[list[i]]) <= most
    ensures ListLength(j, list) <= |list| * (NAME_BYTES + 4 + most)
  {
    if list != [] {
      ShortField(list[0]);
      FieldsBound(j, list[1..], most);
      Distribute(|list|, NAME_BYTES + 4 + most);
    }
  }

  lemma Distribute(n: nat, unit: nat)
    requires n > 0
    ensures n * unit == (n - 1) * unit + unit
  {
  }

  lemma ObjectIs(j: Json, list: seq<Field>)
    requires j.Object? && list != [] && Enumerates(list, j.fields.Keys)
    ensures Length(j) == 1 + ListLength(j, list)
  {
    FieldsAlong(j, j.fields.Keys, list);
    assert list[0] in j.fields;
  }

  /** An object whose values are all short but for the first field of the list. */
  lemma ObjectBound(j: Json, list: seq<Field>, large: nat, most: nat)
    requires j.Object? && list != [] && Enumerates(list, j.fields.Keys) && Length(j.fields[list[0]]) <= large
    requires forall f | f in j.fields && f != list[0] :: Length(j.fields[f]) <= most
    ensures Length(j) <= 1 + (NAME_BYTES + 4 + large) + |list[1..]| * (NAME_BYTES + 4 + most)
  {
    ObjectIs(j, list);
    ShortField(list[0]);
    assert forall i | 0 <= i < |list[1..]| :: list[1..][i] == list[i + 1];
    FieldsBound(j, list[1..], most);
  }

  lemma NumberLength(n: nat)
    requires n < 100_000_000
    ensures Length(Number(n)) <= 8
  {
    assert Ten(8) == 100_000_000;
    DigitsBound(n, 8, 100_000_000);
  }

  // ---------------------------------------------------------------------------------------------
  // Records
  // ---------------------------------------------------------------------------------------------

  function RecordList(): seq<Field> {
    [Callbacks, CancellationObserved, CleanupComplete, DirectionField, Frames, ProbeId, ReasonField, StateField, Xruns]
  }

  lemma RecordListed()
    ensures |RecordList()| == 9 && Enumerates(RecordList(), RECORD_FIELDS)
  {
  }

  /** Every value of a record, one by one. */
  ghost predicate ShortValues(f: map<Field, Json>, most: nat) {
    && f.Keys == RECORD_FIELDS
    && Length(f[Callbacks]) <= most && Length(f[CancellationObserved]) <= most && Length(f[CleanupComplete]) <= most
    && Length(f[DirectionField]) <= most && Length(f[Frames]) <= most && Length(f[ProbeId]) <= most
    && Length(f[ReasonField]) <= most && Length(f[StateField]) <= most && Length(f[Xruns]) <= most
  }

  lemma AllShort(f: map<Field, Json>, most: nat)
    requires ShortValues(f, most)
    ensures forall k | k in f :: Length(f[k]) <= most
  {
  }

  lemma RecordValues(f: map<Field, Json>, r: Record)
    requires ValidRecord(r) && SaysRecord(f, r)
    ensures ShortValues(f, NAME_BYTES + 2)
  {
    RecordNames(r);
    NumberLength(r.callbacks);
    NumberLength(r.frames);
    NumberLength(r.xruns);
  }

  lemma RecordLength(r: Record)
    requires ValidRecord(r)
    ensures Length(RecordJson(r)) <= RECORD_BYTES
  {
    RecordFields(RecordJson(r), r);
    RecordTextLength(RecordJson(r), r);
  }

  lemma RecordTextLength(j: Json, r: Record)
    requires ValidRecord(r) && j.Object? && SaysRecord(j.fields, r)
    ensures Length(j) <= RECORD_BYTES
  {
    RecordValues(j.fields, r);
    RecordListed();
    RecordBound(j, RecordList());
  }

  lemma RecordBound(j: Json, list: seq<Field>)
    requires j.Object? && ShortValues(j.fields, NAME_BYTES + 2) && |list| == 9 && Enumerates(list, RECORD_FIELDS)
    ensures Length(j) <= RECORD_BYTES
  {
    AllShort(j.fields, NAME_BYTES + 2);
    ObjectBound(j, list, NAME_BYTES + 2, NAME_BYTES + 2);
  }

  lemma RowLength(rows: seq<Record>, i: nat)
    requires i < |rows| && ValidRecord(rows[i])
    ensures Length(RowsJson(rows)[i]) <= RECORD_BYTES
  {
    RecordLength(rows[i]);
  }

  lemma RowsShort(rows: seq<Record>)
    requires AllValid(rows)
    ensures forall i | 0 <= i < |rows| :: Length(RowsJson(rows)[i]) <= RECORD_BYTES
  {
    forall i | 0 <= i < |rows| ensures Length(RowsJson(rows)[i]) <= RECORD_BYTES { RowLength(rows, i); }
  }

  lemma RowsLength(rows: seq<Record>, required: seq<Key>)
    requires InOrder(rows, required)
    ensures Length(Array(RowsJson(rows))) <= 2 + |required| * (RECORD_BYTES + 1)
  {
    OrderedValid(rows, required);
    RowsShort(rows);
    ArrayBound(RowsJson(rows), RECORD_BYTES);
  }

  // ---------------------------------------------------------------------------------------------
  // Reports
  // ---------------------------------------------------------------------------------------------

  /** Limits on the text of all contract rows, all candidate rows, and a candidate. */
  const CONTRACT_ROWS: nat := 2 + 24 * (RECORD_BYTES + 1)
  const CANDIDATE_ROWS: nat := 2 + 10 * (RECORD_BYTES + 1)
  const CANDIDATE_BYTES: nat := 8_000

  lemma KeyCounts()
    ensures |ContractKeys()| == 24 && |CandidateKeys()| == 10
  {
  }

  lemma PlainText(s: string)
    requires Plain(s)
    ensures Length(Text(s)) == |s| + 2
  {
    PlainLength(s);
  }

  /** A fixed text that is printed as it is. */
  lemma FineText(s: string)
    requires Fine(s)
    ensures Length(Text(s)) <= NAME_BYTES + 2
  {
    PlainLength(s);
  }

  lemma KindTexts()
    ensures Fine("contract") && Fine("candidate") && Fine("linux")
  {
  }

  lemma SchemaFields()
    ensures Length(Text(SCHEMA)) <= NAME_BYTES + 2 && Length(Number(1)) <= NAME_BYTES + 2
  {
    assert Fine(SCHEMA);
    FineText(SCHEMA);
    NumberLength(1);
  }

  function ContractList(): seq<Field> { [Probes, Kind, SchemaId, SchemaVersion] }

  lemma ContractListed()
    ensures |ContractList()| == 4 && ContractList()[0] == Probes && Enumerates(ContractList(), CONTRACT_FIELDS)
  {
  }

  lemma ContractBound(j: Json, list: seq<Field>)
    requires j.Object? && j.fields.Keys == CONTRACT_FIELDS && |list| == 4 && list[0] == Probes && Enumerates(list, CONTRACT_FIELDS)
    requires Length(j.fields[Probes]) <= CONTRACT_ROWS && Length(j.fields[Kind]) <= NAME_BYTES + 2
    requires Length(j.fields[SchemaId]) <= NAME_BYTES + 2 && Length(j.fields[SchemaVersion]) <= NAME_BYTES + 2
    ensures Length(j) < CHILD_LIMIT
  {
    ObjectBound(j, list, CONTRACT_ROWS, NAME_BYTES + 2);
  }

  /** The text of a valid contract report, with its newline, is within the limit for a child. */
  lemma ContractFits(rows: seq<Record>)
    requires ValidContract(rows)
    ensures Length(ContractJson(rows)) + 1 <= CHILD_LIMIT
  {
    ContractFields(ContractJson(rows), rows);
    KeyCounts();
    RowsLength(rows, ContractKeys());
    KindTexts();
    FineText("contract");
    SchemaFields();
    ContractListed();
    ContractBound(ContractJson(rows), ContractList());
  }

  lemma CandidateNameLengths(c: CandidateReport)
    ensures Length(Text(CandidateName(c.candidate))) <= NAME_BYTES + 2 && Length(Text(SourceName(c.source))) <= NAME_BYTES + 2
    ensures Length(Text(LinkageName(c.linkage))) <= NAME_BYTES + 2 && Length(Text(BackendName(c.backend))) <= NAME_BYTES + 2
  {
    SmallTables();
    ShortOthers();
    EnumExact(Other(0), CANDIDATES, CANDIDATE_NAMES);
    EnumExact(Other(0), SOURCES, SOURCE_NAMES);
    EnumExact(Other(0), LINKAGES, LINKAGE_NAMES);
    EnumExact(Other(0), BACKENDS, BACKEND_NAMES);
    NameLength(CandidateName(c.candidate), CANDIDATE_NAMES);
    NameLength(SourceName(c.source), SOURCE_NAMES);
    NameLength(LinkageName(c.linkage), LINKAGE_NAMES);
    NameLength(BackendName(c.backend), BACKEND_NAMES);
  }

  lemma VersionLength(c: Candidate)
    ensures Length(Text(Version(c))) <= NAME_BYTES + 2
  {
    assert Fine(Version(c));
    PlainText(Version(c));
  }

  /** The values of a candidate, one by one. */
  ghost predicate CandidateValues(f: map<Field, Json>) {
    && CANDIDATE_FIELDS <= f.Keys && Length(f[Probes]) <= CANDIDATE_ROWS
    && Length(f[CandidateIdField]) <= NAME_BYTES + 2 && Length(f[CandidateVersion]) <= NAME_BYTES + 2
    && Length(f[CodecFeatures]) <= NAME_BYTES + 2 && Length(f[DependencySourceField]) <= NAME_BYTES + 2
    && Length(f[DeviceAccess]) <= NAME_BYTES + 2 && Length(f[LinkageField]) <= NAME_BYTES + 2
    && Length(f[RuntimeBackendField]) <= NAME_BYTES + 2
  }

  lemma CandidateRows(c: CandidateReport)
    requires ValidCandidate(c)
    ensures Length(Array(RowsJson(c.rows))) <= CANDIDATE_ROWS && Length(Text(c.version)) <= NAME_BYTES + 2
  {
    KeyCounts();
    RowsLength(c.rows, CandidateKeys());
    VersionLength(c.candidate);
  }

  lemma CandidateSays(f: map<Field, Json>, c: CandidateReport)
    requires SaysCandidate(f, c)
    requires Length(Array(RowsJson(c.rows))) <= CANDIDATE_ROWS && Length(Text(c.version)) <= NAME_BYTES + 2
    ensures CandidateValues(f)
  {
    CandidateNameLengths(c);
  }

  function CandidateList(): seq<Field> {
    [Probes, CandidateIdField, CandidateVersion, CodecFeatures, DependencySourceField, DeviceAccess, LinkageField, RuntimeBackendField]
  }

  function DocumentList(): seq<Field> { CandidateList() + [Kind, SchemaId, SchemaVersion] }

  lemma CandidateListed()
    ensures |CandidateList()| == 8 && CandidateList()[0] == Probes && Enumerates(CandidateList(), CANDIDATE_FIELDS)
  {
  }

  lemma DocumentListed()
    ensures |DocumentList()| == 11 && DocumentList()[0] == Probes && Enumerates(DocumentList(), CANDIDATE_FIELDS + {Kind, SchemaId, SchemaVersion})
  {
  }

  lemma CandidateBound(j: Json, list: seq<Field>)
    requires j.Object? && |list| == 8 && list[0] == Probes && Enumerates(list, j.fields.Keys)
    requires Length(j.fields[Probes]) <= CANDIDATE_ROWS && forall k | k in j.fields && k != Probes :: Length(j.fields[k]) <= NAME_BYTES + 2
    ensures Length(j) <= CANDIDATE_BYTES
  {
    ObjectBound(j, list, CANDIDATE_ROWS, NAME_BYTES + 2);
  }

  lemma CandidateLength(c: CandidateReport)
    requires ValidCandidate(c)
    ensures Length(CandidateJson(c)) <= CANDIDATE_BYTES
  {
    CandidateJsonValues(c);
    CandidateShort(CandidateJson(c).fields);
    CandidateListed();
    CandidateBound(CandidateJson(c), CandidateList());
  }

  lemma CandidateJsonValues(c: CandidateReport)
    requires ValidCandidate(c)
    ensures CandidateJson(c).fields.Keys == CANDIDATE_FIELDS && CandidateValues(CandidateJson(c).fields)
  {
    CandidateFields(CandidateJson(c), c);
    CandidateRows(c);
    CandidateSays(CandidateJson(c).fields, c);
  }

  /** A document has the candidate's own fields and three more, all of them short. */
  lemma DocumentShort(f: map<Field, Json>, part: map<Field, Json>)
    requires part.Keys == CANDIDATE_FIELDS && CandidateValues(part) && f == part + Said()
    requires forall k | k in Said() :: Length(Said()[k]) <= NAME_BYTES + 2
    ensures Probes in f && Length(f[Probes]) <= CANDIDATE_ROWS && forall k | k in f && k != Probes :: Length(f[k]) <= NAME_BYTES + 2
  {
    CandidateShort(part);
    forall k | k in f && k != Probes ensures Length(f[k]) <= NAME_BYTES + 2 {
      if k in Said() { assert f[k] == Said()[k]; } else { assert f[k] == part[k]; }
    }
  }

  lemma CandidateShort(f: map<Field, Json>)
    requires f.Keys == CANDIDATE_FIELDS && CandidateValues(f)
    ensures forall k | k in f && k != Probes :: Length(f[k]) <= NAME_BYTES + 2
  {
  }

  lemma SaidShort()
    ensures forall k | k in Said() :: Length(Said()[k]) <= NAME_BYTES + 2
    ensures Said().Keys == {Kind, SchemaId, SchemaVersion}
  {
    KindTexts();
    FineText("candidate");
    SchemaFields();
  }

  lemma DocumentBound(j: Json, list: seq<Field>)
    requires j.Object? && |list| == 11 && list[0] == Probes && Enumerates(list, j.fields.Keys)
    requires Length(j.fields[Probes]) <= CANDIDATE_ROWS && forall k | k in j.fields && k != Probes :: Length(j.fields[k]) <= NAME_BYTES + 2
    ensures Length(j) < CHILD_LIMIT
  {
    ObjectBound(j, list, CANDIDATE_ROWS, NAME_BYTES + 2);
  }

  /** The text of a valid candidate report, with its newline, is within the limit for a child. */
  lemma CandidateFits(c: CandidateReport)
    requires ValidCandidate(c)
    ensures Length(CandidateDocument(c)) + 1 <= CHILD_LIMIT
  {
    CandidateJsonValues(c);
    SaidShort();
    DocumentListed();
    DocumentFits(CandidateDocument(c), CandidateJson(c).fields, DocumentList());
  }

  lemma DocumentFits(j: Json, part: map<Field, Json>, list: seq<Field>)
    requires part.Keys == CANDIDATE_FIELDS && CandidateValues(part) && j == Object(part + Said())
    requires |list| == 11 && list[0] == Probes && Enumerates(list, CANDIDATE_FIELDS + {Kind, SchemaId, SchemaVersion})
    ensures Length(j) < CHILD_LIMIT
  {
    SaidShort();
    DocumentShort(j.fields, part);
    assert j.fields.Keys == CANDIDATE_FIELDS + {Kind, SchemaId, SchemaVersion};
    DocumentBound(j, list);
  }

  // ---------------------------------------------------------------------------------------------
  // The full report
  // ---------------------------------------------------------------------------------------------

  lemma CandidatesLength(cs: seq<CandidateReport>)
    requires |cs| == 2 && ValidCandidate(cs[0]) && ValidCandidate(cs[1])
    ensures Length(Array(CandidatesJson(cs))) <= 2 + 2 * (CANDIDATE_BYTES + 1)
  {
    CandidatesShort(cs);
    ArrayBound(CandidatesJson(cs), CANDIDATE_BYTES);
  }

  lemma CandidatesShort(cs: seq<CandidateReport>)
    requires |cs| == 2 && ValidCandidate(cs[0]) && ValidCandidate(cs[1])
    ensures forall i | 0 <= i < |cs| :: Length(CandidatesJson(cs)[i]) <= CANDIDATE_BYTES
  {
    forall i | 0 <= i < |cs| ensures Length(CandidatesJson(cs)[i]) <= CANDIDATE_BYTES { CandidateLength(cs[i]); }
  }

  function ReportList(): seq<Field> { [Candidates, ContractProbes, Architecture, Platform, SchemaId, SchemaVersion, SourceSha] }

  lemma ReportListed()
    ensures var list := ReportList();
            |list| == 7 && list[0] == Candidates && list[1] == ContractProbes && Enumerates(list, REPORT_FIELDS)
  {
  }

  lemma ReportBound(j: Json, list: seq<Field>)
    requires j.Object? && j.fields.Keys == REPORT_FIELDS && |list| == 7 && list[0] == Candidates && list[1] == ContractProbes
    requires Enumerates(list, REPORT_FIELDS)
    requires Length(j.fields[Candidates]) <= 2 + 2 * (CANDIDATE_BYTES + 1) && Length(j.fields[ContractProbes]) <= CONTRACT_ROWS
    requires forall f | f in REPORT_FIELDS - {Candidates, ContractProbes} :: Length(j.fields[f]) <= METADATA_LIMIT + 2
    ensures Length(j) < REPORT_LIMIT
  {
    ObjectIs(j, list);
    TwoFirst(j, list);
    ShortField(Candidates);
    ShortField(ContractProbes);
    RestShort(j, list);
  }

  lemma RestShort(j: Json, list: seq<Field>)
    requires j.Object? && j.fields.Keys == REPORT_FIELDS && |list| == 7 && list[0] == Candidates && list[1] == ContractProbes
    requires Enumerates(list, REPORT_FIELDS)
    requires forall f | f in REPORT_FIELDS - {Candidates, ContractProbes} :: Length(j.fields[f]) <= METADATA_LIMIT + 2
    ensures ListLength(j, list[1..][1..]) <= 5 * (NAME_BYTES + 4 + METADATA_LIMIT + 2)
  {
    var rest := list[1..][1..];
    assert forall i | 0 <= i < |rest| :: rest[i] == list[i + 2];
    FieldsBound(j, rest, METADATA_LIMIT + 2);
  }

  lemma TwoFirst(j: Json, list: seq<Field>)
    requires j.Object? && |list| >= 2 && forall i | 0 <= i < |list| :: list[i] in j.fields
    ensures ListLength(j, list) == FieldLength(j, list[0]) + FieldLength(j, list[1]) + ListLength(j, list[1..][1..])
  {
  }

  lemma IdentityTexts(r: Report)
    requires ValidReport(r)
    ensures Length(Text(r.architecture)) <= METADATA_LIMIT + 2 && Length(Text(r.platform)) <= METADATA_LIMIT + 2
    ensures Length(Text(r.sourceSha)) <= METADATA_LIMIT + 2
  {
    MetadataText(r.architecture);
    ShaText(r.sourceSha);
    KindTexts();
    FineText("linux");
  }

  lemma MetadataText(s: string)
    requires ValidMetadata(s)
    ensures Length(Text(s)) <= METADATA_LIMIT + 2
  {
    assert Plain(s);
    PlainText(s);
  }

  lemma ShaText(s: string)
    requires ValidSha(s)
    ensures Length(Text(s)) <= METADATA_LIMIT + 2
  {
    assert Plain(s);
    PlainText(s);
  }

  /** The short values of a report, one by one. */
  ghost predicate ReportValues(f: map<Field, Json>, most: nat) {
    && f.Keys == REPORT_FIELDS && Length(f[Architecture]) <= most && Length(f[Platform]) <= most
    && Length(f[SchemaId]) <= most && Length(f[SchemaVersion]) <= most && Length(f[SourceSha]) <= most
  }

  lemma ReportShort(f: map<Field, Json>, most: nat)
    requires ReportValues(f, most)
    ensures forall k | k in REPORT_FIELDS - {Candidates, ContractProbes} :: Length(f[k]) <= most
  {
  }

  lemma ReportTexts(f: map<Field, Json>, r: Report)
    requires ValidReport(r) && SaysReport(f, r)
    ensures ReportValues(f, METADATA_LIMIT + 2)
  {
    IdentityTexts(r);
    SchemaFields();
  }

  /** The text of a valid report, with its newline, is within the limit for a report. */
  lemma ReportFits(r: Report)
    requires ValidReport(r)
    ensures Length(ReportJson(r)) + 1 <= REPORT_LIMIT
  {
    var j := ReportJson(r);
    ReportFields(j, r);
    CandidatesLength(r.candidates);
    KeyCounts();
    RowsLength(r.contract, ContractKeys());
    ReportTexts(j.fields, r);
    ReportShort(j.fields, METADATA_LIMIT + 2);
    ReportListed();
    ReportBound(j, ReportList());
  }

  /** Serialising a valid report never fails for its size, and what is written is read back. */
  lemma ReportRoundTrip(r: Report)
    requires ValidReport(r)
    ensures Length(ReportJson(r)) + 1 <= REPORT_LIMIT && DecodeReport(ReportJson(r)) == Ok(r)
  {
    ReportFits(r);
    ReportExact(ReportJson(r), r);
  }

  lemma ContractRoundTrip(rows: seq<Record>)
    requires ValidContract(rows)
    ensures Length(ContractJson(rows)) + 1 <= CHILD_LIMIT && DecodeContract(ContractJson(rows)) == Ok(rows)
  {
    ContractFits(rows);
    ContractExact(ContractJson(rows), rows);
  }

  lemma CandidateRoundTrip(c: CandidateReport)
    requires ValidCandidate(c)
    ensures Length(CandidateDocument(c)) + 1 <= CHILD_LIMIT && DecodeCandidateDocument(CandidateDocument(c)) == Ok(c)
  {
    CandidateFits(c);
    CandidateDocumentExact(CandidateDocument(c), c);
  }
}
