/** What valid audio device evidence is, in words of its own: the rules of `validate_probe_record` and the report
    validators of `evaluation/audio_device/evidence.cpp`, and when a run has succeeded. */
module AudioValidity {
  import opened Provenance
  import opened Wrappers
  import opened JsonTrees
  import opened AudioEvidence
  import opened AudioReports

  // ---------------------------------------------------------------------------------------------
  // Records
  // ---------------------------------------------------------------------------------------------

  predicate EndsWith(name: string, end: string) { |end| <= |name| && name[|name| - |end|..] == end }

  /** The probe is about cancellation, and its name says so. */
  predicate Cancels(p: Probe) { "cancel_" <= ProbeName(p) || EndsWith(ProbeName(p), "_cancellation") }

  /** A record that makes sense: its state is that of its reason, its counters are within the limits, cancellation is
      observed where it is probed and nowhere else, and cleanup is complete unless that is what failed. */
  predicate Sound(r: Record) {
    && (r.state == Observed <==> r.reason == NoReason)
    && (r.state == ProbeError <==>
          r.reason in {Timeout, Signaled, NonzeroExit, MalformedProtocol, OutputLimit, CleanupFailed, InternalError})
    && r.callbacks <= 1_000_000 && r.frames <= 33_554_432 && r.xruns <= 1_000_000
    && (r.cancellationObserved ==> Cancels(r.probe))
    && (r.state == Observed && Cancels(r.probe) ==> r.cancellationObserved)
    && (r.cleanupComplete <==> r.reason != CleanupFailed)
  }

  lemma {:induction false} NameAt<E(!new)>(values: seq<E>, names: seq<string>, i: nat)
    requires |values| == |names| && Distinct(values) && i < |values|
    ensures EnumName(values[i], values, names) == names[i]
  {
    if i > 0 { NameAt(values[1..], names[1..], i - 1); }
  }

  /** The name is not about cancellation, as its second, third and last letters show. */
  predicate Plainly(name: string) { |name| > 2 && !(name[1] == 'a' && name[2] == 'n') && name[|name| - 1] != 'n' }

  lemma FirstLetters(name: string)
    ensures "cancel_" <= name ==> |name| > 2 && name[1] == 'a' && name[2] == 'n'
  {
    if "cancel_" <= name { assert name[1] == "cancel_"[1] && name[2] == "cancel_"[2]; }
  }

  lemma LastLetter(name: string)
    ensures EndsWith(name, "_cancellation") ==> name != "" && name[|name| - 1] == 'n'
  {
    if EndsWith(name, "_cancellation") { assert name[|name| - 1] == name[|name| - 13..][12]; }
  }

  lemma PlainlyNot(name: string)
    requires Plainly(name)
    ensures !("cancel_" <= name) && !EndsWith(name, "_cancellation")
  {
    FirstLetters(name);
    LastLetter(name);
  }

  lemma Plain1()
    ensures Plainly("invalid_format_rejected") && Plainly("malformed_wav_rejected") && Plainly("oversized_wav_rejected")
    ensures Plainly("permission_denial_classified") && Plainly("device_loss_classified")
  {
  }

  lemma Plain2()
    ensures Plainly("playback_underrun_observed") && Plainly("capture_overrun_rejected") && Plainly("concurrent_operation_rejected")
    ensures Plainly("playback_owner_quiescent") && Plainly("capture_bound_enforced")
  {
  }

  lemma Plain3()
    ensures Plainly("partial_capture_not_published") && Plainly("late_callback_rejected") && Plainly("teardown_quiescent")
    ensures Plainly("runtime_backend_forced") && Plainly("physical_device_access_excluded")
  {
  }

  lemma Plain4()
    ensures Plainly("device_availability_behavior") && Plainly("playback_callback_lifecycle") && Plainly("capture_callback_lifecycle")
    ensures Plainly("callback_quiescent_after_close")
  {
  }

  /** The probes whose names are about cancellation are those that the validator takes for such. */
  lemma CancelsExactly(p: Probe)
    ensures Cancels(p) <==> CancellationProbe(p)
  {
    ProbeTable();
    assert p in PROBES;
    var i :| 0 <= i < |PROBES| && PROBES[i] == p;
    NameAt(PROBES, PROBE_NAMES, i);
    CancelsAt(i);
  }

  lemma CancelsAt(i: nat)
    requires i < |PROBES|
    ensures ("cancel_" <= PROBE_NAMES[i] || EndsWith(PROBE_NAMES[i], "_cancellation")) <==> CancellationProbe(PROBES[i])
  {
    Plain1(); Plain2(); Plain3(); Plain4();
    if CancellationProbe(PROBES[i]) { Named(i); } else { PlainlyNot(PROBE_NAMES[i]); }
  }

  lemma Named(i: nat)
    requires i < |PROBES| && CancellationProbe(PROBES[i])
    ensures "cancel_" <= PROBE_NAMES[i] || EndsWith(PROBE_NAMES[i], "_cancellation")
  {
    assert "controller_thread_cancellation"[17..] == "_cancellation";
  }

  /** A record is valid exactly when it makes sense; too large counters are told apart from anything else wrong. */
  lemma ValidRecordExactly(r: Record)
    ensures ValidRecord(r) <==> Sound(r)
    ensures RecordError(r) == Some(ResourceExhausted) <==>
              r.state == StateFor(r.reason) && (r.callbacks > 1_000_000 || r.frames > 33_554_432 || r.xruns > 1_000_000)
  {
    CancelsExactly(r.probe);
  }

  /** So the decoder accepts exactly the encodings of records that make sense. */
  lemma DecodedExactly(j: Json, r: Record)
    ensures DecodeRecord(j) == Ok(r) <==> Sound(r) && j == RecordJson(r)
  {
    RecordExact(j, r);
    ValidRecordExactly(r);
  }

  // ---------------------------------------------------------------------------------------------
  // Reports
  // ---------------------------------------------------------------------------------------------

  /** The rows are those of the keys, in their order, and make sense. */
  predicate SoundRows(rows: seq<Record>, keys: seq<Key>) {
    |rows| == |keys| && forall i | 0 <= i < |rows| :: rows[i].probe == keys[i].probe && rows[i].direction == keys[i].direction && Sound(rows[i])
  }

  /** A candidate report that makes sense: each candidate has its version and backend, and neither access to devices
      nor features of codecs. */
  predicate SoundCandidate(c: CandidateReport) {
    && (c.candidate == Rtaudio ==> c.version == "6.0.1" && c.backend == Dummy)
    && (c.candidate == Miniaudio ==> c.version == "0.11.25" && c.backend == NullBackend)
    && !c.deviceAccess && !c.codecFeatures && SoundRows(c.rows, CandidateKeys())
  }

  predicate SoundReport(r: Report) {
    && |r.sourceSha| == 40 && (forall i | 0 <= i < 40 :: '0' <= r.sourceSha[i] <= '9' || 'a' <= r.sourceSha[i] <= 'f')
    && r.platform == "linux" && ValidMetadata(r.architecture) && SoundRows(r.contract, ContractKeys())
    && |r.candidates| == 2 && r.candidates[0].candidate == Rtaudio && r.candidates[1].candidate == Miniaudio
    && SoundCandidate(r.candidates[0]) && SoundCandidate(r.candidates[1])
  }

  lemma RowsSound(rows: seq<Record>, keys: seq<Key>)
    ensures InOrder(rows, keys) <==> SoundRows(rows, keys)
  {
    forall i | 0 <= i < |rows| ensures ValidRecord(rows[i]) <==> Sound(rows[i]) { ValidRecordExactly(rows[i]); }
  }

  lemma ValidReportExactly(r: Report)
    ensures ValidReport(r) <==> SoundReport(r)
  {
    RowsSound(r.contract, ContractKeys());
    if |r.candidates| == 2 {
      ValidCandidateExactly(r.candidates[0]);
      ValidCandidateExactly(r.candidates[1]);
    }
  }

  lemma ValidCandidateExactly(c: CandidateReport)
    ensures ValidCandidate(c) <==> SoundCandidate(c)
  {
    RowsSound(c.rows, CandidateKeys());
  }

  /** What the decoders accept: exactly the encodings of reports that make sense. */
  lemma ReportsDecodedExactly(j: Json, rows: seq<Record>, c: CandidateReport, r: Report)
    ensures DecodeContract(j) == Ok(rows) <==> SoundRows(rows, ContractKeys()) && j == ContractJson(rows)
    ensures DecodeCandidateDocument(j) == Ok(c) <==> SoundCandidate(c) && j == CandidateDocument(c)
    ensures DecodeReport(j) == Ok(r) <==> SoundReport(r) && j == ReportJson(r)
  {
    RowsSound(rows, ContractKeys());
    ContractExact(j, rows);
    ValidCandidateExactly(c);
    CandidateDocumentExact(j, c);
    ValidReportExactly(r);
    ReportExact(j, r);
  }

  /** Where the probes of the keys are in the table of probes. */
  const CONTRACT_PLACES: seq<nat> := [0, 1, 2, 3, 4, 4, 5, 6, 7, 8, 8, 9, 9, 10, 10, 11, 11, 12, 12, 13, 14, 15, 16, 17]
  const CANDIDATE_PLACES: seq<nat> := [18, 19, 20, 20, 21, 22, 23, 23, 24, 24]

  /** Every probe of a stretch of the table, in its order. */
  predicate Stretch(keys: seq<Key>, places: seq<nat>) {
    |keys| == |places| && forall i | 0 <= i < |keys| :: places[i] < |PROBES| && keys[i].probe == PROBES[places[i]]
  }

  /** The places go up one by one; a probe that is there twice is so for playback and then for capture. */
  predicate Steps(keys: seq<Key>, places: seq<nat>) {
    |keys| == |places| && forall i | 0 < i < |keys| :: StepAt(keys, places, i)
  }

  predicate StepAt(keys: seq<Key>, places: seq<nat>, i: nat)
    requires 0 < i < |keys| == |places|
  {
    || places[i] == places[i - 1] + 1
    || (places[i] == places[i - 1] && keys[i - 1].direction == Playback && keys[i].direction == Capture)
  }

  lemma ContractStretch()
    ensures Stretch(ContractKeys(), CONTRACT_PLACES)
  {
    forall i: nat | i < 24 ensures CONTRACT_PLACES[i] < |PROBES| && ContractKeys()[i].probe == PROBES[CONTRACT_PLACES[i]] {
      if i < 12 { ContractStretch1(i); } else { ContractStretch2(i); }
    }
  }

  lemma ContractStretch1(i: nat)
    requires i < 12
    ensures CONTRACT_PLACES[i] < |PROBES| && ContractKeys()[i].probe == PROBES[CONTRACT_PLACES[i]]
  {
  }

  lemma ContractStretch2(i: nat)
    requires 12 <= i < 24
    ensures CONTRACT_PLACES[i] < |PROBES| && ContractKeys()[i].probe == PROBES[CONTRACT_PLACES[i]]
  {
  }

  lemma ContractSteps()
    ensures Steps(ContractKeys(), CONTRACT_PLACES)
  {
    forall i: nat | 0 < i < 24 ensures StepAt(ContractKeys(), CONTRACT_PLACES, i) {
      if i < 12 { ContractSteps1(i); } else { ContractSteps2(i); }
    }
  }

  lemma ContractSteps1(i: nat)
    requires 0 < i < 12
    ensures StepAt(ContractKeys(), CONTRACT_PLACES, i)
  {
  }

  lemma ContractSteps2(i: nat)
    requires 12 <= i < 24
    ensures StepAt(ContractKeys(), CONTRACT_PLACES, i)
  {
  }

  lemma CandidateStretch()
    ensures Stretch(CandidateKeys(), CANDIDATE_PLACES)
  {
  }

  lemma CandidateSteps()
    ensures Steps(CandidateKeys(), CANDIDATE_PLACES)
  {
  }

  /** A row for this key as a probe writes it that has observed what it is for. */
  function ObservedRow(key: Key, callbacks: nat, frames: nat): Record {
    Record(key.probe, key.direction, Observed, NoReason, callbacks, frames, 0, Cancels(key.probe), true)
  }

  predicate AllObserved(rows: seq<Record>, keys: seq<Key>) {
    |rows| == |keys| && forall i | 0 <= i < |rows| ::
      rows[i] == ObservedRow(keys[i], rows[i].callbacks, rows[i].frames) && rows[i].callbacks <= 1_000_000 && rows[i].frames <= 33_554_432
  }

  function CandidateOf(candidate: Candidate, source: Source, rows: seq<Record>): CandidateReport {
    CandidateReport(candidate, if candidate == Rtaudio then "6.0.1" else "0.11.25", source, StaticLibrary,
                    if candidate == Rtaudio then Dummy else NullBackend, false, false, rows)
  }

  lemma ObservedRowIsSound(key: Key, callbacks: nat, frames: nat)
    requires callbacks <= 1_000_000 && frames <= 33_554_432
    ensures Sound(ObservedRow(key, callbacks, frames))
  {
  }

  lemma ObservedIsSound(rows: seq<Record>, keys: seq<Key>)
    requires AllObserved(rows, keys)
    ensures SoundRows(rows, keys)
  {
    forall i | 0 <= i < |rows| ensures rows[i].probe == keys[i].probe && rows[i].direction == keys[i].direction && Sound(rows[i]) {
      ObservedRowIsSound(keys[i], rows[i].callbacks, rows[i].frames);
    }
  }

  /** A candidate of which everything was observed has a report, and it is read back. */
  lemma ObservedCandidateIsValid(candidate: Candidate, source: Source, rows: seq<Record>)
    requires AllObserved(rows, CandidateKeys())
    ensures var c := CandidateOf(candidate, source, rows);
            ValidCandidate(c) && DecodeCandidateDocument(CandidateDocument(c)) == Ok(c)
  {
    var c := CandidateOf(candidate, source, rows);
    ObservedIsSound(rows, CandidateKeys());
    ValidCandidateExactly(c);
    CandidateDocumentExact(CandidateDocument(c), c);
  }

  /** So does a contract. */
  lemma ObservedContractIsValid(rows: seq<Record>)
    requires AllObserved(rows, ContractKeys())
    ensures ValidContract(rows) && DecodeContract(ContractJson(rows)) == Ok(rows)
  {
    ObservedIsSound(rows, ContractKeys());
    RowsSound(rows, ContractKeys());
    ContractExact(ContractJson(rows), rows);
  }

  // ---------------------------------------------------------------------------------------------
  // What is said of a refused document
  // ---------------------------------------------------------------------------------------------

  predicate Strange(j: Json, fields: set<Field>) { j.Object? && exists f :: f in j.fields && f !in fields }

  predicate Lacking(j: Json, fields: set<Field>) { j.Object? && !Strange(j, fields) && exists f :: f in fields && f !in j.fields }

  lemma ShapeRefusal(j: Json, fields: set<Field>)
    ensures Shape(j, fields) == Some(UnknownField) <==> Strange(j, fields)
    ensures Shape(j, fields) == Some(MissingField) <==> Lacking(j, fields)
    ensures Shape(j, fields) == Some(InvalidValue) <==> !j.Object?
    ensures Shape(j, fields) == None <==> j.Object? && j.fields.Keys == fields
  {
  }

  /** A row is refused for an unknown field, then for a missing one, then for its values; counters over their limits
      are told apart. */
  lemma RecordRefusal(j: Json)
    ensures DecodeRecord(j) == Err(UnknownField) <==> Strange(j, RECORD_FIELDS)
    ensures DecodeRecord(j) == Err(MissingField) <==> Lacking(j, RECORD_FIELDS)
    ensures DecodeRecord(j) != Err(InvalidSchema)
  {
    ShapeRefusal(j, RECORD_FIELDS);
  }

  predicate RightSchema(j: Json)
    requires j.Object? && SchemaId in j.fields && SchemaVersion in j.fields
  {
    j.fields[SchemaId] == Text("aiforge.audio-device-evaluation") && j.fields[SchemaVersion] == Number(1)
  }

  lemma {:induction false} RowsRefusal(items: seq<Json>)
    ensures DecodeRows(items).Err? ==> exists i | 0 <= i < |items| :: FirstRefused(items, i) && DecodeRecord(items[i]) == Err(DecodeRows(items).error)
    ensures DecodeRows(items) != Err(InvalidSchema)
    decreases |items|
  {
    if items != [] {
      RecordRefusal(items[0]);
      RowsRefusal(items[1..]);
      if DecodeRecord(items[0]).Err? {
        assert FirstRefused(items, 0);
      } else if DecodeRows(items[1..]).Err? {
        var k :| 0 <= k < |items[1..]| && FirstRefused(items[1..], k) && DecodeRecord(items[1..][k]) == Err(DecodeRows(items[1..]).error);
        forall n | 0 <= n < k + 1 ensures DecodeRecord(items[n]).Ok? { if n > 0 { assert items[n] == items[1..][n - 1]; } }
        assert FirstRefused(items, k + 1);
      }
    }
  }

  ghost predicate FirstRefused(items: seq<Json>, i: nat) {
    i < |items| && DecodeRecord(items[i]).Err? && forall n | 0 <= n < i :: DecodeRecord(items[n]).Ok?
  }

  /** A document is refused for its shape, then for its schema, and only then for what it says. */
  lemma ContractRefusal(j: Json)
    ensures Strange(j, CONTRACT_FIELDS) ==> DecodeContract(j) == Err(UnknownField)
    ensures Lacking(j, CONTRACT_FIELDS) ==> DecodeContract(j) == Err(MissingField)
    ensures DecodeContract(j) == Err(InvalidSchema) <==> j.Object? && j.fields.Keys == CONTRACT_FIELDS && !RightSchema(j)
  {
    ShapeRefusal(j, CONTRACT_FIELDS);
    if j.Object? && j.fields.Keys == CONTRACT_FIELDS && j.fields[Probes].Array? { RowsRefusal(j.fields[Probes].items); }
  }

  lemma ReportRefusal(j: Json)
    ensures Strange(j, REPORT_FIELDS) ==> DecodeReport(j) == Err(UnknownField)
    ensures Lacking(j, REPORT_FIELDS) ==> DecodeReport(j) == Err(MissingField)
    ensures j.Object? && j.fields.Keys == REPORT_FIELDS && !RightSchema(j) ==> DecodeReport(j) == Err(InvalidSchema)
  {
    ShapeRefusal(j, REPORT_FIELDS);
  }

  lemma CandidateRefusal(j: Json)
    ensures var fields := CANDIDATE_FIELDS + {Kind, SchemaId, SchemaVersion};
            && (Strange(j, fields) ==> DecodeCandidateDocument(j) == Err(UnknownField))
            && (Lacking(j, fields) ==> DecodeCandidateDocument(j) == Err(MissingField))
            && (j.Object? && j.fields.Keys == fields && !RightSchema(j) ==> DecodeCandidateDocument(j) == Err(InvalidSchema))
  {
    ShapeRefusal(j, CANDIDATE_FIELDS + {Kind, SchemaId, SchemaVersion});
  }

  // ---------------------------------------------------------------------------------------------
  // Success
  // ---------------------------------------------------------------------------------------------

  /** The first row of a probe. */
  function RowFor(rows: seq<Record>, p: Probe): Option<Record> {
    if rows == [] then None else if rows[0].probe == p then Some(rows[0]) else RowFor(rows[1..], p)
  }

  predicate RequiredObserved(c: CandidateReport, p: Probe) { RowFor(c.rows, p).Some? && RowFor(c.rows, p).value.state == Observed }

  /** `evidence_run_succeeded`. */
  function RunSucceeded(r: Report): Result<bool> {
    if !ValidReport(r) then Err(InvalidValue)
    else if exists i | 0 <= i < |r.contract| :: r.contract[i].state != Observed then Ok(false)
    else if exists k | 0 <= k < |r.candidates| ::
              !RequiredObserved(r.candidates[k], RuntimeBackendForced) || !RequiredObserved(r.candidates[k], PhysicalDeviceAccessExcluded)
    then Ok(false)
    else Ok(!exists k, i | 0 <= k < |r.candidates| && 0 <= i < |r.candidates[k].rows| :: r.candidates[k].rows[i].state == ProbeError)
  }

  /** No row failed, and those of the two required probes say that they observed it. */
  predicate CandidateSucceeded(c: CandidateReport) {
    forall i | 0 <= i < |c.rows| ::
      && c.rows[i].state != ProbeError
      && (c.rows[i].probe == RuntimeBackendForced || c.rows[i].probe == PhysicalDeviceAccessExcluded ==> c.rows[i].reason == NoReason)
  }

  /** A run has succeeded exactly when the whole contract was observed and each candidate used the backend it was to
      use, touched no device, and failed in no probe. */
  lemma SucceededExactly(r: Report)
    ensures RunSucceeded(r).Ok? <==> SoundReport(r)
    ensures RunSucceeded(r) == Ok(true) <==>
              && SoundReport(r) && (forall i | 0 <= i < |r.contract| :: r.contract[i].reason == NoReason)
              && forall k | 0 <= k < |r.candidates| :: CandidateSucceeded(r.candidates[k])
  {
    ValidReportExactly(r);
    if ValidReport(r) { ReportSucceeds(r); }
  }

  lemma ReportSucceeds(r: Report)
    requires ValidReport(r)
    ensures RunSucceeded(r) == Ok(true) <==>
              && (forall i | 0 <= i < |r.contract| :: r.contract[i].reason == NoReason)
              && forall k | 0 <= k < |r.candidates| :: CandidateSucceeded(r.candidates[k])
  {
    OrderFollows(r.contract, ContractKeys());
    OrderFollows(r.candidates[0].rows, CandidateKeys());
    OrderFollows(r.candidates[1].rows, CandidateKeys());
    FirstKeys();
    ValidSucceeds(r, ContractKeys(), CandidateKeys());
  }

  /** All that matters of sound rows here: whose they are, and that what is observed has no reason. */
  predicate Follows(rows: seq<Record>, keys: seq<Key>) {
    |rows| == |keys| && forall i | 0 <= i < |rows| :: rows[i].probe == keys[i].probe && (rows[i].state == Observed <==> rows[i].reason == NoReason)
  }

  lemma ObservedHasNoReason(r: Record)
    ensures ValidRecord(r) ==> (r.state == Observed <==> r.reason == NoReason)
  {
  }

  lemma OrderFollows(rows: seq<Record>, keys: seq<Key>)
    requires InOrder(rows, keys)
    ensures Follows(rows, keys)
  {
    forall i | 0 <= i < |rows| ensures rows[i].state == Observed <==> rows[i].reason == NoReason { ObservedHasNoReason(rows[i]); }
  }

  lemma ValidSucceeds(r: Report, contract: seq<Key>, candidate: seq<Key>)
    requires ValidReport(r) && Follows(r.contract, contract) && FirstTwo(candidate)
    requires forall k | 0 <= k < |r.candidates| :: Follows(r.candidates[k].rows, candidate)
    ensures RunSucceeded(r) == Ok(true) <==>
              && (forall i | 0 <= i < |r.contract| :: r.contract[i].reason == NoReason)
              && forall k | 0 <= k < |r.candidates| :: CandidateSucceeded(r.candidates[k])
  {
    forall k | 0 <= k < |r.candidates| ensures CandidateSucceeded(r.candidates[k]) <==> CandidatePasses(r.candidates[k]) {
      RequiredRows(r.candidates[k], candidate);
    }
    if RunSucceeded(r) == Ok(true) {
      forall k | 0 <= k < |r.candidates| ensures CandidatePasses(r.candidates[k]) {}
    }
  }

  predicate CandidatePasses(c: CandidateReport) {
    && RequiredObserved(c, RuntimeBackendForced) && RequiredObserved(c, PhysicalDeviceAccessExcluded)
    && forall i | 0 <= i < |c.rows| :: c.rows[i].state != ProbeError
  }

  /** The required probes have the first two keys, and no other. */
  predicate FirstTwo(keys: seq<Key>) {
    && |keys| >= 2 && keys[0].probe == RuntimeBackendForced && keys[1].probe == PhysicalDeviceAccessExcluded
    && forall i | 2 <= i < |keys| :: keys[i].probe != RuntimeBackendForced && keys[i].probe != PhysicalDeviceAccessExcluded
  }

  lemma RequiredRows(c: CandidateReport, keys: seq<Key>)
    requires Follows(c.rows, keys) && FirstTwo(keys)
    ensures CandidateSucceeded(c) <==> CandidatePasses(c)
  {
    var rows := c.rows;
    assert rows[0].probe == keys[0].probe && rows[1].probe == keys[1].probe;
    assert rows[1..][0] == rows[1] && rows[1..] != [];
    assert RowFor(rows, PhysicalDeviceAccessExcluded) == RowFor(rows[1..], PhysicalDeviceAccessExcluded) == Some(rows[1]);
    assert RowFor(rows, RuntimeBackendForced) == Some(rows[0]);
    forall i | 2 <= i < |rows| ensures rows[i].probe != RuntimeBackendForced && rows[i].probe != PhysicalDeviceAccessExcluded {
      assert rows[i].probe == keys[i].probe;
    }
  }

  lemma FirstKeys()
    ensures FirstTwo(CandidateKeys())
  {
  }
}
