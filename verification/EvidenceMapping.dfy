/** Reading three evidence reports for three levels: `evaluation/process_isolation/evidence_mapping.cpp`.

    A level's requirements are those of the level below it and its own. The source searches them list
    by list; here each level's list is also written out once, and the answers are compared with it. */
module EvidenceMapping {
  import opened Provenance
  import opened Wrappers
  import opened IsolationEvidence

  datatype Level = Low | Medium | High

  datatype Because = Nothing | Missing | Malformed | Stale | Conflicting | Unproven | UnavailableConjunct | Indeterminate

  /** What an assessment names: a probe with its reason, a missing probe, the conjunct nothing proves,
      or a fixed remark about the documents. */
  datatype Conjunct = NoConjunct | Named(probe: Probe, reason: Reason) | RequiredProbe | SameUidBroker | Remark(text: string)

  datatype Assessment = Assessment(level: Level, complete: bool, because: Because, conjunct: Conjunct)

  datatype Reports = Reports(v1: Report, v2: Report, v3: Report)

  /** The probes each level adds, by schema. */
  datatype Lists = Lists(low1: seq<Probe>, low2: seq<Probe>, low3: seq<Probe>, medium2: seq<Probe>,
                         high1: seq<Probe>, high2: seq<Probe>, high3: seq<Probe>)

  /** The constant arrays of the source. */
  const SOURCE: Lists := Lists(
    [NoNewPrivileges, RlimitDescriptorCount, RlimitFileSize, InheritedDescriptors, Openat2Resolution, FexecveIdentity, FchdirIdentity],
    [CgroupDelegation, CgroupRequiredControllers, CgroupAtomicChildPlacement, CgroupSelfMigrationDenial,
     CgroupWholeTreeEnumeration, CgroupKill, CgroupPopulatedZero, CgroupSetsid, CgroupDoubleFork, CgroupDaemon,
     CgroupCloneForkFanout, CgroupLeaderExit, CgroupCancellationCleanup, CgroupCpuLimit, CgroupMemoryLimit,
     CgroupPidsLimit, DescriptorRelativeLaunch, PartialSetupCleanup],
    [DirectProcessTreeNonescape, LowCapabilityNonescalation],
    [LandlockRead, LandlockWrite, LandlockExecute, SeccompInternet, SeccompUnix, CombinedSetupOrder],
    [DisposableWorkspace],
    [PrivateRootConstruction, PrivateMountPropagation, StagedInput, StagedOutput, PrivateRootCombinedSetupOrder],
    [PrivateRootCapabilityDiscard])

  // ---------------------------------------------------------------------------------------------
  // The searches of the source
  // ---------------------------------------------------------------------------------------------

  function Find(rows: seq<Row>, probe: Probe): (r: Option<Row>)
    ensures r.Some? ==> r.value in rows && r.value.probe == probe
    ensures r.None? ==> forall i | 0 <= i < |rows| :: rows[i].probe != probe
  {
    if rows == [] then None else if rows[0].probe == probe then Some(rows[0]) else Find(rows[1..], probe)
  }

  function Shortfall(level: Level, because: Because, conjunct: Conjunct): Assessment {
    Assessment(level, false, because, conjunct)
  }

  /** What a row that does not show enforcement amounts to. */
  function AssessRow(row: Row): Option<Assessment> {
    if row.state == Enforced && row.reason == NoReason then None
    else Some(Shortfall(Low, if row.state == ProbeError then Indeterminate else UnavailableConjunct, Named(row.probe, row.reason)))
  }

  predicate CleanupFailure(row: Row) { row.state == ProbeError && row.reason == CleanupFailed }

  function FirstUnmet(r: Report, required: seq<Probe>): Option<Assessment> {
    if required == [] then None else
      match Find(r.rows, required[0])
      case None => Some(Shortfall(Low, Malformed, RequiredProbe))
      case Some(row) => if AssessRow(row).Some? then AssessRow(row) else FirstUnmet(r, required[1..])
  }

  function FirstCleanupFailure(r: Report, required: seq<Probe>): Option<Assessment> {
    if required == [] then None else
      var found := Find(r.rows, required[0]);
      if found.Some? && CleanupFailure(found.value) then AssessRow(found.value) else FirstCleanupFailure(r, required[1..])
  }

  function OrElse(a: Option<Assessment>, b: Option<Assessment>): Option<Assessment> { if a.Some? then a else b }

  function LowCleanupFailure(q: Lists, r: Reports): Option<Assessment> {
    OrElse(OrElse(FirstCleanupFailure(r.v1, q.low1), FirstCleanupFailure(r.v2, q.low2)), FirstCleanupFailure(r.v3, q.low3))
  }

  function MediumCleanupFailure(q: Lists, r: Reports): Option<Assessment> {
    OrElse(LowCleanupFailure(q, r), FirstCleanupFailure(r.v2, q.medium2))
  }

  function HighCleanupFailure(q: Lists, r: Reports): Option<Assessment> {
    OrElse(OrElse(OrElse(MediumCleanupFailure(q, r), FirstCleanupFailure(r.v1, q.high1)),
                  FirstCleanupFailure(r.v2, q.high2)), FirstCleanupFailure(r.v3, q.high3))
  }

  function AssessLow(q: Lists, r: Reports): Assessment {
    var failure := OrElse(OrElse(OrElse(LowCleanupFailure(q, r), FirstUnmet(r.v1, q.low1)), FirstUnmet(r.v2, q.low2)), FirstUnmet(r.v3, q.low3));
    if failure.Some? then failure.value.(level := Low) else Shortfall(Low, Unproven, SameUidBroker)
  }

  function AssessMedium(q: Lists, r: Reports, low: Assessment): Assessment {
    var failure := MediumCleanupFailure(q, r);
    if failure.Some? then failure.value.(level := Medium)
    else if !low.complete then low.(level := Medium)
    else match FirstUnmet(r.v2, q.medium2)
      case Some(unmet) => unmet.(level := Medium)
      case None => Assessment(Medium, true, Nothing, NoConjunct)
  }

  function AssessHigh(q: Lists, r: Reports, medium: Assessment): Assessment {
    var failure := HighCleanupFailure(q, r);
    if failure.Some? then failure.value.(level := High)
    else if !medium.complete then medium.(level := High)
    else match OrElse(OrElse(FirstUnmet(r.v1, q.high1), FirstUnmet(r.v2, q.high2)), FirstUnmet(r.v3, q.high3))
      case Some(unmet) => unmet.(level := High)
      case None => Assessment(High, true, Nothing, NoConjunct)
  }

  function Assessed(q: Lists, r: Reports, level: Level): Assessment {
    var low := AssessLow(q, r);
    var medium := AssessMedium(q, r, low);
    match level
    case Low => low
    case Medium => medium
    case High => AssessHigh(q, r, medium)
  }

  // ---------------------------------------------------------------------------------------------
  // Documents
  // ---------------------------------------------------------------------------------------------

  /** What a document decodes to, if anything; a report that is not valid is not decoded. */
  datatype Document = Absent | Unreadable | Decoded(report: Report)

  ghost predicate Parses(schema: Schema, d: Document) { d.Decoded? && ValidReport(schema, d.report) }

  datatype Documents = Documents(v1: Document, v2: Document, v3: Document)

  datatype Checked = Usable(reports: Reports) | Refused(because: Because, remark: string)

  datatype Expected = Expected(sourceSha: string, kernel: string, architecture: string)

  /** `validate_reports`. */
  ghost function Validated(expected: Expected, d: Documents): Checked {
    if !ValidSha(expected.sourceSha) || !ValidMetadata(expected.kernel) || !ValidMetadata(expected.architecture) then
      Refused(Malformed, "expected evidence identity is invalid")
    else if d.v1.Absent? then Refused(Missing, "schema-v1 evidence is missing")
    else if d.v2.Absent? then Refused(Missing, "schema-v2 evidence is missing")
    else if d.v3.Absent? then Refused(Missing, "schema-v3 evidence is missing")
    else if !Parses(V1, d.v1) then Refused(Malformed, "schema-v1 evidence is malformed")
    else if !Parses(V2, d.v2) then Refused(Malformed, "schema-v2 evidence is malformed")
    else if !Parses(V3, d.v3) then Refused(Malformed, "schema-v3 evidence is malformed")
    else
      var one, two, three := d.v1.report.identity, d.v2.report.identity, d.v3.report.identity;
      if one.sourceSha != two.sourceSha || one.sourceSha != three.sourceSha then
        Refused(Conflicting, "evidence source revisions conflict")
      else if one != two || one != three then Refused(Conflicting, "evidence host identities conflict")
      else if one.sourceSha != expected.sourceSha then Refused(Stale, "evidence source revision is stale")
      else if one.kernel != expected.kernel || one.architecture != expected.architecture then
        Refused(Stale, "evidence host identity is stale")
      else Usable(Reports(d.v1.report, d.v2.report, d.v3.report))
  }

  ghost predicate AllPresent(d: Documents) { !d.v1.Absent? && !d.v2.Absent? && !d.v3.Absent? }

  ghost predicate AllParse(d: Documents) { Parses(V1, d.v1) && Parses(V2, d.v2) && Parses(V3, d.v3) }

  predicate Plausible(expected: Expected) {
    ValidSha(expected.sourceSha) && ValidMetadata(expected.kernel) && ValidMetadata(expected.architecture)
  }

  /** The reports are used exactly when all three are there, valid, of one source and host, and of the
      expected one; and what is said otherwise depends on which of these fails first. */
  lemma UsableExactly(expected: Expected, d: Documents)
    ensures var checked := Validated(expected, d);
            && (checked.Usable? <==>
                  && Plausible(expected) && AllParse(d)
                  && d.v1.report.identity == d.v2.report.identity == d.v3.report.identity
                  && d.v1.report.identity == Identity(expected.sourceSha, "linux", expected.kernel, expected.architecture))
            && (checked.Usable? ==> checked.reports == Reports(d.v1.report, d.v2.report, d.v3.report))
            && (checked.Refused? ==>
                  && (checked.because == Missing <==> Plausible(expected) && !AllPresent(d))
                  && (checked.because == Malformed <==> !Plausible(expected) || (AllPresent(d) && !AllParse(d)))
                  && (checked.because == Conflicting <==>
                        Plausible(expected) && AllParse(d)
                        && !(d.v1.report.identity == d.v2.report.identity == d.v3.report.identity)))
  {
  }

  ghost predicate SameSource(d: Documents)
    requires AllParse(d)
  {
    d.v1.report.identity.sourceSha == d.v2.report.identity.sourceSha == d.v3.report.identity.sourceSha
  }

  ghost predicate SameHost(d: Documents)
    requires AllParse(d)
  {
    d.v1.report.identity == d.v2.report.identity == d.v3.report.identity
  }

  /** Which refusal it is: an impossible expectation, the first document that is missing, the first that is malformed,
      documents that disagree about the source or else the host, and a source or else a host that is not the expected. */
  lemma RefusedExactly(expected: Expected, d: Documents)
    ensures !Plausible(expected) ==> Validated(expected, d) == Refused(Malformed, "expected evidence identity is invalid")
    ensures Plausible(expected) && d.v1.Absent? ==> Validated(expected, d) == Refused(Missing, "schema-v1 evidence is missing")
    ensures Plausible(expected) && !d.v1.Absent? && d.v2.Absent? ==> Validated(expected, d) == Refused(Missing, "schema-v2 evidence is missing")
    ensures Plausible(expected) && !d.v1.Absent? && !d.v2.Absent? && d.v3.Absent? ==>
              Validated(expected, d) == Refused(Missing, "schema-v3 evidence is missing")
    ensures Plausible(expected) && AllPresent(d) && !Parses(V1, d.v1) ==>
              Validated(expected, d) == Refused(Malformed, "schema-v1 evidence is malformed")
    ensures Plausible(expected) && AllPresent(d) && Parses(V1, d.v1) && !Parses(V2, d.v2) ==>
              Validated(expected, d) == Refused(Malformed, "schema-v2 evidence is malformed")
    ensures Plausible(expected) && AllPresent(d) && Parses(V1, d.v1) && Parses(V2, d.v2) && !Parses(V3, d.v3) ==>
              Validated(expected, d) == Refused(Malformed, "schema-v3 evidence is malformed")
    ensures Plausible(expected) && AllParse(d) && !SameSource(d) ==>
              Validated(expected, d) == Refused(Conflicting, "evidence source revisions conflict")
    ensures Plausible(expected) && AllParse(d) && SameSource(d) && !SameHost(d) ==>
              Validated(expected, d) == Refused(Conflicting, "evidence host identities conflict")
    ensures Plausible(expected) && AllParse(d) && SameHost(d) && d.v1.report.identity.sourceSha != expected.sourceSha ==>
              Validated(expected, d) == Refused(Stale, "evidence source revision is stale")
    ensures Plausible(expected) && AllParse(d) && SameHost(d) && d.v1.report.identity.sourceSha == expected.sourceSha
            && (d.v1.report.identity.kernel != expected.kernel || d.v1.report.identity.architecture != expected.architecture) ==>
              Validated(expected, d) == Refused(Stale, "evidence host identity is stale")
  {
  }

  /** `assess_linux_evidence`. */
  ghost function AssessLinuxEvidence(q: Lists, expected: Expected, d: Documents, level: Level): Assessment {
    match Validated(expected, d)
    case Refused(because, remark) => Shortfall(level, because, Remark(remark))
    case Usable(reports) => Assessed(q, reports, level)
  }

  // ---------------------------------------------------------------------------------------------
  // The levels, written out
  // ---------------------------------------------------------------------------------------------

  datatype Requirement = Requirement(schema: Schema, probe: Probe)

  /** Everything a level requires, in the order in which it is searched. */
  function Requirements(q: Lists, level: Level): seq<Requirement> {
    var low := Three(q.low1, q.low2, q.low3);
    var medium := low + Tagged(V2, q.medium2);
    match level
    case Low => low
    case Medium => medium
    case High => medium + Three(q.high1, q.high2, q.high3)
  }

  function Three(one: seq<Probe>, two: seq<Probe>, three: seq<Probe>): seq<Requirement> {
    Tagged(V1, one) + Tagged(V2, two) + Tagged(V3, three)
  }

  function Tagged(schema: Schema, probes: seq<Probe>): seq<Requirement> {
    if probes == [] then [] else [Requirement(schema, probes[0])] + Tagged(schema, probes[1..])
  }

  function Of(r: Reports, schema: Schema): Report { match schema case V1 => r.v1 case V2 => r.v2 case V3 => r.v3 }

  /** The row of a requirement. */
  function RowOf(r: Reports, need: Requirement): Option<Row> { Find(Of(r, need.schema).rows, need.probe) }

  predicate FailedCleanup(r: Reports, need: Requirement) { RowOf(r, need).Some? && CleanupFailure(RowOf(r, need).value) }

  /** There is no row, or it does not show enforcement: it has another state, or gives a reason. */
  predicate Unmet(r: Reports, need: Requirement) {
    RowOf(r, need).None? || RowOf(r, need).value.state != Enforced || RowOf(r, need).value.reason != NoReason
  }

  ghost predicate FirstFailed(r: Reports, list: seq<Requirement>, k: nat) {
    k < |list| && FailedCleanup(r, list[k]) && forall i | 0 <= i < k :: !FailedCleanup(r, list[i])
  }

  ghost predicate FirstNotMet(r: Reports, list: seq<Requirement>, k: nat) {
    k < |list| && Unmet(r, list[k]) && forall i | 0 <= i < k :: !Unmet(r, list[i])
  }

  ghost predicate NoneFailed(r: Reports, list: seq<Requirement>) { forall i | 0 <= i < |list| :: !FailedCleanup(r, list[i]) }

  ghost predicate AllMet(r: Reports, list: seq<Requirement>) { forall i | 0 <= i < |list| :: !Unmet(r, list[i]) }

  /** The reports are valid, so every requirement has a row. */
  ghost predicate Valid(r: Reports) { ValidReport(V1, r.v1) && ValidReport(V2, r.v2) && ValidReport(V3, r.v3) }

  ghost predicate Covered(list: seq<Requirement>) { forall i | 0 <= i < |list| :: list[i].probe in Required(list[i].schema) }

  // ---------------------------------------------------------------------------------------------
  // One search over the whole list
  // ---------------------------------------------------------------------------------------------

  function SearchFailed(r: Reports, list: seq<Requirement>): Option<Assessment> {
    if list == [] then None
    else if FailedCleanup(r, list[0]) then AssessRow(RowOf(r, list[0]).value)
    else SearchFailed(r, list[1..])
  }

  function SearchUnmet(r: Reports, list: seq<Requirement>): Option<Assessment> {
    if list == [] then None
    else if RowOf(r, list[0]).None? then Some(Shortfall(Low, Malformed, RequiredProbe))
    else if AssessRow(RowOf(r, list[0]).value).Some? then AssessRow(RowOf(r, list[0]).value)
    else SearchUnmet(r, list[1..])
  }

  lemma {:induction false} SearchTagged(r: Reports, schema: Schema, probes: seq<Probe>)
    ensures SearchFailed(r, Tagged(schema, probes)) == FirstCleanupFailure(Of(r, schema), probes)
    ensures SearchUnmet(r, Tagged(schema, probes)) == FirstUnmet(Of(r, schema), probes)
  {
    if probes != [] {
      SearchTagged(r, schema, probes[1..]);
      assert Tagged(schema, probes)[1..] == Tagged(schema, probes[1..]);
    }
  }

  lemma SearchAppend(r: Reports, a: seq<Requirement>, b: seq<Requirement>)
    ensures SearchFailed(r, a + b) == OrElse(SearchFailed(r, a), SearchFailed(r, b))
    ensures SearchUnmet(r, a + b) == OrElse(SearchUnmet(r, a), SearchUnmet(r, b))
  {
    FailedAppend(r, a, b);
    UnmetAppend(r, a, b);
  }

  lemma {:induction false} FailedAppend(r: Reports, a: seq<Requirement>, b: seq<Requirement>)
    ensures SearchFailed(r, a + b) == OrElse(SearchFailed(r, a), SearchFailed(r, b))
    decreases |a|
  {
    if a == [] {
      assert a + b == b;
    } else {
      FailedAppend(r, a[1..], b);
      assert (a + b)[1..] == a[1..] + b;
    }
  }

  lemma {:induction false} UnmetAppend(r: Reports, a: seq<Requirement>, b: seq<Requirement>)
    ensures SearchUnmet(r, a + b) == OrElse(SearchUnmet(r, a), SearchUnmet(r, b))
    decreases |a|
  {
    if a == [] {
      assert a + b == b;
    } else {
      UnmetAppend(r, a[1..], b);
      assert (a + b)[1..] == a[1..] + b;
    }
  }

  lemma SearchThree(r: Reports, one: seq<Probe>, two: seq<Probe>, three: seq<Probe>)
    ensures SearchFailed(r, Three(one, two, three))
         == OrElse(OrElse(FirstCleanupFailure(r.v1, one), FirstCleanupFailure(r.v2, two)), FirstCleanupFailure(r.v3, three))
    ensures SearchUnmet(r, Three(one, two, three))
         == OrElse(OrElse(FirstUnmet(r.v1, one), FirstUnmet(r.v2, two)), FirstUnmet(r.v3, three))
  {
    SearchTagged(r, V1, one);
    SearchTagged(r, V2, two);
    SearchTagged(r, V3, three);
    SearchAppend(r, Tagged(V1, one) + Tagged(V2, two), Tagged(V3, three));
    SearchAppend(r, Tagged(V1, one), Tagged(V2, two));
  }

  /** The nested searches of each level are one search through its whole list. */
  lemma SearchLevels(q: Lists, r: Reports)
    ensures LowCleanupFailure(q, r) == SearchFailed(r, Requirements(q, Low))
    ensures MediumCleanupFailure(q, r) == SearchFailed(r, Requirements(q, Medium))
    ensures HighCleanupFailure(q, r) == SearchFailed(r, Requirements(q, High))
    ensures OrElse(OrElse(FirstUnmet(r.v1, q.low1), FirstUnmet(r.v2, q.low2)), FirstUnmet(r.v3, q.low3)) == SearchUnmet(r, Requirements(q, Low))
  {
    SearchThree(r, q.low1, q.low2, q.low3);
    SearchTagged(r, V2, q.medium2);
    SearchAppend(r, Requirements(q, Low), Tagged(V2, q.medium2));
    SearchThree(r, q.high1, q.high2, q.high3);
    SearchAppend(r, Requirements(q, Medium), Three(q.high1, q.high2, q.high3));
  }

  /** The search finds the first failure, and only when there is one. */
  lemma {:induction false} SearchFailedFirst(r: Reports, list: seq<Requirement>)
    ensures SearchFailed(r, list).None? <==> NoneFailed(r, list)
    ensures SearchFailed(r, list).Some? ==>
              exists k: nat :: FirstFailed(r, list, k)
                               && SearchFailed(r, list).value == Shortfall(Low, Indeterminate, Named(list[k].probe, CleanupFailed))
  {
    if list != [] {
      var rest := list[1..];
      SearchFailedFirst(r, rest);
      assert forall i | 0 <= i < |rest| :: rest[i] == list[i + 1];
      if FailedCleanup(r, list[0]) {
        FirstAt(r, list);
      } else if SearchFailed(r, rest).Some? {
        var k: nat :| FirstFailed(r, rest, k) && SearchFailed(r, rest).value == Shortfall(Low, Indeterminate, Named(rest[k].probe, CleanupFailed));
        forall i | 0 <= i < k + 1 ensures !FailedCleanup(r, list[i]) { if i > 0 { assert list[i] == rest[i - 1]; } }
        assert FirstFailed(r, list, k + 1);
      } else {
        forall i | 0 <= i < |list| ensures !FailedCleanup(r, list[i]) { if i > 0 { assert list[i] == rest[i - 1]; } }
      }
    }
  }

  lemma FirstAt(r: Reports, list: seq<Requirement>)
    requires list != [] && FailedCleanup(r, list[0])
    ensures !NoneFailed(r, list)
    ensures exists k: nat :: FirstFailed(r, list, k)
                             && SearchFailed(r, list).value == Shortfall(Low, Indeterminate, Named(list[k].probe, CleanupFailed))
  {
    var k: nat := 0;
    assert FirstFailed(r, list, k);
  }

  /** What an unmet requirement amounts to. */
  function Verdict(r: Reports, need: Requirement): Assessment
    requires RowOf(r, need).Some?
  {
    var row := RowOf(r, need).value;
    Shortfall(Low, if row.state == ProbeError then Indeterminate else UnavailableConjunct, Named(row.probe, row.reason))
  }

  lemma {:induction false} SearchUnmetFirst(r: Reports, list: seq<Requirement>)
    requires forall i | 0 <= i < |list| :: RowOf(r, list[i]).Some?
    ensures SearchUnmet(r, list).None? <==> AllMet(r, list)
    ensures SearchUnmet(r, list).Some? ==>
              exists k: nat :: FirstNotMet(r, list, k) && SearchUnmet(r, list).value == Verdict(r, list[k])
  {
    if list != [] {
      var rest := list[1..];
      assert forall i | 0 <= i < |rest| :: rest[i] == list[i + 1];
      SearchUnmetFirst(r, rest);
      if Unmet(r, list[0]) {
        UnmetAt(r, list);
      } else if SearchUnmet(r, rest).Some? {
        var k: nat :| FirstNotMet(r, rest, k) && SearchUnmet(r, rest).value == Verdict(r, rest[k]);
        forall i | 0 <= i < k + 1 ensures !Unmet(r, list[i]) { if i > 0 { assert list[i] == rest[i - 1]; } }
        assert FirstNotMet(r, list, k + 1);
      } else {
        forall i | 0 <= i < |list| ensures !Unmet(r, list[i]) { if i > 0 { assert list[i] == rest[i - 1]; } }
      }
    }
  }

  lemma UnmetAt(r: Reports, list: seq<Requirement>)
    requires list != [] && Unmet(r, list[0]) && RowOf(r, list[0]).Some?
    ensures !AllMet(r, list)
    ensures exists k: nat :: FirstNotMet(r, list, k) && SearchUnmet(r, list).value == Verdict(r, list[k])
  {
    var k: nat := 0;
    assert FirstNotMet(r, list, k);
  }

  // ---------------------------------------------------------------------------------------------
  // What the levels say
  // ---------------------------------------------------------------------------------------------

  lemma AssessmentsSearch(q: Lists, r: Reports, level: Level)
    ensures var failed := SearchFailed(r, Requirements(q, level));
            var unmet := SearchUnmet(r, Requirements(q, Low));
            Assessed(q, r, level) == if failed.Some? then failed.value.(level := level)
                                     else if unmet.Some? then unmet.value.(level := level)
                                     else Shortfall(level, Unproven, SameUidBroker)
    ensures !Assessed(q, r, level).complete
  {
    SearchLevels(q, r);
    SearchIncomplete(r, Requirements(q, Low));
    SearchIncomplete(r, Requirements(q, level));
    LowerFailed(q, r);
  }

  lemma {:induction false} SearchIncomplete(r: Reports, list: seq<Requirement>)
    ensures SearchFailed(r, list).Some? ==> !SearchFailed(r, list).value.complete
    ensures SearchUnmet(r, list).Some? ==> !SearchUnmet(r, list).value.complete
  {
    if list != [] { SearchIncomplete(r, list[1..]); }
  }

  /** A failure at one level is the failure at every level above. */
  lemma LowerFailed(q: Lists, r: Reports)
    ensures SearchFailed(r, Requirements(q, Low)).Some? ==>
              SearchFailed(r, Requirements(q, Medium)) == SearchFailed(r, Requirements(q, Low))
    ensures SearchFailed(r, Requirements(q, Medium)).Some? ==>
              SearchFailed(r, Requirements(q, High)) == SearchFailed(r, Requirements(q, Medium))
  {
    SearchAppend(r, Requirements(q, Low), Tagged(V2, q.medium2));
    SearchAppend(r, Requirements(q, Medium), Three(q.high1, q.high2, q.high3));
  }

  /** Whatever the documents are, no level is ever complete. */
  lemma NeverComplete(q: Lists, expected: Expected, d: Documents, level: Level)
    ensures !AssessLinuxEvidence(q, expected, d, level).complete && AssessLinuxEvidence(q, expected, d, level).level == level
  {
    if Validated(expected, d).Usable? { AssessmentsSearch(q, Validated(expected, d).reports, level); }
  }

  /** Each probe of the second and the third schema is required by some level, and there are no more entries than
      probes, so each is required by one level only. */
  lemma SourceExactly(p: Probe)
    ensures SchemaOf(p) == V2 ==> p in SOURCE.low2 + SOURCE.medium2 + SOURCE.high2
    ensures SchemaOf(p) == V3 ==> p in SOURCE.low3 + SOURCE.high3
    ensures |SOURCE.low2 + SOURCE.medium2 + SOURCE.high2| == |Required(V2)| && |SOURCE.low3 + SOURCE.high3| == |Required(V3)|
  {
    if SchemaOf(p) == V2 { SecondListed(p); }
  }

  lemma SecondListed(p: Probe)
    requires SchemaOf(p) == V2
    ensures p in SOURCE.low2 || p in SOURCE.medium2 || p in SOURCE.high2
  {
  }

  /** Every probe a level requires is one that its schema requires. */
  predicate Covers(q: Lists) {
    && (forall p | p in q.low1 + q.high1 :: p in Required(V1))
    && (forall p | p in q.low2 + q.medium2 + q.high2 :: p in Required(V2))
    && (forall p | p in q.low3 + q.high3 :: p in Required(V3))
  }

  lemma SourceCovers()
    ensures Covers(SOURCE)
  {
  }

  lemma {:induction false} TaggedCovered(schema: Schema, probes: seq<Probe>)
    requires forall p | p in probes :: p in Required(schema)
    ensures Covered(Tagged(schema, probes))
  {
    if probes != [] {
      assert probes[0] in probes && forall p | p in probes[1..] :: p in probes;
      TaggedCovered(schema, probes[1..]);
    }
  }

  lemma RequirementsCovered(q: Lists, level: Level)
    requires Covers(q)
    ensures Covered(Requirements(q, level))
  {
    TaggedCovered(V1, q.low1); TaggedCovered(V2, q.low2); TaggedCovered(V3, q.low3);
    TaggedCovered(V2, q.medium2);
    TaggedCovered(V1, q.high1); TaggedCovered(V2, q.high2); TaggedCovered(V3, q.high3);
  }

  /** In valid reports every requirement has a row, so the branch for a missing probe is never taken. */
  lemma RowExists(r: Reports, need: Requirement)
    requires Valid(r) && need.probe in Required(need.schema)
    ensures RowOf(r, need).Some? && ValidRow(need.schema, RowOf(r, need).value)
  {
    FindExists(need.schema, Required(need.schema), Of(r, need.schema).rows, need.probe);
  }

  lemma FindExists(schema: Schema, required: seq<Probe>, rows: seq<Row>, probe: Probe)
    requires ValidRows(schema, required, rows) && probe in required
    ensures Find(rows, probe).Some? && ValidRow(schema, Find(rows, probe).value)
  {
    var i :| 0 <= i < |required| && required[i] == probe;
    assert rows[i].probe == probe;
  }

  /** A level names a cleanup failure exactly when one of its requirements has one, and then the first
      in its list. */
  lemma NamesFirstCleanupFailure(q: Lists, r: Reports, level: Level)
    requires Valid(r) && Covers(q)
    ensures var list := Requirements(q, level);
            && (NoneFailed(r, list) <==> !NamesCleanup(Assessed(q, r, level)))
            && (!NoneFailed(r, list) ==>
                  exists k: nat :: FirstFailed(r, list, k)
                                   && Assessed(q, r, level) == Shortfall(level, Indeterminate, Named(list[k].probe, CleanupFailed)))
  {
    var list := Requirements(q, level);
    AssessmentsSearch(q, r, level);
    SearchFailedFirst(r, list);
    if NoneFailed(r, list) { OtherwiseLowDecides(q, r, level); }
  }

  predicate NamesCleanup(a: Assessment) { a.conjunct.Named? && a.conjunct.reason == CleanupFailed }

  /** A level without a cleanup failure says what the lowest level says: its first unmet probe, or the
      conjunct that nothing proves. */
  lemma OtherwiseLowDecides(q: Lists, r: Reports, level: Level)
    requires Valid(r) && Covers(q) && NoneFailed(r, Requirements(q, level))
    ensures var low := Requirements(q, Low);
            || (AllMet(r, low) && Assessed(q, r, level) == Shortfall(level, Unproven, SameUidBroker))
            || exists k: nat :: FirstNotMet(r, low, k) && RowOf(r, low[k]).Some?
                                && Assessed(q, r, level) == Verdict(r, low[k]).(level := level)
    ensures Assessed(q, r, level) == AssessLow(q, r).(level := level) && !NamesCleanup(Assessed(q, r, level))
  {
    var low := Requirements(q, Low);
    AssessmentsSearch(q, r, level);
    AssessmentsSearch(q, r, Low);
    SearchFailedFirst(r, Requirements(q, level));
    LowerFailed(q, r);
    SearchFailedFirst(r, low);
    RequirementsCovered(q, Low);
    UnmetRow(r, low);
  }

  /** The first unmet requirement, where none failed its cleanup. */
  lemma UnmetRow(r: Reports, list: seq<Requirement>)
    requires Valid(r) && Covered(list) && NoneFailed(r, list)
    ensures SearchUnmet(r, list).None? <==> AllMet(r, list)
    ensures SearchUnmet(r, list).Some? ==>
              exists k: nat :: FirstNotMet(r, list, k) && RowOf(r, list[k]).Some? && SearchUnmet(r, list).value == Verdict(r, list[k])
    ensures SearchUnmet(r, list).Some? ==> !NamesCleanup(SearchUnmet(r, list).value)
  {
    forall i | 0 <= i < |list| ensures RowOf(r, list[i]).Some? && ValidRow(list[i].schema, RowOf(r, list[i]).value) {
      RowExists(r, list[i]);
    }
    SearchUnmetFirst(r, list);
    if SearchUnmet(r, list).Some? {
      var k: nat :| FirstNotMet(r, list, k) && SearchUnmet(r, list).value == Verdict(r, list[k]);
      VerdictIsNoCleanup(r, list[k]);
    }
  }

  lemma VerdictIsNoCleanup(r: Reports, need: Requirement)
    requires RowOf(r, need).Some? && ValidRow(need.schema, RowOf(r, need).value) && !FailedCleanup(r, need)
    ensures !NamesCleanup(Verdict(r, need))
  {
  }

  /** When every row of the schema 2 report is a cleanup failure, every level reports a cleanup
      failure; and if no requirement of schema 1 failed its own, it is the first of schema 2. */
  lemma CleanupFailureReachesAllLevels(q: Lists, r: Reports, level: Level)
    requires Valid(r) && Covers(q) && q.low2 != []
    requires forall i | 0 <= i < |r.v2.rows| :: CleanupFailure(r.v2.rows[i])
    ensures NamesCleanup(Assessed(q, r, level))
    ensures NoneFailed(r, Tagged(V1, q.low1)) ==>
              Assessed(q, r, level) == Shortfall(level, Indeterminate, Named(q.low2[0], CleanupFailed))
  {
    var a, b := Tagged(V1, q.low1), Tagged(V2, q.low2);
    var first := Requirement(V2, q.low2[0]);
    assert b[0] == first && q.low2[0] in q.low2;
    RowExists(r, first);
    assert FailedCleanup(r, first);
    SearchAppend(r, a + b, Tagged(V3, q.low3));
    SearchAppend(r, a, b);
    LowerFailed(q, r);
    AssessmentsSearch(q, r, level);
    SearchFailedFirst(r, a);
    SearchFailedFirst(r, b);
  }

  /** The same, from the documents: usable ones whose schema 2 report is all cleanup failures. */
  lemma CleanupFailureIsReported(expected: Expected, d: Documents, level: Level)
    requires Validated(expected, d).Usable?
    requires forall i | 0 <= i < |d.v2.report.rows| :: CleanupFailure(d.v2.report.rows[i])
    ensures NamesCleanup(AssessLinuxEvidence(SOURCE, expected, d, level))
    ensures NoneFailed(Validated(expected, d).reports, Tagged(V1, SOURCE.low1)) ==>
              AssessLinuxEvidence(SOURCE, expected, d, level) == Shortfall(level, Indeterminate, Named(CgroupDelegation, CleanupFailed))
  {
    SourceCovers();
    CleanupFailureReachesAllLevels(SOURCE, Validated(expected, d).reports, level);
  }
}
