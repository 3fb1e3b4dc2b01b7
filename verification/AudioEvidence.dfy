/** The evidence codec of `evaluation/audio_device/evidence.cpp`: records, contract and candidate reports
    and the full report, to JSON and back.

    The closed values are enumerations with tables of their names, searched as the source searches
    them. A decoder checks the shape of an object, its values and then the validity of the result. */
module AudioEvidence {
  import opened Wrappers
  import opened JsonTrees

  datatype ErrorCode = UnknownField | MissingField | InvalidSchema | InvalidValue | ResourceExhausted

  datatype Result<+T> = Ok(value: T) | Err(error: ErrorCode)

  // ---------------------------------------------------------------------------------------------
  // Closed values
  // ---------------------------------------------------------------------------------------------

  datatype Probe =
    | InvalidFormatRejected | MalformedWavRejected | OversizedWavRejected | PermissionDenialClassified
    | DeviceLossClassified | PlaybackUnderrunObserved | CaptureOverrunRejected | ConcurrentOperationRejected
    | CancelDuringOpen | CancelDuringStart | CancelDuringStream | CancelDuringStop | CancelDuringClose
    | PlaybackOwnerQuiescent | CaptureBoundEnforced | PartialCaptureNotPublished | LateCallbackRejected
    | TeardownQuiescent | RuntimeBackendForced | PhysicalDeviceAccessExcluded | DeviceAvailabilityBehavior
    | PlaybackCallbackLifecycle | CaptureCallbackLifecycle | ControllerThreadCancellation | CallbackQuiescentAfterClose

  datatype Direction = Neither | Playback | Capture
  datatype State = Observed | Unavailable | ProbeError
  datatype Reason = NoReason | NoDevice | PermissionDenied | UnsupportedFormat | CandidateLimitation | ContractFailed
                  | PrerequisiteUnavailable | Timeout | Signaled | NonzeroExit | MalformedProtocol | OutputLimit
                  | CleanupFailed | InternalError
  datatype Candidate = Rtaudio | Miniaudio
  datatype Source = InstalledPackage | ControlledSourceFallback
  datatype Linkage = StaticLibrary
  datatype Backend = Dummy | NullBackend

  const PROBES: seq<Probe> := [
    InvalidFormatRejected, MalformedWavRejected, OversizedWavRejected, PermissionDenialClassified,
    DeviceLossClassified, PlaybackUnderrunObserved, CaptureOverrunRejected, ConcurrentOperationRejected,
    CancelDuringOpen, CancelDuringStart, CancelDuringStream, CancelDuringStop, CancelDuringClose,
    PlaybackOwnerQuiescent, CaptureBoundEnforced, PartialCaptureNotPublished, LateCallbackRejected,
    TeardownQuiescent, RuntimeBackendForced, PhysicalDeviceAccessExcluded, DeviceAvailabilityBehavior,
    PlaybackCallbackLifecycle, CaptureCallbackLifecycle, ControllerThreadCancellation, CallbackQuiescentAfterClose]

  const PROBE_NAMES: seq<string> := [
    "invalid_format_rejected", "malformed_wav_rejected", "oversized_wav_rejected", "permission_denial_classified",
    "device_loss_classified", "playback_underrun_observed", "capture_overrun_rejected", "concurrent_operation_rejected",
    "cancel_during_open", "cancel_during_start", "cancel_during_stream", "cancel_during_stop", "cancel_during_close",
    "playback_owner_quiescent", "capture_bound_enforced", "partial_capture_not_published", "late_callback_rejected",
    "teardown_quiescent", "runtime_backend_forced", "physical_device_access_excluded", "device_availability_behavior",
    "playback_callback_lifecycle", "capture_callback_lifecycle", "controller_thread_cancellation", "callback_quiescent_after_close"]

  const DIRECTIONS: seq<Direction> := [Neither, Playback, Capture]
  const DIRECTION_NAMES: seq<string> := ["none", "playback", "capture"]
  const STATES: seq<State> := [Observed, Unavailable, ProbeError]
  const STATE_NAMES: seq<string> := ["observed", "unavailable", "probe_error"]
  const REASONS: seq<Reason> := [
    NoReason, NoDevice, PermissionDenied, UnsupportedFormat, CandidateLimitation, ContractFailed, PrerequisiteUnavailable,
    Timeout, Signaled, NonzeroExit, MalformedProtocol, OutputLimit, CleanupFailed, InternalError]
  const REASON_NAMES: seq<string> := [
    "none", "no_device", "permission_denied", "unsupported_format", "candidate_limitation", "contract_failed",
    "prerequisite_unavailable", "timeout", "signaled", "nonzero_exit", "malformed_protocol", "output_limit",
    "cleanup_failed", "internal_error"]
  const CANDIDATES: seq<Candidate> := [Rtaudio, Miniaudio]
  const CANDIDATE_NAMES: seq<string> := ["rtaudio", "miniaudio"]
  const SOURCES: seq<Source> := [InstalledPackage, ControlledSourceFallback]
  const SOURCE_NAMES: seq<string> := ["installed_package", "controlled_source_fallback"]
  const LINKAGES: seq<Linkage> := [StaticLibrary]
  const LINKAGE_NAMES: seq<string> := ["static"]
  const BACKENDS: seq<Backend> := [Dummy, NullBackend]
  const BACKEND_NAMES: seq<string> := ["dummy", "null"]

  /** `enum_name`: the name beside the value, or nothing. */
  function EnumName<E(==)>(value: E, values: seq<E>, names: seq<string>): string
    requires |values| == |names|
  {
    if values == [] then "" else if values[0] == value then names[0] else EnumName(value, values[1..], names[1..])
  }

  /** `parse_enum`: the value beside the name. */
  function ParseEnum<E(==)>(j: Json, values: seq<E>, names: seq<string>): Option<E>
    requires |values| == |names|
  {
    if !j.Text? || values == [] then None
    else if names[0] == j.s then Some(values[0])
    else ParseEnum(j, values[1..], names[1..])
  }

  ghost predicate Distinct<T(!new)>(s: seq<T>) { forall i, k | 0 <= i < k < |s| :: s[i] != s[k] }

  /** A table pairs its values and names one to one, and has every value. */
  ghost predicate Table<E(!new)>(values: seq<E>, names: seq<string>) {
    |values| == |names| && Distinct(values) && Distinct(names) && forall e: E :: e in values
  }

  lemma {:induction false} EnumSearch<E(!new)>(j: Json, e: E, values: seq<E>, names: seq<string>)
    requires |values| == |names| && Distinct(values) && Distinct(names) && e in values
    ensures ParseEnum(j, values, names) == Some(e) <==> j == Text(EnumName(e, values, names))
    ensures EnumName(e, values, names) in names
  {
    if values[0] != e {
      EnumSearch(j, e, values[1..], names[1..]);
      assert forall i | 0 <= i < |names[1..]| :: names[1..][i] == names[i + 1];
      assert EnumName(e, values, names) == EnumName(e, values[1..], names[1..]);
      assert EnumName(e, values, names) != names[0];
    } else if j.Text? && names[0] != j.s {
      NotFound(j, e, values[1..], names[1..]);
    }
  }

  lemma {:induction false} NotFound<E(!new)>(j: Json, e: E, values: seq<E>, names: seq<string>)
    requires |values| == |names| && e !in values
    ensures ParseEnum(j, values, names) != Some(e)
  {
    if values != [] { NotFound(j, e, values[1..], names[1..]); }
  }

  /** Reading a name gives a value exactly when it is the name of that value. */
  lemma EnumExact<E(!new)>(j: Json, values: seq<E>, names: seq<string>)
    requires Table(values, names)
    ensures forall e: E :: ParseEnum(j, values, names) == Some(e) <==> j == Text(EnumName(e, values, names))
    ensures forall e: E :: EnumName(e, values, names) in names
  {
    forall e: E ensures (ParseEnum(j, values, names) == Some(e) <==> j == Text(EnumName(e, values, names)))
                     && EnumName(e, values, names) in names {
      EnumSearch(j, e, values, names);
    }
  }

  lemma ProbeTable()
    ensures Table(PROBES, PROBE_NAMES)
  {
    ProbesDistinct();
    ProbeNamesDistinct();
    forall p: Probe ensures p in PROBES { ProbeListed(p); }
  }

  lemma ProbesDistinct()
    ensures Distinct(PROBES)
  {
  }

  lemma ProbeNamesDistinct()
    ensures Distinct(PROBE_NAMES)
  {
  }

  lemma ProbeListed(p: Probe)
    ensures p in PROBES
  {
  }

  lemma ReasonTable()
    ensures Table(REASONS, REASON_NAMES)
  {
    forall r: Reason ensures r in REASONS { ReasonListed(r); }
  }

  lemma ReasonListed(r: Reason)
    ensures r in REASONS
  {
  }

  lemma SmallTables()
    ensures Table(DIRECTIONS, DIRECTION_NAMES) && Table(STATES, STATE_NAMES) && Table(CANDIDATES, CANDIDATE_NAMES)
    ensures Table(SOURCES, SOURCE_NAMES) && Table(LINKAGES, LINKAGE_NAMES) && Table(BACKENDS, BACKEND_NAMES)
  {
    forall d: Direction ensures d in DIRECTIONS { match d case Neither => case Playback => case Capture => }
    forall s: State ensures s in STATES { match s case Observed => case Unavailable => case ProbeError => }
    forall c: Candidate ensures c in CANDIDATES { match c case Rtaudio => case Miniaudio => }
    forall s: Source ensures s in SOURCES { match s case InstalledPackage => case ControlledSourceFallback => }
    forall l: Linkage ensures l in LINKAGES { match l case StaticLibrary => }
    forall b: Backend ensures b in BACKENDS { match b case Dummy => case NullBackend => }
  }

  function ProbeName(p: Probe): string { EnumName(p, PROBES, PROBE_NAMES) }
  function DirectionName(d: Direction): string { EnumName(d, DIRECTIONS, DIRECTION_NAMES) }
  function StateName(s: State): string { EnumName(s, STATES, STATE_NAMES) }
  function ReasonName(r: Reason): string { EnumName(r, REASONS, REASON_NAMES) }

  function ParseProbe(j: Json): Option<Probe> { ParseEnum(j, PROBES, PROBE_NAMES) }
  function ParseDirection(j: Json): Option<Direction> { ParseEnum(j, DIRECTIONS, DIRECTION_NAMES) }
  function ParseState(j: Json): Option<State> { ParseEnum(j, STATES, STATE_NAMES) }
  function ParseReason(j: Json): Option<Reason> { ParseEnum(j, REASONS, REASON_NAMES) }

  lemma RecordEnums(a: Json, b: Json, c: Json, d: Json)
    ensures forall p :: ParseProbe(a) == Some(p) <==> a == Text(ProbeName(p))
    ensures forall e :: ParseDirection(b) == Some(e) <==> b == Text(DirectionName(e))
    ensures forall s :: ParseState(c) == Some(s) <==> c == Text(StateName(s))
    ensures forall r :: ParseReason(d) == Some(r) <==> d == Text(ReasonName(r))
  {
    ProbeTable();
    ReasonTable();
    SmallTables();
    EnumExact(a, PROBES, PROBE_NAMES);
    EnumExact(b, DIRECTIONS, DIRECTION_NAMES);
    EnumExact(c, STATES, STATE_NAMES);
    EnumExact(d, REASONS, REASON_NAMES);
  }

  // ---------------------------------------------------------------------------------------------
  // Records
  // ---------------------------------------------------------------------------------------------

  const MAXIMUM_CALLBACKS: nat := 1_000_000
  const MAXIMUM_FRAMES: nat := 32 * 1024 * 1024
  const MAXIMUM_XRUNS: nat := 1_000_000

  datatype Record = Record(probe: Probe, direction: Direction, state: State, reason: Reason,
                           callbacks: nat, frames: nat, xruns: nat, cancellationObserved: bool, cleanupComplete: bool)

  function StateFor(reason: Reason): State {
    match reason
    case NoReason => Observed
    case NoDevice | PermissionDenied | UnsupportedFormat | CandidateLimitation | ContractFailed | PrerequisiteUnavailable => Unavailable
    case _ => ProbeError
  }

  predicate CancellationProbe(p: Probe) {
    p in {CancelDuringOpen, CancelDuringStart, CancelDuringStream, CancelDuringStop, CancelDuringClose, ControllerThreadCancellation}
  }

  /** `validate_probe_record`: the error, if there is one. */
  function RecordError(r: Record): Option<ErrorCode> {
    if r.state != StateFor(r.reason) then Some(InvalidValue)
    else if r.callbacks > MAXIMUM_CALLBACKS || r.frames > MAXIMUM_FRAMES || r.xruns > MAXIMUM_XRUNS then Some(ResourceExhausted)
    else if r.cancellationObserved && !CancellationProbe(r.probe) then Some(InvalidValue)
    else if r.state == Observed && CancellationProbe(r.probe) && !r.cancellationObserved then Some(InvalidValue)
    else if !r.cleanupComplete && (r.state != ProbeError || r.reason != CleanupFailed) then Some(InvalidValue)
    else if r.reason == CleanupFailed && r.cleanupComplete then Some(InvalidValue)
    else None
  }

  predicate ValidRecord(r: Record) { RecordError(r).None? }

  /** `validate_object_shape`: an object with exactly these fields, or the first complaint. */
  function Shape(j: Json, fields: set<Field>): Option<ErrorCode> {
    if !j.Object? then Some(InvalidValue)
    else if !(j.fields.Keys <= fields) then Some(UnknownField)
    else if !(fields <= j.fields.Keys) then Some(MissingField)
    else None
  }

  lemma ShapeExact(j: Json, fields: set<Field>)
    ensures Shape(j, fields).None? <==> j.Object? && j.fields.Keys == fields
  {
  }

  const RECORD_FIELDS: set<Field> :=
    {Callbacks, CancellationObserved, CleanupComplete, DirectionField, Frames, ProbeId, ReasonField, StateField, Xruns}

  function RecordJson(r: Record): Json {
    Object(map[Callbacks := Number(r.callbacks),
               CancellationObserved := Bool(r.cancellationObserved),
               CleanupComplete := Bool(r.cleanupComplete),
               DirectionField := Text(DirectionName(r.direction)),
               Frames := Number(r.frames),
               ProbeId := Text(ProbeName(r.probe)),
               ReasonField := Text(ReasonName(r.reason)),
               StateField := Text(StateName(r.state)),
               Xruns := Number(r.xruns)])
  }

  function DecodeRecord(j: Json): Result<Record> {
    var shape := Shape(j, RECORD_FIELDS);
    if shape.Some? then Err(shape.value) else
      var f := j.fields;
      match (ParseProbe(f[ProbeId]), ParseDirection(f[DirectionField]), ParseState(f[StateField]), ParseReason(f[ReasonField]))
      case (Some(probe), Some(direction), Some(state), Some(reason)) =>
        if !(f[Callbacks].Number? && f[Frames].Number? && f[Xruns].Number? && f[CancellationObserved].Bool? && f[CleanupComplete].Bool?)
        then Err(InvalidValue)
        else
          var r := Record(probe, direction, state, reason, f[Callbacks].n, f[Frames].n, f[Xruns].n,
                          f[CancellationObserved].b, f[CleanupComplete].b);
          if RecordError(r).Some? then Err(RecordError(r).value) else Ok(r)
      case _ => Err(InvalidValue)
  }

  /** The nine fields of a record, each with the value the record calls for. */
  ghost predicate SaysRecord(f: map<Field, Json>, r: Record) {
    && f.Keys == RECORD_FIELDS
    && f[Callbacks] == Number(r.callbacks) && f[CancellationObserved] == Bool(r.cancellationObserved)
    && f[CleanupComplete] == Bool(r.cleanupComplete) && f[DirectionField] == Text(DirectionName(r.direction))
    && f[Frames] == Number(r.frames) && f[ProbeId] == Text(ProbeName(r.probe)) && f[ReasonField] == Text(ReasonName(r.reason))
    && f[StateField] == Text(StateName(r.state)) && f[Xruns] == Number(r.xruns)
  }

  lemma RecordFields(j: Json, r: Record)
    ensures j == RecordJson(r) <==> j.Object? && SaysRecord(j.fields, r)
  {
    RecordSays(r);
    if j.Object? && SaysRecord(j.fields, r) { SaidOnce(j.fields, RecordJson(r).fields, r); }
  }

  lemma RecordSays(r: Record)
    ensures SaysRecord(RecordJson(r).fields, r)
  {
  }

  lemma SaidOnce(f: map<Field, Json>, g: map<Field, Json>, r: Record)
    requires SaysRecord(f, r) && SaysRecord(g, r)
    ensures f == g
  {
  }

  /** What the decoder has found when it accepts. */
  ghost predicate Found(f: map<Field, Json>, r: Record) {
    && f.Keys == RECORD_FIELDS
    && ParseProbe(f[ProbeId]) == Some(r.probe) && ParseDirection(f[DirectionField]) == Some(r.direction)
    && ParseState(f[StateField]) == Some(r.state) && ParseReason(f[ReasonField]) == Some(r.reason)
    && f[Callbacks] == Number(r.callbacks) && f[Frames] == Number(r.frames) && f[Xruns] == Number(r.xruns)
    && f[CancellationObserved] == Bool(r.cancellationObserved) && f[CleanupComplete] == Bool(r.cleanupComplete)
  }

  lemma DecodeRecordIs(j: Json, r: Record)
    ensures DecodeRecord(j) == Ok(r) <==> ValidRecord(r) && j.Object? && Found(j.fields, r)
  {
    ShapeExact(j, RECORD_FIELDS);
  }

  lemma FoundSays(f: map<Field, Json>, r: Record)
    ensures Found(f, r) <==> SaysRecord(f, r)
  {
    if f.Keys == RECORD_FIELDS { RecordEnums(f[ProbeId], f[DirectionField], f[StateField], f[ReasonField]); }
  }

  /** The decoder accepts exactly the encodings of valid records. */
  lemma RecordExact(j: Json, r: Record)
    ensures DecodeRecord(j) == Ok(r) <==> ValidRecord(r) && j == RecordJson(r)
  {
    DecodeRecordIs(j, r);
    RecordFields(j, r);
    if j.Object? { FoundSays(j.fields, r); }
  }
}
