/** One `CaptureController::capture()` call of `src/adapters/capture_device.cpp`: the control thread
    that opens, starts, streams, stops and closes the device, deactivates the callback, decides the
    error and finalises the gate.

    The program counter names the next shared access or device call. What the device, the observer
    and the stop token do is an input of each step, so a step relation over all inputs covers every
    device and every cancellation timing. */
module CaptureController {
  import opened Wrappers
  import C = CaptureCallback
  import G = AudioDeviceGate
  import opened Sequences

  datatype Stage = Open | Start | Stream | Stop | Close

  datatype DeviceFailure = UnsupportedFormat | PermissionDenied | Unavailable | DeviceLost | InternalFailure

  datatype ErrorCode =
    | Device(failure: DeviceFailure)
    | InvalidFormat
    | InvalidRequest
    | TooLarge
    | OperationInProgress
    | DeviceQuarantined
    | Cancelled
    | Overrun
    | CallbackContractViolation
    | IncompleteStream
    | LateCallback
    | CleanupFailed

  datatype Error = Error(code: ErrorCode, stage: Stage)

  const INTERNAL: ErrorCode := Device(InternalFailure)

  datatype Stats = Stats(callbacks: nat, frames: nat, overruns: nat, late: nat)

  datatype Outcome = Captured(samples: seq<C.Sample>, stats: Stats) | Failed(error: Error)

  datatype Limits = Limits(bytes: nat, frames: nat)

  const MAXIMUM_BYTES: nat := 32 * 1024 * 1024
  const MAXIMUM_FRAMES: nat := MAXIMUM_BYTES / 2

  /** The checks made before the gate is asked. */
  function Admission(limits: Limits, sampleRate: nat, channels: nat, frames: nat): Option<Error> {
    if limits.bytes == 0 || limits.bytes > MAXIMUM_BYTES || limits.frames == 0 || limits.frames > MAXIMUM_FRAMES then
      Some(Error(INTERNAL, Open))
    else if !((channels == 1 || channels == 2) && 8000 <= sampleRate <= 192000) then Some(Error(InvalidFormat, Open))
    else if frames == 0 then Some(Error(InvalidRequest, Open))
    else if frames > limits.bytes / (channels * 2) || frames > limits.frames then Some(Error(TooLarge, Open))
    else None
  }

  /** Admitted requests are exactly the non-empty mono or stereo ones that fit, and so fit within the
      hard limits whatever limits were configured. */
  lemma AdmittedFits(limits: Limits, sampleRate: nat, channels: nat, frames: nat)
    ensures Admission(limits, sampleRate, channels, frames) == None <==>
              && (channels == 1 || channels == 2) && 8000 <= sampleRate <= 192000
              && 0 < frames <= limits.frames <= MAXIMUM_FRAMES && 0 < 2 * C.Span(frames, channels) <= limits.bytes <= MAXIMUM_BYTES
  {
  }

  /** What a refused request is told: limits that are none, then a format that is not signed-16 mono or stereo, then no
      frames, then too many. */
  lemma RefusedFor(limits: Limits, sampleRate: nat, channels: nat, frames: nat)
    ensures var limited := 0 < limits.bytes <= 33_554_432 && 0 < limits.frames <= 16_777_216;
            var formed := (channels == 1 || channels == 2) && 8_000 <= sampleRate <= 192_000;
            var r := Admission(limits, sampleRate, channels, frames);
            && (r == Some(Error(INTERNAL, Open)) <==> !limited)
            && (r == Some(Error(InvalidFormat, Open)) <==> limited && !formed)
            && (r == Some(Error(InvalidRequest, Open)) <==> limited && formed && frames == 0)
            && (r == Some(Error(TooLarge, Open)) <==>
                  limited && formed && frames > 0 && (2 * C.Span(frames, channels) > limits.bytes || frames > limits.frames))
  {
  }

  /** What a device call, an observer and the stop token may do next. */
  datatype Env = Env(observerOk: bool, device: Option<DeviceFailure>)

  /** `LifecycleState`, with the device calls made so far as history. */
  datatype Life = Life(
    primary: Option<Error>,
    stopFailed: bool,
    closeFailed: bool,
    cancellation: Option<Stage>,
    openAttempted: bool,
    startAttempted: bool,
    closeComplete: bool,
    trace: seq<Stage>,
    streamed: bool,
    stopped: bool,
    closed: bool)

  datatype Pc =
    | BeginGate
    | EarlyStop
    | EarlyRelease
    | CancelBeforeOpen
    | Observe(stage: Stage)
    | CallDevice(stage: Stage)
    | Cancel(stage: Stage)
    | DoDeactivate
    | ReadQuiescent
    | ReadFrames
    | ReadLate
    | ReadFailure
    | ReadLateAgain
    | ReleaseGate
    | QuarantineGate
    | StatCallbacks
    | StatFrames
    | StatOverruns
    | StatLate
    | Publish
    | ReturnError(error: Error)
    | Done(outcome: Outcome)

  /** What the control thread has read of the callback since teardown, and what it made of it. */
  datatype Verdict = Verdict(quiescent: bool, frames: nat, late: nat, error: Option<Error>, stats: Stats)

  datatype Op = Op(
    callback: C.Callback,
    requested: nat,
    pc: Pc,
    life: Life,
    verdict: Verdict,
    holding: bool,
    threw: bool)

  function NewOp(channels: C.Channels, frames: nat): Op {
    Op(C.Fresh(channels, frames), frames, BeginGate, Life(None, false, false, None, false, false, false, [], false, false, false),
       Verdict(false, 0, 0, None, Stats(0, 0, 0, 0)), false, false)
  }

  function CheckCancellation(life: Life, stop: bool, stage: Stage): Life {
    if life.cancellation == None && stop then life.(cancellation := Some(stage)) else life
  }

  function OrElse<T>(first: Option<T>, second: Option<T>): Option<T> { if first.Some? then first else second }

  function Mapped(device: Option<DeviceFailure>, stage: Stage): Option<Error> {
    match device case None => None case Some(f) => Some(Error(Device(f), stage))
  }

  /** Observers are told of every stage; a failed one ends the primary lifecycle, but teardown goes on. */
  function ObserveStage(life: Life, stage: Stage, ok: bool): (Life, Pc) {
    var failed := Some(Error(INTERNAL, stage));
    if ok then (life, CallDevice(stage))
    else if stage == Stop || stage == Close then (life.(primary := OrElse(life.primary, failed)), CallDevice(stage))
    else (life.(primary := failed), DoDeactivate)
  }

  function CallStage(life: Life, stage: Stage, device: Option<DeviceFailure>): Life {
    var called := life.(trace := life.trace + [stage]);
    var primary := OrElse(Mapped(device, stage), life.primary);
    match stage
    case Open => called.(openAttempted := true, primary := primary)
    case Start => called.(startAttempted := true, primary := primary)
    case Stream => called.(streamed := true, primary := primary)
    case Stop => called.(stopped := true, stopFailed := device.Some?)
    case Close => called.(closed := true, closeComplete := device.None?, closeFailed := device.Some?)
  }

  /** What follows the cancellation check that ends a stage. */
  function AfterStage(life: Life, stage: Stage): Pc {
    match stage
    case Open => if life.primary.Some? || life.cancellation.Some? then DoDeactivate else Observe(Start)
    case Start => if life.primary.Some? || life.cancellation.Some? then DoDeactivate else Observe(Stream)
    case Stream => DoDeactivate
    case Stop => Observe(Close)
    case Close => ReadQuiescent
  }

  /** `run_primary_lifecycle` and `run_cleanup`, apart from the deactivation between them. */
  function LifeStep(pc: Pc, life: Life, stop: bool, env: Env): (Life, Pc)
    requires pc.CancelBeforeOpen? || pc.Observe? || pc.CallDevice? || pc.Cancel?
  {
    match pc
    case CancelBeforeOpen =>
      var l := CheckCancellation(life, stop, Open);
      (l, if l.cancellation.Some? then DoDeactivate else Observe(Open))
    case Observe(stage) => ObserveStage(life, stage, env.observerOk)
    case CallDevice(stage) => (CallStage(life, stage, env.device), Cancel(stage))
    case Cancel(stage) =>
      var l := CheckCancellation(life, stop, stage);
      (l, AfterStage(l, stage))
  }

  /** Teardown of what was attempted; nothing to close counts as closed. */
  function Deactivated(life: Life): (Life, Pc) {
    if life.startAttempted then (life, Observe(Stop))
    else if life.openAttempted then (life, Observe(Close))
    else (life.(closeComplete := true), ReadQuiescent)
  }

  function CallbackError(failure: C.Failure): Error {
    match failure
    case Overrun => Error(Overrun, Stream)
    case DeviceLost => Error(Device(DeviceLost), Stream)
    case ContractViolation => Error(CallbackContractViolation, Stream)
    case NoFailure => Error(INTERNAL, Stream)
  }

  /** `lifecycle_error`: the first applicable error, in its order of precedence. */
  function LifecycleError(life: Life, v: Verdict, failure: C.Failure, requested: nat): Option<Error> {
    if life.closeFailed then Some(Error(CleanupFailed, Close))
    else if v.late != 0 then Some(Error(LateCallback, Close))
    else if !v.quiescent then Some(Error(LateCallback, Close))
    else if life.stopFailed then Some(Error(CleanupFailed, Stop))
    else if life.cancellation.Some? then Some(Error(Cancelled, life.cancellation.value))
    else if failure != C.NoFailure then Some(CallbackError(failure))
    else if life.primary.Some? then life.primary
    else if v.frames != requested then Some(Error(IncompleteStream, Stream))
    else None
  }

  /** Reading the callback after teardown, and choosing what becomes of the gate. */
  function Judge(pc: Pc, life: Life, v: Verdict, cb: C.Callback, requested: nat): (Verdict, Pc)
    requires pc.ReadQuiescent? || pc.ReadFrames? || pc.ReadLate? || pc.ReadFailure? || pc.ReadLateAgain?
  {
    match pc
    case ReadQuiescent => (v.(quiescent := cb.inFlight == 0), ReadFrames)
    case ReadFrames => (v.(frames := cb.shared.frames), ReadLate)
    case ReadLate => (v.(late := cb.shared.late), ReadFailure)
    case ReadFailure => (v.(error := LifecycleError(life, v, cb.shared.failure, requested)), ReadLateAgain)
    case ReadLateAgain =>
      (v.(late := cb.shared.late),
       if !life.closeComplete || cb.shared.late != 0 || !v.quiescent then QuarantineGate else ReleaseGate)
  }

  /** Reading the statistics of an error-free recording. */
  function Report(pc: Pc, stats: Stats, s: C.Shared): (Stats, Pc)
    requires pc.StatCallbacks? || pc.StatFrames? || pc.StatOverruns? || pc.StatLate?
  {
    match pc
    case StatCallbacks => (stats.(callbacks := s.callbacks), StatFrames)
    case StatFrames => (stats.(frames := s.frames), StatOverruns)
    case StatOverruns => (stats.(overruns := s.overruns), StatLate)
    case StatLate => (stats.(late := s.late), Publish)
  }

  /** After the gate is settled: the error, or the statistics. */
  function AfterGate(error: Option<Error>): Pc {
    match error case Some(e) => ReturnError(e) case None => StatCallbacks
  }

  /** The first steps, up to the cancellation check that precedes the lifecycle. */
  function Begin(gate: G.State, op: Op): (G.State, Op)
    requires op.pc.BeginGate? || op.pc.EarlyStop? || op.pc.EarlyRelease?
  {
    match op.pc
    case BeginGate =>
      (G.Began(gate),
       match gate
       case Idle => op.(pc := EarlyStop, holding := true)
       case Active => op.(pc := Done(Failed(Error(OperationInProgress, Open))))
       case Quarantined => op.(pc := Done(Failed(Error(DeviceQuarantined, Open)))))
    case EarlyStop => (gate, op.(pc := if op.callback.shared.stop then EarlyRelease else CancelBeforeOpen))
    case EarlyRelease => (G.Released(gate), op.(pc := ReturnError(Error(Cancelled, Open)), holding := false))
  }

  /** One step of the control thread. */
  function Step(gate: G.State, op: Op, env: Env): (G.State, Op) {
    if Beginning(op.pc) then Begin(gate, op)
    else if Living(op.pc) then
      var (life, pc) := LifeStep(op.pc, op.life, op.callback.shared.stop, env);
      (gate, op.(life := life, pc := pc))
    else if op.pc.DoDeactivate? then
      var (life, pc) := Deactivated(op.life);
      (gate, op.(callback := C.Deactivate(op.callback), life := life, pc := pc))
    else if Reading(op.pc) then
      var (v, pc) := Judge(op.pc, op.life, op.verdict, op.callback, op.requested);
      (gate, op.(verdict := v, pc := pc))
    else if op.pc.ReleaseGate? then (G.Released(gate), op.(holding := false, pc := AfterGate(op.verdict.error)))
    else if op.pc.QuarantineGate? then (G.Quarantined, op.(holding := false, pc := AfterGate(op.verdict.error)))
    else if op.pc.Publish? then
      (gate, op.(callback := C.Take(op.callback), pc := Done(Captured(op.callback.shared.samples, op.verdict.stats))))
    else if op.pc.ReturnError? then (gate, op.(pc := Done(Failed(op.pc.error))))
    else if op.pc.Done? then (gate, op)
    else
      var (stats, pc) := Report(op.pc, op.verdict.stats, op.callback.shared);
      (gate, op.(verdict := op.verdict.(stats := stats), pc := pc))
  }

  /** An exception anywhere after the gate was acquired, even after it was released again: the guard
      and the handler both quarantine. */
  function Throw(op: Op): Op {
    op.(pc := Done(Failed(Error(INTERNAL, Open))), holding := false, threw := true)
  }

  predicate Beginning(pc: Pc) { pc.BeginGate? || pc.EarlyStop? || pc.EarlyRelease? }

  predicate Living(pc: Pc) { pc.CancelBeforeOpen? || pc.Observe? || pc.CallDevice? || pc.Cancel? }

  predicate Reading(pc: Pc) {
    pc.ReadQuiescent? || pc.ReadFrames? || pc.ReadLate? || pc.ReadFailure? || pc.ReadLateAgain?
  }

  predicate Settling(pc: Pc) { pc.ReleaseGate? || pc.QuarantineGate? }

  predicate Reporting(pc: Pc) {
    pc.StatCallbacks? || pc.StatFrames? || pc.StatOverruns? || pc.StatLate? || pc.Publish?
  }

  // ---------------------------------------------------------------------------------------------
  // The device call trace
  // ---------------------------------------------------------------------------------------------

  ghost predicate Complete(t: seq<Stage>) {
    || t == []
    || t == [Open, Close]
    || t == [Open, Start, Stop, Close]
    || t == [Open, Start, Stream, Stop, Close]
  }

  function When(called: bool, stage: Stage): seq<Stage> { if called then [stage] else [] }

  /** The device calls made so far, in lifecycle order. */
  function Route(life: Life): seq<Stage> {
    When(life.openAttempted, Open) + When(life.startAttempted, Start) + When(life.streamed, Stream)
    + When(life.stopped, Stop) + When(life.closed, Close)
  }

  /** The stages the lifecycle has been through just before `stage` is called. */
  ghost predicate Before(stage: Stage, life: Life) {
    && !life.closed
    && match stage
       case Open => !life.openAttempted && !life.startAttempted && !life.streamed && !life.stopped
       case Start => life.openAttempted && !life.startAttempted && !life.streamed && !life.stopped
       case Stream => life.openAttempted && life.startAttempted && !life.streamed && !life.stopped
       case Stop => life.openAttempted && life.startAttempted && !life.stopped && Reached(life)
       case Close =>
         life.openAttempted && life.startAttempted == life.stopped && (life.streamed ==> life.startAttempted) && Reached(life)
  }

  /** Teardown begins when the stream is over, or something has gone wrong before. */
  ghost predicate Reached(life: Life) { life.streamed || life.primary.Some? || life.cancellation.Some? }

  ghost predicate After(stage: Stage, life: Life) {
    && life.closed == (stage == Close)
    && match stage
       case Open => life.openAttempted && !life.startAttempted && !life.streamed && !life.stopped
       case Start => life.openAttempted && life.startAttempted && !life.streamed && !life.stopped
       case Stream => life.openAttempted && life.startAttempted && life.streamed && !life.stopped
       case Stop => life.openAttempted && life.startAttempted && life.stopped && Reached(life)
       case Close =>
         && life.openAttempted && life.startAttempted == life.stopped && (life.streamed ==> life.startAttempted)
         && Closed(life) && Reached(life)
  }

  /** `close_complete` is set exactly when nothing was opened or the device closed without failing. */
  ghost predicate Closed(life: Life) {
    && life.closeComplete == !life.closeFailed
    && (!life.openAttempted ==> life.closeComplete)
  }

  /** Teardown has gone through everything that was attempted. */
  ghost predicate TornDown(life: Life) {
    && life.openAttempted == life.closed && life.startAttempted == life.stopped
    && (life.startAttempted ==> life.openAttempted) && (life.streamed ==> life.startAttempted)
  }

  ghost predicate PointOk(pc: Pc, life: Life) {
    match pc
    case Observe(stage) => Before(stage, life)
    case CallDevice(stage) => Before(stage, life)
    case Cancel(stage) => After(stage, life)
    case DoDeactivate =>
      && !life.stopped && !life.closed && Reached(life)
      && (life.startAttempted ==> life.openAttempted) && (life.streamed ==> life.startAttempted)
    case BeginGate => Before(Open, life)
    case EarlyStop => Before(Open, life)
    case EarlyRelease => Before(Open, life)
    case CancelBeforeOpen => Before(Open, life)
    case ReturnError(_) => TornDown(life)
    case Done(_) => TornDown(life)
    case _ => TornDown(life) && Closed(life) && Reached(life)
  }

  /** The trace and the flags of the lifecycle at each of its points. */
  ghost predicate LifeOk(pc: Pc, life: Life) {
    life.trace == Route(life) && (life.closeFailed ==> life.closed) && PointOk(pc, life)
  }

  /** A lifecycle that has been torn down made one of four series of device calls. */
  lemma TornDownTrace(life: Life)
    requires life.trace == Route(life) && TornDown(life)
    ensures Complete(life.trace)
  {
  }

  lemma CallStageRoute(life: Life, stage: Stage, device: Option<DeviceFailure>)
    requires life.trace == Route(life) && Before(stage, life)
    ensures CallStage(life, stage, device).trace == Route(CallStage(life, stage, device))
  {
    if stage == Stop || stage == Close { TeardownRoute(life, stage, device); } else { PrimaryRoute(life, stage, device); }
  }

  lemma PrimaryRoute(life: Life, stage: Stage, device: Option<DeviceFailure>)
    requires life.trace == Route(life) && Before(stage, life) && stage != Stop && stage != Close
    ensures CallStage(life, stage, device).trace == Route(CallStage(life, stage, device))
  {
  }

  lemma TeardownRoute(life: Life, stage: Stage, device: Option<DeviceFailure>)
    requires life.trace == Route(life) && Before(stage, life) && (stage == Stop || stage == Close)
    ensures CallStage(life, stage, device).trace == Route(CallStage(life, stage, device))
  {
  }

  lemma CallStageOk(life: Life, stage: Stage, device: Option<DeviceFailure>)
    requires LifeOk(CallDevice(stage), life)
    ensures LifeOk(Cancel(stage), CallStage(life, stage, device))
  {
    CallStageRoute(life, stage, device);
  }

  lemma LifeStepOk(pc: Pc, life: Life, stop: bool, env: Env)
    requires Living(pc) && LifeOk(pc, life)
    ensures var (life', pc') := LifeStep(pc, life, stop, env);
            && LifeOk(pc', life') && (Torn(pc') ==> Torn(pc))
            && (Living(pc') || pc'.DoDeactivate? || pc'.ReadQuiescent?)
  {
    match pc
    case CancelBeforeOpen =>
    case Observe(stage) => ObserveOk(life, stage, env.observerOk);
    case CallDevice(stage) => CallStageOk(life, stage, env.device);
    case Cancel(stage) => CancelOk(life, stage, stop);
  }

  lemma ObserveOk(life: Life, stage: Stage, ok: bool)
    requires LifeOk(Observe(stage), life)
    ensures var (life', pc') := ObserveStage(life, stage, ok);
            && LifeOk(pc', life') && (Torn(pc') ==> Torn(Observe(stage)))
            && (Living(pc') || pc'.DoDeactivate? || pc'.ReadQuiescent?)
  {
  }

  lemma CancelOk(life: Life, stage: Stage, stop: bool)
    requires LifeOk(Cancel(stage), life)
    ensures var life' := CheckCancellation(life, stop, stage);
            var pc' := AfterStage(life', stage);
            && LifeOk(pc', life') && (Torn(pc') ==> Torn(Cancel(stage)))
            && (Living(pc') || pc'.DoDeactivate? || pc'.ReadQuiescent?)
  {
  }

  // ---------------------------------------------------------------------------------------------
  // What holds at each point of the control thread
  // ---------------------------------------------------------------------------------------------

  /** Teardown has deactivated the callback. */
  predicate Torn(pc: Pc) {
    || ((pc.Observe? || pc.CallDevice? || pc.Cancel?) && (pc.stage == Stop || pc.stage == Close))
    || Reading(pc) || Settling(pc) || Reporting(pc)
  }

  /** Every stage was reached and none failed or was cancelled. */
  ghost predicate Untroubled(life: Life) {
    life.streamed && life.primary == None && life.cancellation == None && !life.stopFailed && !life.closeFailed
  }

  /** The recording is complete and contains nothing but accepted callbacks. */
  ghost predicate Clean(op: Op) {
    var s := op.callback.shared;
    && Untroubled(op.life) && C.Frozen(op.callback) && s.frames == op.requested
    && s.rejected == 0 && s.overruns == 0 && s.callbacks == |s.committed|
  }

  /** What has been read is still true: the reads began with the in-flight counter at zero. */
  ghost predicate Judged(op: Op) {
    var v, pc := op.verdict, op.pc;
    && (v.quiescent ==> C.Frozen(op.callback))
    && (v.quiescent && !pc.ReadFrames? ==> v.frames == op.callback.shared.frames)
    && ((pc.ReadLateAgain? || Settling(pc)) && v.error == None ==> Clean(op) && v.quiescent)
    && (pc.ReleaseGate? ==> v.quiescent && op.life.closeComplete && v.late == 0)
    && (pc.QuarantineGate? ==> !v.quiescent || !op.life.closeComplete || v.late != 0)
  }

  ghost predicate StatsOk(op: Op) {
    var pc, stats := op.pc, op.verdict.stats;
    && (pc.StatCallbacks? || stats.callbacks == |op.callback.shared.committed|)
    && (pc.StatCallbacks? || pc.StatFrames? || stats.frames == op.requested)
    && (pc.StatCallbacks? || pc.StatFrames? || pc.StatOverruns? || stats.overruns == 0)
  }

  /** What a returned recording is: the accepted inputs in the order they were accepted, all that
      was asked for, every counted callback among them, and none of them overrun. */
  ghost predicate ResultOk(op: Op, samples: seq<C.Sample>, stats: Stats) {
    var s := op.callback.shared;
    && samples == Flatten(s.committed) && |samples| == C.Span(op.requested, s.channels)
    && stats.frames == op.requested && stats.callbacks == |s.committed| && stats.overruns == 0
  }

  ghost predicate Finished(op: Op)
    requires op.pc.Done?
  {
    match op.pc.outcome
    case Captured(samples, stats) => !op.threw && Untroubled(op.life) && C.Frozen(op.callback) && ResultOk(op, samples, stats)
    case Failed(_) => !op.callback.shared.taken
  }

  ghost predicate OpInv(op: Op) { C.Inv(op.callback) && PointInv(op) }

  /** All of it but the callback's own invariant. */
  ghost predicate PointInv(op: Op) {
    && op.callback.shared.requested == op.requested
    && LifeOrThrown(op)
    && (op.threw ==> op.pc.Done?)
    && (Torn(op.pc) ==> !op.callback.shared.accepting)
    && (!op.pc.Done? ==> !op.callback.shared.taken)
    && (Settling(op.pc) || (Reading(op.pc) && !op.pc.ReadQuiescent?) ==> Judged(op))
    && (Reporting(op.pc) ==> Clean(op) && StatsOk(op))
    && (op.pc.Done? ==> Finished(op))
    && (op.holding <==> !(op.pc.BeginGate? || op.pc.ReturnError? || op.pc.Done? || Reporting(op.pc)))
  }

  ghost predicate LifeOrThrown(op: Op) { !op.threw ==> LifeOk(op.pc, op.life) }

  lemma NewOpInv(channels: C.Channels, frames: nat)
    requires frames > 0
    ensures OpInv(NewOp(channels, frames))
  {
    C.FreshInv(channels, frames);
  }

  lemma ThrowInv(op: Op)
    requires OpInv(op) && !op.pc.Done?
    ensures OpInv(Throw(op))
  {
  }

  lemma LivingOn(op: Op, life: Life, pc: Pc)
    requires PointInv(op) && Living(op.pc) && LifeOk(pc, life) && (Torn(pc) ==> Torn(op.pc))
    requires Living(pc) || pc.DoDeactivate? || pc.ReadQuiescent?
    ensures PointInv(op.(life := life, pc := pc))
  {
  }

  lemma LivingPoint(op: Op, env: Env)
    requires PointInv(op) && Living(op.pc)
    ensures var (life, pc) := LifeStep(op.pc, op.life, op.callback.shared.stop, env); PointInv(op.(life := life, pc := pc))
  {
    LifeStepOk(op.pc, op.life, op.callback.shared.stop, env);
    var (life, pc) := LifeStep(op.pc, op.life, op.callback.shared.stop, env);
    LivingOn(op, life, pc);
  }

  lemma LivingStepInv(gate: G.State, op: Op, env: Env)
    requires OpInv(op) && Living(op.pc)
    ensures OpInv(Step(gate, op, env).1)
  {
    LivingPoint(op, env);
  }

  lemma BeginStepInv(gate: G.State, op: Op)
    requires PointInv(op) && Beginning(op.pc)
    ensures PointInv(Begin(gate, op).1) && Begin(gate, op).1.callback == op.callback
  {
  }

  lemma DeactivateStepInv(op: Op)
    requires OpInv(op) && op.pc.DoDeactivate?
    ensures var (life, pc) := Deactivated(op.life);
            OpInv(op.(callback := C.Deactivate(op.callback), life := life, pc := pc))
  {
    C.QuieterInv(op.callback, C.Deactivate(op.callback).shared);
    DeactivatePoint(op);
  }

  lemma DeactivatePoint(op: Op)
    requires PointInv(op) && op.pc.DoDeactivate?
    ensures var (life, pc) := Deactivated(op.life);
            PointInv(op.(callback := C.Deactivate(op.callback), life := life, pc := pc))
  {
  }

  /** What each read of the callback adds to the verdict. */
  lemma JudgeOk(op: Op)
    requires OpInv(op) && Reading(op.pc)
    ensures var (v, pc) := Judge(op.pc, op.life, op.verdict, op.callback, op.requested);
            && Judged(op.(verdict := v, pc := pc))
            && !pc.ReadQuiescent? && (Reading(pc) || Settling(pc))
  {
    if op.pc.ReadQuiescent? && op.callback.inFlight == 0 {
      C.QuiescentFreezes(op.callback);
    }
    var s := op.callback.shared;
    if op.pc.ReadFailure? && op.verdict.quiescent && s.frames == op.requested && s.failure == C.NoFailure { C.CompleteMeansClean(s); }
  }

  lemma ReadingStepInv(op: Op, v: Verdict, pc: Pc)
    requires PointInv(op) && Reading(op.pc)
    requires !pc.ReadQuiescent? && (Reading(pc) || Settling(pc)) && Judged(op.(verdict := v, pc := pc))
    ensures PointInv(op.(verdict := v, pc := pc))
  {
  }

  lemma SettleStepInv(op: Op)
    requires OpInv(op) && Settling(op.pc)
    ensures OpInv(op.(holding := false, pc := AfterGate(op.verdict.error)))
  {
  }

  lemma ReturnStepInv(op: Op)
    requires OpInv(op) && op.pc.ReturnError?
    ensures OpInv(op.(pc := Done(Failed(op.pc.error))))
  {
  }

  lemma ReportStepInv(op: Op)
    requires OpInv(op) && Reporting(op.pc) && !op.pc.Publish?
    ensures var (stats, pc) := Report(op.pc, op.verdict.stats, op.callback.shared);
            OpInv(op.(verdict := op.verdict.(stats := stats), pc := pc))
  {
  }

  lemma PublishStepInv(gate: G.State, op: Op, env: Env)
    requires OpInv(op) && op.pc.Publish?
    ensures OpInv(Step(gate, op, env).1)
  {
    C.TakeInv(op.callback);
    var s := op.callback.shared;
    assert s.samples[..C.Span(s.frames, s.channels)] == s.samples;
  }

  /** Every step of the control thread, under every behaviour of the device and the observer. */
  lemma StepInv(gate: G.State, op: Op, env: Env)
    requires OpInv(op)
    ensures OpInv(Step(gate, op, env).1)
  {
    if Beginning(op.pc) {
      BeginStepInv(gate, op);
    } else if Living(op.pc) {
      LivingStepInv(gate, op, env);
    } else if op.pc.DoDeactivate? {
      DeactivateStepInv(op);
    } else if Reading(op.pc) {
      JudgeOk(op);
      var (v, pc) := Judge(op.pc, op.life, op.verdict, op.callback, op.requested);
      ReadingStepInv(op, v, pc);
    } else if Settling(op.pc) {
      SettleStepInv(op);
    } else if op.pc.Publish? {
      PublishStepInv(gate, op, env);
    } else if op.pc.ReturnError? {
      ReturnStepInv(op);
    } else if !op.pc.Done? {
      ReportStepInv(op);
    }
  }

  /** Whatever device threads do to the callback, the control thread's knowledge stays true. */
  lemma CallbackMoves(op: Op, cb: C.Callback)
    requires OpInv(op) && C.Inv(cb)
    requires cb.shared.requested == op.requested && cb.shared.taken == op.callback.shared.taken
    requires cb.shared.accepting == op.callback.shared.accepting
    requires C.Frozen(op.callback) ==> C.Frozen(cb) && C.SameRecording(op.callback.shared, cb.shared)
    ensures OpInv(op.(callback := cb))
  {
  }
}
