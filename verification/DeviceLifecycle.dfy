/** The control side of one operation of `evaluation/audio_device/device_contract.cpp`: open, start,
    stream, stop and close, what went wrong in each, and the result. */
module DeviceLifecycle {
  import opened Wrappers
  import opened ContractCallback
  import opened DeviceContract

  datatype Code = InvalidLimits | InvalidFormat | InvalidBuffer | TooLarge | InProgress | Cancelled
                | FromDevice(failure: DeviceFailure) | UnderrunSeen | OverrunSeen | ContractBroken
                | IncompleteStream | LateCallback | CleanupFailed

  datatype Stats = Stats(callbacks: nat, frames: nat, xruns: nat, late: nat)

  datatype Result = Success(stats: Stats) | Failure(code: Code, stage: Stage)

  /** `LifecycleState`, with the calls made on the device and what its stream left. */
  datatype Life = Life(calls: seq<Stage>, primary: Option<(DeviceFailure, Stage)>, stopFailed: bool, closeFailed: bool,
                       cancelledAt: Option<Stage>, streamed: Streamed)

  function StatsOf(s: State): Stats { Stats(s.callbacks, s.frames, s.xruns, s.late) }

  function Observed(l: Life, cancel: Cancel, stage: Stage): Life {
    if l.cancelledAt.None? && Seen(cancel, stage) then l.(cancelledAt := Some(stage)) else l
  }

  predicate Halted(l: Life) { l.primary.Some? || l.cancelledAt.Some? }

  function Initial(c: Config, cancel: Cancel): Life {
    Life([], None, false, false, if cancel == Before then Some(Open) else None, Streamed(Fresh(c), [], [], false))
  }

  function FailureAt(plan: Plan, stage: Stage): Option<(DeviceFailure, Stage)> {
    match Scripted(plan.failures, stage) case None => None case Some(code) => Some((code, stage))
  }

  /** Open or start. */
  function Entered(l: Life, plan: Plan, stage: Stage, cancel: Cancel): Life {
    Observed(l.(calls := l.calls + [stage], primary := FailureAt(plan, stage)), cancel, stage)
  }

  function Quiet(cancel: Cancel): int { if cancel.During? && cancel.stage == Stream then cancel.quiet else -1 }

  /** What `stream()` leaves, and how it fails. */
  function StreamResult(plan: Plan, c: Config, before: Streamed, quiet: int): (Streamed, Option<DeviceFailure>)
    requires Sound(c, before.state)
  {
    var scripted := Scripted(plan.failures, Stream);
    if scripted.Some? then (before, scripted) else
      var r := Callbacks(c, before.state, plan.callbacks, plan.continueAfterTerminal, quiet);
      (r, if r.broken then Some(Internal) else None)
  }

  function Streaming(l: Life, plan: Plan, c: Config, cancel: Cancel): Life
    requires Sound(c, l.streamed.state)
  {
    var (r, failure) := StreamResult(plan, c, l.streamed, Quiet(cancel));
    Observed(l.(calls := l.calls + [Stream], streamed := r,
                primary := match failure case None => None case Some(code) => Some((code, Stream))), cancel, Stream)
  }

  /** `run_primary_lifecycle`. */
  function Primary(plan: Plan, c: Config, cancel: Cancel): Life
    requires ValidConfig(c)
  {
    var l0 := Initial(c, cancel);
    if Halted(l0) then l0 else
      var l1 := Entered(l0, plan, Open, cancel);
      if Halted(l1) then l1 else
        var l2 := Entered(l1, plan, Start, cancel);
        if Halted(l2) then l2 else Streaming(l2, plan, c, cancel)
  }

  function Stopped(l: Life, plan: Plan, cancel: Cancel): Life {
    if Start !in l.calls then l else
      Observed(l.(calls := l.calls + [Stop], stopFailed := Scripted(plan.failures, Stop).Some?), cancel, Stop)
  }

  /** The object may be called while the device closes; it no longer accepts anything. */
  function CloseCallback(r: Streamed): Streamed {
    r.(state := r.state.(late := r.state.late + 1), decisions := r.decisions + [Abort])
  }

  function Closed(l: Life, plan: Plan, cancel: Cancel): Life {
    if Open !in l.calls then l else
      Observed(l.(calls := l.calls + [Close],
                  streamed := if plan.callbackDuringClose then CloseCallback(l.streamed) else l.streamed,
                  closeFailed := Scripted(plan.failures, Close).Some? || l.streamed.broken), cancel, Close)
  }

  /** `run_cleanup`. */
  function Cleaned(l: Life, plan: Plan, cancel: Cancel): Life {
    var inactive := l.(streamed := l.streamed.(state := l.streamed.state.(accepting := false)));
    Closed(Stopped(inactive, plan, cancel), plan, cancel)
  }

  function CallbackCode(f: ContractCallback.Failure): Code {
    match f
    case Underrun => UnderrunSeen
    case Overrun => OverrunSeen
    case Lost => FromDevice(Gone)
    case Violation => ContractBroken
    case NoFailure => FromDevice(Internal)
  }

  /** `lifecycle_result`. */
  function Concluded(l: Life, c: Config): Result {
    var s := l.streamed.state;
    if l.closeFailed then Failure(CleanupFailed, Close)
    else if l.stopFailed then Failure(CleanupFailed, Stop)
    else if s.late != 0 then Failure(LateCallback, Close)
    else if l.cancelledAt.Some? then Failure(Cancelled, l.cancelledAt.value)
    else if s.failure != NoFailure then Failure(CallbackCode(s.failure), Stream)
    else if l.primary.Some? then Failure(FromDevice(l.primary.value.0), l.primary.value.1)
    else if s.frames != c.total then Failure(IncompleteStream, Stream)
    else Success(StatsOf(s))
  }

  /** `execute_lifecycle`. */
  function Executed(plan: Plan, c: Config, cancel: Cancel): Life
    requires ValidConfig(c)
  {
    Cleaned(Primary(plan, c, cancel), plan, cancel)
  }

  // ---------------------------------------------------------------------------------------------
  // What holds of every operation
  // ---------------------------------------------------------------------------------------------

  predicate Trace(calls: seq<Stage>) {
    || calls == []
    || calls == [Open, Close]
    || calls == [Open, Start, Stop, Close]
    || calls == [Open, Start, Stream, Stop, Close]
  }

  lemma PrimaryCalls(plan: Plan, c: Config, cancel: Cancel)
    requires ValidConfig(c)
    ensures var l := Primary(plan, c, cancel);
            && (l.calls == [] || l.calls == [Open] || l.calls == [Open, Start] || l.calls == [Open, Start, Stream])
            && (l.calls != [Open, Start, Stream] ==> Halted(l) && l.streamed == Streamed(Fresh(c), [], [], false))
            && !l.stopFailed && !l.closeFailed && l.streamed.state.late == 0
  {
    var l := Primary(plan, c, cancel);
    if l.calls == [Open, Start, Stream] {
      NeverLate(c, Fresh(c), plan.callbacks, plan.continueAfterTerminal, Quiet(cancel));
    }
  }

  lemma {:induction false} NeverLate(c: Config, s: State, steps: seq<Step>, carryOn: bool, quiet: int)
    requires Sound(c, s) && s.accepting && s.late == 0
    ensures Callbacks(c, s, steps, carryOn, quiet).state.late == 0
    decreases |steps|
  {
    if steps != [] && Countable(c, steps[0]) {
      var b := BufferOf(c, steps[0]);
      ProcessedSound(c, s, b, quiet == 0);
      NeverLate(c, Processed(c, s, b, quiet == 0).0, steps[1..], carryOn, if quiet > 0 then quiet - 1 else quiet);
    }
  }

  lemma CleanedCalls(l: Life, plan: Plan, cancel: Cancel)
    ensures Cleaned(l, plan, cancel).calls
         == l.calls + (if Start in l.calls then [Stop] else []) + (if Open in l.calls then [Close] else [])
  {
  }

  /** For every script and cancellation, the device is called in one of four orders. */
  lemma ScriptedTrace(plan: Plan, c: Config, cancel: Cancel)
    requires ValidConfig(c)
    ensures Trace(Executed(plan, c, cancel).calls)
  {
    PrimaryCalls(plan, c, cancel);
    CleanedTrace(Primary(plan, c, cancel), plan, cancel);
  }

  lemma CleanedTrace(l: Life, plan: Plan, cancel: Cancel)
    requires l.calls == [] || l.calls == [Open] || l.calls == [Open, Start] || l.calls == [Open, Start, Stream]
    ensures Trace(Cleaned(l, plan, cancel).calls)
  {
    CleanedCalls(l, plan, cancel);
  }

  /** Nothing stands in the way of success but the callbacks themselves. */
  predicate Undisturbed(plan: Plan, cancel: Cancel) {
    cancel == Never && plan.failures == [] && !plan.callbackDuringClose
  }

  lemma SuccessUndisturbed(plan: Plan, c: Config, cancel: Cancel)
    requires ValidConfig(c) && Concluded(Executed(plan, c, cancel), c).Success?
    ensures Undisturbed(plan, cancel)
  {
    PrimaryCalls(plan, c, cancel);
    CleanedSuccess(Primary(plan, c, cancel), plan, c, cancel);
    PrimarySuccess(plan, c, cancel);
    NoFailures(plan.failures);
  }

  /** Success after cleanup, whatever came before it. */
  lemma CleanedSuccess(l: Life, plan: Plan, c: Config, cancel: Cancel)
    requires Concluded(Cleaned(l, plan, cancel), c).Success? && Open in l.calls && Start in l.calls
    ensures Scripted(plan.failures, Stop) == None && Scripted(plan.failures, Close) == None && !plan.callbackDuringClose
    ensures cancel == Never && !Halted(l)
  {
  }

  lemma PrimarySuccess(plan: Plan, c: Config, cancel: Cancel)
    requires ValidConfig(c) && !Halted(Primary(plan, c, cancel))
    ensures Scripted(plan.failures, Open) == None && Scripted(plan.failures, Start) == None && Scripted(plan.failures, Stream) == None
  {
  }

  lemma NoFailures(failures: seq<StageFailure>)
    ensures (forall stage :: Scripted(failures, stage) == None) <==> failures == []
    ensures (forall stage :: Scripted(failures, stage) == None) <==>
              && Scripted(failures, Open) == None && Scripted(failures, Start) == None && Scripted(failures, Stream) == None
              && Scripted(failures, Stop) == None && Scripted(failures, Close) == None
  {
    if failures != [] {
      assert Scripted(failures, failures[0].stage).Some?;
      match failures[0].stage case Open => case Start => case Stream => case Stop => case Close =>
    }
  }

  lemma UndisturbedLife(plan: Plan, c: Config)
    requires ValidConfig(c) && Undisturbed(plan, Never)
    ensures var r := Callbacks(c, Fresh(c), plan.callbacks, plan.continueAfterTerminal, -1);
            var l := Executed(plan, c, Never);
            && l.streamed == r.(state := r.state.(accepting := false))
            && (Concluded(l, c).Success? <==> Completed(c, r))
            && (Completed(c, r) ==> Concluded(l, c) == Success(StatsOf(r.state)))
  {
    NeverLate(c, Fresh(c), plan.callbacks, plan.continueAfterTerminal, -1);
  }

  /** An operation on the scripted device succeeds exactly when it is not cancelled, no stage is
      scripted to fail, there is no callback during close, and some run of normal, well-sized
      callbacks from the start completes the requested frames with nothing called after it. */
  lemma OperationExact(plan: Plan, c: Config, cancel: Cancel)
    requires ValidConfig(c)
    ensures Concluded(Executed(plan, c, cancel), c).Success? <==>
              Undisturbed(plan, cancel) && exists k :: Completion(c, plan.callbacks, plan.continueAfterTerminal, k)
  {
    if Concluded(Executed(plan, c, cancel), c).Success? { SuccessUndisturbed(plan, c, cancel); }
    if Undisturbed(plan, cancel) {
      UndisturbedLife(plan, c);
      FreshUnderway(c, plan.callbacks);
      assert plan.callbacks[0..] == plan.callbacks;
      StreamExact(c, Fresh(c), plan.callbacks, 0, plan.continueAfterTerminal);
    }
  }

  /** A capture that succeeds returns exactly the inputs of the callbacks up to the one that completed
      it, all of them counted, none overrun and none late. */
  lemma CaptureReturnsInputs(plan: Plan, c: Config, cancel: Cancel)
    requires ValidConfig(c) && c.direction == Capture && Concluded(Executed(plan, c, cancel), c).Success?
    ensures exists k: nat :: && Completion(c, plan.callbacks, plan.continueAfterTerminal, k)
                        && Executed(plan, c, cancel).streamed.state.captured == Inputs(plan.callbacks[..k])
                        && Concluded(Executed(plan, c, cancel), c) == Success(Stats(k, c.total, 0, 0))
  {
    SuccessUndisturbed(plan, c, cancel);
    UndisturbedLife(plan, c);
    FreshUnderway(c, plan.callbacks);
    assert plan.callbacks[0..] == plan.callbacks;
    StreamExact(c, Fresh(c), plan.callbacks, 0, plan.continueAfterTerminal);
  }

  /** A playback that succeeds has played exactly the source, followed only by zeros. */
  lemma PlaybackPlaysSource(plan: Plan, c: Config, cancel: Cancel)
    requires ValidConfig(c) && c.direction == Playback && Concluded(Executed(plan, c, cancel), c).Success?
    ensures var played := Executed(plan, c, cancel).streamed.played;
            |c.playback| <= |played| && played == c.playback + Zeros(|played| - |c.playback|)
  {
    SuccessUndisturbed(plan, c, cancel);
    UndisturbedLife(plan, c);
    var r := Callbacks(c, Fresh(c), plan.callbacks, plan.continueAfterTerminal, -1);
    assert c.playback[..0] + Zeros(0) == [];
    CallbacksPlay(c, Fresh(c), [], plan.callbacks, plan.continueAfterTerminal, -1);
    assert [] + r.played == r.played;
    WholePlayback(c, r.state, r.played);
  }

  // ---------------------------------------------------------------------------------------------
  // Any device
  // ---------------------------------------------------------------------------------------------

  /** What a device, its callbacks and the cancellation flag do in one operation, whatever they are: how
      each stage ends, what each look at the flag finds, the callback object after the stream, and the
      calls that come during stop and close. */
  datatype Circumstances = Circumstances(before: bool, fails: Stage -> Option<DeviceFailure>, seen: Stage -> bool,
                                         streamed: Streamed, lateCalls: nat)

  function Noticed(l: Life, seen: bool, stage: Stage): Life {
    if l.cancelledAt.None? && seen then l.(cancelledAt := Some(stage)) else l
  }

  function Failing(e: Circumstances, stage: Stage): Option<(DeviceFailure, Stage)> {
    match e.fails(stage) case None => None case Some(code) => Some((code, stage))
  }

  function AnyEntered(l: Life, e: Circumstances, stage: Stage): Life {
    Noticed(l.(calls := l.calls + [stage], primary := Failing(e, stage)), e.seen(stage), stage)
  }

  /** `run_primary_lifecycle` with any device. */
  function AnyPrimary(c: Config, e: Circumstances): Life {
    var l0 := Initial(c, if e.before then Before else Never);
    if Halted(l0) then l0 else
      var l1 := AnyEntered(l0, e, Open);
      if Halted(l1) then l1 else
        var l2 := AnyEntered(l1, e, Start);
        if Halted(l2) then l2 else AnyEntered(l2.(streamed := e.streamed), e, Stream)
  }

  function AnyStopped(l: Life, e: Circumstances): Life {
    if Start !in l.calls then l
    else Noticed(l.(calls := l.calls + [Stop], stopFailed := e.fails(Stop).Some?), e.seen(Stop), Stop)
  }

  function AnyClosed(l: Life, e: Circumstances): Life {
    if Open !in l.calls then l
    else Noticed(l.(calls := l.calls + [Close], closeFailed := e.fails(Close).Some?,
                    streamed := l.streamed.(state := l.streamed.state.(late := l.streamed.state.late + e.lateCalls))),
                 e.seen(Close), Close)
  }

  /** `execute_lifecycle` with any device. */
  function AnyExecuted(c: Config, e: Circumstances): Life {
    var l := AnyPrimary(c, e);
    AnyClosed(AnyStopped(l.(streamed := l.streamed.(state := l.streamed.state.(accepting := false))), e), e)
  }

  lemma AnyPrimaryCalls(c: Config, e: Circumstances)
    ensures var l := AnyPrimary(c, e);
            && (l.calls == [] || l.calls == [Open] || l.calls == [Open, Start] || l.calls == [Open, Start, Stream])
            && (l.calls != [Open, Start, Stream] ==> Halted(l))
            && !l.stopFailed && !l.closeFailed
  {
  }

  lemma AnyCleanedCalls(l: Life, e: Circumstances)
    ensures AnyClosed(AnyStopped(l, e), e).calls
         == l.calls + (if Start in l.calls then [Stop] else []) + (if Open in l.calls then [Close] else [])
  {
  }

  lemma AnyCleanedTrace(l: Life, e: Circumstances)
    requires l.calls == [] || l.calls == [Open] || l.calls == [Open, Start] || l.calls == [Open, Start, Stream]
    ensures Trace(AnyClosed(AnyStopped(l, e), e).calls)
  {
    AnyCleanedCalls(l, e);
  }

  /** For every device, every behaviour of its callbacks, and cancellation seen at any of the checks, the
      device is called in one of four orders. */
  lemma TraceShape(c: Config, e: Circumstances)
    ensures Trace(AnyExecuted(c, e).calls)
  {
    AnyPrimaryCalls(c, e);
    var l := AnyPrimary(c, e);
    AnyCleanedTrace(l.(streamed := l.streamed.(state := l.streamed.state.(accepting := false))), e);
  }

  /** And an operation succeeds exactly when no stage failed, no check saw cancellation, no call was late, no
      callback failed, and all frames were delivered. */
  lemma AnySuccess(c: Config, e: Circumstances)
    ensures Concluded(AnyExecuted(c, e), c).Success? <==>
              && !e.before && (forall stage :: e.fails(stage) == None && !e.seen(stage))
              && e.streamed.state.late + e.lateCalls == 0 && e.streamed.state.failure == NoFailure && e.streamed.state.frames == c.total
  {
    AnyPrimaryCalls(c, e);
    if Concluded(AnyExecuted(c, e), c).Success? {
      AnyFlawless(c, e);
    }
  }

  lemma AnyFlawless(c: Config, e: Circumstances)
    requires Concluded(AnyExecuted(c, e), c).Success?
    ensures !e.before && (forall stage :: e.fails(stage) == None && !e.seen(stage))
  {
    AnyPrimaryCalls(c, e);
    var l := AnyPrimary(c, e);
    AnyCleanedFlawless(l.(streamed := l.streamed.(state := l.streamed.state.(accepting := false))), c, e);
    AnyPrimaryFlawless(c, e);
    forall stage ensures e.fails(stage) == None && !e.seen(stage) {
      match stage case Open => case Start => case Stream => case Stop => case Close =>
    }
  }

  /** Success after cleanup, whatever came before it. */
  lemma AnyCleanedFlawless(l: Life, c: Config, e: Circumstances)
    requires Concluded(AnyClosed(AnyStopped(l, e), e), c).Success?
    ensures !Halted(l)
    ensures Open in l.calls ==> e.fails(Close) == None && !e.seen(Close)
    ensures Start in l.calls ==> e.fails(Stop) == None && !e.seen(Stop)
  {
  }

  lemma AnyPrimaryFlawless(c: Config, e: Circumstances)
    requires !Halted(AnyPrimary(c, e))
    ensures !e.before && forall stage | stage == Open || stage == Start || stage == Stream :: e.fails(stage) == None && !e.seen(stage)
  {
  }

  /** The circumstances of an operation on the scripted device. */
  function ScriptedCircumstances(plan: Plan, c: Config, cancel: Cancel): Circumstances
    requires ValidConfig(c)
  {
    var (streamed, failure) := StreamResult(plan, c, Streamed(Fresh(c), [], [], false), Quiet(cancel));
    var broken := Primary(plan, c, cancel).streamed.broken;
    Circumstances(cancel == Before,
                  stage => if stage == Stream then failure
                           else if stage == Close && broken && Scripted(plan.failures, Close).None? then Some(Internal)
                           else Scripted(plan.failures, stage),
                  stage => Seen(cancel, stage), streamed, if plan.callbackDuringClose then 1 else 0)
  }

  /** The circumstances agree with the script on a stage. */
  ghost predicate Agree(e: Circumstances, plan: Plan, stage: Stage, cancel: Cancel) {
    e.fails(stage) == Scripted(plan.failures, stage) && e.seen(stage) == Seen(cancel, stage)
  }

  lemma EnterIsAny(l: Life, e: Circumstances, plan: Plan, stage: Stage, cancel: Cancel)
    requires Agree(e, plan, stage, cancel)
    ensures AnyEntered(l, e, stage) == Entered(l, plan, stage, cancel)
  {
  }

  lemma StopIsAny(l: Life, e: Circumstances, plan: Plan, cancel: Cancel)
    requires Agree(e, plan, Stop, cancel)
    ensures AnyStopped(l, e) == Stopped(l, plan, cancel) && Stopped(l, plan, cancel).streamed == l.streamed
  {
  }

  /** They differ at most in what the device has recorded of the callbacks. */
  ghost predicate SameOutcome(l: Life, l': Life) { l' == l.(streamed := l'.streamed) && l'.streamed.state == l.streamed.state }

  lemma CloseIsAny(l: Life, e: Circumstances, plan: Plan, cancel: Cancel)
    requires (e.fails(Close).Some? <==> Scripted(plan.failures, Close).Some? || l.streamed.broken) && e.seen(Close) == Seen(cancel, Close)
    requires e.lateCalls == if plan.callbackDuringClose then 1 else 0
    ensures SameOutcome(AnyClosed(l, e), Closed(l, plan, cancel))
  {
  }

  lemma SameConclusion(l: Life, l': Life, c: Config)
    requires SameOutcome(l, l')
    ensures l'.calls == l.calls && Concluded(l', c) == Concluded(l, c)
  {
  }

  /** The scripted device is one of them. */
  lemma ScriptedIsAny(plan: Plan, c: Config, cancel: Cancel)
    requires ValidConfig(c)
    ensures var any := AnyExecuted(c, ScriptedCircumstances(plan, c, cancel));
            any.calls == Executed(plan, c, cancel).calls && Concluded(any, c) == Concluded(Executed(plan, c, cancel), c)
  {
    var e, p := ScriptedCircumstances(plan, c, cancel), Primary(plan, c, cancel);
    var inactive := p.(streamed := p.streamed.(state := p.streamed.state.(accepting := false)));
    PrimaryIsAny(plan, c, cancel);
    StopIsAny(inactive, e, plan, cancel);
    CloseIsAny(Stopped(inactive, plan, cancel), e, plan, cancel);
    SameConclusion(AnyClosed(AnyStopped(inactive, e), e), Closed(Stopped(inactive, plan, cancel), plan, cancel), c);
  }

  lemma PrimaryIsAny(plan: Plan, c: Config, cancel: Cancel)
    requires ValidConfig(c)
    ensures AnyPrimary(c, ScriptedCircumstances(plan, c, cancel)) == Primary(plan, c, cancel)
  {
    var e, l0 := ScriptedCircumstances(plan, c, cancel), Initial(c, cancel);
    var l1 := Entered(l0, plan, Open, cancel);
    EnterIsAny(l0, e, plan, Open, cancel);
    EnterIsAny(l1, e, plan, Start, cancel);
    StreamIsAny(Entered(l1, plan, Start, cancel), plan, c, cancel);
  }

  lemma StreamIsAny(l: Life, plan: Plan, c: Config, cancel: Cancel)
    requires ValidConfig(c) && l.streamed == Streamed(Fresh(c), [], [], false)
    ensures var e := ScriptedCircumstances(plan, c, cancel);
            AnyEntered(l.(streamed := e.streamed), e, Stream) == Streaming(l, plan, c, cancel)
  {
  }

  // ---------------------------------------------------------------------------------------------
  // What is reported otherwise
  // ---------------------------------------------------------------------------------------------

  /** Whatever else happened, a device that was opened and does not close is a failed cleanup, and so
      is one that closes but does not stop; a callback during close is reported next. */
  lemma CleanupFailureComesFirst(plan: Plan, c: Config, cancel: Cancel)
    requires ValidConfig(c)
    ensures var l := Executed(plan, c, cancel);
            var r := Concluded(l, c);
            && (Open in l.calls && Scripted(plan.failures, Close).Some? ==> r == Failure(CleanupFailed, Close))
            && (Start in l.calls && Scripted(plan.failures, Close).None? && Scripted(plan.failures, Stop).Some? ==>
                  r.Failure? && r.code == CleanupFailed)
            && (Open in l.calls && Scripted(plan.failures, Close).None? && plan.callbackDuringClose ==>
                  r.Failure? && (r.code == CleanupFailed || r.code == LateCallback))
  {
    PrimaryCalls(plan, c, cancel);
  }

  /** A device none of whose stages fails, and whose thread does not either. */
  predicate Reliable(plan: Plan, c: Config) {
    && plan.failures == [] && !plan.callbackDuringClose
    && forall i | 0 <= i < |plan.callbacks| :: Countable(c, plan.callbacks[i])
  }

  lemma {:induction false} NeverBroken(c: Config, s: State, steps: seq<Step>, carryOn: bool, quiet: int)
    requires Sound(c, s) && forall i | 0 <= i < |steps| :: Countable(c, steps[i])
    ensures !Callbacks(c, s, steps, carryOn, quiet).broken
    decreases |steps|
  {
    if steps != [] {
      var b := BufferOf(c, steps[0]);
      ProcessedSound(c, s, b, quiet == 0);
      NeverBroken(c, Processed(c, s, b, quiet == 0).0, steps[1..], carryOn, if quiet > 0 then quiet - 1 else quiet);
    }
  }

  /** The calls made when cancellation comes during a stage. */
  function CancelledTrace(stage: Stage): seq<Stage> {
    match stage
    case Open => [Open, Close]
    case Start => [Open, Start, Stop, Close]
    case _ => [Open, Start, Stream, Stop, Close]
  }

  /** What a cancelled primary lifecycle leaves. */
  predicate LeftCancelled(p: Life, stage: Stage) {
    && p.primary == None && !p.streamed.broken && p.streamed.state.late == 0 && !p.stopFailed && !p.closeFailed
    && p.calls == (match stage case Open => [Open] case Start => [Open, Start] case _ => [Open, Start, Stream])
    && p.cancelledAt == (if Rank(stage) <= Rank(Stream) then Some(stage) else None)
  }

  lemma PrimaryCancelled(plan: Plan, c: Config, stage: Stage, quiet: nat)
    requires ValidConfig(c) && Reliable(plan, c)
    ensures LeftCancelled(Primary(plan, c, During(stage, quiet)), stage)
  {
    if stage != Open && stage != Start { StreamCancelled(plan, c, stage, quiet); }
  }

  lemma StreamCancelled(plan: Plan, c: Config, stage: Stage, quiet: nat)
    requires ValidConfig(c) && Reliable(plan, c) && stage != Open && stage != Start
    ensures LeftCancelled(Primary(plan, c, During(stage, quiet)), stage)
  {
    var cancel := During(stage, quiet);
    NeverBroken(c, Fresh(c), plan.callbacks, plan.continueAfterTerminal, Quiet(cancel));
    NeverLate(c, Fresh(c), plan.callbacks, plan.continueAfterTerminal, Quiet(cancel));
  }

  /** On a reliable device, cancellation during any stage is reported as such and with that stage, whatever
      the callbacks did, and the device is closed. */
  lemma CancellationIsReported(plan: Plan, c: Config, stage: Stage, quiet: nat)
    requires ValidConfig(c) && Reliable(plan, c)
    ensures var l := Executed(plan, c, During(stage, quiet));
            Concluded(l, c) == Failure(Cancelled, stage) && l.calls == CancelledTrace(stage)
  {
    var p := Primary(plan, c, During(stage, quiet));
    PrimaryCancelled(plan, c, stage, quiet);
    CleanedCalls(p, plan, During(stage, quiet));
    CleanedCancelled(p, plan, c, stage, quiet);
  }

  lemma CleanedCancelled(p: Life, plan: Plan, c: Config, stage: Stage, quiet: nat)
    requires plan.failures == [] && !plan.callbackDuringClose
    requires !p.streamed.broken && p.streamed.state.late == 0 && !p.stopFailed && !p.closeFailed
    requires Open in p.calls && (stage == Stop ==> Start in p.calls)
    requires p.cancelledAt == if Rank(stage) <= Rank(Stream) then Some(stage) else None
    ensures Concluded(Cleaned(p, plan, During(stage, quiet)), c) == Failure(Cancelled, stage)
  {
  }
}
