/** What a capture answers, from what its control thread met: `capture()` of
    `src/adapters/capture_device.cpp:208-436` over every execution. */
module CaptureErrors {
  import opened Wrappers
  import C = CaptureCallback
  import G = AudioDeviceGate
  import opened CaptureController
  import opened CaptureSystem

  // ---------------------------------------------------------------------------------------------
  // What the control thread has met
  // ---------------------------------------------------------------------------------------------

  /** Why the gate refused it; whether it was stopped before it opened anything; what went wrong in the stages
      up to the stream or with the observer, in order; whether stopping and closing failed; the checks that saw
      a stop, in order; and what was read of the callback after teardown. */
  datatype History = History(refused: Option<ErrorCode>, early: bool, troubles: seq<Error>, stopFailed: bool, closeFailed: bool,
                             stops: seq<Stage>, quiescent: bool, frames: nat, late: nat, failure: C.Failure)

  const BLANK: History := History(None, false, [], false, false, [], false, 0, 0, C.NoFailure)

  function Met(sys: System, a: Action, id: nat, h: History): History {
    if a.Control? && a.id == id && id in sys.ops then MetBy(sys.gate, sys.ops[id].pc, sys.ops[id].callback, a.env, h) else h
  }

  function MetBy(gate: G.State, pc: Pc, cb: C.Callback, env: Env, h: History): History {
    match pc
    case BeginGate =>
      h.(refused := match gate case Idle => None case Active => Some(OperationInProgress) case Quarantined => Some(DeviceQuarantined))
    case EarlyStop => h.(early := cb.shared.stop)
    case CancelBeforeOpen => if cb.shared.stop then h.(stops := h.stops + [Open]) else h
    case Cancel(stage) => if cb.shared.stop then h.(stops := h.stops + [stage]) else h
    case Observe(stage) => if env.observerOk then h else h.(troubles := h.troubles + [Error(INTERNAL, stage)])
    case CallDevice(stage) => CallMet(stage, env.device, h)
    case ReadQuiescent => h.(quiescent := cb.inFlight == 0)
    case ReadFrames => h.(frames := cb.shared.frames)
    case ReadLate => h.(late := cb.shared.late)
    case ReadFailure => h.(failure := cb.shared.failure)
    case _ => h
  }

  function CallMet(stage: Stage, device: Option<DeviceFailure>, h: History): History {
    match device
    case None => h
    case Some(failure) =>
      if stage == Stop then h.(stopFailed := true)
      else if stage == Close then h.(closeFailed := true)
      else h.(troubles := h.troubles + [Error(Device(failure), stage)])
  }

  function HistoryOf(states: seq<System>, actions: seq<Action>, id: nat, k: nat): History
    requires k <= |actions| && |states| == |actions| + 1
  {
    if k == 0 then BLANK else Met(states[k - 1], actions[k - 1], id, HistoryOf(states, actions, id, k - 1))
  }

  function First<T>(s: seq<T>): Option<T> { if s == [] then None else Some(s[0]) }

  /** What may be wrong, each on its own, the gravest first. */
  function Candidate(h: History, requested: nat, rank: nat): Option<Error> {
    match rank
    case 0 => if h.refused.Some? then Some(Error(h.refused.value, Open)) else None
    case 1 => if h.early then Some(Error(Cancelled, Open)) else None
    case 2 => if h.closeFailed then Some(Error(CleanupFailed, Close)) else None
    case 3 => if h.late > 0 || !h.quiescent then Some(Error(LateCallback, Close)) else None
    case 4 => if h.stopFailed then Some(Error(CleanupFailed, Stop)) else None
    case 5 => if h.stops != [] then Some(Error(Cancelled, h.stops[0])) else None
    case 6 =>
      (match h.failure
       case NoFailure => None
       case Overrun => Some(Error(Overrun, Stream))
       case DeviceLost => Some(Error(Device(DeviceLost), Stream))
       case ContractViolation => Some(Error(CallbackContractViolation, Stream)))
    case 7 => First(h.troubles)
    case 8 => if h.frames != requested then Some(Error(IncompleteStream, Stream)) else None
    case _ => None
  }

  /** The error is the gravest candidate, or there is none. */
  ghost predicate Tells(error: Option<Error>, h: History, requested: nat) {
    match error
    case None => forall rank: nat :: Candidate(h, requested, rank) == None
    case Some(e) => exists rank: nat :: Candidate(h, requested, rank) == Some(e) && NoneBefore(h, requested, rank)
  }

  ghost predicate NoneBefore(h: History, requested: nat, rank: nat) {
    forall lower: nat | lower < rank :: Candidate(h, requested, lower) == None
  }

  // ---------------------------------------------------------------------------------------------
  // What it remembers
  // ---------------------------------------------------------------------------------------------

  /** The control thread is not past the stream. */
  predicate Forward(pc: Pc) {
    || Beginning(pc) || pc.CancelBeforeOpen?
    || ((pc.Observe? || pc.CallDevice?) && (pc.stage == Open || pc.stage == Start || pc.stage == Stream))
  }

  ghost predicate LifeRemembers(pc: Pc, life: Life, h: History) {
    && life.primary == First(h.troubles) && life.cancellation == First(h.stops)
    && life.stopFailed == h.stopFailed && life.closeFailed == h.closeFailed && (h.stopFailed ==> life.stopped)
    && (Forward(pc) ==> h.troubles == [] && h.stops == [])
  }

  ghost predicate ReadsRemember(pc: Pc, v: Verdict, h: History, requested: nat) {
    && (pc.ReadFrames? || pc.ReadLate? || pc.ReadFailure? ==> v.quiescent == h.quiescent)
    && (pc.ReadLate? || pc.ReadFailure? ==> v.frames == h.frames)
    && (pc.ReadFailure? ==> v.late == h.late)
    && (pc.ReadLateAgain? || Settling(pc) ==> Tells(v.error, h, requested))
    && (Reporting(pc) ==> Tells(None, h, requested))
    && (pc.ReturnError? ==> Tells(Some(pc.error), h, requested))
    && (pc.Done? ==> Tells(if pc.outcome.Failed? then Some(pc.outcome.error) else None, h, requested))
  }

  ghost predicate Remembers(op: Op, h: History) {
    !op.threw ==>
      && LifeRemembers(op.pc, op.life, h) && ReadsRemember(op.pc, op.verdict, h, op.requested)
      && (!op.pc.Done? ==> h.refused == None) && (!op.pc.Done? && !op.pc.EarlyRelease? && !op.pc.ReturnError? ==> !h.early)
      && (op.pc.EarlyRelease? ==> h.early)
  }

  lemma FirstAdds<T>(s: seq<T>, t: T)
    ensures First(s + [t]) == if s == [] then Some(t) else First(s)
  {
  }

  lemma ObserveRemembers(life: Life, stage: Stage, ok: bool, h: History)
    requires LifeRemembers(Observe(stage), life, h) && LifeOk(Observe(stage), life)
    ensures var (life', pc') := ObserveStage(life, stage, ok);
            LifeRemembers(pc', life', if ok then h else h.(troubles := h.troubles + [Error(INTERNAL, stage)]))
  {
  }

  lemma CallRemembers(life: Life, stage: Stage, device: Option<DeviceFailure>, h: History)
    requires LifeRemembers(CallDevice(stage), life, h) && LifeOk(CallDevice(stage), life)
    ensures LifeRemembers(Cancel(stage), CallStage(life, stage, device), CallMet(stage, device, h))
  {
  }

  lemma CancelRemembers(life: Life, stage: Stage, stop: bool, h: History)
    requires LifeRemembers(Cancel(stage), life, h)
    ensures var life' := CheckCancellation(life, stop, stage);
            LifeRemembers(AfterStage(life', stage), life', if stop then h.(stops := h.stops + [stage]) else h)
  {
  }

  lemma LivingRemembers(op: Op, env: Env, gate: G.State, h: History)
    requires LifeRemembers(op.pc, op.life, h) && Living(op.pc) && LifeOk(op.pc, op.life)
    ensures var (life, pc) := LifeStep(op.pc, op.life, op.callback.shared.stop, env);
            LifeRemembers(pc, life, MetBy(gate, op.pc, op.callback, env, h))
  {
    match op.pc
    case CancelBeforeOpen =>
    case Observe(stage) => ObserveRemembers(op.life, stage, env.observerOk, h);
    case CallDevice(stage) => CallRemembers(op.life, stage, env.device, h);
    case Cancel(stage) => CancelRemembers(op.life, stage, op.callback.shared.stop, h);
  }

  /** The decision names the gravest candidate. */
  lemma DecisionTells(op: Op, h: History, gate: G.State, env: Env)
    requires Remembers(op, h) && op.pc.ReadFailure? && !op.threw
    ensures Tells(LifecycleError(op.life, op.verdict, op.callback.shared.failure, op.requested),
                  MetBy(gate, op.pc, op.callback, env, h), op.requested)
  {
    var h' := MetBy(gate, op.pc, op.callback, env, h);
    var error := LifecycleError(op.life, op.verdict, op.callback.shared.failure, op.requested);
    if error.Some? {
      var rank := RankOf(h', op.requested);
      assert Candidate(h', op.requested, rank) == error && NoneBefore(h', op.requested, rank);
    }
  }

  /** The first rank that has a candidate. */
  ghost function RankOf(h: History, requested: nat): nat {
    if Candidate(h, requested, 0).Some? then 0
    else if Candidate(h, requested, 1).Some? then 1
    else if Candidate(h, requested, 2).Some? then 2
    else if Candidate(h, requested, 3).Some? then 3
    else if Candidate(h, requested, 4).Some? then 4
    else if Candidate(h, requested, 5).Some? then 5
    else if Candidate(h, requested, 6).Some? then 6
    else if Candidate(h, requested, 7).Some? then 7
    else 8
  }

  lemma LivingStepRemembers(op: Op, env: Env, gate: G.State, h: History)
    requires Remembers(op, h) && Living(op.pc) && !op.threw && LifeOk(op.pc, op.life)
    ensures var (life, pc) := LifeStep(op.pc, op.life, op.callback.shared.stop, env);
            Remembers(op.(life := life, pc := pc), MetBy(gate, op.pc, op.callback, env, h))
  {
    LivingRemembers(op, env, gate, h);
    LifeStepOk(op.pc, op.life, op.callback.shared.stop, env);
    LivingKeeps(op, env, gate, h);
    var (life, pc) := LifeStep(op.pc, op.life, op.callback.shared.stop, env);
    LivingJoins(op, life, pc, MetBy(gate, op.pc, op.callback, env, h));
  }

  lemma LivingJoins(op: Op, life: Life, pc: Pc, h: History)
    requires LifeRemembers(pc, life, h) && h.refused == None && !h.early
    requires Living(pc) || pc.DoDeactivate? || pc.ReadQuiescent?
    ensures Remembers(op.(life := life, pc := pc), h)
  {
  }

  lemma LivingKeeps(op: Op, env: Env, gate: G.State, h: History)
    requires Living(op.pc)
    ensures var h' := MetBy(gate, op.pc, op.callback, env, h); h'.refused == h.refused && h'.early == h.early
  {
  }

  lemma BeginRemembers(op: Op, env: Env, gate: G.State, h: History)
    requires Remembers(op, h) && Beginning(op.pc) && !op.threw
    ensures Remembers(Begin(gate, op).1, MetBy(gate, op.pc, op.callback, env, h))
  {
    var h' := MetBy(gate, op.pc, op.callback, env, h);
    if op.pc.BeginGate? && gate != G.Idle { assert Candidate(h', op.requested, 0).Some? && NoneBefore(h', op.requested, 0); }
    if op.pc.EarlyRelease? { assert Candidate(h', op.requested, 1).Some? && NoneBefore(h', op.requested, 1); }
  }

  lemma ReadingRemembers(op: Op, env: Env, gate: G.State, h: History)
    requires Remembers(op, h) && Reading(op.pc) && !op.threw
    ensures var (v, pc) := Judge(op.pc, op.life, op.verdict, op.callback, op.requested);
            Remembers(op.(verdict := v, pc := pc), MetBy(gate, op.pc, op.callback, env, h))
  {
    if op.pc.ReadFailure? { DecidingRemembers(op, env, gate, h); }
  }

  lemma DecidingRemembers(op: Op, env: Env, gate: G.State, h: History)
    requires Remembers(op, h) && op.pc.ReadFailure? && !op.threw
    ensures var (v, pc) := Judge(op.pc, op.life, op.verdict, op.callback, op.requested);
            Remembers(op.(verdict := v, pc := pc), MetBy(gate, op.pc, op.callback, env, h))
  {
    DecisionTells(op, h, gate, env);
  }

  lemma ControlRemembers(op: Op, env: Env, gate: G.State, h: History)
    requires Remembers(op, h) && OpInv(op) && !op.pc.Done?
    ensures Remembers(Step(gate, op, env).1, MetBy(gate, op.pc, op.callback, env, h))
  {
    if op.threw {
    } else if Beginning(op.pc) {
      BeginRemembers(op, env, gate, h);
    } else if Living(op.pc) {
      LivingStepRemembers(op, env, gate, h);
    } else if Reading(op.pc) {
      ReadingRemembers(op, env, gate, h);
    } else {
      RestRemembers(op, env, gate, h);
    }
  }

  lemma RestRemembers(op: Op, env: Env, gate: G.State, h: History)
    requires Remembers(op, h) && !op.threw && !op.pc.Done? && !Beginning(op.pc) && !Living(op.pc) && !Reading(op.pc)
    ensures Remembers(Step(gate, op, env).1, MetBy(gate, op.pc, op.callback, env, h))
  {
    if Settling(op.pc) {
      SettlingRemembers(op, env, gate, h);
    } else if op.pc.DoDeactivate? {
      DeactivatingRemembers(op, env, gate, h);
    } else {
      ReportingRemembers(op, env, gate, h);
    }
  }

  lemma DeactivatingRemembers(op: Op, env: Env, gate: G.State, h: History)
    requires Remembers(op, h) && !op.threw && op.pc.DoDeactivate?
    ensures Remembers(Step(gate, op, env).1, MetBy(gate, op.pc, op.callback, env, h))
  {
  }

  lemma ReportingRemembers(op: Op, env: Env, gate: G.State, h: History)
    requires Remembers(op, h) && !op.threw && (Reporting(op.pc) || op.pc.ReturnError?)
    ensures Remembers(Step(gate, op, env).1, MetBy(gate, op.pc, op.callback, env, h))
  {
    if op.pc.Publish? {
      PublishRemembers(op, env, gate, h);
    } else if !op.pc.ReturnError? {
      StatRemembers(op, env, gate, h);
    }
  }

  lemma PublishRemembers(op: Op, env: Env, gate: G.State, h: History)
    requires Remembers(op, h) && !op.threw && op.pc.Publish?
    ensures Remembers(Step(gate, op, env).1, MetBy(gate, op.pc, op.callback, env, h))
  {
  }

  lemma StatRemembers(op: Op, env: Env, gate: G.State, h: History)
    requires Remembers(op, h) && !op.threw && Reporting(op.pc) && !op.pc.Publish?
    ensures var (stats, pc) := Report(op.pc, op.verdict.stats, op.callback.shared);
            Remembers(op.(verdict := op.verdict.(stats := stats), pc := pc), MetBy(gate, op.pc, op.callback, env, h))
  {
  }

  lemma SettlingRemembers(op: Op, env: Env, gate: G.State, h: History)
    requires Remembers(op, h) && !op.threw && Settling(op.pc)
    ensures Remembers(op.(holding := false, pc := AfterGate(op.verdict.error)), MetBy(gate, op.pc, op.callback, env, h))
  {
  }

  lemma NextRemembers(sys: System, a: Action, id: nat, h: History)
    requires SysInv(sys) && Enabled(sys, a) && id in Next(sys, a).ops
    requires if id in sys.ops then Remembers(sys.ops[id], h) else h == BLANK
    ensures Remembers(Next(sys, a).ops[id], Met(sys, a, id, h))
  {
    if a.id == id && id in sys.ops {
      assert OpInv(sys.ops[id]);
      if a.Control? { ControlRemembers(sys.ops[id], a.env, sys.gate, h); }
    }
  }

  lemma {:induction false} BlankBefore(states: seq<System>, actions: seq<Action>, id: nat, k: nat)
    requires Execution(states, actions) && k < |states| && id !in states[k].ops
    ensures HistoryOf(states, actions, id, k) == BLANK
  {
    if k > 0 {
      var a := actions[k - 1];
      assert Enabled(states[k - 1], a) && states[k] == Next(states[k - 1], a);
      BlankBefore(states, actions, id, k - 1);
    }
  }

  lemma {:induction false} Remembered(states: seq<System>, actions: seq<Action>, id: nat, k: nat)
    requires Execution(states, actions) && k < |states| && id in states[k].ops
    ensures Remembers(states[k].ops[id], HistoryOf(states, actions, id, k))
    decreases k
  {
    ExecutionInv(states, actions, k - 1);
    if id in states[k - 1].ops { Remembered(states, actions, id, k - 1); } else { BlankBefore(states, actions, id, k - 1); }
    NextRemembers(states[k - 1], actions[k - 1], id, HistoryOf(states, actions, id, k - 1));
  }

  /** In every execution, an operation that is over and raised no exception answers the gravest of what was wrong,
      and succeeds exactly when nothing was. */
  lemma OutcomeExactly(states: seq<System>, actions: seq<Action>, id: nat, k: nat)
    requires Execution(states, actions) && k < |states| && id in states[k].ops
    requires states[k].ops[id].pc.Done? && !states[k].ops[id].threw
    ensures var op, h := states[k].ops[id], HistoryOf(states, actions, id, k);
            && (op.pc.outcome.Captured? <==> Tells(None, h, op.requested))
            && (op.pc.outcome.Failed? ==> Tells(Some(op.pc.outcome.error), h, op.requested))
  {
    Remembered(states, actions, id, k);
    var op, h := states[k].ops[id], HistoryOf(states, actions, id, k);
    if op.pc.outcome.Failed? { TellsOne(op.pc.outcome.error, h, op.requested); }
  }

  lemma TellsOne(e: Error, h: History, requested: nat)
    requires Tells(Some(e), h, requested)
    ensures !Tells(None, h, requested)
  {
    var rank: nat :| Candidate(h, requested, rank) == Some(e) && NoneBefore(h, requested, rank);
    assert Candidate(h, requested, rank) != None;
  }

  /** An operation in which an exception was raised answers an internal failure. */
  lemma ThrewIsInternal(states: seq<System>, actions: seq<Action>, i: nat)
    requires Execution(states, actions) && i < |actions| && actions[i].Raise?
    ensures actions[i].id in states[i + 1].ops
    ensures states[i + 1].ops[actions[i].id].pc == Done(Failed(Error(INTERNAL, Open))) && states[i + 1].gate == G.Quarantined
  {
  }

  /** In every execution a stage up to the stream is begun only while nothing has gone wrong, and teardown only
      after something has, or after the stream. */
  lemma StagesExactly(states: seq<System>, actions: seq<Action>, id: nat, k: nat)
    requires Execution(states, actions) && k < |states| && id in states[k].ops && !states[k].ops[id].threw
    ensures var op, h := states[k].ops[id], HistoryOf(states, actions, id, k);
            && (Forward(op.pc) ==> h.troubles == [] && h.stops == [])
            && (op.pc.DoDeactivate? ==> h.troubles != [] || h.stops != [] || Stream in op.life.trace)
  {
    Remembered(states, actions, id, k);
    ExecutionInv(states, actions, k);
    assert OpInv(states[k].ops[id]);
  }
}
