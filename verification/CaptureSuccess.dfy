/** A capture in which nothing goes wrong succeeds: the stages do not fail, and calls that do not overlap
    deliver what was asked for. */
module CaptureSuccess {
  import opened Wrappers
  import opened Sequences
  import C = CaptureCallback
  import G = AudioDeviceGate
  import opened CaptureController
  import opened CaptureSystem
  import opened CaptureCalls

  // ---------------------------------------------------------------------------------------------
  // The deliveries
  // ---------------------------------------------------------------------------------------------

  /** What the device has delivered to operation `id` in the first `k` actions. */
  function Delivered(actions: seq<Action>, id: nat, k: nat): seq<seq<C.Sample>>
    requires k <= |actions|
  {
    if k == 0 then []
    else Delivered(actions, id, k - 1) + DeliveredBy(actions[k - 1], id)
  }

  function DeliveredBy(a: Action, id: nat): seq<seq<C.Sample>> { if a.CallBack? && a.id == id then [a.input] else [] }

  /** How many frames that is. */
  function Frames(actions: seq<Action>, id: nat, k: nat): nat
    requires k <= |actions|
  {
    if k == 0 then 0 else Frames(actions, id, k - 1) + if actions[k - 1].CallBack? && actions[k - 1].id == id then actions[k - 1].frames else 0
  }

  /** Nothing goes wrong for operation `id` in this action: no exception, no stop, a gate that is idle, an observer
      and a device that do not fail; a call that overlaps no other, is right and not too long; and the stream is
      over when everything has been delivered. `given` is what has been delivered before. */
  predicate Smooth(sys: System, a: Action, id: nat, given: nat) {
    match a
    case Submit(_, _, _, _, _) => true
    case Raise(i) => i != id
    case RequestStop(i) => i != id
    case Control(i, env) =>
      i == id && id in sys.ops ==>
        && env.observerOk && env.device == None
        && (sys.ops[id].pc.BeginGate? ==> sys.gate == G.Idle)
        && (sys.ops[id].pc.DoDeactivate? ==> sys.ops[id].callback.inFlight == 0 && given == sys.ops[id].requested)
    case CallBack(i, _, input, frames, status) =>
      i == id && id in sys.ops ==>
        && sys.ops[id].callback.inFlight == 0 && sys.ops[id].callback.shared.accepting && status == C.Normal
        && RightSize(sys.ops[id].callback.shared.channels, input, frames) && given + frames <= sys.ops[id].requested
    case Proceed(_, _) => true
  }

  ghost predicate AllSmooth(states: seq<System>, actions: seq<Action>, id: nat, k: nat) {
    k <= |actions| && |states| == |actions| + 1 && forall i | 0 <= i < k :: Smooth(states[i], actions[i], id, Frames(actions, id, i))
  }

  // ---------------------------------------------------------------------------------------------
  // The callback
  // ---------------------------------------------------------------------------------------------

  /** Everything delivered is recorded, or in the hands of the only call there is. */
  ghost predicate Recording(cb: C.Callback, inputs: seq<seq<C.Sample>>, given: nat) {
    var s := cb.shared;
    && !s.stop && s.failure == C.NoFailure && s.late == 0 && given <= s.requested
    && (cb.inFlight == 0 ==> s.committed == inputs && s.frames == given && (s.terminal <==> given == s.requested))
    && (cb.inFlight != 0 ==> s.accepting)
    && forall n {:trigger cb.calls[n]} | n in cb.calls :: InHand(s, cb.calls[n], inputs, given)
  }

  ghost predicate InHand(s: C.Shared, c: C.Call, inputs: seq<seq<C.Sample>>, given: nat) {
    && c.prior == 0 && c.status == C.Normal && RightSize(s.channels, c.input, c.frames) && inputs != [] && inputs[|inputs| - 1] == c.input
    && if Through(c) then
         && s.committed == inputs && s.frames == given
         && (c.pc.SetTerminal? ==> given == s.requested && !s.terminal)
         && (c.pc.Leave? ==> (c.pc.decision == C.Complete <==> given == s.requested) && (s.terminal <==> given == s.requested))
       else
         && s.committed == inputs[..|inputs| - 1] && s.frames + c.frames == given && !s.terminal && s.accepting
         && match c.pc
            case LoadAccepting => true
            case CountCallback => true
            case LoadTerminal => true
            case LoadStop => true
            case LoadFrames => true
            case Copy(_, remaining, _) => remaining == s.requested - s.frames
            case AddFrames(remaining) => remaining == s.requested - s.frames
            case _ => false
  }

  lemma EnteringOn(s: C.Shared, c: C.Call, inputs: seq<seq<C.Sample>>, given: nat)
    requires C.CallOk(s, c) && C.InBounds(s, c) && InHand(s, c, inputs, given)
    requires !s.stop && s.failure == C.NoFailure && s.late == 0 && given <= s.requested
    requires c.pc.LoadAccepting? || c.pc.CountCallback? || c.pc.LoadTerminal? || c.pc.LoadStop?
    ensures HandMoves(s, c, inputs, given)
  {
    SizesAgree(s, c);
  }

  ghost predicate HandMoves(s: C.Shared, c: C.Call, inputs: seq<seq<C.Sample>>, given: nat)
    requires C.InBounds(s, c) && !c.pc.Leave?
  {
    var (s', pc') := C.Access(s, c);
    && InHand(s', c.(pc := pc'), inputs, given) && s'.failure == C.NoFailure && s'.late == 0 && s'.stop == s.stop
    && s'.requested == s.requested && s'.accepting == s.accepting && s'.channels == s.channels
  }

  lemma RecordingOn(s: C.Shared, c: C.Call, inputs: seq<seq<C.Sample>>, given: nat)
    requires C.Published(s) && C.CallOk(s, c) && C.InBounds(s, c) && InHand(s, c, inputs, given) && !c.pc.Leave?
    requires !s.stop && s.failure == C.NoFailure && s.late == 0 && given <= s.requested
    ensures HandMoves(s, c, inputs, given)
  {
    if c.pc.LoadAccepting? || c.pc.CountCallback? || c.pc.LoadTerminal? || c.pc.LoadStop? {
      EnteringOn(s, c, inputs, given);
    } else if c.pc.LoadFrames? {
      assert |s.samples| / s.channels == s.requested;
    } else if c.pc.AddFrames? {
      AddingOn(s, c, inputs, given);
    } else {
      OtherwiseOn(s, c, inputs, given);
    }
  }

  lemma OtherwiseOn(s: C.Shared, c: C.Call, inputs: seq<seq<C.Sample>>, given: nat)
    requires C.CallOk(s, c) && C.InBounds(s, c) && InHand(s, c, inputs, given) && (c.pc.Copy? || c.pc.SetTerminal?)
    requires !s.stop && s.failure == C.NoFailure && s.late == 0 && given <= s.requested
    ensures HandMoves(s, c, inputs, given)
  {
  }

  lemma AddingOn(s: C.Shared, c: C.Call, inputs: seq<seq<C.Sample>>, given: nat)
    requires C.InBounds(s, c) && InHand(s, c, inputs, given) && c.pc.AddFrames?
    requires !s.stop && s.failure == C.NoFailure && s.late == 0 && given <= s.requested
    ensures HandMoves(s, c, inputs, given)
  {
    assert inputs[..|inputs| - 1] + [c.input] == inputs;
  }

  lemma ProceedOn(cb: C.Callback, n: nat, inputs: seq<seq<C.Sample>>, given: nat)
    requires C.Inv(cb) && n in cb.calls && C.InBounds(cb.shared, cb.calls[n]) && Recording(cb, inputs, given)
    ensures Recording(C.Advance(cb, n), inputs, given)
  {
    var s, c := cb.shared, cb.calls[n];
    assert C.CallOk(s, c) && InHand(s, c, inputs, given);
    forall m | m in cb.calls ensures m == n { assert InHand(s, cb.calls[m], inputs, given); }
    assert cb.calls.Keys == {n};
    if !c.pc.Leave? { RecordingOn(s, c, inputs, given); }
  }

  lemma CallBackOn(cb: C.Callback, n: nat, input: seq<C.Sample>, frames: nat, inputs: seq<seq<C.Sample>>, given: nat)
    requires C.Inv(cb) && Recording(cb, inputs, given) && cb.inFlight == 0 && cb.shared.accepting
    requires RightSize(cb.shared.channels, input, frames) && given + frames <= cb.shared.requested
    ensures n !in cb.calls && Recording(C.Arrive(cb, n, input, frames, C.Normal), inputs + [input], given + frames)
  {
    assert cb.calls.Keys == {};
    assert (inputs + [input])[..|inputs|] == inputs;
  }

  // ---------------------------------------------------------------------------------------------
  // The operation
  // ---------------------------------------------------------------------------------------------

  /** Where the control thread may stand, and what it has found so far. */
  ghost predicate Well(op: Op, inputs: seq<seq<C.Sample>>, given: nat) {
    && Recording(op.callback, inputs, given)
    && !op.threw && Unharmed(op.life)
    && (Torn(op.pc) || op.pc.Done? ==> op.callback.inFlight == 0 && given == op.requested)
    && (!Torn(op.pc) && !op.pc.Done? ==> op.callback.shared.accepting)
    && Looks(op.pc, op.verdict, op.requested)
  }

  predicate Unharmed(life: Life) { life.primary == None && life.cancellation == None && !life.stopFailed && !life.closeFailed }

  predicate Looks(pc: Pc, v: Verdict, requested: nat) {
    && v.late == 0 && v.error == None && v.stats.late == 0
    && (pc.ReadFrames? || pc.ReadLate? || pc.ReadFailure? || pc.ReadLateAgain? || pc.ReleaseGate? ==> v.quiescent)
    && (pc.ReadLate? || pc.ReadFailure? ==> v.frames == requested)
    && !pc.EarlyRelease? && !pc.QuarantineGate? && !pc.ReturnError?
    && (pc.Done? ==> pc.outcome.Captured? && pc.outcome.stats.late == 0)
  }

  lemma BeginOn(gate: G.State, op: Op, inputs: seq<seq<C.Sample>>, given: nat)
    requires OpInv(op) && Well(op, inputs, given) && Beginning(op.pc) && (op.pc.BeginGate? ==> gate == G.Idle)
    ensures Well(Begin(gate, op).1, inputs, given)
  {
  }

  lemma LivingOnWell(op: Op, env: Env, inputs: seq<seq<C.Sample>>, given: nat)
    requires OpInv(op) && Well(op, inputs, given) && Living(op.pc) && env.observerOk && env.device == None
    ensures var (life, pc) := LifeStep(op.pc, op.life, op.callback.shared.stop, env);
            Well(op.(life := life, pc := pc), inputs, given)
  {
  }

  lemma DeactivateOn(op: Op, inputs: seq<seq<C.Sample>>, given: nat)
    requires OpInv(op) && Well(op, inputs, given) && op.pc.DoDeactivate? && op.callback.inFlight == 0 && given == op.requested
    ensures var (life, pc) := Deactivated(op.life);
            Well(op.(callback := C.Deactivate(op.callback), life := life, pc := pc), inputs, given)
  {
  }

  lemma ReadingOn(op: Op, inputs: seq<seq<C.Sample>>, given: nat)
    requires OpInv(op) && Well(op, inputs, given) && Reading(op.pc)
    ensures var (v, pc) := Judge(op.pc, op.life, op.verdict, op.callback, op.requested);
            Well(op.(verdict := v, pc := pc), inputs, given)
  {
  }

  lemma ControlOn(gate: G.State, op: Op, env: Env, inputs: seq<seq<C.Sample>>, given: nat)
    requires OpInv(op) && !op.pc.Done? && Well(op, inputs, given) && env.observerOk && env.device == None
    requires op.pc.BeginGate? ==> gate == G.Idle
    requires op.pc.DoDeactivate? ==> op.callback.inFlight == 0 && given == op.requested
    ensures Well(Step(gate, op, env).1, inputs, given)
  {
    if Beginning(op.pc) {
      BeginOn(gate, op, inputs, given);
    } else if Living(op.pc) {
      LivingOnWell(op, env, inputs, given);
    } else if op.pc.DoDeactivate? {
      DeactivateOn(op, inputs, given);
    } else if Reading(op.pc) {
      ReadingOn(op, inputs, given);
    }
  }

  lemma NextOn(sys: System, a: Action, id: nat, inputs: seq<seq<C.Sample>>, given: nat)
    requires SysInv(sys) && Enabled(sys, a) && id in sys.ops && Smooth(sys, a, id, given) && Well(sys.ops[id], inputs, given)
    ensures id in Next(sys, a).ops
    ensures Well(Next(sys, a).ops[id], inputs + DeliveredBy(a, id), given + if a.CallBack? && a.id == id then a.frames else 0)
  {
    assert inputs + [] == inputs;
    if a.id == id {
      if a.Control? { OwnControlOn(sys, a, id, inputs, given); } else { OwnDeviceOn(sys, a, id, inputs, given); }
    } else {
      OthersStay(sys, a, id);
    }
  }

  lemma OthersStay(sys: System, a: Action, id: nat)
    requires Enabled(sys, a) && id in sys.ops && a.id != id
    ensures id in Next(sys, a).ops && Next(sys, a).ops[id] == sys.ops[id] && DeliveredBy(a, id) == []
  {
  }

  lemma OwnControlOn(sys: System, a: Action, id: nat, inputs: seq<seq<C.Sample>>, given: nat)
    requires SysInv(sys) && Enabled(sys, a) && id in sys.ops && Smooth(sys, a, id, given) && Well(sys.ops[id], inputs, given)
    requires a.Control? && a.id == id
    ensures id in Next(sys, a).ops && Well(Next(sys, a).ops[id], inputs, given)
  {
    assert OpInv(sys.ops[id]);
    ControlOn(sys.gate, sys.ops[id], a.env, inputs, given);
  }

  lemma OwnDeviceOn(sys: System, a: Action, id: nat, inputs: seq<seq<C.Sample>>, given: nat)
    requires SysInv(sys) && Enabled(sys, a) && id in sys.ops && Smooth(sys, a, id, given) && Well(sys.ops[id], inputs, given)
    requires !a.Control? && a.id == id
    ensures id in Next(sys, a).ops
    ensures Well(Next(sys, a).ops[id], inputs + DeliveredBy(a, id), given + if a.CallBack? then a.frames else 0)
  {
    assert inputs + [] == inputs;
    assert OpInv(sys.ops[id]);
    match a
    case CallBack(_, n, input, frames, status) => CallBackKeeps(sys.ops[id], n, input, frames, inputs, given);
    case Proceed(_, n) => ProceedKeeps(sys.ops[id], n, inputs, given);
    case _ =>
  }

  lemma CallBackKeeps(op: Op, n: nat, input: seq<C.Sample>, frames: nat, inputs: seq<seq<C.Sample>>, given: nat)
    requires OpInv(op) && Well(op, inputs, given) && op.callback.inFlight == 0 && op.callback.shared.accepting
    requires RightSize(op.callback.shared.channels, input, frames) && given + frames <= op.requested
    ensures n !in op.callback.calls
    ensures Well(op.(callback := C.Arrive(op.callback, n, input, frames, C.Normal)), inputs + [input], given + frames)
  {
    CallBackOn(op.callback, n, input, frames, inputs, given);
  }

  lemma ProceedKeeps(op: Op, n: nat, inputs: seq<seq<C.Sample>>, given: nat)
    requires OpInv(op) && n in op.callback.calls && C.InBounds(op.callback.shared, op.callback.calls[n]) && Well(op, inputs, given)
    ensures Well(op.(callback := C.Advance(op.callback, n)), inputs, given)
  {
    ProceedOn(op.callback, n, inputs, given);
    if !op.callback.calls[n].pc.Leave? { C.AccessKeeps(op.callback.shared, op.callback.calls[n]); }
  }

  /** Nothing is delivered to an operation that has not been submitted. */
  lemma {:induction false} NothingBefore(states: seq<System>, actions: seq<Action>, id: nat, k: nat)
    requires Execution(states, actions) && k < |states| && id !in states[k].ops
    ensures Delivered(actions, id, k) == [] && Frames(actions, id, k) == 0
  {
    if k > 0 {
      var a := actions[k - 1];
      assert Enabled(states[k - 1], a) && states[k] == Next(states[k - 1], a);
      NothingBefore(states, actions, id, k - 1);
    }
  }

  lemma StartsWell(sys: System, a: Action, id: nat)
    requires Enabled(sys, a) && id !in sys.ops && id in Next(sys, a).ops
    ensures Well(Next(sys, a).ops[id], [], 0) && !a.CallBack?
  {
  }

  /** One more action. */
  lemma WellNext(sys: System, a: Action, id: nat, inputs: seq<seq<C.Sample>>, given: nat)
    requires SysInv(sys) && Enabled(sys, a) && id in Next(sys, a).ops && Smooth(sys, a, id, given)
    requires if id in sys.ops then Well(sys.ops[id], inputs, given) else inputs == [] && given == 0
    ensures Well(Next(sys, a).ops[id], inputs + DeliveredBy(a, id), given + if a.CallBack? && a.id == id then a.frames else 0)
  {
    if id in sys.ops { NextOn(sys, a, id, inputs, given); } else { StartsWell(sys, a, id); }
  }

  lemma {:induction false} StaysWell(states: seq<System>, actions: seq<Action>, id: nat, k: nat)
    requires Execution(states, actions) && AllSmooth(states, actions, id, k) && id in states[k].ops
    ensures Well(states[k].ops[id], Delivered(actions, id, k), Frames(actions, id, k))
    decreases k
  {
    ExecutionInv(states, actions, k - 1);
    if id in states[k - 1].ops { StaysWell(states, actions, id, k - 1); } else { NothingBefore(states, actions, id, k - 1); }
    WellNext(states[k - 1], actions[k - 1], id, Delivered(actions, id, k - 1), Frames(actions, id, k - 1));
  }

  /** In every execution, a capture for which nothing goes wrong ends in success: it returns what was delivered, and
      counts the deliveries. */
  lemma SmoothSucceeds(states: seq<System>, actions: seq<Action>, id: nat, k: nat)
    requires Execution(states, actions) && AllSmooth(states, actions, id, k) && id in states[k].ops && states[k].ops[id].pc.Done?
    ensures states[k].ops[id].pc.outcome
         == Captured(Flatten(Delivered(actions, id, k)), Stats(|Delivered(actions, id, k)|, states[k].ops[id].requested, 0, 0))
  {
    StaysWell(states, actions, id, k);
    CapturedIsExact(states, actions, k, id);
  }

  // ---------------------------------------------------------------------------------------------
  // And it ends
  // ---------------------------------------------------------------------------------------------

  function StageSteps(stage: Stage): nat { match stage case Open => 34 case Start => 31 case Stream => 28 case Stop => 24 case Close => 21 }

  /** How many steps the control thread has left at most. */
  function StepsLeft(pc: Pc): nat {
    match pc
    case BeginGate => 39
    case EarlyStop => 38
    case EarlyRelease => 2
    case CancelBeforeOpen => 37
    case Observe(stage) => StageSteps(stage) + 2
    case CallDevice(stage) => StageSteps(stage) + 1
    case Cancel(stage) => StageSteps(stage)
    case DoDeactivate => 27
    case ReadQuiescent => 12
    case ReadFrames => 11
    case ReadLate => 10
    case ReadFailure => 9
    case ReadLateAgain => 8
    case ReleaseGate => 7
    case QuarantineGate => 7
    case StatCallbacks => 6
    case StatFrames => 5
    case StatOverruns => 4
    case StatLate => 3
    case Publish => 2
    case ReturnError(_) => 1
    case Done(_) => 0
  }

  lemma StepsLess(gate: G.State, op: Op, env: Env)
    requires !op.pc.Done?
    ensures StepsLeft(Step(gate, op, env).1.pc) < StepsLeft(op.pc)
  {
    if Living(op.pc) {
      LivingLess(op.pc, op.life, op.callback.shared.stop, env);
    } else if Reading(op.pc) {
      ReadingLess(op.pc, op.life, op.verdict, op.callback, op.requested);
    } else if Beginning(op.pc) {
      BeginningLess(gate, op);
    } else {
      RestLess(gate, op, env);
    }
  }

  lemma RestLess(gate: G.State, op: Op, env: Env)
    requires !op.pc.Done? && !Living(op.pc) && !Reading(op.pc) && !Beginning(op.pc)
    ensures StepsLeft(Step(gate, op, env).1.pc) < StepsLeft(op.pc)
  {
  }

  lemma LivingLess(pc: Pc, life: Life, stop: bool, env: Env)
    requires Living(pc)
    ensures StepsLeft(LifeStep(pc, life, stop, env).1) < StepsLeft(pc)
  {
  }

  lemma ReadingLess(pc: Pc, life: Life, v: Verdict, cb: C.Callback, requested: nat)
    requires Reading(pc)
    ensures StepsLeft(Judge(pc, life, v, cb, requested).1) < StepsLeft(pc)
  {
  }

  lemma BeginningLess(gate: G.State, op: Op)
    requires Beginning(op.pc)
    ensures StepsLeft(Begin(gate, op).1.pc) < StepsLeft(op.pc)
  {
  }

  /** The steps the control thread of operation `id` has made. */
  function Turns(actions: seq<Action>, id: nat, k: nat): nat
    requires k <= |actions|
  {
    if k == 0 then 0 else Turns(actions, id, k - 1) + if actions[k - 1].Control? && actions[k - 1].id == id then 1 else 0
  }

  lemma TurnNext(sys: System, a: Action, id: nat)
    requires Enabled(sys, a) && id in sys.ops
    ensures id in Next(sys, a).ops
    ensures StepsLeft(Next(sys, a).ops[id].pc) + (if a.Control? && a.id == id then 1 else 0) <= StepsLeft(sys.ops[id].pc)
  {
    if a.Control? && a.id == id { StepsLess(sys.gate, sys.ops[id], a.env); }
  }

  /** In every execution the control thread is done after at most 39 steps of its own; it waits for nobody. */
  lemma {:induction false} ControlFinishes(states: seq<System>, actions: seq<Action>, id: nat, k: nat)
    requires Execution(states, actions) && k < |states| && id in states[k].ops
    ensures Turns(actions, id, k) + StepsLeft(states[k].ops[id].pc) <= 39
    ensures Turns(actions, id, k) == 39 ==> states[k].ops[id].pc.Done?
    ensures !states[k].ops[id].pc.Done? ==> forall env :: Enabled(states[k], Control(id, env))
    decreases k
  {
    var a, before := actions[k - 1], states[k - 1];
    assert Enabled(before, a) && states[k] == Next(before, a);
    if id in before.ops {
      ControlFinishes(states, actions, id, k - 1);
      TurnNext(before, a, id);
    } else {
      NoTurns(states, actions, id, k - 1);
    }
  }

  lemma {:induction false} NoTurns(states: seq<System>, actions: seq<Action>, id: nat, k: nat)
    requires Execution(states, actions) && k < |states| && id !in states[k].ops
    ensures Turns(actions, id, k) == 0
  {
    if k > 0 {
      var a := actions[k - 1];
      assert Enabled(states[k - 1], a) && states[k] == Next(states[k - 1], a);
      NoTurns(states, actions, id, k - 1);
    }
  }
}
