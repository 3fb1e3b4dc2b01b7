/** Any number of capture operations on one audio device gate, interleaved step by step with each
    other and with the callbacks of their devices.

    An execution is a sequence of states joined by actions; the theorems at the end speak of every
    state, or every pair of states, of every execution. */
module CaptureSystem {
  import opened Wrappers
  import C = CaptureCallback
  import G = AudioDeviceGate
  import opened Sequences
  import opened CaptureController

  /** The gate's state word, the callback it keeps alive, and the operations. */
  datatype System = System(gate: G.State, kept: G.Owner, ops: map<nat, Op>)

  /** One step of the environment or of one thread. */
  datatype Action =
    | Submit(id: nat, limits: Limits, sampleRate: nat, channels: nat, frames: nat)
    | Control(id: nat, env: Env)
    | Raise(id: nat)
    | RequestStop(id: nat)
    | CallBack(id: nat, call: nat, input: seq<C.Sample>, frames: nat, status: C.Status)
    | Proceed(id: nat, call: nat)

  /** `Proceed` also asks that the access is in bounds; `NoCallIsStuck` shows this never excludes
      a step. */
  predicate Enabled(sys: System, a: Action) {
    match a
    case Submit(id, limits, sampleRate, channels, frames) =>
      id !in sys.ops && Admission(limits, sampleRate, channels, frames) == None
    case Control(id, _) => id in sys.ops && !sys.ops[id].pc.Done?
    case Raise(id) => id in sys.ops && !sys.ops[id].pc.Done? && !sys.ops[id].pc.BeginGate?
    case RequestStop(id) => id in sys.ops
    case CallBack(id, call, _, _, _) => id in sys.ops && call !in sys.ops[id].callback.calls
    case Proceed(id, call) =>
      && id in sys.ops && call in sys.ops[id].callback.calls
      && C.InBounds(sys.ops[id].callback.shared, sys.ops[id].callback.calls[call])
  }

  function Update(sys: System, id: nat, op: Op): System { sys.(ops := sys.ops[id := op]) }

  function Next(sys: System, a: Action): System
    requires Enabled(sys, a)
  {
    match a
    case Submit(id, limits, sampleRate, channels, frames) =>
      AdmittedFits(limits, sampleRate, channels, frames);
      Update(sys, id, NewOp(channels, frames))
    case Control(id, env) =>
      var (gate, op) := Step(sys.gate, sys.ops[id], env);
      System(gate, if sys.ops[id].pc.QuarantineGate? then G.Callback(id) else sys.kept, sys.ops[id := op])
    case Raise(id) => System(G.Quarantined, G.Callback(id), sys.ops[id := Throw(sys.ops[id])])
    case RequestStop(id) => WithCallback(sys, id, C.RequestStop(sys.ops[id].callback))
    case CallBack(id, call, input, frames, status) =>
      WithCallback(sys, id, C.Arrive(sys.ops[id].callback, call, input, frames, status))
    case Proceed(id, call) => WithCallback(sys, id, C.Advance(sys.ops[id].callback, call))
  }

  function WithCallback(sys: System, id: nat, cb: C.Callback): System
    requires id in sys.ops
  {
    Update(sys, id, sys.ops[id].(callback := cb))
  }

  ghost predicate Execution(states: seq<System>, actions: seq<Action>) {
    && |states| == |actions| + 1
    && states[0] == System(G.Idle, G.Nobody, map[])
    && forall k {:trigger actions[k]} | 0 <= k < |actions| ::
         Enabled(states[k], actions[k]) && states[k + 1] == Next(states[k], actions[k])
  }

  // ---------------------------------------------------------------------------------------------
  // The invariant of the whole system
  // ---------------------------------------------------------------------------------------------

  ghost predicate AllOk(ops: map<nat, Op>) {
    forall id {:trigger OpInv(ops[id])} | id in ops :: OpInv(ops[id])
  }

  ghost predicate OneHolding(ops: map<nat, Op>) {
    forall i, j {:trigger ops[i].holding, ops[j].holding} | i in ops && j in ops && ops[i].holding && ops[j].holding :: i == j
  }

  ghost predicate NoneHolding(ops: map<nat, Op>) {
    forall i | i in ops :: !ops[i].holding
  }

  /** At most one operation holds the gate; an idle gate is held by nobody, an active one by somebody. */
  ghost predicate GateOk(gate: G.State, ops: map<nat, Op>) {
    && OneHolding(ops)
    && (gate == G.Idle ==> NoneHolding(ops))
    && (gate == G.Active ==> !NoneHolding(ops))
  }

  ghost predicate SysInv(sys: System) { AllOk(sys.ops) && GateOk(sys.gate, sys.ops) }

  /** Replacing one operation by one that holds the gate no more than before. */
  lemma HoldsNoMore(gate: G.State, ops: map<nat, Op>, id: nat, gate': G.State, op: Op)
    requires AllOk(ops) && GateOk(gate, ops) && OpInv(op)
    requires id in ops && (op.holding ==> ops[id].holding)
    requires if op.holding == ops[id].holding then gate' == gate || gate' == G.Quarantined
             else gate' == G.Released(gate) || gate' == G.Quarantined
    ensures AllOk(ops[id := op]) && GateOk(gate', ops[id := op])
  {
    var ops' := ops[id := op];
    forall i | i in ops' ensures OpInv(ops'[i]) {
      if i != id { assert OpInv(ops[i]); }
    }
    if gate' == G.Active {
      var h :| h in ops && ops[h].holding;
      assert ops'[h].holding;
    }
  }

  lemma SubmitInv(ops: map<nat, Op>, gate: G.State, id: nat, op: Op)
    requires AllOk(ops) && GateOk(gate, ops) && id !in ops && OpInv(op) && !op.holding
    ensures AllOk(ops[id := op]) && GateOk(gate, ops[id := op])
  {
    var ops' := ops[id := op];
    forall i | i in ops' ensures OpInv(ops'[i]) {
      if i != id { assert OpInv(ops[i]); }
    }
    if gate == G.Active {
      var h :| h in ops && ops[h].holding;
      assert ops'[h].holding;
    }
  }

  /** Taking an idle gate makes its taker the only holder. */
  lemma AcquireInv(ops: map<nat, Op>, id: nat, op: Op)
    requires AllOk(ops) && GateOk(G.Idle, ops) && id in ops && OpInv(op) && op.holding
    ensures AllOk(ops[id := op]) && GateOk(G.Active, ops[id := op])
  {
    var ops' := ops[id := op];
    forall i | i in ops' ensures OpInv(ops'[i]) {
      if i != id { assert OpInv(ops[i]); }
    }
    assert ops'[id].holding;
  }

  /** How a control step moves the gate and the right to it together. */
  lemma GateStep(gate: G.State, op: Op, env: Env)
    requires OpInv(op) && !op.pc.Done?
    ensures var (gate', op') := Step(gate, op, env);
            && (op.pc.BeginGate? && gate == G.Idle ==> gate' == G.Active && op'.holding)
            && (!(op.pc.BeginGate? && gate == G.Idle) ==>
                  && (op'.holding ==> op.holding)
                  && (op'.holding == op.holding ==> gate' == gate)
                  && (op'.holding != op.holding ==> gate' == G.Released(gate) || gate' == G.Quarantined))
  {
  }

  lemma ControlInv(sys: System, id: nat, env: Env)
    requires SysInv(sys) && Enabled(sys, Control(id, env))
    ensures SysInv(Next(sys, Control(id, env)))
  {
    var op := sys.ops[id];
    assert OpInv(op);
    StepInv(sys.gate, op, env);
    GateStep(sys.gate, op, env);
    var (gate', op') := Step(sys.gate, op, env);
    if op.pc.BeginGate? && sys.gate == G.Idle {
      AcquireInv(sys.ops, id, op');
    } else {
      HoldsNoMore(sys.gate, sys.ops, id, gate', op');
    }
  }

  lemma DeviceInv(sys: System, id: nat, cb: C.Callback)
    requires SysInv(sys) && id in sys.ops && OpInv(sys.ops[id].(callback := cb))
    ensures SysInv(WithCallback(sys, id, cb))
  {
    HoldsNoMore(sys.gate, sys.ops, id, sys.gate, sys.ops[id].(callback := cb));
  }

  lemma CallBackInv(op: Op, call: nat, input: seq<C.Sample>, frames: nat, status: C.Status)
    requires OpInv(op) && call !in op.callback.calls
    ensures OpInv(op.(callback := C.Arrive(op.callback, call, input, frames, status)))
  {
    C.ArriveInv(op.callback, call, input, frames, status);
    CallbackMoves(op, C.Arrive(op.callback, call, input, frames, status));
  }

  lemma ProceedInv(op: Op, call: nat)
    requires OpInv(op) && call in op.callback.calls && C.InBounds(op.callback.shared, op.callback.calls[call])
    ensures OpInv(op.(callback := C.Advance(op.callback, call)))
  {
    var cb := op.callback;
    C.AdvanceInv(cb, call);
    if !cb.calls[call].pc.Leave? { C.AccessKeeps(cb.shared, cb.calls[call]); }
    if C.Frozen(cb) { C.FrozenAdvance(cb, call); }
    CallbackMoves(op, C.Advance(cb, call));
  }

  lemma RequestStopInv(op: Op)
    requires OpInv(op)
    ensures OpInv(op.(callback := C.RequestStop(op.callback)))
  {
    C.QuieterInv(op.callback, C.RequestStop(op.callback).shared);
    CallbackMoves(op, C.RequestStop(op.callback));
  }

  /** Every action of every thread keeps the system invariant. */
  lemma NextInv(sys: System, a: Action)
    requires SysInv(sys) && Enabled(sys, a)
    ensures SysInv(Next(sys, a))
  {
    match a
    case Submit(id, limits, sampleRate, channels, frames) =>
      AdmittedFits(limits, sampleRate, channels, frames);
      NewOpInv(channels, frames);
      SubmitInv(sys.ops, sys.gate, id, NewOp(channels, frames));
    case Control(id, env) => ControlInv(sys, id, env);
    case Raise(id) =>
      assert OpInv(sys.ops[id]);
      ThrowInv(sys.ops[id]);
      HoldsNoMore(sys.gate, sys.ops, id, G.Quarantined, Throw(sys.ops[id]));
    case _ => DeviceActionInv(sys, a);
  }

  /** The actions of device threads and of the stop token. */
  lemma DeviceActionInv(sys: System, a: Action)
    requires SysInv(sys) && Enabled(sys, a) && (a.RequestStop? || a.CallBack? || a.Proceed?)
    ensures SysInv(Next(sys, a))
  {
    match a
    case RequestStop(id) =>
      assert OpInv(sys.ops[id]);
      RequestStopInv(sys.ops[id]);
      DeviceInv(sys, id, C.RequestStop(sys.ops[id].callback));
    case CallBack(id, call, input, frames, status) =>
      assert OpInv(sys.ops[id]);
      CallBackInv(sys.ops[id], call, input, frames, status);
      DeviceInv(sys, id, C.Arrive(sys.ops[id].callback, call, input, frames, status));
    case Proceed(id, call) =>
      assert OpInv(sys.ops[id]);
      ProceedInv(sys.ops[id], call);
      DeviceInv(sys, id, C.Advance(sys.ops[id].callback, call));
  }

  lemma {:induction false} ExecutionInv(states: seq<System>, actions: seq<Action>, k: nat)
    requires Execution(states, actions) && k < |states|
    ensures SysInv(states[k])
  {
    if k > 0 {
      ExecutionInv(states, actions, k - 1);
      var a := actions[k - 1];
      NextInv(states[k - 1], a);
    }
  }

  // ---------------------------------------------------------------------------------------------
  // Theorems about every execution
  // ---------------------------------------------------------------------------------------------

  /** No device thread is ever about to write outside the sample buffer. */
  lemma NoCallIsStuck(states: seq<System>, actions: seq<Action>, k: nat, id: nat, call: nat)
    requires Execution(states, actions) && k < |states|
    requires id in states[k].ops && call in states[k].ops[id].callback.calls
    ensures Enabled(states[k], Proceed(id, call))
  {
    ExecutionInv(states, actions, k);
    assert OpInv(states[k].ops[id]);
    C.CopyInBounds(states[k].ops[id].callback, call);
  }

  /** However many calls overlap, at most one is in the copy region. */
  lemma CopiesExclude(states: seq<System>, actions: seq<Action>, k: nat, id: nat, i: nat, j: nat)
    requires Execution(states, actions) && k < |states| && id in states[k].ops
    requires var calls := states[k].ops[id].callback.calls;
             i in calls && j in calls && C.InCopyRegion(calls[i]) && C.InCopyRegion(calls[j])
    ensures i == j
  {
    ExecutionInv(states, actions, k);
    assert OpInv(states[k].ops[id]);
    C.ExclusiveCopy(states[k].ops[id].callback, i, j);
  }

  /** At every moment the published part of the buffer is the concatenation of the accepted inputs in
      the order they were accepted, and never more than was requested. */
  lemma BufferIsRecording(states: seq<System>, actions: seq<Action>, k: nat, id: nat)
    requires Execution(states, actions) && k < |states| && id in states[k].ops
    ensures var op := states[k].ops[id]; var s := op.callback.shared;
            && s.frames <= op.requested
            && (!s.taken ==> C.Span(s.frames, s.channels) <= |s.samples| == C.Span(op.requested, s.channels))
            && (!s.taken ==> s.samples[..C.Span(s.frames, s.channels)] == Flatten(s.committed))
  {
    ExecutionInv(states, actions, k);
    assert OpInv(states[k].ops[id]);
  }

  /** A successful capture returns exactly what its counted callbacks delivered, all that was
      requested, and no overrun; calls that come later do not change that. */
  lemma CapturedIsExact(states: seq<System>, actions: seq<Action>, k: nat, id: nat)
    requires Execution(states, actions) && k < |states| && id in states[k].ops
    requires var pc := states[k].ops[id].pc; pc.Done? && pc.outcome.Captured?
    ensures var op := states[k].ops[id]; ResultOk(op, op.pc.outcome.samples, op.pc.outcome.stats)
  {
    ExecutionInv(states, actions, k);
    assert OpInv(states[k].ops[id]);
  }

  /** A successful capture went through every stage, and none of them failed or was cancelled. */
  lemma CapturedWasUndisturbed(states: seq<System>, actions: seq<Action>, k: nat, id: nat)
    requires Execution(states, actions) && k < |states| && id in states[k].ops
    requires var pc := states[k].ops[id].pc; pc.Done? && pc.outcome.Captured?
    ensures var life := states[k].ops[id].life;
            Untroubled(life) && life.trace == [Open, Start, Stream, Stop, Close]
  {
    ExecutionInv(states, actions, k);
    assert OpInv(states[k].ops[id]);
    TornDownTrace(states[k].ops[id].life);
  }

  /** Everything a recording consists of is the same, except that the buffer may have been handed over. */
  ghost predicate SameOrTaken(a: C.Shared, b: C.Shared) {
    && a.committed == b.committed && a.frames == b.frames && a.callbacks == b.callbacks && a.overruns == b.overruns
    && (b.samples == a.samples || b.taken)
  }

  lemma FrozenNext(sys: System, a: Action, id: nat)
    requires SysInv(sys) && Enabled(sys, a) && id in sys.ops && C.Frozen(sys.ops[id].callback)
    ensures var ops' := Next(sys, a).ops;
            && id in ops' && C.Frozen(ops'[id].callback)
            && SameOrTaken(sys.ops[id].callback.shared, ops'[id].callback.shared)
            && (sys.ops[id].callback.shared.taken ==> ops'[id].callback.shared.taken)
  {
    assert OpInv(sys.ops[id]);
    var cb := sys.ops[id].callback;
    match a
    case CallBack(i, call, input, frames, status) =>
      if i == id { C.ArriveInv(cb, call, input, frames, status); }
    case Proceed(i, call) =>
      if i == id { C.AdvanceInv(cb, call); C.FrozenAdvance(cb, call); }
    case Control(i, env) =>
      if i == id { FrozenControl(sys.gate, sys.ops[id], env); }
    case _ =>
  }

  lemma FrozenControl(gate: G.State, op: Op, env: Env)
    requires OpInv(op) && C.Frozen(op.callback)
    ensures var op' := Step(gate, op, env).1;
            && C.Frozen(op'.callback) && SameOrTaken(op.callback.shared, op'.callback.shared)
            && (op.callback.shared.taken ==> op'.callback.shared.taken)
  {
    if op.pc.Publish? { C.TakeInv(op.callback); }
  }

  lemma FrozenStep(states: seq<System>, actions: seq<Action>, k: nat, id: nat)
    requires Execution(states, actions) && k < |actions|
    requires id in states[k].ops && C.Frozen(states[k].ops[id].callback)
    ensures id in states[k + 1].ops && C.Frozen(states[k + 1].ops[id].callback)
    ensures SameOrTaken(states[k].ops[id].callback.shared, states[k + 1].ops[id].callback.shared)
    ensures states[k].ops[id].callback.shared.taken ==> states[k + 1].ops[id].callback.shared.taken
  {
    ExecutionInv(states, actions, k);
    FrozenNext(states[k], actions[k], id);
  }

  lemma {:induction false} FrozenForever(states: seq<System>, actions: seq<Action>, j: nat, k: nat, id: nat)
    requires Execution(states, actions) && j <= k < |states|
    requires id in states[j].ops && C.Frozen(states[j].ops[id].callback)
    ensures id in states[k].ops && C.Frozen(states[k].ops[id].callback)
    ensures SameOrTaken(states[j].ops[id].callback.shared, states[k].ops[id].callback.shared)
    decreases k
  {
    if j < k {
      FrozenForever(states, actions, j, k - 1, id);
      FrozenStep(states, actions, k - 1, id);
    }
  }

  /** Once the callback has been deactivated and the in-flight counter has then been seen at zero,
      nothing any device thread does afterwards changes the recording. */
  lemma QuiescentForever(states: seq<System>, actions: seq<Action>, j: nat, k: nat, id: nat)
    requires Execution(states, actions) && j <= k < |states| && id in states[j].ops
    requires var cb := states[j].ops[id].callback; !cb.shared.accepting && cb.inFlight == 0
    ensures id in states[k].ops
    ensures SameOrTaken(states[j].ops[id].callback.shared, states[k].ops[id].callback.shared)
  {
    ExecutionInv(states, actions, j);
    assert OpInv(states[j].ops[id]);
    C.QuiescentFreezes(states[j].ops[id].callback);
    FrozenForever(states, actions, j, k, id);
  }

  /** Unless an exception cut it short, an operation that is over has made one of four series of
      device calls, whatever the device, the observer and the stop token did. */
  lemma DeviceCallsWellFormed(states: seq<System>, actions: seq<Action>, k: nat, id: nat)
    requires Execution(states, actions) && k < |states| && id in states[k].ops
    requires states[k].ops[id].pc.Done? && !states[k].ops[id].threw
    ensures Complete(states[k].ops[id].life.trace)
  {
    ExecutionInv(states, actions, k);
    assert OpInv(states[k].ops[id]);
    TornDownTrace(states[k].ops[id].life);
  }

  /** At most one operation is between acquiring the gate and finalising it, and none while it is idle. */
  lemma GateExcludes(states: seq<System>, actions: seq<Action>, k: nat, i: nat, j: nat)
    requires Execution(states, actions) && k < |states|
    requires i in states[k].ops && states[k].ops[i].holding
    ensures states[k].gate != G.Idle
    ensures j in states[k].ops && states[k].ops[j].holding ==> i == j
  {
    ExecutionInv(states, actions, k);
  }

  /** Quarantine is for good, also when another operation was active at the time. */
  lemma {:induction false} QuarantineAbsorbs(states: seq<System>, actions: seq<Action>, j: nat, k: nat)
    requires Execution(states, actions) && j <= k < |states| && states[j].gate == G.Quarantined
    ensures states[k].gate == G.Quarantined
    decreases k
  {
    if j < k {
      QuarantineAbsorbs(states, actions, j, k - 1);
      var a := actions[k - 1];
    }
  }

  /** Stopped before the device was touched. */
  ghost predicate CancelledEarly(op: Op) { op.pc.EarlyRelease? && op.life.trace == [] }

  /** What was opened has been closed, and nothing is left that could call back into the buffer. */
  ghost predicate ClosedCleanly(op: Op) {
    && op.pc.ReleaseGate?
    && op.life.openAttempted == op.life.closed && !op.life.closeFailed
    && op.verdict.late == 0 && op.verdict.quiescent && C.Frozen(op.callback)
  }

  /** The gate goes back to idle only by the control thread of the operation that holds it, and only
      when that operation was cancelled before it opened anything, or when everything it opened was
      closed without failing, no late callback had been counted, and the in-flight counter had been
      seen at zero. */
  lemma ReleaseIsJustified(states: seq<System>, actions: seq<Action>, k: nat)
    requires Execution(states, actions) && k < |actions|
    requires states[k].gate == G.Active && states[k + 1].gate == G.Idle
    ensures actions[k].Control? && actions[k].id in states[k].ops
    ensures var op := states[k].ops[actions[k].id];
            op.holding && (CancelledEarly(op) || ClosedCleanly(op))
  {
    ExecutionInv(states, actions, k);
    var a := actions[k];
    assert states[k + 1] == Next(states[k], a);
    if a.Control? {
      assert OpInv(states[k].ops[a.id]);
    }
  }

  /** Something is left that could still call back, or the device did not close. */
  ghost predicate NotClosedCleanly(op: Op) {
    op.pc.QuarantineGate? && (op.life.closeFailed || op.verdict.late != 0 || !op.verdict.quiescent)
  }

  /** The gate is quarantined only by an exception, or by the control thread of the operation that
      holds it when closing failed, a late callback was seen or a call was still in flight. */
  lemma QuarantineIsJustified(states: seq<System>, actions: seq<Action>, k: nat)
    requires Execution(states, actions) && k < |actions|
    requires states[k].gate != G.Quarantined && states[k + 1].gate == G.Quarantined
    ensures actions[k].Raise? || (actions[k].Control? && actions[k].id in states[k].ops)
    ensures actions[k].Control? ==>
              var op := states[k].ops[actions[k].id]; op.holding && NotClosedCleanly(op)
  {
    ExecutionInv(states, actions, k);
    var a := actions[k];
    assert states[k + 1] == Next(states[k], a);
    if a.Control? {
      assert OpInv(states[k].ops[a.id]);
    }
  }
}
