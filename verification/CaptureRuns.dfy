/** Particular executions, built step by step: a way to show that something can happen. */
module CaptureRuns {
  import opened Wrappers
  import C = CaptureCallback
  import G = AudioDeviceGate
  import opened CaptureController
  import opened CaptureSystem

  /** Some execution comes to this state. */
  ghost predicate Reachable(sys: System) {
    exists states: seq<System>, actions: seq<Action> :: Execution(states, actions) && states[|actions|] == sys
  }

  lemma ReachIdle()
    ensures Reachable(System(G.Idle, G.Nobody, map[]))
  {
    var start := System(G.Idle, G.Nobody, map[]);
    var none: seq<Action> := [];
    assert Execution([start], none) && [start][|none|] == start;
  }

  lemma ReachNext(sys: System, a: Action, next: System)
    requires Reachable(sys) && Enabled(sys, a) && Next(sys, a) == next
    ensures Reachable(next)
  {
    var states, actions :| Execution(states, actions) && states[|actions|] == sys;
    assert Execution(states + [next], actions + [a]);
  }

  /** A system with one operation. */
  function One(gate: G.State, op: Op, kept: G.Owner := G.Nobody): System { System(gate, kept, map[0 := op]) }

  /** Nothing goes wrong. */
  const WELL: Env := Env(true, None)

  lemma ReachControl(gate: G.State, op: Op, gate': G.State, op': Op, kept: G.Owner := G.Nobody)
    requires Reachable(One(gate, op, kept)) && !op.pc.Done? && Step(gate, op, WELL) == (gate', op')
    ensures Reachable(One(gate', op', if op.pc.QuarantineGate? then G.Callback(0) else kept))
  {
    assert map[0 := op][0 := op'] == map[0 := op'];
    ReachNext(One(gate, op, kept), Control(0, WELL), One(gate', op', if op.pc.QuarantineGate? then G.Callback(0) else kept));
  }

  lemma ReachDevice(gate: G.State, op: Op, cb: C.Callback, a: Action)
    requires Reachable(One(gate, op)) && Enabled(One(gate, op), a) && Next(One(gate, op), a) == WithCallback(One(gate, op), 0, cb)
    ensures Reachable(One(gate, op.(callback := cb)))
  {
    assert map[0 := op][0 := op.(callback := cb)] == map[0 := op.(callback := cb)];
    ReachNext(One(gate, op), a, One(gate, op.(callback := cb)));
  }

  lemma ReachProceed(gate: G.State, op: Op, call: nat, cb: C.Callback)
    requires Reachable(One(gate, op)) && call in op.callback.calls && C.InBounds(op.callback.shared, op.callback.calls[call])
    requires C.Advance(op.callback, call) == cb
    ensures Reachable(One(gate, op.(callback := cb)))
  {
    ReachDevice(gate, op, cb, Proceed(0, call));
  }

  /** One stage of a lifecycle in which nothing goes wrong. */
  lemma ReachStage(gate: G.State, op: Op, stage: Stage)
    requires Reachable(One(gate, op)) && op.pc == Observe(stage) && !op.callback.shared.stop
    ensures var life := CallStage(op.life, stage, None);
            Reachable(One(gate, op.(life := life, pc := AfterStage(life, stage))))
  {
    var life := CallStage(op.life, stage, None);
    var calling, called := op.(pc := CallDevice(stage)), op.(life := life, pc := Cancel(stage));
    ReachControl(gate, op, gate, calling);
    ReachControl(gate, calling, gate, called);
    ReachControl(gate, called, gate, op.(life := life, pc := AfterStage(life, stage)));
  }

  // ---------------------------------------------------------------------------------------------
  // A late call in the statistics of a successful capture
  // ---------------------------------------------------------------------------------------------

  /** The call of a device thread that delivers the one frame asked for, or one too many. */
  function Delivery(pc: C.Pc): C.Call { C.Call([7], 1, C.Normal, 0, pc) }

  /** The callback object while that call is under way. */
  function During(s: C.Shared, pc: C.Pc): C.Callback { C.Callback(s, 1, map[0 := Delivery(pc)]) }

  function Empty(): C.Shared { C.Shared(1, 1, [0], false, true, false, C.NoFailure, 0, 0, 0, 0, [], 0, false) }

  function Full(): C.Shared { Empty().(samples := [7], terminal := true, callbacks := 1, frames := 1, committed := [[7]]) }

  /** An access of the call that leaves the object as given. */
  lemma ReachAccess(gate: G.State, op: Op, s: C.Shared, pc: C.Pc, s': C.Shared, pc': C.Pc)
    requires Reachable(One(gate, op)) && op.callback == During(s, pc) && !pc.Leave?
    requires C.InBounds(s, Delivery(pc)) && C.Access(s, Delivery(pc)) == (s', pc')
    ensures Reachable(One(gate, op.(callback := During(s', pc'))))
  {
    assert op.callback.calls[0 := Delivery(pc')] == map[0 := Delivery(pc')];
    ReachProceed(gate, op, 0, During(s', pc'));
  }

  lemma ReachArrival(gate: G.State, op: Op)
    requires Reachable(One(gate, op)) && op.callback.calls == map[] && op.callback.inFlight == 0
    ensures Reachable(One(gate, op.(callback := During(op.callback.shared, C.LoadAccepting))))
  {
    ReachDevice(gate, op, During(op.callback.shared, C.LoadAccepting), CallBack(0, 0, [7], 1, C.Normal));
  }

  lemma ReachCounted(gate: G.State, op: Op)
    requires Reachable(One(gate, op)) && op.callback == During(Empty(), C.LoadAccepting)
    ensures Reachable(One(gate, op.(callback := During(Empty().(callbacks := 1), C.LoadStop))))
  {
    ReachAccess(gate, op, Empty(), C.LoadAccepting, Empty(), C.CountCallback);
    var op1 := op.(callback := During(Empty(), C.CountCallback));
    ReachAccess(gate, op1, Empty(), C.CountCallback, Empty().(callbacks := 1), C.LoadTerminal);
    var op2 := op.(callback := During(Empty().(callbacks := 1), C.LoadTerminal));
    ReachAccess(gate, op2, Empty().(callbacks := 1), C.LoadTerminal, Empty().(callbacks := 1), C.LoadStop);
  }

  lemma ReachCopying(gate: G.State, op: Op)
    requires Reachable(One(gate, op)) && op.callback == During(Empty().(callbacks := 1), C.LoadStop)
    ensures Reachable(One(gate, op.(callback := During(Empty().(callbacks := 1), C.Copy(0, 1, 0)))))
  {
    var s := Empty().(callbacks := 1);
    ReachAccess(gate, op, s, C.LoadStop, s, C.LoadFrames);
    ReachAccess(gate, op.(callback := During(s, C.LoadFrames)), s, C.LoadFrames, s, C.Copy(0, 1, 0));
  }

  lemma ReachCopied(gate: G.State, op: Op)
    requires Reachable(One(gate, op)) && op.callback == During(Empty().(callbacks := 1), C.Copy(0, 1, 0))
    ensures Reachable(One(gate, op.(callback := During(Empty().(callbacks := 1, samples := [7]), C.AddFrames(1)))))
  {
    var s, s' := Empty().(callbacks := 1), Empty().(callbacks := 1, samples := [7]);
    assert s.samples[0 := 7] == s'.samples;
    ReachAccess(gate, op, s, C.Copy(0, 1, 0), s', C.Copy(0, 1, 1));
    ReachAccess(gate, op.(callback := During(s', C.Copy(0, 1, 1))), s', C.Copy(0, 1, 1), s', C.AddFrames(1));
  }

  lemma ReachCommitted(gate: G.State, op: Op)
    requires Reachable(One(gate, op)) && op.callback == During(Empty().(callbacks := 1, samples := [7]), C.AddFrames(1))
    ensures Reachable(One(gate, op.(callback := During(Full(), C.Leave(C.Complete)))))
  {
    var s, s' := Empty().(callbacks := 1, samples := [7]), Full().(terminal := false);
    assert s.committed + [[7]] == s'.committed;
    ReachAccess(gate, op, s, C.AddFrames(1), s', C.SetTerminal(C.Complete));
    ReachAccess(gate, op.(callback := During(s', C.SetTerminal(C.Complete))), s', C.SetTerminal(C.Complete), Full(), C.Leave(C.Complete));
  }

  function Delivered(): C.Callback { C.Callback(Full(), 0, map[]) }

  /** The frame is delivered. */
  lemma ReachDelivered(gate: G.State, op: Op)
    requires Reachable(One(gate, op)) && op.callback == C.Fresh(1, 1)
    ensures Reachable(One(gate, op.(callback := Delivered())))
  {
    assert C.Fresh(1, 1).shared.samples == [0] && C.Fresh(1, 1).shared == Empty();
    ReachArrival(gate, op);
    ReachCounted(gate, op.(callback := During(Empty(), C.LoadAccepting)));
    ReachCopying(gate, op.(callback := During(Empty().(callbacks := 1), C.LoadStop)));
    ReachCopied(gate, op.(callback := During(Empty().(callbacks := 1), C.Copy(0, 1, 0))));
    ReachCommitted(gate, op.(callback := During(Empty().(callbacks := 1, samples := [7]), C.AddFrames(1))));
    ReachLeft(gate, op.(callback := During(Full(), C.Leave(C.Complete))));
  }

  lemma ReachLeft(gate: G.State, op: Op)
    requires Reachable(One(gate, op)) && op.callback == During(Full(), C.Leave(C.Complete))
    ensures Reachable(One(gate, op.(callback := Delivered())))
  {
    assert op.callback.calls - {0} == map[];
    ReachProceed(gate, op, 0, Delivered());
  }

  function Opened(): Life { CallStage(NewOp(1, 1).life, Open, None) }
  function Started(): Life { CallStage(Opened(), Start, None) }
  function Streamed(): Life { CallStage(Started(), Stream, None) }
  function Stopped(): Life { CallStage(Streamed(), Stop, None) }
  function Closed(): Life { CallStage(Stopped(), Close, None) }

  function Begun(pc: Pc): Op { NewOp(1, 1).(pc := pc, holding := true) }

  lemma ReachSubmitted()
    ensures Reachable(One(G.Idle, NewOp(1, 1)))
  {
    ReachIdle();
    var none: map<nat, Op> := map[];
    assert none[0 := NewOp(1, 1)] == map[0 := NewOp(1, 1)];
    ReachNext(System(G.Idle, G.Nobody, none), Submit(0, Limits(100, 100), 8000, 1, 1), One(G.Idle, NewOp(1, 1)));
  }

  lemma ReachBegun()
    ensures Reachable(One(G.Active, Begun(Observe(Open))))
  {
    ReachSubmitted();
    ReachControl(G.Idle, NewOp(1, 1), G.Active, Begun(EarlyStop));
    ReachControl(G.Active, Begun(EarlyStop), G.Active, Begun(CancelBeforeOpen));
    ReachControl(G.Active, Begun(CancelBeforeOpen), G.Active, Begun(Observe(Open)));
  }

  /** Up to the stream of a capture of one frame. */
  lemma ReachStarted()
    ensures Reachable(One(G.Active, Begun(Observe(Stream)).(life := Started())))
  {
    ReachBegun();
    ReachStage(G.Active, Begun(Observe(Open)), Open);
    ReachStage(G.Active, Begun(Observe(Start)).(life := Opened()), Start);
  }

  lemma ReachStreamed()
    ensures Reachable(One(G.Active, Begun(DoDeactivate).(callback := Delivered(), life := Streamed())))
  {
    ReachStarted();
    ReachDelivered(G.Active, Begun(Observe(Stream)).(life := Started()));
    ReachStage(G.Active, Begun(Observe(Stream)).(life := Started(), callback := Delivered()), Stream);
  }

  /** Delivered, and deactivated. */
  function Inactive(): C.Callback { C.Deactivate(Delivered()) }

  function Ended(pc: Pc, verdict: Verdict): Op { Begun(pc).(callback := Inactive(), life := Closed(), verdict := verdict) }

  function Nothing(): Verdict { Verdict(false, 0, 0, None, Stats(0, 0, 0, 0)) }

  lemma ReachEnded()
    ensures Reachable(One(G.Active, Ended(ReadQuiescent, Nothing())))
  {
    ReachStreamed();
    var stopping := Begun(Observe(Stop)).(callback := Inactive(), life := Streamed());
    ReachControl(G.Active, Begun(DoDeactivate).(callback := Delivered(), life := Streamed()), G.Active, stopping);
    ReachStage(G.Active, stopping, Stop);
    ReachStage(G.Active, Begun(Observe(Close)).(callback := Inactive(), life := Stopped()), Close);
  }

  function Good(): Verdict { Verdict(true, 1, 0, None, Stats(0, 0, 0, 0)) }

  lemma ReachRead()
    ensures Reachable(One(G.Active, Ended(ReadLate, Good())))
  {
    ReachEnded();
    ReachControl(G.Active, Ended(ReadQuiescent, Nothing()), G.Active, Ended(ReadFrames, Good().(frames := 0)));
    ReachControl(G.Active, Ended(ReadFrames, Good().(frames := 0)), G.Active, Ended(ReadLate, Good()));
  }

  /** The verdict, and the gate's, with nothing late so far. */
  lemma ReachJudged()
    ensures Reachable(One(G.Active, Ended(ReleaseGate, Good())))
  {
    ReachRead();
    ReachControl(G.Active, Ended(ReadLate, Good()), G.Active, Ended(ReadFailure, Good()));
    ReachControl(G.Active, Ended(ReadFailure, Good()), G.Active, Ended(ReadLateAgain, Good()));
    ReachControl(G.Active, Ended(ReadLateAgain, Good()), G.Active, Ended(ReleaseGate, Good()));
  }

  /** The object after a call that came too late has been counted. */
  function Late(): C.Callback { During(Inactive().shared.(late := 1), C.Leave(C.Abort)) }

  lemma ReachLate(op: Op)
    requires Reachable(One(G.Active, op)) && op.callback == Inactive()
    ensures Reachable(One(G.Active, op.(callback := Late())))
  {
    var s := Inactive().shared;
    ReachArrival(G.Active, op);
    ReachAccess(G.Active, op.(callback := During(s, C.LoadAccepting)), s, C.LoadAccepting, s, C.CountLate);
    ReachAccess(G.Active, op.(callback := During(s, C.CountLate)), s, C.CountLate, s.(late := 1), C.Leave(C.Abort));
  }

  /** Reading the statistics; `seen` is the late count the control thread read when it judged the gate. */
  function Reporting(pc: Pc, stats: Stats, seen: nat): Op {
    Ended(pc, Good().(stats := stats, late := seen)).(callback := Late(), holding := false)
  }

  lemma ReachReported(gate: G.State, seen: nat, kept: G.Owner)
    requires Reachable(One(gate, Reporting(StatCallbacks, Stats(0, 0, 0, 0), seen), kept))
    ensures Reachable(One(gate, Reporting(StatLate, Stats(1, 1, 0, 0), seen), kept))
  {
    ReachControl(gate, Reporting(StatCallbacks, Stats(0, 0, 0, 0), seen), gate, Reporting(StatFrames, Stats(1, 0, 0, 0), seen), kept);
    ReachControl(gate, Reporting(StatFrames, Stats(1, 0, 0, 0), seen), gate, Reporting(StatOverruns, Stats(1, 1, 0, 0), seen), kept);
    ReachControl(gate, Reporting(StatOverruns, Stats(1, 1, 0, 0), seen), gate, Reporting(StatLate, Stats(1, 1, 0, 0), seen), kept);
  }

  function Published(gate: G.State, seen: nat): Op { Step(gate, Reporting(Publish, Stats(1, 1, 0, 1), seen), WELL).1 }

  lemma ReachPublished(gate: G.State, seen: nat, kept: G.Owner)
    requires Reachable(One(gate, Reporting(StatLate, Stats(1, 1, 0, 0), seen), kept))
    ensures Reachable(One(gate, Published(gate, seen), kept))
  {
    ReachControl(gate, Reporting(StatLate, Stats(1, 1, 0, 0), seen), gate, Reporting(Publish, Stats(1, 1, 0, 1), seen), kept);
    ReachControl(gate, Reporting(Publish, Stats(1, 1, 0, 1), seen), gate, Published(gate, seen), kept);
  }

  lemma ReachLateCapture()
    ensures Reachable(One(G.Idle, Published(G.Idle, 0)))
  {
    ReachJudged();
    ReachLate(Ended(ReleaseGate, Good()));
    ReachControl(G.Active, Ended(ReleaseGate, Good()).(callback := Late()), G.Idle, Reporting(StatCallbacks, Stats(0, 0, 0, 0), 0));
    ReachReported(G.Idle, 0, G.Nobody);
    ReachPublished(G.Idle, 0, G.Nobody);
  }

  lemma ReachQuarantinedCapture()
    ensures Reachable(One(G.Quarantined, Published(G.Quarantined, 1), G.Callback(0)))
  {
    ReachRead();
    ReachControl(G.Active, Ended(ReadLate, Good()), G.Active, Ended(ReadFailure, Good()));
    ReachLate(Ended(ReadFailure, Good()));
    var again := Ended(ReadLateAgain, Good()).(callback := Late());
    var judged := Ended(QuarantineGate, Good().(late := 1)).(callback := Late());
    ReachControl(G.Active, Ended(ReadFailure, Good()).(callback := Late()), G.Active, again);
    ReachControl(G.Active, again, G.Active, judged);
    ReachControl(G.Active, judged, G.Quarantined, Reporting(StatCallbacks, Stats(0, 0, 0, 0), 1));
    ReachReported(G.Quarantined, 1, G.Callback(0));
    ReachPublished(G.Quarantined, 1, G.Callback(0));
  }

  ghost predicate EndsWith(states: seq<System>, actions: seq<Action>, gate: G.State, outcome: Outcome) {
    && Execution(states, actions) && states[|actions|].gate == gate
    && 0 in states[|actions|].ops && states[|actions|].ops[0].pc == Done(outcome)
  }

  /** A capture of one frame that succeeds, with one late callback in its statistics: the call arrives
      after the gate has been judged, and is counted before the statistics are read. */
  lemma LateButCaptured()
    ensures exists states: seq<System>, actions: seq<Action> :: EndsWith(states, actions, G.Idle, Captured([7], Stats(1, 1, 0, 1)))
  {
    ReachLateCapture();
    var states: seq<System>, actions: seq<Action> :| Execution(states, actions) && states[|actions|] == One(G.Idle, Published(G.Idle, 0));
    assert EndsWith(states, actions, G.Idle, Captured([7], Stats(1, 1, 0, 1)));
  }

  /** A capture of one frame that succeeds and leaves the gate quarantined: the call is counted between the
      reading that decides about success and the one that decides about the gate. */
  lemma CapturedYetQuarantined()
    ensures exists states: seq<System>, actions: seq<Action> :: EndsWith(states, actions, G.Quarantined, Captured([7], Stats(1, 1, 0, 1)))
  {
    ReachQuarantinedCapture();
    var states: seq<System>, actions: seq<Action> :|
      Execution(states, actions) && states[|actions|] == One(G.Quarantined, Published(G.Quarantined, 1), G.Callback(0));
    assert EndsWith(states, actions, G.Quarantined, Captured([7], Stats(1, 1, 0, 1)));
  }
}
