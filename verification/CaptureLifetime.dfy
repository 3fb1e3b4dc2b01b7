/** Whose callback object the gate keeps alive. A device that did not close, or that was still calling
    back, may use the object after `capture()` has returned; `AudioDeviceGate::quarantine` keeps it in the
    only slot there is. */
module CaptureLifetime {
  import opened Wrappers
  import opened Sequences
  import C = CaptureCallback
  import G = AudioDeviceGate
  import opened CaptureController
  import opened CaptureSystem
  import opened CaptureRuns

  /** The action hands an operation's callback object to the gate. */
  predicate Quarantines(sys: System, a: Action) {
    a.Raise? || (a.Control? && a.id in sys.ops && sys.ops[a.id].pc.QuarantineGate?)
  }

  /** The operation has given back the gate, and for all it knows its device may still call: it was opened,
      and it did not close, or the control thread has not seen that no call was in flight. */
  predicate Needy(op: Op) { !op.holding && op.life.openAttempted && (op.life.closeFailed || !op.verdict.quiescent) }

  // ---------------------------------------------------------------------------------------------
  // The gate object
  // ---------------------------------------------------------------------------------------------

  /** The call on the gate that an action makes. */
  function GateCall(sys: System, a: Action): seq<G.Call> {
    match a
    case Control(id, _) =>
      if id !in sys.ops then [] else
      var pc := sys.ops[id].pc;
      if pc.BeginGate? then [G.Begin]
      else if pc.EarlyRelease? || pc.ReleaseGate? then [G.Release]
      else if pc.QuarantineGate? then [G.Quarantine(G.Callback(id))]
      else []
    case Raise(id) => [G.Quarantine(G.Callback(id))]
    case _ => []
  }

  function AllCalled(g: G.Contents, calls: seq<G.Call>): G.Contents {
    if calls == [] then g else G.Called(AllCalled(g, calls[..|calls| - 1]), calls[|calls| - 1])
  }

  /** The calls of the first `k` actions. */
  function GateCalls(states: seq<System>, actions: seq<Action>, k: nat): (calls: seq<seq<G.Call>>)
    requires k <= |actions| && |states| == |actions| + 1
    ensures |calls| == k && forall i | 0 <= i < k :: calls[i] == GateCall(states[i], actions[i])
  {
    seq(k, i requires 0 <= i < k => GateCall(states[i], actions[i]))
  }

  lemma CallStep(sys: System, a: Action)
    requires Enabled(sys, a)
    ensures |GateCall(sys, a)| <= 1 && Gate(Next(sys, a)) == AllCalled(Gate(sys), GateCall(sys, a))
  {
  }

  /** Action number `i` changes the gate as its call does. */
  ghost predicate CallMoves(states: seq<System>, actions: seq<Action>, i: nat)
    requires i < |actions| && |states| == |actions| + 1
  {
    var calls := GateCall(states[i], actions[i]);
    |calls| <= 1 && Gate(states[i + 1]) == AllCalled(Gate(states[i]), calls)
  }

  function Gate(sys: System): G.Contents { G.Contents(sys.gate, sys.kept) }

  lemma CallNext(states: seq<System>, actions: seq<Action>, i: nat)
    requires Execution(states, actions) && i < |actions|
    ensures CallMoves(states, actions, i)
  {
    CallStep(states[i], actions[i]);
  }

  lemma AllCalledMore(g: G.Contents, calls: seq<G.Call>, more: seq<G.Call>)
    requires |more| <= 1
    ensures AllCalled(g, calls + more) == AllCalled(AllCalled(g, calls), more)
  {
    if more == [] {
      assert calls + more == calls;
    } else {
      assert (calls + more)[..|calls|] == calls;
    }
  }

  /** Contents that change by no call or one at a time are what all calls in turn make of the first. */
  lemma {:induction false} Replayed(contents: seq<G.Contents>, calls: seq<seq<G.Call>>)
    requires |contents| == |calls| + 1
    requires forall i | 0 <= i < |calls| :: |calls[i]| <= 1 && contents[i + 1] == AllCalled(contents[i], calls[i])
    ensures contents[|calls|] == AllCalled(contents[0], Flatten(calls))
    decreases |calls|
  {
    if calls != [] {
      var last := |calls| - 1;
      Replayed(contents[..|contents| - 1], calls[..last]);
      AllCalledMore(contents[0], Flatten(calls[..last]), calls[last]);
    }
  }

  /** In every execution the gate's state and slot are those of a new gate object on which the calls of the
      operations have been made, one after the other. */
  lemma GateIsObject(states: seq<System>, actions: seq<Action>, k: nat)
    requires Execution(states, actions) && k < |states|
    ensures Gate(states[k]) == AllCalled(G.Contents(G.Idle, G.Nobody), Flatten(GateCalls(states, actions, k)))
  {
    var contents := seq(k + 1, i requires 0 <= i <= k => Gate(states[i]));
    var calls := GateCalls(states, actions, k);
    forall i | 0 <= i < k ensures |calls[i]| <= 1 && contents[i + 1] == AllCalled(contents[i], calls[i]) {
      CallNext(states, actions, i);
    }
    Replayed(contents, calls);
  }

  // ---------------------------------------------------------------------------------------------
  // What is in the slot
  // ---------------------------------------------------------------------------------------------

  lemma KeptStep(sys: System, a: Action)
    requires Enabled(sys, a)
    ensures Next(sys, a).kept == if Quarantines(sys, a) then G.Callback(a.id) else sys.kept
  {
  }

  lemma KeptNext(states: seq<System>, actions: seq<Action>, i: nat)
    requires Execution(states, actions) && i < |actions|
    ensures states[i + 1].kept == if Quarantines(states[i], actions[i]) then G.Callback(actions[i].id) else states[i].kept
  {
    KeptStep(states[i], actions[i]);
  }

  /** The last of the first `k` actions that quarantines an operation, if there is one. */
  function LastQuarantine(states: seq<System>, actions: seq<Action>, k: nat): (r: Option<nat>)
    requires k <= |actions| && |states| == |actions| + 1
    ensures r.Some? ==> r.value < k && Quarantines(states[r.value], actions[r.value])
  {
    if k == 0 then None
    else if Quarantines(states[k - 1], actions[k - 1]) then Some(k - 1)
    else LastQuarantine(states, actions, k - 1)
  }

  /** The slot holds the object of the operation that was quarantined last. */
  lemma {:induction false} KeptIsLast(states: seq<System>, actions: seq<Action>, k: nat)
    requires Execution(states, actions) && k < |states|
    ensures states[k].kept == match LastQuarantine(states, actions, k) case None => G.Nobody case Some(j) => G.Callback(actions[j].id)
  {
    if k > 0 {
      KeptIsLast(states, actions, k - 1);
      KeptNext(states, actions, k - 1);
      LastNext(states, actions, k - 1);
    }
  }

  lemma LastNext(states: seq<System>, actions: seq<Action>, i: nat)
    requires i < |actions| && |states| == |actions| + 1
    ensures LastQuarantine(states, actions, i + 1)
         == if Quarantines(states[i], actions[i]) then Some(i) else LastQuarantine(states, actions, i)
  {
  }

  /** Being quarantined takes the gate from its only holder; afterwards nobody can acquire it. */
  lemma HolderGone(sys: System, a: Action)
    requires SysInv(sys) && Enabled(sys, a) && Quarantines(sys, a) && a.id in sys.ops && sys.ops[a.id].holding
    ensures NoneHolding(Next(sys, a).ops) && Next(sys, a).gate == G.Quarantined
  {
    assert OneHolding(sys.ops);
  }

  lemma StillGone(sys: System, a: Action)
    requires SysInv(sys) && Enabled(sys, a) && NoneHolding(sys.ops) && sys.gate == G.Quarantined
    ensures NoneHolding(Next(sys, a).ops) && Next(sys, a).gate == G.Quarantined
  {
    if a.Control? {
      assert OpInv(sys.ops[a.id]);
      GateStep(sys.gate, sys.ops[a.id], a.env);
    }
  }

  /** After an operation that held the gate was quarantined, nobody holds it. */
  lemma {:induction false} NobodyHolds(states: seq<System>, actions: seq<Action>, j: nat, k: nat)
    requires Execution(states, actions) && j < k < |states| && Quarantines(states[j], actions[j])
    requires actions[j].id in states[j].ops && states[j].ops[actions[j].id].holding
    ensures NoneHolding(states[k].ops) && states[k].gate == G.Quarantined
    decreases k
  {
    ExecutionInv(states, actions, k - 1);
    if j < k - 1 {
      NobodyHolds(states, actions, j, k - 1);
      StillGone(states[k - 1], actions[k - 1]);
    } else {
      HolderGone(states[j], actions[j]);
    }
  }

  /** From then on only exceptions reach the slot, and they do in operations that gave the gate back. */
  lemma OnlyExceptions(states: seq<System>, actions: seq<Action>, j: nat, i: nat)
    requires Execution(states, actions) && j < i < |actions| && Quarantines(states[j], actions[j])
    requires actions[j].id in states[j].ops && states[j].ops[actions[j].id].holding && Quarantines(states[i], actions[i])
    ensures actions[i].Raise? && actions[i].id in states[i].ops && !states[i].ops[actions[i].id].holding
  {
    NobodyHolds(states, actions, j, i);
    ExecutionInv(states, actions, i);
    var a := actions[i];
    assert Enabled(states[i], a);
    assert OpInv(states[i].ops[a.id]);
  }

  /** The last of the actions in between that raises an exception, if there is one. */
  function LastRaise(actions: seq<Action>, j: nat, k: nat): (r: Option<nat>)
    requires j <= k <= |actions|
    ensures r.Some? ==> j <= r.value < k && actions[r.value].Raise?
  {
    if j == k then None else if actions[k - 1].Raise? then Some(k - 1) else LastRaise(actions, j, k - 1)
  }

  /** After the holder of the gate was quarantined, whoever raised last was quarantined last. */
  lemma {:induction false} LastIsRaise(states: seq<System>, actions: seq<Action>, j: nat, k: nat)
    requires Execution(states, actions) && j < k < |states| && Quarantines(states[j], actions[j])
    requires actions[j].id in states[j].ops && states[j].ops[actions[j].id].holding
    ensures LastQuarantine(states, actions, k) == match LastRaise(actions, j + 1, k) case None => Some(j) case Some(r) => Some(r)
    decreases k
  {
    if j + 1 < k {
      LastIsRaise(states, actions, j, k - 1);
      if Quarantines(states[k - 1], actions[k - 1]) { OnlyExceptions(states, actions, j, k - 1); }
    }
  }

  /** Once an operation that held the gate has been quarantined, its callback object is kept exactly as long
      as no exception is raised afterwards in another operation that had given the gate back. */
  lemma KeptExactly(states: seq<System>, actions: seq<Action>, j: nat, k: nat)
    requires Execution(states, actions) && j < k < |states| && Quarantines(states[j], actions[j])
    requires actions[j].id in states[j].ops && states[j].ops[actions[j].id].holding
    ensures states[k].kept == G.Callback(actions[j].id) <==>
              var last := LastRaise(actions, j + 1, k); last == None || actions[last.value].id == actions[j].id
  {
    LastIsRaise(states, actions, j, k);
    KeptIsLast(states, actions, k);
  }

  /** Operation `id` held the gate and was quarantined by this action. */
  ghost predicate QuarantinedAt(states: seq<System>, actions: seq<Action>, id: nat, j: nat) {
    && |states| == |actions| + 1 && j < |actions| && Quarantines(states[j], actions[j]) && actions[j].id == id
    && id in states[j].ops && states[j].ops[id].holding
  }

  // ---------------------------------------------------------------------------------------------
  // Who needs it
  // ---------------------------------------------------------------------------------------------

  /** A step that makes an operation needy quarantines it. */
  lemma ControlNeedy(gate: G.State, op: Op, env: Env)
    requires OpInv(op) && !op.pc.Done? && !op.threw && Needy(Step(gate, op, env).1)
    ensures Needy(op) || (op.pc.QuarantineGate? && op.holding)
  {
  }

  lemma NextNeedy(sys: System, a: Action, id: nat)
    requires SysInv(sys) && Enabled(sys, a) && id in Next(sys, a).ops && Needy(Next(sys, a).ops[id])
    ensures id in sys.ops
    ensures Needy(sys.ops[id]) || (Quarantines(sys, a) && a.id == id && sys.ops[id].holding)
  {
    if id in sys.ops {
      assert OpInv(sys.ops[id]);
      if a.Control? && a.id == id { ControlNeedy(sys.gate, sys.ops[id], a.env); }
    }
  }

  /** Every needy operation held the gate when it was quarantined. */
  lemma {:induction false} NeedyWasQuarantined(states: seq<System>, actions: seq<Action>, k: nat, id: nat)
    requires Execution(states, actions) && k < |states| && id in states[k].ops && Needy(states[k].ops[id])
    ensures exists j: nat :: j < k && QuarantinedAt(states, actions, id, j)
    decreases k
  {
    var a := actions[k - 1];
    ExecutionInv(states, actions, k - 1);
    NextNeedy(states[k - 1], a, id);
    if Needy(states[k - 1].ops[id]) {
      NeedyWasQuarantined(states, actions, k - 1, id);
    } else {
      assert QuarantinedAt(states, actions, id, k - 1);
    }
  }

  /** So without exceptions every needy operation's object is kept, in every execution. */
  lemma NeedyIsKept(states: seq<System>, actions: seq<Action>, k: nat, id: nat)
    requires Execution(states, actions) && k < |states| && id in states[k].ops && Needy(states[k].ops[id])
    requires forall i | 0 <= i < k && actions[i].Raise? :: actions[i].id == id
    ensures states[k].kept == G.Callback(id)
  {
    NeedyWasQuarantined(states, actions, k, id);
    var j: nat :| j < k && QuarantinedAt(states, actions, id, j);
    KeptExactly(states, actions, j, k);
  }

  // ---------------------------------------------------------------------------------------------
  // A run in which it is not
  // ---------------------------------------------------------------------------------------------

  function Two(gate: G.State, kept: G.Owner, first: Op, second: Op): System { System(gate, kept, map[0 := first, 1 := second]) }

  /** Cancelled before it opened anything, and about to say so. */
  function Early(): Op {
    NewOp(1, 1).(pc := ReturnError(Error(Cancelled, Open)), callback := C.RequestStop(C.Fresh(1, 1)))
  }

  function Stopping(pc: Pc): Op { Early().(pc := pc, holding := true) }

  lemma ReachEarly()
    ensures Reachable(One(G.Idle, Early()))
  {
    ReachSubmitted();
    ReachControl(G.Idle, NewOp(1, 1), G.Active, Begun(EarlyStop));
    ReachDevice(G.Active, Begun(EarlyStop), C.RequestStop(C.Fresh(1, 1)), RequestStop(0));
    ReachControl(G.Active, Stopping(EarlyStop), G.Active, Stopping(EarlyRelease));
    ReachControl(G.Active, Stopping(EarlyRelease), G.Idle, Early());
  }

  /** A control step of the second operation, whatever the device and the observer do. */
  lemma ReachSecond(gate: G.State, op: Op, gate': G.State, op': Op, env: Env := WELL)
    requires Reachable(Two(gate, G.Nobody, Early(), op)) && !op.pc.Done? && !op.pc.QuarantineGate? && Step(gate, op, env) == (gate', op')
    ensures Reachable(Two(gate', G.Nobody, Early(), op'))
  {
    assert map[0 := Early(), 1 := op][1 := op'] == map[0 := Early(), 1 := op'];
    ReachNext(Two(gate, G.Nobody, Early(), op), Control(1, env), Two(gate', G.Nobody, Early(), op'));
  }

  function SecondOpen(): Op { Begun(Cancel(Open)).(life := Opened()) }

  lemma ReachSecondBegun()
    ensures Reachable(Two(G.Active, G.Nobody, Early(), Begun(EarlyStop)))
  {
    ReachEarly();
    assert map[0 := Early()][1 := NewOp(1, 1)] == map[0 := Early(), 1 := NewOp(1, 1)];
    ReachNext(One(G.Idle, Early()), Submit(1, Limits(100, 100), 8000, 1, 1), Two(G.Idle, G.Nobody, Early(), NewOp(1, 1)));
    ReachSecond(G.Idle, NewOp(1, 1), G.Active, Begun(EarlyStop));
  }

  lemma ReachSecondOpen()
    ensures Reachable(Two(G.Active, G.Nobody, Early(), SecondOpen()))
  {
    ReachSecondBegun();
    ReachSecond(G.Active, Begun(EarlyStop), G.Active, Begun(CancelBeforeOpen));
    ReachSecond(G.Active, Begun(CancelBeforeOpen), G.Active, Begun(Observe(Open)));
    ReachSecond(G.Active, Begun(Observe(Open)), G.Active, Begun(CallDevice(Open)));
    ReachSecond(G.Active, Begun(CallDevice(Open)), G.Active, SecondOpen());
  }

  function Calling(): C.Callback { C.Arrive(C.Fresh(1, 1), 0, [7], 1, C.Normal) }

  lemma ReachCalled()
    ensures Reachable(Two(G.Active, G.Nobody, Early(), SecondOpen().(callback := Calling())))
  {
    ReachSecondOpen();
    var called := SecondOpen().(callback := Calling());
    assert map[0 := Early(), 1 := SecondOpen()][1 := called] == map[0 := Early(), 1 := called];
    ReachNext(Two(G.Active, G.Nobody, Early(), SecondOpen()), CallBack(1, 0, [7], 1, C.Normal), Two(G.Active, G.Nobody, Early(), called));
  }

  function Unseen(): Life { Opened().(primary := Some(Error(INTERNAL, Start))) }

  /** The second operation after its callback was deactivated, with a call that has entered it before. */
  function Leaving(pc: Pc, life: Life, verdict: Verdict): Op {
    Begun(pc).(callback := C.Deactivate(Calling()), life := life, verdict := verdict)
  }

  /** The observer fails, and the device is closed while it is calling back. */
  lemma ReachClosed()
    ensures Reachable(Two(G.Active, G.Nobody, Early(), Leaving(ReadQuiescent, CallStage(Unseen(), Close, None), Nothing())))
  {
    ReachCalled();
    ReachSecond(G.Active, SecondOpen().(callback := Calling()), G.Active, Begun(Observe(Start)).(callback := Calling(), life := Opened()));
    ReachSecond(G.Active, Begun(Observe(Start)).(callback := Calling(), life := Opened()),
                G.Active, Begun(DoDeactivate).(callback := Calling(), life := Unseen()), Env(false, None));
    ReachSecond(G.Active, Begun(DoDeactivate).(callback := Calling(), life := Unseen()),
                G.Active, Leaving(Observe(Close), Unseen(), Nothing()));
    ReachSecond(G.Active, Leaving(Observe(Close), Unseen(), Nothing()), G.Active, Leaving(CallDevice(Close), Unseen(), Nothing()));
    var life := CallStage(Unseen(), Close, None);
    ReachSecond(G.Active, Leaving(CallDevice(Close), Unseen(), Nothing()), G.Active, Leaving(Cancel(Close), life, Nothing()));
    ReachSecond(G.Active, Leaving(Cancel(Close), life, Nothing()), G.Active, Leaving(ReadQuiescent, life, Nothing()));
  }

  function Refused(pc: Pc): Op {
    Leaving(pc, CallStage(Unseen(), Close, None), Nothing().(error := Some(Error(LateCallback, Close))))
  }

  lemma ReachReading()
    ensures Reachable(Two(G.Active, G.Nobody, Early(), Leaving(ReadLate, CallStage(Unseen(), Close, None), Nothing())))
  {
    ReachClosed();
    var life := CallStage(Unseen(), Close, None);
    ReachSecond(G.Active, Leaving(ReadQuiescent, life, Nothing()), G.Active, Leaving(ReadFrames, life, Nothing()));
    ReachSecond(G.Active, Leaving(ReadFrames, life, Nothing()), G.Active, Leaving(ReadLate, life, Nothing()));
  }

  lemma ReachRefused()
    ensures Reachable(Two(G.Active, G.Nobody, Early(), Refused(QuarantineGate)))
  {
    ReachReading();
    var life := CallStage(Unseen(), Close, None);
    ReachSecond(G.Active, Leaving(ReadLate, life, Nothing()), G.Active, Leaving(ReadFailure, life, Nothing()));
    ReachSecond(G.Active, Leaving(ReadFailure, life, Nothing()), G.Active, Refused(ReadLateAgain));
    ReachSecond(G.Active, Refused(ReadLateAgain), G.Active, Refused(QuarantineGate));
  }

  /** The second operation, which is over. */
  function Quarantined(): Op { Refused(Done(Failed(Error(LateCallback, Close)))).(holding := false) }

  lemma ReachQuarantined()
    ensures Reachable(Two(G.Quarantined, G.Callback(1), Early(), Quarantined()))
  {
    ReachRefused();
    var settled := Refused(ReturnError(Error(LateCallback, Close))).(holding := false);
    assert map[0 := Early(), 1 := Refused(QuarantineGate)][1 := settled] == map[0 := Early(), 1 := settled];
    ReachNext(Two(G.Active, G.Nobody, Early(), Refused(QuarantineGate)), Control(1, WELL), Two(G.Quarantined, G.Callback(1), Early(), settled));
    assert map[0 := Early(), 1 := settled][1 := Quarantined()] == map[0 := Early(), 1 := Quarantined()];
    ReachNext(Two(G.Quarantined, G.Callback(1), Early(), settled), Control(1, WELL), Two(G.Quarantined, G.Callback(1), Early(), Quarantined()));
  }

  /** Then the message of the first operation's error cannot be allocated, and its handler replaces what
      the gate keeps. */
  lemma ReachReplaced()
    ensures Reachable(Two(G.Quarantined, G.Callback(0), Throw(Early()), Quarantined()))
  {
    ReachQuarantined();
    assert map[0 := Early(), 1 := Quarantined()][0 := Throw(Early())] == map[0 := Throw(Early()), 1 := Quarantined()];
    ReachNext(Two(G.Quarantined, G.Callback(1), Early(), Quarantined()), Raise(0),
              Two(G.Quarantined, G.Callback(0), Throw(Early()), Quarantined()));
  }

  /** An execution that ends with a finished operation in which no exception was raised, whose device is still
      calling back, and whose callback object the gate has let go. */
  lemma KeptTooBriefly()
    ensures exists states: seq<System>, actions: seq<Action> ::
              && Execution(states, actions) && 1 in states[|actions|].ops && Needy(states[|actions|].ops[1])
              && states[|actions|].ops[1].pc == Done(Failed(Error(LateCallback, Close))) && !states[|actions|].ops[1].threw
              && states[|actions|].ops[1].callback.inFlight == 1 && states[|actions|].kept == G.Callback(0)
  {
    ReachReplaced();
    var sys := Two(G.Quarantined, G.Callback(0), Throw(Early()), Quarantined());
    var states: seq<System>, actions: seq<Action> :| Execution(states, actions) && states[|actions|] == sys;
    assert Needy(states[|actions|].ops[1]);
  }
}
