/** The late count in the statistics of a successful capture: `stats()` is read again after the decision
    to succeed (`src/adapters/capture_device.cpp:412-429`), so it counts the late callbacks since. */
module CaptureStatistics {
  import opened Wrappers
  import C = CaptureCallback
  import G = AudioDeviceGate
  import opened CaptureController
  import opened CaptureSystem

  /** The action is the step by which a call of operation `id` is counted as late. */
  predicate CountsLate(sys: System, a: Action, id: nat) {
    && a.Proceed? && a.id == id && id in sys.ops && a.call in sys.ops[id].callback.calls
    && sys.ops[id].callback.calls[a.call].pc.CountLate?
  }

  function Late(sys: System, id: nat): nat
    requires id in sys.ops
  {
    sys.ops[id].callback.shared.late
  }

  /** How many calls of the operation are counted as late from state `lo` on up to state `hi`. */
  function LateSteps(states: seq<System>, actions: seq<Action>, id: nat, lo: nat, hi: nat): nat
    requires lo <= hi <= |actions| && |states| == |actions| + 1
  {
    if lo == hi then 0
    else LateSteps(states, actions, id, lo, hi - 1) + (if CountsLate(states[hi - 1], actions[hi - 1], id) then 1 else 0)
  }

  /** The control thread's step number `j` is the one that operation `id` makes at this point. */
  ghost predicate StepsAt(states: seq<System>, actions: seq<Action>, id: nat, j: nat, pc: Pc) {
    && j < |actions| && |states| == |actions| + 1
    && actions[j].Control? && actions[j].id == id && id in states[j].ops && states[j].ops[id].pc == pc
  }

  lemma AccessLate(s: C.Shared, c: C.Call)
    requires C.InBounds(s, c) && !c.pc.Leave?
    ensures C.Access(s, c).0.late == s.late + if c.pc.CountLate? then 1 else 0
  {
  }

  lemma ControlLate(gate: G.State, op: Op, env: Env)
    requires !op.pc.Done?
    ensures Step(gate, op, env).1.callback.shared.late == op.callback.shared.late
  {
  }

  /** The counter of late calls counts exactly these steps. */
  lemma LateStep(sys: System, a: Action, id: nat)
    requires Enabled(sys, a) && id in sys.ops
    ensures id in Next(sys, a).ops
    ensures Late(Next(sys, a), id) == Late(sys, id) + if CountsLate(sys, a, id) then 1 else 0
  {
    match a
    case Control(i, env) => ControlLate(sys.gate, sys.ops[i], env);
    case Proceed(i, call) =>
      var cb := sys.ops[i].callback;
      if !cb.calls[call].pc.Leave? { AccessLate(cb.shared, cb.calls[call]); }
    case _ =>
  }

  lemma {:induction false} LateIsCount(states: seq<System>, actions: seq<Action>, id: nat, lo: nat, hi: nat)
    requires Execution(states, actions) && lo <= hi <= |actions| && id in states[lo].ops
    ensures id in states[hi].ops && Late(states[hi], id) == Late(states[lo], id) + LateSteps(states, actions, id, lo, hi)
    decreases hi
  {
    if lo < hi {
      LateIsCount(states, actions, id, lo, hi - 1);
      var a := actions[hi - 1];
      LateStep(states[hi - 1], a, id);
    }
  }

  // ---------------------------------------------------------------------------------------------
  // What the control thread remembers
  // ---------------------------------------------------------------------------------------------

  /** The first reading of the late count has been made, and has not led to an error. */
  predicate Passed(op: Op) {
    match op.pc
    case ReadFailure => true
    case ReadLateAgain => op.verdict.error == None
    case ReleaseGate => op.verdict.error == None
    case QuarantineGate => op.verdict.error == None
    case Done(outcome) => outcome.Captured?
    case _ => Reporting(op.pc)
  }

  /** The statistics are complete. */
  predicate Reported(op: Op) { op.pc.Publish? || (op.pc.Done? && op.pc.outcome.Captured?) }

  function StatsOf(op: Op): Stats
    requires Reported(op)
  {
    if op.pc.Publish? then op.verdict.stats else op.pc.outcome.stats
  }

  lemma ControlPasses(gate: G.State, op: Op, env: Env)
    requires !op.pc.Done?
    ensures var op' := Step(gate, op, env).1;
            Passed(op') && !op'.pc.ReadFailure? ==> Passed(op) && (op.pc.ReadFailure? ==> op.verdict.late == 0)
  {
  }

  lemma ControlReads(gate: G.State, op: Op, env: Env)
    requires !op.pc.Done?
    ensures var op' := Step(gate, op, env).1;
            op'.pc.ReadFailure? ==> op.pc.ReadLate? && op'.verdict.late == op.callback.shared.late
  {
  }

  lemma ControlReports(gate: G.State, op: Op, env: Env)
    requires !op.pc.Done?
    ensures var op' := Step(gate, op, env).1;
            Reported(op') ==>
              || (op.pc.StatLate? && StatsOf(op').late == op.callback.shared.late)
              || (Reported(op) && StatsOf(op') == StatsOf(op))
  {
  }

  /** Nobody else moves the control thread. */
  lemma OthersWait(sys: System, a: Action, id: nat)
    requires Enabled(sys, a) && id in Next(sys, a).ops && !(a.Control? && a.id == id)
    ensures var op' := Next(sys, a).ops[id];
            || (a.Submit? && a.id == id && id !in sys.ops && !Passed(op') && !Reported(op'))
            || (a.Raise? && a.id == id && op'.pc.Done? && !Passed(op') && !Reported(op'))
            || (id in sys.ops && op' == sys.ops[id].(callback := op'.callback))
  {
  }

  /** An operation that is past the first reading made it at some step, and read what was then the
      count; where it goes on without an error, that was zero. */
  lemma {:induction false} ReadBefore(states: seq<System>, actions: seq<Action>, k: nat, id: nat)
    requires Execution(states, actions) && k < |states| && id in states[k].ops && Passed(states[k].ops[id])
    ensures exists r: nat :: && r < k && StepsAt(states, actions, id, r, ReadLate)
                             && Late(states[r], id) == (if states[k].ops[id].pc.ReadFailure? then states[k].ops[id].verdict.late else 0)
    decreases k
  {
    var a, before := actions[k - 1], states[k - 1];
    assert Enabled(before, a) && states[k] == Next(before, a);
    if a.Control? && a.id == id {
      ControlPasses(before.gate, before.ops[id], a.env);
      ControlReads(before.gate, before.ops[id], a.env);
      if before.ops[id].pc.ReadLate? {
        assert StepsAt(states, actions, id, k - 1, ReadLate);
      } else {
        ReadBefore(states, actions, k - 1, id);
      }
    } else {
      OthersWait(before, a, id);
      ReadBefore(states, actions, k - 1, id);
    }
  }

  lemma {:induction false} ReportedBefore(states: seq<System>, actions: seq<Action>, k: nat, id: nat)
    requires Execution(states, actions) && k < |states| && id in states[k].ops && Reported(states[k].ops[id])
    ensures exists s: nat :: && s < k && StepsAt(states, actions, id, s, StatLate)
                             && Late(states[s], id) == StatsOf(states[k].ops[id]).late
    decreases k
  {
    var a, before := actions[k - 1], states[k - 1];
    assert Enabled(before, a) && states[k] == Next(before, a);
    if a.Control? && a.id == id {
      ControlReports(before.gate, before.ops[id], a.env);
      if before.ops[id].pc.StatLate? {
        assert StepsAt(states, actions, id, k - 1, StatLate);
      } else {
        ReportedBefore(states, actions, k - 1, id);
      }
    } else {
      OthersWait(before, a, id);
      ReportedBefore(states, actions, k - 1, id);
    }
  }

  /** How far the control thread has come; it never goes back, and it makes each step once. */
  function Phase(pc: Pc): nat {
    match pc
    case ReadLate => 1
    case ReadFailure => 2
    case ReadLateAgain => 3
    case ReleaseGate => 4
    case QuarantineGate => 4
    case StatCallbacks => 5
    case StatFrames => 6
    case StatOverruns => 7
    case StatLate => 8
    case Publish => 9
    case ReturnError(_) => 9
    case Done(_) => 10
    case _ => 0
  }

  lemma ControlPhase(gate: G.State, op: Op, env: Env)
    requires !op.pc.Done?
    ensures Phase(op.pc) == 0 || Phase(op.pc) < Phase(Step(gate, op, env).1.pc)
  {
  }

  lemma PhaseStep(sys: System, a: Action, id: nat)
    requires Enabled(sys, a) && id in sys.ops
    ensures id in Next(sys, a).ops && Phase(sys.ops[id].pc) <= Phase(Next(sys, a).ops[id].pc)
    ensures a.Control? && a.id == id && Phase(sys.ops[id].pc) > 0 ==> Phase(sys.ops[id].pc) < Phase(Next(sys, a).ops[id].pc)
  {
    if a.Control? && a.id == id { ControlPhase(sys.gate, sys.ops[id], a.env); } else { OthersWait(sys, a, id); }
  }

  lemma {:induction false} PhaseGrows(states: seq<System>, actions: seq<Action>, id: nat, i: nat, j: nat)
    requires Execution(states, actions) && i <= j < |states| && id in states[i].ops
    ensures id in states[j].ops && Phase(states[i].ops[id].pc) <= Phase(states[j].ops[id].pc)
    decreases j
  {
    if i < j {
      PhaseGrows(states, actions, id, i, j - 1);
      var a := actions[j - 1];
      PhaseStep(states[j - 1], a, id);
    }
  }

  lemma StepsOnce(states: seq<System>, actions: seq<Action>, id: nat, i: nat, j: nat, pc: Pc)
    requires Execution(states, actions) && Phase(pc) > 0
    requires StepsAt(states, actions, id, i, pc) && StepsAt(states, actions, id, j, pc)
    ensures i == j
  {
    if i < j { After(states, actions, id, i, j, pc); }
    if j < i { After(states, actions, id, j, i, pc); }
  }

  lemma After(states: seq<System>, actions: seq<Action>, id: nat, i: nat, j: nat, pc: Pc)
    requires Execution(states, actions) && Phase(pc) > 0 && i < j < |states| && StepsAt(states, actions, id, i, pc)
    ensures id in states[j].ops && Phase(pc) < Phase(states[j].ops[id].pc)
  {
    var a := actions[i];
    PhaseStep(states[i], a, id);
    PhaseGrows(states, actions, id, i + 1, j);
  }

  // ---------------------------------------------------------------------------------------------
  // What the statistics say
  // ---------------------------------------------------------------------------------------------

  predicate HasCaptured(sys: System, id: nat) { id in sys.ops && sys.ops[id].pc.Done? && sys.ops[id].pc.outcome.Captured? }

  /** What is past the first reading without an error has been so since. */
  lemma {:induction false} PassedSince(states: seq<System>, actions: seq<Action>, j: nat, k: nat, id: nat)
    requires Execution(states, actions) && j <= k < |states| && id in states[j].ops && Phase(states[j].ops[id].pc) >= 2
    requires id in states[k].ops && Passed(states[k].ops[id])
    ensures Passed(states[j].ops[id])
    decreases k
  {
    if j < k {
      var a, before := actions[k - 1], states[k - 1];
      assert Enabled(before, a) && states[k] == Next(before, a);
      PhaseGrows(states, actions, id, j, k - 1);
      if a.Control? && a.id == id {
        ControlPasses(before.gate, before.ops[id], a.env);
        ControlReads(before.gate, before.ops[id], a.env);
      } else {
        OthersWait(before, a, id);
      }
      PassedSince(states, actions, j, k - 1, id);
    }
  }

  lemma ControlJudges(gate: G.State, op: Op, env: Env)
    requires !op.pc.Done?
    ensures var op' := Step(gate, op, env).1;
            Passed(op') && Phase(op'.pc) >= 4 ==> op.pc.ReadLateAgain? || (Passed(op) && Phase(op.pc) >= 4)
  {
  }

  /** An operation that has gone on from the second reading without an error made that reading at some step. */
  lemma {:induction false} JudgedBefore(states: seq<System>, actions: seq<Action>, k: nat, id: nat)
    requires Execution(states, actions) && k < |states| && id in states[k].ops
    requires Passed(states[k].ops[id]) && Phase(states[k].ops[id].pc) >= 4
    ensures exists t: nat :: t < k && StepsAt(states, actions, id, t, ReadLateAgain)
    decreases k
  {
    var a, before := actions[k - 1], states[k - 1];
    assert Enabled(before, a) && states[k] == Next(before, a);
    if a.Control? && a.id == id {
      ControlJudges(before.gate, before.ops[id], a.env);
      if before.ops[id].pc.ReadLateAgain? {
        assert StepsAt(states, actions, id, k - 1, ReadLateAgain);
      } else {
        JudgedBefore(states, actions, k - 1, id);
      }
    } else {
      OthersWait(before, a, id);
      JudgedBefore(states, actions, k - 1, id);
    }
  }

  /** A successful capture has read the late count three times: before it decided to succeed, before it
      decided about the gate, and for its statistics. */
  lemma CapturedHasRead(states: seq<System>, actions: seq<Action>, k: nat, id: nat)
    requires Execution(states, actions) && k < |states| && HasCaptured(states[k], id)
    ensures exists r: nat, t: nat, s: nat ::
              && r < t < s < k && StepsAt(states, actions, id, r, ReadLate)
              && StepsAt(states, actions, id, t, ReadLateAgain) && StepsAt(states, actions, id, s, StatLate)
  {
    ReportedBefore(states, actions, k, id);
    var s: nat :| s < k && StepsAt(states, actions, id, s, StatLate);
    JudgedBefore(states, actions, s, id);
    var t: nat :| t < s && StepsAt(states, actions, id, t, ReadLateAgain);
    PassedSince(states, actions, t, s, id);
    ReadBefore(states, actions, t, id);
  }

  /** What was read in the step that read it last. */
  lemma LastReading(states: seq<System>, actions: seq<Action>, k: nat, id: nat, s: nat)
    requires Execution(states, actions) && k < |states| && HasCaptured(states[k], id) && StepsAt(states, actions, id, s, StatLate)
    ensures s < k && Late(states[s], id) == StatsOf(states[k].ops[id]).late
  {
    ReportedBefore(states, actions, k, id);
    var s': nat :| s' < k && StepsAt(states, actions, id, s', StatLate) && Late(states[s'], id) == StatsOf(states[k].ops[id]).late;
    StepsOnce(states, actions, id, s, s', StatLate);
  }

  /** What was read first, where the control thread has gone on without an error. */
  lemma FirstReading(states: seq<System>, actions: seq<Action>, k: nat, id: nat, r: nat)
    requires Execution(states, actions) && k < |states| && id in states[k].ops && StepsAt(states, actions, id, r, ReadLate)
    requires Passed(states[k].ops[id]) && !states[k].ops[id].pc.ReadFailure?
    ensures r < k && Late(states[r], id) == 0
  {
    ReadBefore(states, actions, k, id);
    var r': nat :| r' < k && StepsAt(states, actions, id, r', ReadLate) && Late(states[r'], id) == 0;
    StepsOnce(states, actions, id, r, r', ReadLate);
  }

  /** The late count in its statistics is the number of calls counted as late between the two; so it is
      zero exactly when there was none. */
  lemma LateCountIsExact(states: seq<System>, actions: seq<Action>, k: nat, id: nat, r: nat, s: nat)
    requires Execution(states, actions) && k < |states| && HasCaptured(states[k], id)
    requires StepsAt(states, actions, id, r, ReadLate) && StepsAt(states, actions, id, s, StatLate)
    ensures r < s && StatsOf(states[k].ops[id]).late == LateSteps(states, actions, id, r, s)
    ensures StatsOf(states[k].ops[id]).late == 0 <==> forall i | r <= i < s :: !CountsLate(states[i], actions[i], id)
  {
    LastReading(states, actions, k, id, s);
    FirstReading(states, actions, s, id, r);
    LateIsCount(states, actions, id, r, s);
    NoneLate(states, actions, id, r, s);
  }

  lemma {:induction false} NoneLate(states: seq<System>, actions: seq<Action>, id: nat, lo: nat, hi: nat)
    requires lo <= hi <= |actions| && |states| == |actions| + 1
    ensures LateSteps(states, actions, id, lo, hi) == 0 <==> forall i | lo <= i < hi :: !CountsLate(states[i], actions[i], id)
    decreases hi
  {
    if lo < hi { NoneLate(states, actions, id, lo, hi - 1); }
  }

  // ---------------------------------------------------------------------------------------------
  // The gate
  // ---------------------------------------------------------------------------------------------

  /** A capture succeeds and yet quarantines the gate exactly when a call is counted as late between the
      reading that decides about success and the one that decides about the gate. */
  lemma CapturedQuarantines(states: seq<System>, actions: seq<Action>, k: nat, id: nat, r: nat, t: nat)
    requires Execution(states, actions) && k < |states| && HasCaptured(states[k], id)
    requires StepsAt(states, actions, id, r, ReadLate) && StepsAt(states, actions, id, t, ReadLateAgain)
    ensures r < t < k && id in states[t + 1].ops
    ensures states[t + 1].ops[id].pc.QuarantineGate? <==> LateSteps(states, actions, id, r, t) > 0
  {
    JudgedBefore(states, actions, k, id);
    var t': nat :| t' < k && StepsAt(states, actions, id, t', ReadLateAgain);
    StepsOnce(states, actions, id, t, t', ReadLateAgain);
    PassedSince(states, actions, t, k, id);
    FirstReading(states, actions, t, id, r);
    LateIsCount(states, actions, id, r, t);
    ExecutionInv(states, actions, t);
    var a := actions[t];
    assert OpInv(states[t].ops[id]) && states[t + 1] == Next(states[t], a);
  }
}
