/** When a call of the microphone callback is accepted, whatever else goes on meanwhile, and what a call
    does that meets no other: `process()` of `src/adapters/capture_device.cpp:39-101` from the outside. */
module CaptureCalls {
  import opened Sequences
  import C = CaptureCallback
  import opened CaptureController
  import opened CaptureSystem

  // ---------------------------------------------------------------------------------------------
  // What a call has seen
  // ---------------------------------------------------------------------------------------------

  /** What a call has read of the shared fields, each in the step that reads it. */
  datatype Seen = Seen(accepting: bool, terminal: bool, stop: bool, frames: nat)

  const NOTHING: Seen := Seen(false, true, true, 0)

  function Noted(seen: Seen, pc: C.Pc, s: C.Shared): Seen {
    match pc
    case LoadAccepting => seen.(accepting := s.accepting)
    case LoadTerminal => seen.(terminal := s.terminal)
    case LoadStop => seen.(stop := s.stop)
    case LoadFrames => seen.(frames := s.frames)
    case _ => seen
  }

  /** What the call of operation `id` has seen after one more action; a new call has seen nothing. */
  function SeenNext(sys: System, a: Action, id: nat, call: nat, seen: Seen): Seen {
    match a
    case CallBack(i, n, _, _, _) => if i == id && n == call then NOTHING else seen
    case Proceed(i, n) =>
      if i == id && n == call && id in sys.ops && call in sys.ops[id].callback.calls
      then Noted(seen, sys.ops[id].callback.calls[call].pc, sys.ops[id].callback.shared)
      else seen
    case _ => seen
  }

  /** What it has seen after the first `k` actions. */
  function SeenBy(states: seq<System>, actions: seq<Action>, id: nat, call: nat, k: nat): Seen
    requires k <= |actions| && |states| == |actions| + 1
  {
    if k == 0 then NOTHING else SeenNext(states[k - 1], actions[k - 1], id, call, SeenBy(states, actions, id, call, k - 1))
  }

  /** Whole frames, at least one, in a buffer that can be. */
  predicate RightSize(channels: nat, input: seq<C.Sample>, frames: nat) {
    frames > 0 && |input| == frames * channels && frames * channels <= C.SIZE_MAX
  }

  /** The call found the counter at zero, accepting on and terminal off, saw no stop, brings what is right, and
      what it brings is still wanted. */
  ghost predicate Accepts(s: C.Shared, c: C.Call, seen: Seen) {
    && c.prior == 0 && seen.accepting && !seen.terminal && RightSize(s.channels, c.input, c.frames)
    && !seen.stop && c.status == C.Normal && seen.frames + c.frames <= s.requested
  }

  /** Why a call that is not accepted fails; one that is late, or sees a stop, does not. */
  function Blame(s: C.Shared, c: C.Call, seen: Seen): C.Failure {
    if c.prior != 0 then C.ContractViolation
    else if !seen.accepting then C.NoFailure
    else if seen.terminal || !RightSize(s.channels, c.input, c.frames) then C.ContractViolation
    else if seen.stop then C.NoFailure
    else if c.status == C.StatusDeviceLost then C.DeviceLost
    else C.Overrun
  }

  /** The call has added its frames. */
  predicate Through(c: C.Call) { c.pc == C.SetTerminal(C.Complete) || c.pc == C.Leave(C.Continue) || c.pc == C.Leave(C.Complete) }

  /** The call is past its screening with this outcome. */
  ghost predicate Admitted(s: C.Shared, c: C.Call, seen: Seen) {
    && seen.accepting && !seen.terminal && RightSize(s.channels, c.input, c.frames)
    && match c.pc
       case LoadStop => seen.stop && seen.frames == 0
       case LoadFrames => !seen.stop && c.status == C.Normal
       case CountOverrun => !seen.stop && (c.status == C.StatusOverrun || (c.status == C.Normal && seen.frames + c.frames > s.requested))
       case Copy(_, remaining, _) => Accepts(s, c, seen) && remaining == s.requested - seen.frames
       case AddFrames(remaining) => Accepts(s, c, seen) && remaining == s.requested - seen.frames
       case _ => false
  }

  /** What the position of a call says of what it has seen. */
  ghost predicate FateOk(s: C.Shared, c: C.Call, seen: Seen) {
    match c.pc
    case LoadAccepting => c.prior == 0 && seen == NOTHING
    case CountLate => c.prior == 0 && !seen.accepting
    case CountCallback => c.prior == 0 && seen == NOTHING.(accepting := true)
    case LoadTerminal => c.prior == 0 && seen == NOTHING.(accepting := true)
    case SetFailure(failure) => !Accepts(s, c, seen) && failure == Blame(s, c, seen) && failure != C.NoFailure
    case SetTerminal(decision) => FateDecided(s, c, seen, decision) && decision != C.Continue && (c.prior == 0 ==> seen.accepting)
    case Leave(decision) => FateDecided(s, c, seen, decision) && (Ends(c, seen, decision) ==> s.terminal)
    case _ => c.prior == 0 && Admitted(s, c, seen)
  }

  /** The recording is over with this call: it completes it, or it is refused and not merely late. */
  predicate Ends(c: C.Call, seen: Seen, decision: C.Decision) {
    decision == C.Complete || (decision == C.Abort && (c.prior != 0 || seen.accepting))
  }

  ghost predicate FateDecided(s: C.Shared, c: C.Call, seen: Seen, decision: C.Decision) {
    && (decision == C.Abort && Blame(s, c, seen) != C.NoFailure ==> s.failure != C.NoFailure)
    && (decision != C.Abort <==> Accepts(s, c, seen))
    && (decision == C.Complete <==> Accepts(s, c, seen) && seen.frames + c.frames == s.requested)
  }

  lemma SizesAgree(s: C.Shared, c: C.Call)
    ensures C.WellSized(s, c) <==> RightSize(s.channels, c.input, c.frames)
  {
    if s.channels == 2 && c.frames <= C.SIZE_MAX / 2 { assert c.frames * 2 <= C.SIZE_MAX; }
  }

  /** A step of a call keeps what its position says. */
  ghost predicate FateMoves(s: C.Shared, c: C.Call, seen: Seen)
    requires C.InBounds(s, c) && !c.pc.Leave?
  {
    var (s', pc') := C.Access(s, c); FateOk(s', c.(pc := pc'), Noted(seen, c.pc, s))
  }

  lemma EnteringMoves(s: C.Shared, c: C.Call, seen: Seen)
    requires C.CallOk(s, c) && FateOk(s, c, seen)
    requires c.pc.LoadAccepting? || c.pc.CountLate? || c.pc.CountCallback? || c.pc.LoadTerminal?
    ensures FateMoves(s, c, seen)
  {
    SizesAgree(s, c);
  }

  lemma ScreeningMoves(s: C.Shared, c: C.Call, seen: Seen)
    requires C.Published(s) && C.CallOk(s, c) && FateOk(s, c, seen)
    requires c.pc.LoadStop? || c.pc.LoadFrames? || c.pc.CountOverrun?
    ensures FateMoves(s, c, seen)
  {
    if c.pc.LoadFrames? { assert |s.samples| / s.channels == s.requested; }
  }

  lemma CopyingMoves(s: C.Shared, c: C.Call, seen: Seen)
    requires C.InBounds(s, c) && C.CallOk(s, c) && FateOk(s, c, seen) && (c.pc.Copy? || c.pc.AddFrames?)
    ensures FateMoves(s, c, seen)
  {
  }

  lemma LeavingMoves(s: C.Shared, c: C.Call, seen: Seen)
    requires C.CallOk(s, c) && FateOk(s, c, seen) && (c.pc.SetFailure? || c.pc.SetTerminal?)
    ensures FateMoves(s, c, seen)
  {
  }

  lemma FateStep(s: C.Shared, c: C.Call, seen: Seen)
    requires C.Published(s) && C.CallOk(s, c) && FateOk(s, c, seen) && !c.pc.Leave? && C.InBounds(s, c)
    ensures FateMoves(s, c, seen)
  {
    if c.pc.Copy? || c.pc.AddFrames? {
      CopyingMoves(s, c, seen);
    } else if c.pc.SetFailure? || c.pc.SetTerminal? {
      LeavingMoves(s, c, seen);
    } else if c.pc.LoadStop? || c.pc.LoadFrames? || c.pc.CountOverrun? {
      ScreeningMoves(s, c, seen);
    } else {
      EnteringMoves(s, c, seen);
    }
  }

  ghost predicate Keeps(s: C.Shared, s': C.Shared) {
    && s'.channels == s.channels && s'.requested == s.requested
    && (s.terminal ==> s'.terminal) && (s.failure != C.NoFailure ==> s'.failure == s.failure)
  }

  lemma AccessFlags(s: C.Shared, c: C.Call)
    requires C.InBounds(s, c) && !c.pc.Leave?
    ensures Keeps(s, C.Access(s, c).0)
  {
  }

  /** The fields on which a call's fate depends do not change, and its flags stay. */
  lemma FateKept(s: C.Shared, s': C.Shared, c: C.Call, seen: Seen)
    requires FateOk(s, c, seen) && Keeps(s, s')
    ensures FateOk(s', c, seen)
  {
  }

  lemma FateProceeds(cb: C.Callback, call: nat, n: nat, seen: Seen)
    requires C.Inv(cb) && call in cb.calls && n in cb.calls && C.InBounds(cb.shared, cb.calls[n])
    requires call in C.Advance(cb, n).calls && FateOk(cb.shared, cb.calls[call], seen)
    ensures var cb' := C.Advance(cb, n);
            FateOk(cb'.shared, cb'.calls[call], if n == call then Noted(seen, cb.calls[n].pc, cb.shared) else seen)
  {
    assert C.CallOk(cb.shared, cb.calls[call]);
    if !cb.calls[n].pc.Leave? { AccessFlags(cb.shared, cb.calls[n]); }
    if n == call {
      FateStep(cb.shared, cb.calls[call], seen);
    } else {
      FateKept(cb.shared, C.Advance(cb, n).shared, cb.calls[call], seen);
    }
  }

  /** The control thread leaves the calls alone. */
  lemma ControlKeepsCalls(gate: G.State, op: Op, env: Env)
    requires !op.pc.Done?
    ensures var cb, cb' := op.callback, Step(gate, op, env).1.callback;
            && cb'.calls == cb.calls && Keeps(cb.shared, cb'.shared)
            && cb'.shared.committed == cb.shared.committed && cb'.shared.frames == cb.shared.frames
            && cb'.shared.failure == cb.shared.failure && cb'.shared.overruns == cb.shared.overruns
            && cb'.shared.callbacks == cb.shared.callbacks && cb'.shared.terminal == cb.shared.terminal
  {
  }

  lemma FateNext(sys: System, a: Action, id: nat, call: nat, seen: Seen)
    requires SysInv(sys) && Enabled(sys, a) && id in Next(sys, a).ops && call in Next(sys, a).ops[id].callback.calls
    requires id in sys.ops && call in sys.ops[id].callback.calls ==>
               FateOk(sys.ops[id].callback.shared, sys.ops[id].callback.calls[call], seen)
    ensures var cb := Next(sys, a).ops[id].callback; FateOk(cb.shared, cb.calls[call], SeenNext(sys, a, id, call, seen))
  {
    if a.id == id && id in sys.ops {
      var cb := sys.ops[id].callback;
      assert OpInv(sys.ops[id]);
      match a
      case Control(_, env) =>
        ControlKeepsCalls(sys.gate, sys.ops[id], env);
        FateKept(cb.shared, Next(sys, a).ops[id].callback.shared, cb.calls[call], seen);
      case Raise(_) =>
      case RequestStop(_) => FateKept(cb.shared, C.RequestStop(cb).shared, cb.calls[call], seen);
      case CallBack(_, n, _, _, _) =>
      case Proceed(_, n) => FateProceeds(cb, call, n, seen);
    }
  }

  lemma {:induction false} Fate(states: seq<System>, actions: seq<Action>, id: nat, call: nat, k: nat)
    requires Execution(states, actions) && k < |states| && id in states[k].ops && call in states[k].ops[id].callback.calls
    ensures var cb := states[k].ops[id].callback; FateOk(cb.shared, cb.calls[call], SeenBy(states, actions, id, call, k))
    decreases k
  {
    var a := actions[k - 1];
    ExecutionInv(states, actions, k - 1);
    if id in states[k - 1].ops && call in states[k - 1].ops[id].callback.calls {
      Fate(states, actions, id, call, k - 1);
    }
    FateNext(states[k - 1], a, id, call, SeenBy(states, actions, id, call, k - 1));
  }

  /** In every execution, a call that is about to leave has been accepted exactly when it was right, and
      completes the recording exactly when it then brought all that was left. */
  lemma AcceptedExactly(states: seq<System>, actions: seq<Action>, id: nat, call: nat, k: nat)
    requires Execution(states, actions) && k < |states| && id in states[k].ops && call in states[k].ops[id].callback.calls
    requires states[k].ops[id].callback.calls[call].pc.Leave?
    ensures var s, c, seen := states[k].ops[id].callback.shared, states[k].ops[id].callback.calls[call], SeenBy(states, actions, id, call, k);
            && (c.pc.decision != C.Abort <==> Accepts(s, c, seen)) && (Through(c) <==> Accepts(s, c, seen))
            && (c.pc.decision == C.Complete <==> Accepts(s, c, seen) && seen.frames + c.frames == s.requested)
            && (Ends(c, seen, c.pc.decision) ==> s.terminal)
            && (c.pc.decision == C.Abort && Blame(s, c, seen) != C.NoFailure ==> s.failure != C.NoFailure)
  {
    Fate(states, actions, id, call, k);
  }

  /** The action takes this call through. */
  predicate TakesThrough(sys: System, a: Action, id: nat)
    requires Enabled(sys, a)
  {
    && a.Proceed? && a.id == id && !Through(sys.ops[id].callback.calls[a.call])
    && a.call in Next(sys, a).ops[id].callback.calls && Through(Next(sys, a).ops[id].callback.calls[a.call])
  }

  /** In every execution the recording grows exactly when a call goes through, and then by what it brings. */
  lemma CommitsExactly(states: seq<System>, actions: seq<Action>, i: nat, id: nat)
    requires Execution(states, actions) && i < |actions| && id in states[i].ops
    ensures id in states[i + 1].ops && Enabled(states[i], actions[i])
    ensures var s, s' := states[i].ops[id].callback.shared, states[i + 1].ops[id].callback.shared;
            if TakesThrough(states[i], actions[i], id) then Grows(s, s', states[i].ops[id].callback.calls[actions[i].call])
            else s'.committed == s.committed && s'.frames == s.frames
  {
    ExecutionInv(states, actions, i);
    var a := actions[i];
    if a.Proceed? && a.id == id { Fate(states, actions, id, a.call, i); }
    CommitsNext(states[i], a, id, if a.Proceed? then SeenBy(states, actions, id, a.call, i) else NOTHING);
  }

  predicate Grows(s: C.Shared, s': C.Shared, c: C.Call) {
    s'.committed == s.committed + [c.input] && s'.frames == s.frames + c.frames
  }

  lemma CommitsNext(sys: System, a: Action, id: nat, seen: Seen)
    requires SysInv(sys) && Enabled(sys, a) && id in sys.ops
    requires a.Proceed? && a.id == id ==> FateOk(sys.ops[id].callback.shared, sys.ops[id].callback.calls[a.call], seen)
    ensures id in Next(sys, a).ops
    ensures var s, s' := sys.ops[id].callback.shared, Next(sys, a).ops[id].callback.shared;
            if TakesThrough(sys, a, id) then Grows(s, s', sys.ops[id].callback.calls[a.call])
            else s'.committed == s.committed && s'.frames == s.frames
  {
    match a
    case Control(i, env) => ControlKeepsCalls(sys.gate, sys.ops[i], env);
    case Proceed(i, n) =>
      if i == id {
        ProceedCommits(sys.ops[id].callback, n, seen);
      }
    case _ =>
  }

  lemma ProceedCommits(cb: C.Callback, n: nat, seen: Seen)
    requires n in cb.calls && C.InBounds(cb.shared, cb.calls[n]) && FateOk(cb.shared, cb.calls[n], seen)
    ensures var s, s', c, calls' := cb.shared, C.Advance(cb, n).shared, cb.calls[n], C.Advance(cb, n).calls;
            if !Through(c) && n in calls' && Through(calls'[n]) then Grows(s, s', c)
            else s'.committed == s.committed && s'.frames == s.frames
  {
    if !cb.calls[n].pc.Leave? { AccessCommits(cb.shared, cb.calls[n], seen); }
  }

  lemma AccessCommits(s: C.Shared, c: C.Call, seen: Seen)
    requires C.InBounds(s, c) && !c.pc.Leave? && FateOk(s, c, seen)
    ensures var (s', pc') := C.Access(s, c);
            if !Through(c) && Through(c.(pc := pc')) then Grows(s, s', c)
            else s'.committed == s.committed && s'.frames == s.frames
  {
    if !c.pc.AddFrames? && !c.pc.SetTerminal? { OthersCommitNothing(s, c); }
  }

  lemma OthersCommitNothing(s: C.Shared, c: C.Call)
    requires C.InBounds(s, c) && !c.pc.Leave? && !c.pc.AddFrames? && !c.pc.SetTerminal?
    ensures var (s', pc') := C.Access(s, c);
            s'.committed == s.committed && s'.frames == s.frames && !Through(c.(pc := pc'))
  {
  }

  /** In every execution, the failure that is kept is the first there was, and one for which a call was to
      blame that was not accepted. */
  lemma FailureIsFirst(states: seq<System>, actions: seq<Action>, i: nat, id: nat)
    requires Execution(states, actions) && i < |actions| && id in states[i].ops
    ensures id in states[i + 1].ops
    ensures states[i + 1].ops[id].callback.shared.failure != states[i].ops[id].callback.shared.failure ==>
              && states[i].ops[id].callback.shared.failure == C.NoFailure
              && actions[i].Proceed? && actions[i].id == id && actions[i].call in states[i].ops[id].callback.calls
              && var s, c := states[i].ops[id].callback.shared, states[i].ops[id].callback.calls[actions[i].call];
                 var seen := SeenBy(states, actions, id, actions[i].call, i);
                 !Accepts(s, c, seen) && states[i + 1].ops[id].callback.shared.failure == Blame(s, c, seen)
  {
    var a, sys := actions[i], states[i];
    assert Enabled(sys, a) && states[i + 1] == Next(sys, a);
    match a
    case Control(n, env) => ControlKeepsCalls(sys.gate, sys.ops[n], env);
    case Proceed(n, call) => if n == id { Fate(states, actions, id, call, i); }
    case _ =>
  }
}
