/** What one call of the microphone callback does from its arrival to its return when nothing else happens
    meanwhile: `process()` of `src/adapters/capture_device.cpp:39-101` as one step. */
module CaptureAlone {
  import opened Sequences
  import C = CaptureCallback
  import opened CaptureCalls

  /** How many steps the call has left at most. */
  function Left(c: C.Call): nat {
    match c.pc
    case LoadAccepting => |c.input| + 9
    case CountLate => 1
    case CountCallback => |c.input| + 8
    case LoadTerminal => |c.input| + 7
    case LoadStop => |c.input| + 6
    case LoadFrames => |c.input| + 5
    case Copy(_, _, copied) => if copied < |c.input| then |c.input| - copied + 4 else 4
    case CountOverrun => 3
    case AddFrames(_) => 3
    case SetFailure(_) => 2
    case SetTerminal(_) => 1
    case Leave(_) => 0
  }

  /** The shared fields and the decision when the call makes all its steps. */
  ghost function Alone(s: C.Shared, c: C.Call): (C.Shared, C.Decision)
    requires C.Published(s) && C.HolderOk(s, c)
    decreases Left(c)
  {
    if c.pc.Leave? then (s, c.pc.decision) else
      InBoundsAlone(s, c);
      var (s', pc') := C.Access(s, c);
      C.HolderStep(s, c);
      LeftLess(s, c);
      Alone(s', c.(pc := pc'))
  }

  lemma InBoundsAlone(s: C.Shared, c: C.Call)
    requires C.Published(s) && C.HolderOk(s, c)
    ensures C.InBounds(s, c)
  {
    if c.pc.Copy? && c.pc.copied < |c.input| {
      assert C.Span(c.pc.completed, s.channels) + |c.input| <= C.Span(s.requested, s.channels);
    }
  }

  lemma LeftLess(s: C.Shared, c: C.Call)
    requires C.InBounds(s, c) && !c.pc.Leave?
    ensures Left(c.(pc := C.Access(s, c).1)) < Left(c)
  {
  }

  /** What is wrong with a call that is counted, if anything; a stop is no failure. */
  datatype Trouble = Fine | Stopped | Fails(failure: C.Failure, overrun: bool)

  /** The call, and what is wrong with it. */
  ghost predicate Suffers(s: C.Shared, input: seq<C.Sample>, frames: nat, status: C.Status, t: Trouble) {
    var right := !s.terminal && RightSize(s.channels, input, frames);
    && (t == Fine <==> right && !s.stop && status == C.Normal && s.frames + frames <= s.requested)
    && (t == Stopped <==> right && s.stop)
    && (t == Fails(C.ContractViolation, false) <==> !right)
    && (t == Fails(C.DeviceLost, false) <==> right && !s.stop && status == C.StatusDeviceLost)
    && (t == Fails(C.Overrun, true) <==>
          right && !s.stop && (status == C.StatusOverrun || (status == C.Normal && s.frames + frames > s.requested)))
  }

  /** The fields after a call that was counted and is fine: its input is in its place, and nothing else changed. */
  predicate Takes(s: C.Shared, input: seq<C.Sample>, frames: nat, s': C.Shared) {
    && |s'.samples| == |s.samples| && C.Span(s.frames, s.channels) + |input| <= |s.samples|
    && (forall i | 0 <= i < |s.samples| ::
          s'.samples[i] == var from := C.Span(s.frames, s.channels); if from <= i < from + |input| then input[i - from] else s.samples[i])
    && s' == s.(samples := s'.samples, callbacks := s.callbacks + 1, frames := s.frames + frames,
                committed := s.committed + [input], terminal := s.frames + frames == s.requested)
  }

  /** The fields after a call that was counted and is not. */
  predicate Refuses(s: C.Shared, t: Trouble, s': C.Shared) {
    s' == s.(callbacks := s.callbacks + 1, rejected := s.rejected + 1, terminal := true,
             overruns := s.overruns + (if t.Fails? && t.overrun then 1 else 0),
             failure := if t.Fails? && s.failure == C.NoFailure then t.failure else s.failure)
  }

  /** Everything one call does. */
  ghost predicate Does(s: C.Shared, input: seq<C.Sample>, frames: nat, status: C.Status, s': C.Shared, d: C.Decision) {
    if !s.accepting then d == C.Abort && s' == s.(late := s.late + 1)
    else exists t ::
      && Suffers(s, input, frames, status, t)
      && if t == Fine then Takes(s, input, frames, s') && d == (if s.frames + frames == s.requested then C.Complete else C.Continue)
         else Refuses(s, t, s') && d == C.Abort
  }

  function Arrived(input: seq<C.Sample>, frames: nat, status: C.Status): C.Call {
    C.Call(input, frames, status, 0, C.LoadAccepting)
  }

  /** One step more or less makes no difference. */
  lemma Onward(s: C.Shared, c: C.Call)
    requires C.Published(s) && C.HolderOk(s, c) && !c.pc.Leave?
    ensures C.InBounds(s, c)
    ensures var (s', pc') := C.Access(s, c);
            C.Published(s') && C.HolderOk(s', c.(pc := pc')) && Alone(s, c) == Alone(s', c.(pc := pc'))
  {
    InBoundsAlone(s, c);
    C.HolderStep(s, c);
  }

  lemma LateAlone(s: C.Shared, c: C.Call)
    requires C.Published(s) && C.HolderOk(s, c) && c.pc.LoadAccepting? && !s.accepting
    ensures Alone(s, c) == (s.(late := s.late + 1), C.Abort)
  {
    Onward(s, c);
    Onward(s, c.(pc := C.CountLate));
  }

  /** Being counted, and screened. */
  lemma CountedAlone(s: C.Shared, c: C.Call)
    requires C.Published(s) && C.HolderOk(s, c) && c.pc.LoadAccepting? && s.accepting
    ensures var s' := s.(callbacks := s.callbacks + 1);
            && C.Published(s') && C.HolderOk(s', c.(pc := C.LoadTerminal))
            && Alone(s, c) == Alone(s', c.(pc := C.LoadTerminal))
  {
    Onward(s, c);
    Onward(s, c.(pc := C.CountCallback));
  }

  /** On the way out after a failure. */
  lemma FailedAlone(s: C.Shared, c: C.Call)
    requires C.Published(s) && C.HolderOk(s, c) && c.pc.SetFailure?
    ensures Alone(s, c) == (s.(failure := if s.failure == C.NoFailure then c.pc.failure else s.failure, terminal := true), C.Abort)
  {
    Onward(s, c);
    Onward(s.(failure := if s.failure == C.NoFailure then c.pc.failure else s.failure), c.(pc := C.SetTerminal(C.Abort)));
  }

  lemma OverrunAlone(s: C.Shared, c: C.Call)
    requires C.Published(s) && C.HolderOk(s, c) && c.pc.CountOverrun?
    ensures Alone(s, c) == (s.(overruns := s.overruns + 1, failure := if s.failure == C.NoFailure then C.Overrun else s.failure,
                               terminal := true), C.Abort)
  {
    Onward(s, c);
    FailedAlone(s.(overruns := s.overruns + 1), c.(pc := C.SetFailure(C.Overrun)));
  }

  /** The samples with the input from number `k` on in its place. */
  function Filled(samples: seq<C.Sample>, from: nat, input: seq<C.Sample>, k: nat): (r: seq<C.Sample>)
    requires k <= |input| && from + |input| <= |samples|
    ensures |r| == |samples|
  {
    seq(|samples|, i requires 0 <= i < |samples| => if from + k <= i < from + |input| then input[i - from] else samples[i])
  }

  lemma FilledStep(samples: seq<C.Sample>, from: nat, input: seq<C.Sample>, k: nat)
    requires k <= |input| && from + |input| <= |samples|
    ensures k < |input| ==> Filled(samples[from + k := input[k]], from, input, k + 1) == Filled(samples, from, input, k)
    ensures Filled(samples, from, input, |input|) == samples
  {
  }

  lemma CopyFits(s: C.Shared, c: C.Call)
    requires C.Published(s) && C.HolderOk(s, c) && (c.pc.Copy? || c.pc.AddFrames?)
    ensures C.Span(s.frames, s.channels) + |c.input| <= |s.samples| && (c.pc.Copy? ==> c.pc.copied <= |c.input|)
  {
  }

  /** The copy brings the rest of the input to its place. */
  lemma {:induction false} CopyAlone(s: C.Shared, c: C.Call, filled: seq<C.Sample>)
    requires C.Published(s) && C.HolderOk(s, c) && c.pc.Copy?
    requires C.Span(s.frames, s.channels) + |c.input| <= |s.samples| && c.pc.copied <= |c.input|
    requires filled == Filled(s.samples, C.Span(s.frames, s.channels), c.input, c.pc.copied)
    ensures var s', c' := s.(samples := filled), c.(pc := C.AddFrames(c.pc.remaining));
            C.Published(s') && C.HolderOk(s', c') && Alone(s, c) == Alone(s', c')
    decreases |c.input| - c.pc.copied, 1
  {
    FilledStep(s.samples, C.Span(s.frames, s.channels), c.input, c.pc.copied);
    if c.pc.copied < |c.input| {
      CopyForward(s, c, filled);
    } else {
      assert s.(samples := filled) == s;
      CopyOver(s, c);
    }
  }

  lemma CopyForward(s: C.Shared, c: C.Call, filled: seq<C.Sample>)
    requires C.Published(s) && C.HolderOk(s, c) && c.pc.Copy?
    requires C.Span(s.frames, s.channels) + |c.input| <= |s.samples| && c.pc.copied < |c.input|
    requires filled == Filled(s.samples, C.Span(s.frames, s.channels), c.input, c.pc.copied)
    ensures var s', c' := s.(samples := filled), c.(pc := C.AddFrames(c.pc.remaining));
            C.Published(s') && C.HolderOk(s', c') && Alone(s, c) == Alone(s', c')
    decreases |c.input| - c.pc.copied, 0
  {
    FilledStep(s.samples, C.Span(s.frames, s.channels), c.input, c.pc.copied);
    CopyOn(s, c);
    CopyRest(s, c, s.(samples := s.samples[C.Span(s.frames, s.channels) + c.pc.copied := c.input[c.pc.copied]]),
             c.(pc := C.Copy(c.pc.completed, c.pc.remaining, c.pc.copied + 1)), filled);
  }

  /** After one sample more. */
  lemma CopyRest(s: C.Shared, c: C.Call, s1: C.Shared, c1: C.Call, filled: seq<C.Sample>)
    requires c.pc.Copy? && c1 == c.(pc := C.Copy(c.pc.completed, c.pc.remaining, c.pc.copied + 1)) && s1 == s.(samples := s1.samples)
    requires C.Published(s1) && C.HolderOk(s1, c1) && c1.pc.copied <= |c.input|
    requires C.Span(s.frames, s.channels) + |c.input| <= |s1.samples|
    requires filled == Filled(s1.samples, C.Span(s.frames, s.channels), c.input, c1.pc.copied)
    ensures var s', c' := s.(samples := filled), c.(pc := C.AddFrames(c.pc.remaining));
            C.Published(s') && C.HolderOk(s', c') && Alone(s1, c1) == Alone(s', c')
    decreases |c.input| - c.pc.copied - 1, 2
  {
    CopyAlone(s1, c1, filled);
    assert s1.(samples := filled) == s.(samples := filled);
  }

  lemma CopyOn(s: C.Shared, c: C.Call)
    requires C.Published(s) && C.HolderOk(s, c) && c.pc.Copy? && c.pc.copied < |c.input|
    ensures C.Span(s.frames, s.channels) + |c.input| <= |s.samples|
    ensures var s' := s.(samples := s.samples[C.Span(s.frames, s.channels) + c.pc.copied := c.input[c.pc.copied]]);
            var c' := c.(pc := C.Copy(c.pc.completed, c.pc.remaining, c.pc.copied + 1));
            C.Published(s') && C.HolderOk(s', c') && Alone(s, c) == Alone(s', c')
  {
    CopyFits(s, c);
    Onward(s, c);
    CopyOne(s, c);
  }

  lemma CopyOver(s: C.Shared, c: C.Call)
    requires C.Published(s) && C.HolderOk(s, c) && c.pc.Copy? && c.pc.copied == |c.input|
    ensures var c' := c.(pc := C.AddFrames(c.pc.remaining)); C.HolderOk(s, c') && Alone(s, c) == Alone(s, c')
  {
    Onward(s, c);
  }

  lemma CopyOne(s: C.Shared, c: C.Call)
    requires C.Published(s) && C.HolderOk(s, c) && c.pc.Copy? && c.pc.copied < |c.input| && C.InBounds(s, c)
    ensures c.pc.completed == s.frames
    ensures C.Access(s, c) == (s.(samples := s.samples[C.Span(s.frames, s.channels) + c.pc.copied := c.input[c.pc.copied]]),
                               C.Copy(c.pc.completed, c.pc.remaining, c.pc.copied + 1))
  {
  }

  /** An accepted call. */
  lemma TakenAlone(s: C.Shared, c: C.Call)
    requires C.Published(s) && C.HolderOk(s, c) && c.pc.AddFrames?
    ensures var done := c.frames == c.pc.remaining;
            Alone(s, c) == (s.(frames := s.frames + c.frames, committed := s.committed + [c.input], terminal := s.terminal || done),
                            if done then C.Complete else C.Continue)
  {
    Onward(s, c);
    if c.frames == c.pc.remaining {
      Onward(s.(frames := s.frames + c.frames, committed := s.committed + [c.input]), c.(pc := C.SetTerminal(C.Complete)));
    }
  }

  lemma MeasureAccess(s: C.Shared, c: C.Call)
    requires C.Published(s) && C.HolderOk(s, c) && c.pc.LoadFrames?
    ensures C.Access(s, c) == if s.frames + c.frames <= s.requested then (s, C.Copy(s.frames, s.requested - s.frames, 0))
                              else (C.Reject(s), C.CountOverrun)
  {
    assert |s.samples| / s.channels == s.requested;
  }

  /** What an accepted call leaves, apart from being counted. */
  function Recorded(s: C.Shared, input: seq<C.Sample>, frames: nat): C.Shared
    requires C.Span(s.frames, s.channels) + |input| <= |s.samples|
  {
    s.(samples := Filled(s.samples, C.Span(s.frames, s.channels), input, 0), frames := s.frames + frames,
       committed := s.committed + [input], terminal := s.terminal || s.frames + frames == s.requested)
  }

  function Answer(s: C.Shared, frames: nat): C.Decision { if s.frames + frames == s.requested then C.Complete else C.Continue }

  lemma TakenIs(s: C.Shared, c: C.Call, filled: seq<C.Sample>)
    requires C.Span(s.frames, s.channels) + |c.input| <= |s.samples|
    requires filled == Filled(s.samples, C.Span(s.frames, s.channels), c.input, 0)
    requires s.frames <= s.requested
    requires var c' := c.(pc := C.AddFrames(s.requested - s.frames));
             C.Published(s.(samples := filled)) && C.HolderOk(s.(samples := filled), c')
    ensures Alone(s.(samples := filled), c.(pc := C.AddFrames(s.requested - s.frames))) == (Recorded(s, c.input, c.frames), Answer(s, c.frames))
  {
    TakenAlone(s.(samples := filled), c.(pc := C.AddFrames(s.requested - s.frames)));
  }

  /** From the beginning of the copy on. */
  lemma CopiedAlone(s: C.Shared, c: C.Call)
    requires C.Published(s) && C.HolderOk(s, c) && s.frames <= s.requested && c.pc == C.Copy(s.frames, s.requested - s.frames, 0)
    ensures C.Span(s.frames, s.channels) + |c.input| <= |s.samples|
    ensures Alone(s, c) == (Recorded(s, c.input, c.frames), Answer(s, c.frames))
  {
    CopyFits(s, c);
    var filled := Filled(s.samples, C.Span(s.frames, s.channels), c.input, 0);
    CopyAlone(s, c, filled);
    TakenIs(s, c, filled);
  }

  /** From the measuring on. */
  lemma MeasuredAlone(s: C.Shared, c: C.Call)
    requires C.Published(s) && C.HolderOk(s, c) && c.pc.LoadFrames? && s.frames + c.frames <= s.requested
    ensures C.Span(s.frames, s.channels) + |c.input| <= |s.samples|
    ensures Alone(s, c) == (Recorded(s, c.input, c.frames), Answer(s, c.frames))
  {
    MeasureAccess(s, c);
    Onward(s, c);
    CopiedAlone(s, c.(pc := C.Copy(s.frames, s.requested - s.frames, 0)));
  }

  /** What is wrong with a counted call. */
  ghost function TroubleOf(s: C.Shared, c: C.Call): Trouble {
    if s.terminal || !RightSize(s.channels, c.input, c.frames) then Fails(C.ContractViolation, false)
    else if s.stop then Stopped
    else if c.status == C.StatusDeviceLost then Fails(C.DeviceLost, false)
    else if c.status == C.StatusOverrun || s.frames + c.frames > s.requested then Fails(C.Overrun, true)
    else Fine
  }

  lemma RefusedAlone(s: C.Shared, c: C.Call)
    requires C.Published(s) && C.HolderOk(s, c) && c.pc.LoadTerminal? && TroubleOf(s, c) != Fine
    ensures var t := TroubleOf(s, c);
            Alone(s, c) == (s.(rejected := s.rejected + 1, terminal := true,
                               overruns := s.overruns + (if t.Fails? && t.overrun then 1 else 0),
                               failure := if t.Fails? && s.failure == C.NoFailure then t.failure else s.failure), C.Abort)
  {
    SizesAgree(s, c);
    var s1 := C.Reject(s);
    Onward(s, c);
    if TroubleOf(s, c) == Fails(C.ContractViolation, false) {
      FailedAlone(s1, c.(pc := C.SetFailure(C.ContractViolation)));
    } else {
      StoppedAlone(s, c.(pc := C.LoadStop));
    }
  }

  lemma StoppedAlone(s: C.Shared, c: C.Call)
    requires C.Published(s) && C.HolderOk(s, c) && c.pc.LoadStop? && !s.terminal && RightSize(s.channels, c.input, c.frames)
    requires TroubleOf(s, c) != Fine
    ensures var t := TroubleOf(s, c);
            Alone(s, c) == (s.(rejected := s.rejected + 1, terminal := true,
                               overruns := s.overruns + (if t.Fails? && t.overrun then 1 else 0),
                               failure := if t.Fails? && s.failure == C.NoFailure then t.failure else s.failure), C.Abort)
  {
    var s1 := C.Reject(s);
    Onward(s, c);
    if s.stop {
      Onward(s1, c.(pc := C.SetTerminal(C.Abort)));
    } else if c.status == C.StatusDeviceLost {
      FailedAlone(s1, c.(pc := C.SetFailure(C.DeviceLost)));
    } else {
      if c.status == C.Normal {
        Onward(s, c.(pc := C.LoadFrames));
        MeasureAccess(s, c.(pc := C.LoadFrames));
      }
      OverrunAlone(s1, c.(pc := C.CountOverrun));
    }
  }

  /** A call that meets no other, from its arrival to its return, does exactly this. */
  lemma AloneExactly(s: C.Shared, input: seq<C.Sample>, frames: nat, status: C.Status)
    requires C.Inv(C.Callback(s, 0, map[])) && !s.taken
    ensures var c := Arrived(input, frames, status);
            && C.Arrive(C.Callback(s, 0, map[]), 0, input, frames, status) == C.Callback(s, 1, map[0 := c])
            && C.HolderOk(s, c) && Does(s, input, frames, status, Alone(s, c).0, Alone(s, c).1)
  {
    var c := Arrived(input, frames, status);
    if !s.accepting {
      LateAlone(s, c);
    } else {
      AcceptingAlone(s, c);
    }
  }

  lemma AcceptingAlone(s: C.Shared, c: C.Call)
    requires C.Published(s) && C.HolderOk(s, c) && c.pc.LoadAccepting? && s.accepting
    ensures Does(s, c.input, c.frames, c.status, Alone(s, c).0, Alone(s, c).1)
  {
    CountedAlone(s, c);
    var s1, c1 := s.(callbacks := s.callbacks + 1), c.(pc := C.LoadTerminal);
    var t := TroubleOf(s1, c1);
    assert Suffers(s, c.input, c.frames, c.status, t);
    if t == Fine { FineDoes(s, s1, c1); } else { RefusedAlone(s1, c1); }
  }

  lemma FineDoes(s: C.Shared, s1: C.Shared, c1: C.Call)
    requires C.Published(s1) && C.HolderOk(s1, c1) && c1.pc.LoadTerminal? && TroubleOf(s1, c1) == Fine
    requires s1 == s.(callbacks := s.callbacks + 1)
    ensures var (s', d) := Alone(s1, c1);
            Takes(s, c1.input, c1.frames, s') && d == if s.frames + c1.frames == s.requested then C.Complete else C.Continue
  {
    FineAlone(s1, c1);
  }

  lemma FineAlone(s: C.Shared, c: C.Call)
    requires C.Published(s) && C.HolderOk(s, c) && c.pc.LoadTerminal? && TroubleOf(s, c) == Fine
    ensures C.Span(s.frames, s.channels) + |c.input| <= |s.samples| && !s.terminal
    ensures Alone(s, c) == (Recorded(s, c.input, c.frames), Answer(s, c.frames))
  {
    ScreenedAlone(s, c);
    MeasuredAlone(s, c.(pc := C.LoadFrames));
  }

  lemma ScreenedAlone(s: C.Shared, c: C.Call)
    requires C.Published(s) && C.HolderOk(s, c) && c.pc.LoadTerminal? && TroubleOf(s, c) == Fine
    ensures var c' := c.(pc := C.LoadFrames); C.HolderOk(s, c') && Alone(s, c) == Alone(s, c') && !s.terminal
    ensures s.frames + c.frames <= s.requested
  {
    SizesAgree(s, c);
    Onward(s, c);
    Onward(s, c.(pc := C.LoadStop));
  }
}
