/** The microphone callback object of `src/adapters/capture_device.cpp`.

    Any number of device threads may be inside `process()` at once. Each call is a little program
    whose steps are its atomic accesses (sequentially consistent here), and the buffer copy moves
    one sample per step, so every interleaving of overlapping calls is a sequence of `Advance`
    steps. `committed`, `rejected` and `taken` are history: no step's behaviour depends on them. */
module CaptureCallback {
  import opened Sequences

  const SIZE_MAX: nat := 0xFFFF_FFFF_FFFF_FFFF

  type Channels = c: nat | c == 1 || c == 2 witness 1

  type Sample = s: int | -0x8000 <= s < 0x8000

  datatype Failure = NoFailure | Overrun | DeviceLost | ContractViolation

  datatype Status = Normal | StatusOverrun | StatusDeviceLost

  datatype Decision = Continue | Complete | Abort

  /** Where a live call stands: the name says what its next atomic access is. */
  datatype Pc =
    | LoadAccepting
    | CountLate
    | CountCallback
    | LoadTerminal
    | LoadStop
    | CountOverrun
    | LoadFrames
    | Copy(completed: nat, remaining: nat, copied: nat)
    | AddFrames(remaining: nat)
    | SetFailure(failure: Failure)
    | SetTerminal(decision: Decision)
    | Leave(decision: Decision)

  /** One call of `process()`; `prior` is what its `fetch_add` on the in-flight counter returned. */
  datatype Call = Call(input: seq<Sample>, frames: nat, status: Status, prior: nat, pc: Pc)

  /** The callback's fields other than the in-flight counter, with the history variables last. */
  datatype Shared = Shared(
    channels: Channels,
    requested: nat,
    samples: seq<Sample>,
    stop: bool,
    accepting: bool,
    terminal: bool,
    failure: Failure,
    callbacks: nat,
    frames: nat,
    overruns: nat,
    late: nat,
    committed: seq<seq<Sample>>,
    rejected: nat,
    taken: bool)

  datatype Callback = Callback(shared: Shared, inFlight: nat, calls: map<nat, Call>)

  /** Samples in `frames` interleaved frames. */
  function Span(frames: nat, channels: Channels): (r: nat)
    ensures r == frames * channels
  {
    if channels == 1 then frames else 2 * frames
  }

  function Fresh(channels: Channels, requested: nat): Callback {
    Callback(Shared(channels, requested, seq(Span(requested, channels), _ => 0), false, true, false, NoFailure,
                    0, 0, 0, 0, [], 0, false), 0, map[])
  }

  /** The callback after a device thread's `fetch_add`: a call that found the counter at zero goes
      on, any other goes straight to `abort_with(contract_violation)`. */
  function Arrive(cb: Callback, id: nat, input: seq<Sample>, frames: nat, status: Status): Callback
    requires id !in cb.calls
  {
    var pc := if cb.inFlight == 0 then LoadAccepting else SetFailure(ContractViolation);
    Callback(cb.shared, cb.inFlight + 1, cb.calls[id := Call(input, frames, status, cb.inFlight, pc)])
  }

  /** A call that the size test of `process()` lets through. */
  predicate WellSized(s: Shared, c: Call) {
    c.frames != 0 && c.frames <= SIZE_MAX / s.channels && |c.input| == Span(c.frames, s.channels)
  }

  /** The call's next access stays inside the sample buffer. */
  predicate InBounds(s: Shared, c: Call) {
    c.pc.Copy? && c.pc.copied < |c.input| ==> Span(c.pc.completed, s.channels) + c.pc.copied < |s.samples|
  }

  /** One atomic access of a call that is not about to leave: the new shared fields and where the
      call stands next. */
  function Access(s: Shared, c: Call): (Shared, Pc)
    requires InBounds(s, c) && !c.pc.Leave?
  {
    match c.pc
    case LoadAccepting => (s, if s.accepting then CountCallback else CountLate)
    case CountLate => (s.(late := s.late + 1), Leave(Abort))
    case CountCallback => (s.(callbacks := s.callbacks + 1), LoadTerminal)
    case LoadTerminal =>
      if s.terminal || !WellSized(s, c) then (Reject(s), SetFailure(ContractViolation)) else (s, LoadStop)
    case LoadStop =>
      if s.stop then (Reject(s), SetTerminal(Abort))
      else if c.status == StatusOverrun then (Reject(s), CountOverrun)
      else if c.status == StatusDeviceLost then (Reject(s), SetFailure(DeviceLost))
      else (s, LoadFrames)
    case CountOverrun => (s.(overruns := s.overruns + 1), SetFailure(Overrun))
    case LoadFrames =>
      var total := |s.samples| / s.channels;
      if s.frames > total then (Reject(s), SetFailure(ContractViolation))
      else if c.frames > total - s.frames then (Reject(s), CountOverrun)
      else (s, Copy(s.frames, total - s.frames, 0))
    case Copy(completed, remaining, copied) =>
      if copied < |c.input| then
        (s.(samples := s.samples[Span(completed, s.channels) + copied := c.input[copied]]),
         Copy(completed, remaining, copied + 1))
      else (s, AddFrames(remaining))
    case AddFrames(remaining) =>
      (s.(frames := s.frames + c.frames, committed := s.committed + [c.input]),
       if c.frames == remaining then SetTerminal(Complete) else Leave(Continue))
    case SetFailure(failure) =>
      (s.(failure := if s.failure == NoFailure then failure else s.failure), SetTerminal(Abort))
    case SetTerminal(decision) => (s.(terminal := true), Leave(decision))
  }

  /** A counted call turns out not to contribute samples. */
  function Reject(s: Shared): Shared { s.(rejected := s.rejected + 1) }

  /** One atomic step of call `id`; the last one is the guard's `fetch_sub`. */
  function Advance(cb: Callback, id: nat): Callback
    requires id in cb.calls && InBounds(cb.shared, cb.calls[id])
  {
    var c := cb.calls[id];
    if c.pc.Leave? then
      Callback(cb.shared, if cb.inFlight == 0 then SIZE_MAX else cb.inFlight - 1, cb.calls - {id})
    else
      var (s, pc) := Access(cb.shared, c);
      Callback(s, cb.inFlight, cb.calls[id := c.(pc := pc)])
  }

  // ---------------------------------------------------------------------------------------------
  // What the shared fields say to each other, and to the call that found the counter at zero
  // ---------------------------------------------------------------------------------------------

  /** Consistency of counters and flags while no counted call is undecided. */
  ghost predicate Settled(s: Shared) {
    s.callbacks == |s.committed| + s.rejected && Accounted(s)
  }

  /** What earlier decisions imply about the flags. */
  ghost predicate Accounted(s: Shared) {
    && (s.frames == s.requested ==> s.terminal)
    && (s.rejected > 0 ==> s.terminal)
    && (s.rejected > 0 && s.frames == s.requested ==> s.failure != NoFailure)
    && (s.overruns > 0 ==> s.rejected > 0 && s.failure != NoFailure)
  }

  /** A counted call is in the region that may still add samples. */
  ghost predicate Undecided(s: Shared) {
    && s.callbacks == |s.committed| + 1
    && s.frames < s.requested && s.rejected == 0 && s.overruns == 0
  }

  ghost predicate Copied(s: Shared, c: Call, completed: nat, copied: nat) {
    var base := Span(completed, s.channels);
    && copied <= |c.input| && base + copied <= |s.samples|
    && s.samples[base..base + copied] == c.input[..copied]
  }

  /** What the position of the call that found the counter at zero says about the shared fields. */
  ghost predicate HolderOk(s: Shared, c: Call) {
    match c.pc
    case LoadAccepting => Settled(s)
    case CountLate => Settled(s) && !s.accepting
    case CountCallback => Settled(s) && !s.taken
    case LoadTerminal => Accounted(s) && s.callbacks == |s.committed| + s.rejected + 1 && !s.taken
    case LoadStop => Undecided(s) && WellSized(s, c) && !s.taken
    case LoadFrames => Undecided(s) && WellSized(s, c) && !s.taken
    case Copy(completed, remaining, copied) =>
      && Undecided(s) && WellSized(s, c) && !s.taken
      && completed == s.frames && remaining == s.requested - s.frames && c.frames <= remaining
      && Copied(s, c, completed, copied)
    case AddFrames(remaining) =>
      && Undecided(s) && WellSized(s, c) && !s.taken
      && remaining == s.requested - s.frames && c.frames <= remaining
      && Copied(s, c, s.frames, |c.input|)
    case CountOverrun =>
      && s.callbacks == |s.committed| + s.rejected && s.rejected == 1
      && s.frames < s.requested && s.overruns == 0
    case SetFailure(failure) =>
      && s.callbacks == |s.committed| + s.rejected && s.rejected > 0 && failure != NoFailure
    case SetTerminal(decision) =>
      && s.callbacks == |s.committed| + s.rejected
      && (s.overruns > 0 ==> s.rejected > 0 && s.failure != NoFailure)
      && (decision == Complete ==> s.rejected == 0)
      && (decision != Complete ==> s.rejected > 0 && (s.frames == s.requested ==> s.failure != NoFailure))
    case Leave(_) => Settled(s)
  }

  /** The published prefix of the buffer is the accepted inputs, in commit order. */
  ghost predicate Published(s: Shared) {
    && s.frames <= s.requested
    && |Flatten(s.committed)| == Span(s.frames, s.channels)
    && (s.taken ==> !s.accepting)
    && (!s.taken ==>
          && |s.samples| == Span(s.requested, s.channels)
          && s.samples[..Span(s.frames, s.channels)] == Flatten(s.committed))
  }

  /** The call is on its way out without having touched the buffer. */
  predicate Harmless(c: Call) {
    c.prior == 0 ==> c.pc == LoadAccepting || c.pc == CountLate || c.pc == Leave(Abort)
  }

  /** Writing one more sample extends the copied run and leaves the published prefix alone. */
  lemma CopyStep(s: Shared, c: Call)
    requires Published(s) && HolderOk(s, c) && c.pc.Copy? && c.pc.copied < |c.input| && InBounds(s, c)
    ensures var (s', pc') := Access(s, c); Published(s') && HolderOk(s', c.(pc := pc'))
  {
    var (s', _) := Access(s, c);
    var base, k := Span(s.frames, s.channels), c.pc.copied;
    assert s'.samples[base..base + k] == s.samples[base..base + k];
    assert s'.samples[base..base + k + 1] == s'.samples[base..base + k] + [c.input[k]];
    assert c.input[..k + 1] == c.input[..k] + [c.input[k]];
    assert s'.samples[..base] == s.samples[..base];
  }

  /** Publishing the frames of a finished copy appends its input to the published prefix. */
  lemma CommitStep(s: Shared, c: Call)
    requires Published(s) && HolderOk(s, c) && c.pc.AddFrames?
    ensures var (s', pc') := Access(s, c); Published(s') && HolderOk(s', c.(pc := pc'))
  {
    var (s', _) := Access(s, c);
    FlattenAppend(s.committed, c.input);
    var base, end := Span(s.frames, s.channels), Span(s'.frames, s.channels);
    assert end == base + |c.input|;
    assert s.samples[..end] == s.samples[..base] + s.samples[base..end];
  }

  /** The buffer's size gives the request back, so the remaining frames are never miscounted. */
  lemma MeasureStep(s: Shared, c: Call)
    requires Published(s) && HolderOk(s, c) && c.pc.LoadFrames?
    ensures var (s', pc') := Access(s, c); Published(s') && HolderOk(s', c.(pc := pc'))
  {
    assert |s.samples| / s.channels == s.requested;
  }

  lemma AdmissionStep(s: Shared, c: Call)
    requires Published(s) && HolderOk(s, c)
    requires c.pc.LoadAccepting? || c.pc.CountLate? || c.pc.CountCallback?
    ensures var (s', pc') := Access(s, c); Published(s') && HolderOk(s', c.(pc := pc'))
  {
  }

  lemma ScreeningStep(s: Shared, c: Call)
    requires Published(s) && HolderOk(s, c)
    requires c.pc.LoadTerminal? || c.pc.LoadStop?
    ensures var (s', pc') := Access(s, c); Published(s') && HolderOk(s', c.(pc := pc'))
  {
  }

  /** Steps on the way out, after the decision. */
  lemma DecidedStep(s: Shared, c: Call)
    requires Published(s) && HolderOk(s, c)
    requires c.pc.CountOverrun? || c.pc.SetFailure? || c.pc.SetTerminal?
    ensures var (s', pc') := Access(s, c); Published(s') && HolderOk(s', c.(pc := pc'))
  {
  }

  /** A step of the holder re-establishes what its new position promises. */
  lemma HolderStep(s: Shared, c: Call)
    requires Published(s) && HolderOk(s, c) && !c.pc.Leave? && InBounds(s, c)
    ensures var (s', pc') := Access(s, c); Published(s') && HolderOk(s', c.(pc := pc'))
  {
    if c.pc.Copy? {
      if c.pc.copied < |c.input| { CopyStep(s, c); }
    } else if c.pc.AddFrames? {
      CommitStep(s, c);
    } else if c.pc.LoadFrames? {
      MeasureStep(s, c);
    } else if c.pc.CountOverrun? || c.pc.SetFailure? || c.pc.SetTerminal? {
      DecidedStep(s, c);
    } else if c.pc.LoadTerminal? || c.pc.LoadStop? {
      ScreeningStep(s, c);
    } else {
      AdmissionStep(s, c);
    }
  }

  /** `after` differs from `before` only in the stop token, the late counter and flags moved in
      their one direction. */
  ghost predicate Quieter(before: Shared, after: Shared) {
    && after == before.(stop := after.stop, late := after.late, accepting := after.accepting,
                        terminal := after.terminal, failure := after.failure)
    && (before.terminal ==> after.terminal)
    && (before.failure != NoFailure ==> after.failure != NoFailure)
    && (after.accepting ==> before.accepting)
  }

  lemma QuieterKeeps(before: Shared, after: Shared, c: Call)
    requires Quieter(before, after) && HolderOk(before, c)
    ensures HolderOk(after, c)
  {
  }

  // ---------------------------------------------------------------------------------------------
  // What every step of every interleaving keeps
  // ---------------------------------------------------------------------------------------------

  /** A call that overlapped another one never gets past its abort path. */
  ghost predicate CallOk(s: Shared, c: Call) {
    if c.prior == 0 then HolderOk(s, c)
    else c.pc == SetFailure(ContractViolation) || c.pc == SetTerminal(Abort) || c.pc == Leave(Abort)
  }

  ghost predicate OneHolder(calls: map<nat, Call>) {
    forall i, j {:trigger calls[i], calls[j]} | i in calls && j in calls && calls[i].prior == 0 && calls[j].prior == 0 ::
      i == j
  }

  ghost predicate NoHolder(calls: map<nat, Call>) {
    forall i | i in calls :: calls[i].prior != 0
  }

  ghost predicate AllCallsOk(s: Shared, calls: map<nat, Call>) {
    forall i {:trigger CallOk(s, calls[i])} | i in calls :: CallOk(s, calls[i])
  }

  ghost predicate AllHarmless(calls: map<nat, Call>) {
    forall i | i in calls :: Harmless(calls[i])
  }

  /** Past the point of no return: no live call can reach the copy region again. */
  ghost predicate Frozen(cb: Callback) {
    !cb.shared.accepting && Settled(cb.shared) && AllHarmless(cb.calls)
  }

  ghost predicate Inv(cb: Callback) {
    && cb.inFlight == |cb.calls|
    && Published(cb.shared)
    && OneHolder(cb.calls)
    && AllCallsOk(cb.shared, cb.calls)
    && (NoHolder(cb.calls) ==> Settled(cb.shared))
    && (cb.shared.taken ==> Frozen(cb))
  }

  lemma FreshInv(channels: Channels, requested: nat)
    requires requested > 0
    ensures Inv(Fresh(channels, requested))
  {
  }

  /** Memory safety of the copy: no live call is about to write outside the buffer. */
  lemma CopyInBounds(cb: Callback, id: nat)
    requires Inv(cb) && id in cb.calls
    ensures InBounds(cb.shared, cb.calls[id])
  {
    var s, c := cb.shared, cb.calls[id];
    assert CallOk(s, c);
    if c.pc.Copy? && c.pc.copied < |c.input| {
      assert Span(c.pc.completed, s.channels) + |c.input| <= Span(s.requested, s.channels);
    }
  }

  lemma ArriveInv(cb: Callback, id: nat, input: seq<Sample>, frames: nat, status: Status)
    requires Inv(cb) && id !in cb.calls
    ensures Inv(Arrive(cb, id, input, frames, status))
    ensures Frozen(cb) ==> Frozen(Arrive(cb, id, input, frames, status))
  {
    var cb' := Arrive(cb, id, input, frames, status);
    assert cb'.calls.Keys == cb.calls.Keys + {id};
    if cb.inFlight == 0 {
      assert cb.calls.Keys == {};
      assert NoHolder(cb.calls);
    }
    ArrivedCalls(cb, id, input, frames, status);
    if NoHolder(cb'.calls) {
      forall i | i in cb.calls ensures cb.calls[i].prior != 0 { assert cb'.calls[i].prior != 0; }
    }
  }

  lemma ArrivedCalls(cb: Callback, id: nat, input: seq<Sample>, frames: nat, status: Status)
    requires Inv(cb) && id !in cb.calls
    ensures var cb' := Arrive(cb, id, input, frames, status);
            forall i {:trigger CallOk(cb'.shared, cb'.calls[i])} | i in cb'.calls :: CallOk(cb'.shared, cb'.calls[i])
  {
    var cb' := Arrive(cb, id, input, frames, status);
    forall i | i in cb'.calls ensures CallOk(cb'.shared, cb'.calls[i]) {
      if i != id { assert CallOk(cb.shared, cb.calls[i]); }
    }
  }

  lemma LeaveInv(cb: Callback, id: nat)
    requires Inv(cb) && id in cb.calls && cb.calls[id].pc.Leave?
    ensures Inv(Advance(cb, id))
    ensures Frozen(cb) ==> Frozen(Advance(cb, id))
  {
    var cb', c := Advance(cb, id), cb.calls[id];
    assert CallOk(cb.shared, c);
    assert cb'.calls.Keys == cb.calls.Keys - {id};
    forall i | i in cb'.calls ensures CallOk(cb'.shared, cb'.calls[i]) {
      assert CallOk(cb.shared, cb.calls[i]);
    }
    if c.prior != 0 && NoHolder(cb'.calls) {
      forall i | i in cb.calls ensures cb.calls[i].prior != 0 { assert i != id ==> cb'.calls[i].prior != 0; }
    }
  }

  /** The holder may change the shared fields as it likes: every other call is on its abort path. */
  lemma HolderMoves(s: Shared, calls: map<nat, Call>, id: nat, s': Shared, c': Call)
    requires AllCallsOk(s, calls) && OneHolder(calls)
    requires id in calls && calls[id].prior == 0 && c'.prior == 0 && HolderOk(s', c')
    ensures AllCallsOk(s', calls[id := c']) && OneHolder(calls[id := c']) && !NoHolder(calls[id := c'])
  {
    var calls' := calls[id := c'];
    forall i | i in calls' ensures CallOk(s', calls'[i]) {
      if i != id { assert CallOk(s, calls[i]) && calls[i].prior != 0; }
    }
    assert calls'[id].prior == 0;
  }

  /** An overlapping call moves along its abort path; nobody else notices. */
  lemma OverlapMoves(s: Shared, calls: map<nat, Call>, id: nat, s': Shared, c': Call)
    requires AllCallsOk(s, calls) && OneHolder(calls) && Quieter(s, s')
    requires id in calls && calls[id].prior != 0 && c'.prior != 0 && CallOk(s', c')
    ensures AllCallsOk(s', calls[id := c']) && OneHolder(calls[id := c'])
    ensures NoHolder(calls[id := c']) ==> NoHolder(calls)
  {
    var calls' := calls[id := c'];
    forall i | i in calls' ensures CallOk(s', calls'[i]) {
      if i != id {
        assert CallOk(s, calls[i]);
        if calls[i].prior == 0 { QuieterKeeps(s, s', calls[i]); }
      }
    }
    if NoHolder(calls') {
      forall i | i in calls ensures calls[i].prior != 0 { assert calls'[i].prior != 0; }
    }
  }

  /** An overlapping call only sets the failure and terminal flags. */
  lemma OverlapStepInv(cb: Callback, id: nat)
    requires Inv(cb) && id in cb.calls && cb.calls[id].prior != 0 && !cb.calls[id].pc.Leave?
    requires InBounds(cb.shared, cb.calls[id])
    ensures Inv(Advance(cb, id))
    ensures Frozen(cb) ==> Frozen(Advance(cb, id))
  {
    var cb' := Advance(cb, id);
    assert CallOk(cb.shared, cb.calls[id]);
    OverlapMoves(cb.shared, cb.calls, id, cb'.shared, cb'.calls[id]);
    assert cb'.calls.Keys == cb.calls.Keys;
  }

  lemma HolderStepInv(cb: Callback, id: nat)
    requires Inv(cb) && id in cb.calls && cb.calls[id].prior == 0 && !cb.calls[id].pc.Leave?
    requires InBounds(cb.shared, cb.calls[id])
    ensures Inv(Advance(cb, id))
    ensures Frozen(cb) ==> Frozen(Advance(cb, id))
  {
    var cb', c := Advance(cb, id), cb.calls[id];
    assert CallOk(cb.shared, c);
    HolderStep(cb.shared, c);
    HolderMoves(cb.shared, cb.calls, id, cb'.shared, cb'.calls[id]);
    assert cb'.calls.Keys == cb.calls.Keys;
    if Frozen(cb) { HolderStepFrozen(cb, id); }
    AccessKeeps(cb.shared, c);
  }

  /** No call touches what only the control thread changes. */
  lemma AccessKeeps(s: Shared, c: Call)
    requires InBounds(s, c) && !c.pc.Leave?
    ensures var s' := Access(s, c).0;
            s'.taken == s.taken && s'.accepting == s.accepting && s'.requested == s.requested && s'.channels == s.channels
  {
  }

  lemma HolderStepFrozen(cb: Callback, id: nat)
    requires id in cb.calls && cb.calls[id].prior == 0 && !cb.calls[id].pc.Leave? && Frozen(cb)
    ensures InBounds(cb.shared, cb.calls[id]) && Frozen(Advance(cb, id))
  {
    assert Harmless(cb.calls[id]);
  }

  /** Every step of every call keeps the invariant, and never thaws a frozen callback. */
  lemma AdvanceInv(cb: Callback, id: nat)
    requires Inv(cb) && id in cb.calls && InBounds(cb.shared, cb.calls[id])
    ensures Inv(Advance(cb, id))
    ensures Frozen(cb) ==> Frozen(Advance(cb, id))
  {
    if cb.calls[id].pc.Leave? {
      LeaveInv(cb, id);
    } else if cb.calls[id].prior != 0 {
      OverlapStepInv(cb, id);
    } else {
      HolderStepInv(cb, id);
    }
  }

  // ---------------------------------------------------------------------------------------------
  // Steps of the controller on the callback, and what its teardown relies on
  // ---------------------------------------------------------------------------------------------

  function Deactivate(cb: Callback): Callback { cb.(shared := cb.shared.(accepting := false)) }

  function RequestStop(cb: Callback): Callback { cb.(shared := cb.shared.(stop := true)) }

  /** `take_buffer()` moves the samples out, leaving the callback with an empty vector. */
  function Take(cb: Callback): Callback { cb.(shared := cb.shared.(samples := [], taken := true)) }

  lemma QuieterInv(cb: Callback, shared: Shared)
    requires Inv(cb) && Quieter(cb.shared, shared)
    ensures Inv(cb.(shared := shared)) && (Frozen(cb) ==> Frozen(cb.(shared := shared)))
  {
    forall i | i in cb.calls ensures CallOk(shared, cb.calls[i]) {
      assert CallOk(cb.shared, cb.calls[i]);
      if cb.calls[i].prior == 0 { QuieterKeeps(cb.shared, shared, cb.calls[i]); }
    }
  }

  /** A frozen callback can give its buffer away: no live call will look at it. */
  lemma TakeInv(cb: Callback)
    requires Inv(cb) && Frozen(cb)
    ensures Inv(Take(cb)) && Frozen(Take(cb))
  {
    var s' := Take(cb).shared;
    forall i | i in cb.calls ensures CallOk(s', cb.calls[i]) {
      assert CallOk(cb.shared, cb.calls[i]);
      assert Harmless(cb.calls[i]);
    }
  }

  /** Reading zero in flight after deactivation is the point of no return. */
  lemma QuiescentFreezes(cb: Callback)
    requires Inv(cb) && !cb.shared.accepting && cb.inFlight == 0
    ensures Frozen(cb)
  {
    assert cb.calls.Keys == {};
  }

  /** The fields a result is made of. */
  ghost predicate SameRecording(a: Shared, b: Shared) {
    && a.samples == b.samples && a.committed == b.committed && a.rejected == b.rejected
    && a.frames == b.frames && a.callbacks == b.callbacks && a.overruns == b.overruns
    && a.requested == b.requested && a.channels == b.channels && a.taken == b.taken
    && (a.failure != NoFailure ==> b.failure != NoFailure)
  }

  /** However a frozen callback is called back, its recording no longer changes. */
  lemma FrozenAdvance(cb: Callback, id: nat)
    requires Inv(cb) && Frozen(cb) && id in cb.calls
    ensures InBounds(cb.shared, cb.calls[id]) && SameRecording(cb.shared, Advance(cb, id).shared)
  {
    assert Harmless(cb.calls[id]) && CallOk(cb.shared, cb.calls[id]);
  }

  /** The call is somewhere between its decision to copy and the publication of its frames. */
  predicate InCopyRegion(c: Call) { c.pc.LoadFrames? || c.pc.Copy? || c.pc.AddFrames? }

  /** Mutual exclusion, and what the buffer holds, in every state the invariant describes. */
  lemma ExclusiveCopy(cb: Callback, i: nat, j: nat)
    requires Inv(cb) && i in cb.calls && j in cb.calls
    ensures InCopyRegion(cb.calls[i]) && InCopyRegion(cb.calls[j]) ==> i == j
  {
    assert CallOk(cb.shared, cb.calls[i]) && CallOk(cb.shared, cb.calls[j]);
  }

  /** A finished, failure-free recording has no rejected callback in it. */
  lemma CompleteMeansClean(s: Shared)
    requires Settled(s) && s.frames == s.requested && s.failure == NoFailure
    ensures s.rejected == 0 && s.overruns == 0 && s.callbacks == |s.committed|
  {
  }
}
