/** What one call of the signed-16 callback object does, case by case, and which error an operation reports:
    `process()` and `lifecycle_result()` of `evaluation/audio_device/device_contract.cpp` from the outside. */
module DeviceCalls {
  import opened Wrappers
  import opened ContractCallback
  import opened DeviceContract
  import opened DeviceLifecycle

  // ---------------------------------------------------------------------------------------------
  // One call
  // ---------------------------------------------------------------------------------------------

  /** What is wrong with a call, if anything; some of it counts as an overrun or underrun. */
  datatype Trouble = Fine | Late | Stopped | Fails(failure: Failure, xrun: bool)

  /** Whole frames, at least one, in the buffer of the direction and none in the other. */
  predicate RightSize(c: Config, b: Buffer) {
    && b.frames > 0 && b.frames * c.channels <= SIZE_MAX
    && |b.output| == (if c.direction == Playback then b.frames * c.channels else 0)
    && |b.input| == (if c.direction == Capture then b.frames * c.channels else 0)
  }

  /** The first of these that holds: the object is closed to calls, the operation is over, a stop is seen, the size is
      wrong, the device reports something, or a capture brings more than is wanted. */
  ghost predicate Suffers(c: Config, s: State, b: Buffer, cancelled: bool, t: Trouble) {
    var open := s.accepting && !s.terminal;
    var right := open && !cancelled && RightSize(c, b);
    && (t == Late <==> !s.accepting)
    && (t == Stopped <==> open && cancelled)
    && (t == Fails(Violation, false) <==> (s.accepting && s.terminal) || (open && !cancelled && !RightSize(c, b)))
    && (t == Fails(Lost, false) <==> right && b.status == DeviceLost)
    && (t == Fails(Underrun, true) <==> right && b.status == PlaybackUnderrun && c.direction == Playback)
    && (t == Fails(Violation, true) <==>
          right && ((b.status == PlaybackUnderrun && c.direction == Capture) || (b.status == CaptureOverrun && c.direction == Playback)))
    && (t == Fails(Overrun, true) <==>
          right && c.direction == Capture && (b.status == CaptureOverrun || (b.status == Normal && s.frames + b.frames > c.total)))
    && (t == Fine <==> right && b.status == Normal && (c.direction == Capture ==> s.frames + b.frames <= c.total))
  }

  function Min(a: int, b: int): int { if a <= b then a else b }

  /** A call that is not fine moves nothing; underrun silences the output. */
  predicate Refuses(c: Config, s: State, b: Buffer, t: Trouble, s': State, output: seq<int>) {
    && s' == (if t == Late then s.(late := s.late + 1)
              else s.(callbacks := s.callbacks + 1, terminal := true,
                      xruns := s.xruns + (if t.Fails? && t.xrun then 1 else 0),
                      failure := if t.Fails? && s.failure == NoFailure then t.failure else s.failure))
    && |output| == |b.output|
    && forall i | 0 <= i < |output| :: output[i] == if t == Fails(Underrun, true) then 0 else b.output[i]
  }

  /** A fine call moves as many frames as are wanted, to or from where the operation stands: to the output followed by
      zeros, or to the capture buffer. */
  predicate Moves(c: Config, s: State, b: Buffer, s': State, output: seq<int>) {
    var offset, count := s.frames * c.channels, Min(b.frames, c.total - s.frames) * c.channels;
    && s' == s.(callbacks := s.callbacks + 1, frames := Min(s.frames + b.frames, c.total), captured := s'.captured,
                terminal := s.frames + b.frames >= c.total)
    && |output| == |b.output| && |s'.captured| == |s.captured|
    && (forall i | 0 <= i < |output| ::
          output[i] == if c.direction == Capture then b.output[i]
                       else if i < count && offset + i < |c.playback| then c.playback[offset + i] else 0)
    && (forall i | 0 <= i < |s.captured| ::
          s'.captured[i] == if c.direction == Capture && offset <= i < offset + count && i - offset < |b.input| then b.input[i - offset] else s.captured[i])
  }

  ghost predicate Does(c: Config, s: State, b: Buffer, cancelled: bool, s': State, d: Decision, output: seq<int>) {
    exists t ::
      && Suffers(c, s, b, cancelled, t)
      && (if t == Fine then Moves(c, s, b, s', output) else Refuses(c, s, b, t, s', output))
      && d == if t != Fine then Abort else if s.frames + b.frames >= c.total then Finish else Continue
  }

  /** What is wrong. */
  ghost function TroubleOf(c: Config, s: State, b: Buffer, cancelled: bool): Trouble {
    if !s.accepting then Late
    else if s.terminal then Fails(Violation, false)
    else if cancelled then Stopped
    else if !RightSize(c, b) then Fails(Violation, false)
    else match b.status
      case DeviceLost => Fails(Lost, false)
      case PlaybackUnderrun => if c.direction == Playback then Fails(Underrun, true) else Fails(Violation, true)
      case CaptureOverrun => if c.direction == Capture then Fails(Overrun, true) else Fails(Violation, true)
      case Normal => if c.direction == Capture && s.frames + b.frames > c.total then Fails(Overrun, true) else Fine
  }

  lemma SizesAgree(c: Config, b: Buffer)
    requires ValidConfig(c)
    ensures WellSized(c, b) <==> RightSize(c, b)
  {
    if c.channels == 2 && b.frames <= SIZE_MAX / 2 { assert b.frames * 2 <= SIZE_MAX; }
  }

  lemma MovesExactly(c: Config, s: State, b: Buffer)
    requires Sound(c, s) && s.accepting && !s.terminal && WellSized(c, b) && b.status == Normal
    requires c.direction == Capture ==> s.frames + b.frames <= c.total
    ensures var (s', d, output) := Processed(c, s, b, false);
            Moves(c, s, b, s', output) && d == if s.frames + b.frames >= c.total then Finish else Continue
  {
    var accepted := Min(b.frames, c.total - s.frames);
    Extent(c, s.frames, accepted, b.frames);
    if c.direction == Playback { PlaybackMoves(c, s, b); } else { CaptureMoves(c, s, b); }
  }

  lemma PlaybackMoves(c: Config, s: State, b: Buffer)
    requires Sound(c, s) && s.accepting && !s.terminal && WellSized(c, b) && b.status == Normal && c.direction == Playback
    ensures Moves(c, s, b, Processed(c, s, b, false).0, Processed(c, s, b, false).2)
  {
    var accepted := Min(b.frames, c.total - s.frames);
    Extent(c, s.frames, accepted, b.frames);
  }

  lemma CaptureMoves(c: Config, s: State, b: Buffer)
    requires Sound(c, s) && s.accepting && !s.terminal && WellSized(c, b) && b.status == Normal && c.direction == Capture
    requires s.frames + b.frames <= c.total
    ensures Moves(c, s, b, Processed(c, s, b, false).0, Processed(c, s, b, false).2)
  {
    Extent(c, s.frames, b.frames, b.frames);
    assert b.input[..b.frames * c.channels] == b.input;
    CaptureOverwrites(c, s, b);
  }

  lemma CaptureOverwrites(c: Config, s: State, b: Buffer)
    requires Sound(c, s) && s.accepting && !s.terminal && WellSized(c, b) && b.status == Normal && c.direction == Capture
    requires s.frames + b.frames <= c.total && s.frames * c.channels + |b.input| <= |s.captured| && b.input[..b.frames * c.channels] == b.input
    ensures var (s', _, output) := Processed(c, s, b, false);
            && output == b.output
            && s' == s.(callbacks := s.callbacks + 1, frames := s.frames + b.frames,
                        captured := Overwritten(s.captured, s.frames * c.channels, b.input), terminal := s.frames + b.frames == c.total)
  {
  }

  /** Every call does exactly this. */
  lemma CallExactly(c: Config, s: State, b: Buffer, cancelled: bool)
    requires Sound(c, s)
    ensures var (s', d, output) := Processed(c, s, b, cancelled); Does(c, s, b, cancelled, s', d, output)
  {
    var t := TroubleOf(c, s, b, cancelled);
    SizesAgree(c, b);
    TroubleExactly(c, s, b, cancelled);
    if t == Fine { MovesExactly(c, s, b); } else { RefusesExactly(c, s, b, cancelled); }
  }

  lemma TroubleExactly(c: Config, s: State, b: Buffer, cancelled: bool)
    ensures Suffers(c, s, b, cancelled, TroubleOf(c, s, b, cancelled))
  {
  }

  lemma RefusesExactly(c: Config, s: State, b: Buffer, cancelled: bool)
    requires Sound(c, s) && TroubleOf(c, s, b, cancelled) != Fine
    ensures var (s', d, output) := Processed(c, s, b, cancelled);
            Refuses(c, s, b, TroubleOf(c, s, b, cancelled), s', output) && d == Abort
  {
    SizesAgree(c, b);
  }

  // ---------------------------------------------------------------------------------------------
  // The error of an operation
  // ---------------------------------------------------------------------------------------------

  /** What may be wrong with an operation, each on its own, the gravest first. */
  function Candidate(l: Life, total: nat, rank: nat): Option<Result> {
    match rank
    case 0 => if l.closeFailed then Some(Result.Failure(CleanupFailed, Close)) else None
    case 1 => if l.stopFailed then Some(Result.Failure(CleanupFailed, Stop)) else None
    case 2 => if l.streamed.state.late > 0 then Some(Result.Failure(LateCallback, Close)) else None
    case 3 => if l.cancelledAt.Some? then Some(Result.Failure(Cancelled, l.cancelledAt.value)) else None
    case 4 =>
      (match l.streamed.state.failure
       case NoFailure => None
       case Underrun => Some(Result.Failure(UnderrunSeen, Stream))
       case Overrun => Some(Result.Failure(OverrunSeen, Stream))
       case Lost => Some(Result.Failure(FromDevice(Gone), Stream))
       case Violation => Some(Result.Failure(ContractBroken, Stream)))
    case 5 => if l.primary.Some? then Some(Result.Failure(FromDevice(l.primary.value.0), l.primary.value.1)) else None
    case 6 => if l.streamed.state.frames != total then Some(Result.Failure(IncompleteStream, Stream)) else None
    case _ => None
  }

  /** The result of every operation is the gravest error there is, and the statistics when there is none. */
  lemma ConcludedExactly(l: Life, c: Config)
    ensures var r := Concluded(l, c);
            && (r.Success? <==> forall rank: nat :: Candidate(l, c.total, rank) == None)
            && (r.Success? ==> r.stats == Stats(l.streamed.state.callbacks, l.streamed.state.frames, l.streamed.state.xruns, 0))
            && (r.Failure? ==>
                  exists rank: nat :: Candidate(l, c.total, rank) == Some(r) && forall lower: nat | lower < rank :: Candidate(l, c.total, lower) == None)
  {
    var r := Concluded(l, c);
    if r.Failure? {
      var rank := RankOf(l, c.total);
      assert Candidate(l, c.total, rank) == Some(r) && forall lower: nat | lower < rank :: Candidate(l, c.total, lower) == None;
    }
  }

  ghost function RankOf(l: Life, total: nat): nat {
    if Candidate(l, total, 0).Some? then 0
    else if Candidate(l, total, 1).Some? then 1
    else if Candidate(l, total, 2).Some? then 2
    else if Candidate(l, total, 3).Some? then 3
    else if Candidate(l, total, 4).Some? then 4
    else if Candidate(l, total, 5).Some? then 5
    else 6
  }

  // ---------------------------------------------------------------------------------------------
  // What an operation comes to
  // ---------------------------------------------------------------------------------------------

  /** The operation calls the device for this stage: those up to the stream while nothing has failed and no stop was
      seen, the others for what was begun. */
  predicate Comes(e: Circumstances, stage: Stage) {
    match stage
    case Open => !e.before
    case Start => !e.before && e.fails(Open) == None && !e.seen(Open)
    case Stream => !e.before && e.fails(Open) == None && !e.seen(Open) && e.fails(Start) == None && !e.seen(Start)
    case Stop => !e.before && e.fails(Open) == None && !e.seen(Open)
    case Close => !e.before
  }

  /** A stop is seen here, and was not before. */
  predicate FirstSeen(e: Circumstances, stage: Stage) {
    || (stage == Open && e.before)
    || (!e.before && Comes(e, stage) && e.seen(stage)
        && forall earlier: Stage :: Rank(earlier) < Rank(stage) && Comes(e, earlier) ==> !e.seen(earlier))
  }

  /** The device has been called for the stages, up to this one, that the operation comes to. */
  ghost predicate CallsAre(l: Life, e: Circumstances, last: Stage) {
    forall stage: Stage :: stage in l.calls <==> Rank(stage) <= Rank(last) && Comes(e, stage)
  }

  ghost predicate PrimaryIs(l: Life, e: Circumstances) {
    forall stage: Stage, code :: l.primary == Some((code, stage)) <==> Rank(stage) <= 2 && Comes(e, stage) && e.fails(stage) == Some(code)
  }

  ghost predicate StopsAre(l: Life, e: Circumstances, last: Stage) {
    forall stage: Stage :: l.cancelledAt == Some(stage) <==> Rank(stage) <= Rank(last) && FirstSeen(e, stage)
  }

  /** For every device: which stages it is called for, which failure is kept, and which stop. */
  lemma LifeExactly(c: Config, e: Circumstances)
    ensures var l := AnyExecuted(c, e);
            && CallsAre(l, e, Close) && PrimaryIs(l, e) && StopsAre(l, e, Close)
            && (l.stopFailed <==> Comes(e, Stop) && e.fails(Stop).Some?)
            && (l.closeFailed <==> Comes(e, Close) && e.fails(Close).Some?)
  {
    PrimaryCallsExactly(c, e);
    PrimaryFailureExactly(c, e);
    PrimaryStopsExactly(c, e);
    var p := AnyPrimary(c, e);
    var l := p.(streamed := p.streamed.(state := p.streamed.state.(accepting := false)));
    StoppedExactly(l, e);
    ClosedExactly(AnyStopped(l, e), e);
  }

  lemma PrimaryCallsExactly(c: Config, e: Circumstances)
    ensures CallsAre(AnyPrimary(c, e), e, Stream) && !AnyPrimary(c, e).stopFailed && !AnyPrimary(c, e).closeFailed
  {
  }

  lemma PrimaryFailureExactly(c: Config, e: Circumstances)
    ensures PrimaryIs(AnyPrimary(c, e), e)
  {
  }

  lemma PrimaryStopsExactly(c: Config, e: Circumstances)
    ensures StopsAre(AnyPrimary(c, e), e, Stream)
  {
  }

  lemma StoppedExactly(l: Life, e: Circumstances)
    requires CallsAre(l, e, Stream) && StopsAre(l, e, Stream) && !l.stopFailed
    ensures var l' := AnyStopped(l, e);
            && CallsAre(l', e, Stop) && StopsAre(l', e, Stop) && l'.primary == l.primary && l'.closeFailed == l.closeFailed
            && (l'.stopFailed <==> Comes(e, Stop) && e.fails(Stop).Some?)
  {
    assert Start in l.calls <==> Comes(e, Start);
    CancelledSomewhere(l, e, Stream);
  }

  lemma ClosedExactly(l: Life, e: Circumstances)
    requires CallsAre(l, e, Stop) && StopsAre(l, e, Stop) && !l.closeFailed
    ensures var l' := AnyClosed(l, e);
            && CallsAre(l', e, Close) && StopsAre(l', e, Close) && l'.primary == l.primary && l'.stopFailed == l.stopFailed
            && (l'.closeFailed <==> Comes(e, Close) && e.fails(Close).Some?)
  {
    assert Open in l.calls <==> Comes(e, Open);
    CancelledSomewhere(l, e, Stop);
  }

  /** There is a first stop as soon as one is seen. */
  lemma CancelledSomewhere(l: Life, e: Circumstances, last: Stage)
    requires StopsAre(l, e, last)
    ensures l.cancelledAt == None <==> forall stage: Stage | Rank(stage) <= Rank(last) :: !FirstSeen(e, stage)
  {
    if l.cancelledAt.Some? { assert FirstSeen(e, l.cancelledAt.value); }
  }

  // ---------------------------------------------------------------------------------------------
  // When a stop is seen in the stream
  // ---------------------------------------------------------------------------------------------

  lemma QuietExactly(cancel: Cancel)
    ensures (Quiet(cancel) >= 0 <==> cancel.During? && cancel.stage == Stream) && (Quiet(cancel) >= 0 ==> Quiet(cancel) == cancel.quiet)
  {
  }

  /** The decisions before number `n` are the same. */
  predicate SameUntil(a: seq<Decision>, b: seq<Decision>, n: nat) {
    forall i | 0 <= i < n && i < |a| :: i < |b| && a[i] == b[i]
  }

  lemma SameMore(d: Decision, a: seq<Decision>, b: seq<Decision>, n: nat)
    requires SameUntil(a, b, n)
    ensures SameUntil([d] + a, [d] + b, n + 1)
  {
  }

  /** The first callbacks are answered as they are without a stop, and the one that sees it gives up. */
  lemma {:induction false} StreamSeesStop(c: Config, s: State, steps: seq<Step>, carryOn: bool, quiet: nat)
    requires Sound(c, s)
    ensures var r, free := Callbacks(c, s, steps, carryOn, quiet), Callbacks(c, s, steps, carryOn, -1);
            && (|r.decisions| > quiet ==> r.decisions[quiet] == Abort) && (|r.decisions| <= quiet ==> r == free)
            && SameUntil(r.decisions, free.decisions, quiet)
    decreases |steps|
  {
    if steps != [] && Countable(c, steps[0]) {
      var b := BufferOf(c, steps[0]);
      ProcessedSound(c, s, b, quiet == 0);
      if quiet == 0 {
        StopSeen(c, s, b);
      } else {
        var (s1, d, _) := Processed(c, s, b, false);
        StreamSeesStop(c, s1, steps[1..], carryOn, quiet - 1);
        SameMore(d, Callbacks(c, s1, steps[1..], carryOn, quiet - 1).decisions, Callbacks(c, s1, steps[1..], carryOn, -1).decisions, quiet - 1);
      }
    }
  }

  lemma StopSeen(c: Config, s: State, b: Buffer)
    requires Sound(c, s)
    ensures Processed(c, s, b, true).1 == Abort
  {
  }
}
