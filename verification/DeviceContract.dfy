/** One signed-16 operation from end to end: the lifecycle functions of
    `evaluation/audio_device/device_contract.cpp` driving the scripted device of
    `evaluation/audio_device/scripted_device.cpp`, on values.

    When cancellation is requested is part of the scenario: never, before the operation, or while
    the device is in some stage (the scripted device's barrier), and for the streaming stage, after
    how many callbacks. */
module DeviceContract {
  import opened Wrappers
  import opened Sequences
  import opened ContractCallback

  datatype Stage = Open | Start | Stream | Stop | Close

  datatype DeviceFailure = Unsupported | Denied | Unavailable | Gone | Internal

  datatype Step = Step(frames: nat, input: seq<int>, status: Status)

  datatype StageFailure = StageFailure(stage: Stage, code: DeviceFailure)

  datatype Plan = Plan(callbacks: seq<Step>, failures: seq<StageFailure>, callbackDuringClose: bool, continueAfterTerminal: bool)

  datatype Cancel = Never | Before | During(stage: Stage, quiet: nat)

  function Rank(stage: Stage): nat {
    match stage case Open => 0 case Start => 1 case Stream => 2 case Stop => 3 case Close => 4
  }

  /** Cancellation is visible once the stage is over. */
  predicate Seen(cancel: Cancel, stage: Stage) { cancel == Before || (cancel.During? && Rank(cancel.stage) <= Rank(stage)) }

  /** The first scripted failure of the stage. */
  function Scripted(failures: seq<StageFailure>, stage: Stage): (r: Option<DeviceFailure>)
    ensures r.None? <==> forall i | 0 <= i < |failures| :: failures[i].stage != stage
  {
    if failures == [] then None
    else if failures[0].stage == stage then Some(failures[0].code)
    else Scripted(failures[1..], stage)
  }

  // ---------------------------------------------------------------------------------------------
  // Streaming
  // ---------------------------------------------------------------------------------------------

  /** What a stream leaves: the callback object, its decisions, the samples played, and whether the
      device's own thread failed. */
  datatype Streamed = Streamed(state: State, decisions: seq<Decision>, played: seq<int>, broken: bool)

  function BufferOf(c: Config, step: Step): Buffer {
    Buffer(step.frames,
           if c.direction == Playback then Zeros(step.frames * c.channels) else [],
           if c.direction == Capture then step.input else [],
           step.status)
  }

  predicate Countable(c: Config, step: Step) { c.channels > 0 && step.frames <= SIZE_MAX / c.channels }

  /** `run_callbacks`: `quiet` callbacks pass before cancellation is seen, or none ever does when it
      is negative. */
  function Callbacks(c: Config, s: State, steps: seq<Step>, carryOn: bool, quiet: int): (r: Streamed)
    requires Sound(c, s)
    ensures Sound(c, r.state) && r.state.accepting == s.accepting
    decreases |steps|
  {
    if steps == [] then Streamed(s, [], [], false)
    else if !Countable(c, steps[0]) then Streamed(s, [], [], true)
    else
      var b := BufferOf(c, steps[0]);
      ProcessedSound(c, s, b, quiet == 0);
      var (s1, decision, output) := Processed(c, s, b, quiet == 0);
      if decision != Continue && !carryOn then Streamed(s1, [decision], output, false) else
        var rest := Callbacks(c, s1, steps[1..], carryOn, if quiet > 0 then quiet - 1 else quiet);
        Streamed(rest.state, [decision] + rest.decisions, output + rest.played, rest.broken)
  }

  /** No failure, and not ended by cancellation. */
  predicate Clean(c: Config, s: State) { s.failure == NoFailure && (s.terminal ==> s.frames == c.total) }

  /** While nothing has gone wrong, everything handed to the device is the source, in order, and then
      only zeros. */
  ghost predicate PlayInv(c: Config, s: State, played: seq<int>) {
    Clean(c, s) ==>
      && (s.frames == c.total ==> s.terminal)
      && s.frames * c.channels <= |played| && (s.frames < c.total ==> |played| == s.frames * c.channels)
      && s.frames * c.channels <= |c.playback|
      && played == c.playback[..s.frames * c.channels] + Zeros(|played| - s.frames * c.channels)
  }

  lemma PlayStep(c: Config, s: State, played: seq<int>, b: Buffer, cancelled: bool)
    requires Sound(c, s) && c.direction == Playback && s.accepting && PlayInv(c, s, played)
    ensures var (s', decision, output) := Processed(c, s, b, cancelled); PlayInv(c, s', played + output)
  {
    var (s', decision, output) := Processed(c, s, b, cancelled);
    if Clean(c, s') {
      var remaining := c.total - s.frames;
      var accepted := if b.frames < remaining then b.frames else remaining;
      Extent(c, s.frames, accepted, b.frames);
      var offset, count := s.frames * c.channels, accepted * c.channels;
      assert Zeros(|played| - offset) == [];
      assert output == c.playback[offset..offset + count] + Zeros(|output| - count);
      assert c.playback[..offset] + c.playback[offset..offset + count] == c.playback[..offset + count];
      assert played + output == c.playback[..offset + count] + Zeros(|output| - count);
    }
  }

  /** While nothing has gone wrong, the front of the capture buffer is the inputs, in order. */
  ghost predicate CaptureInv(c: Config, s: State, inputs: seq<int>) {
    Clean(c, s) ==>
      && (s.frames == c.total ==> s.terminal)
      && |inputs| == s.frames * c.channels <= |s.captured| && s.captured[..|inputs|] == inputs
  }

  lemma CaptureStep(c: Config, s: State, inputs: seq<int>, b: Buffer, cancelled: bool)
    requires Sound(c, s) && c.direction == Capture && s.accepting && CaptureInv(c, s, inputs)
    ensures CaptureInv(c, Processed(c, s, b, cancelled).0, inputs + b.input)
  {
    var s' := Processed(c, s, b, cancelled).0;
    if Clean(c, s') {
      Extent(c, s.frames, b.frames, b.frames);
      assert b.input[..b.frames * c.channels] == b.input;
      assert s'.captured[..|inputs| + |b.input|] == s.captured[..|inputs|] + b.input;
    }
  }

  /** Any device at all, calling back with any buffers: what it has been handed so far. */
  function Served(c: Config, s: State, buffers: seq<Buffer>, cancelled: seq<bool>): (r: (State, seq<int>))
    requires Sound(c, s) && |cancelled| == |buffers|
    ensures Sound(c, r.0) && r.0.accepting == s.accepting
    decreases |buffers|
  {
    if buffers == [] then (s, []) else
      var last := |buffers| - 1;
      var (before, played) := Served(c, s, buffers[..last], cancelled[..last]);
      ProcessedSound(c, before, buffers[last], cancelled[last]);
      var (after, _, output) := Processed(c, before, buffers[last], cancelled[last]);
      (after, played + output)
  }

  lemma {:induction false} ServedPlays(c: Config, buffers: seq<Buffer>, cancelled: seq<bool>)
    requires ValidConfig(c) && c.direction == Playback && |cancelled| == |buffers|
    ensures var (s, played) := Served(c, Fresh(c), buffers, cancelled); PlayInv(c, s, played)
    decreases |buffers|
  {
    if buffers != [] {
      var last := |buffers| - 1;
      ServedPlays(c, buffers[..last], cancelled[..last]);
      var (before, played) := Served(c, Fresh(c), buffers[..last], cancelled[..last]);
      PlayStep(c, before, played, buffers[last], cancelled[last]);
    }
  }

  lemma WholePlayback(c: Config, s: State, played: seq<int>)
    requires ValidConfig(c) && c.direction == Playback && PlayInv(c, s, played)
    requires s.failure == NoFailure && s.frames == c.total
    ensures |c.playback| <= |played| && played == c.playback + Zeros(|played| - |c.playback|)
  {
    assert c.playback[..|c.playback|] == c.playback;
  }

  /** For every device: if no callback failed and all frames were delivered, what all its callbacks
      were handed is exactly the source, followed only by zeros. */
  lemma PlaybackExact(c: Config, buffers: seq<Buffer>, cancelled: seq<bool>)
    requires ValidConfig(c) && c.direction == Playback && |cancelled| == |buffers|
    requires var s := Served(c, Fresh(c), buffers, cancelled).0; s.failure == NoFailure && s.frames == c.total
    ensures var played := Served(c, Fresh(c), buffers, cancelled).1;
            |c.playback| <= |played| && played == c.playback + Zeros(|played| - |c.playback|)
  {
    ServedPlays(c, buffers, cancelled);
    WholePlayback(c, Served(c, Fresh(c), buffers, cancelled).0, Served(c, Fresh(c), buffers, cancelled).1);
  }

  // ---------------------------------------------------------------------------------------------
  // When a stream completes
  // ---------------------------------------------------------------------------------------------

  function Sum(steps: seq<Step>): nat {
    if steps == [] then 0 else Sum(steps[..|steps| - 1]) + steps[|steps| - 1].frames
  }

  function Inputs(steps: seq<Step>): seq<int> {
    if steps == [] then [] else Inputs(steps[..|steps| - 1]) + steps[|steps| - 1].input
  }

  /** A callback the contract takes: normal, with frames, and buffers of the right size. */
  predicate Wanted(c: Config, step: Step) { step.status == Normal && WellSized(c, BufferOf(c, step)) }

  /** The first `k` callbacks are all taken, and the last of them is the one that completes the
      operation: exactly for a capture, at least for a playback. */
  ghost predicate Completes(c: Config, steps: seq<Step>, k: nat) {
    && 1 <= k <= |steps| && (forall i | 0 <= i < k :: Wanted(c, steps[i]))
    && Sum(steps[..k - 1]) < c.total <= Sum(steps[..k])
    && (c.direction == Capture ==> Sum(steps[..k]) == c.total)
  }

  /** The object after `n` callbacks that were taken and did not complete it. */
  ghost predicate Underway(c: Config, s: State, steps: seq<Step>, n: nat) {
    && Sound(c, s) && s.accepting && !s.terminal && s.failure == NoFailure && s.xruns == 0 && s.late == 0
    && n <= |steps| && (forall i | 0 <= i < n :: Wanted(c, steps[i]))
    && s.frames == Sum(steps[..n]) < c.total && s.callbacks == n
    && (c.direction == Capture ==> CaptureInv(c, s, Inputs(steps[..n])))
  }

  /** A stream that ended well: nothing failed, all frames are there. */
  predicate Completed(c: Config, r: Streamed) { r.state.failure == NoFailure && r.state.frames == c.total && !r.broken }

  lemma SumStep(steps: seq<Step>, n: nat)
    requires n < |steps|
    ensures Sum(steps[..n + 1]) == Sum(steps[..n]) + steps[n].frames
    ensures Inputs(steps[..n + 1]) == Inputs(steps[..n]) + steps[n].input
  {
    assert steps[..n + 1][..n] == steps[..n];
  }

  lemma {:induction false} SumGrows(steps: seq<Step>, n: nat, m: nat)
    requires n <= m <= |steps|
    ensures Sum(steps[..n]) <= Sum(steps[..m])
    decreases m - n
  {
    if n < m {
      SumStep(steps, m - 1);
      SumGrows(steps, n, m - 1);
    }
  }

  /** A callback that is taken but does not complete the operation. */
  lemma TakenStep(c: Config, s: State, steps: seq<Step>, n: nat)
    requires Underway(c, s, steps, n) && n < |steps| && Wanted(c, steps[n]) && Sum(steps[..n + 1]) < c.total
    ensures var (s', decision, _) := Processed(c, s, BufferOf(c, steps[n]), false);
            decision == Continue && Underway(c, s', steps, n + 1)
  {
    SumStep(steps, n);
    if c.direction == Capture { CaptureStep(c, s, Inputs(steps[..n]), BufferOf(c, steps[n]), false); }
  }

  /** The callback that completes the operation. */
  ghost predicate Final(c: Config, s: State, steps: seq<Step>, k: nat) {
    && Sound(c, s) && s.accepting && s.terminal && s.failure == NoFailure && s.xruns == 0 && s.late == 0
    && s.frames == c.total && s.callbacks == k <= |steps|
    && (c.direction == Capture ==> s.captured == Inputs(steps[..k]))
  }

  lemma FinalStep(c: Config, s: State, steps: seq<Step>, n: nat)
    requires Underway(c, s, steps, n) && n < |steps| && Completes(c, steps, n + 1)
    ensures var (s', decision, _) := Processed(c, s, BufferOf(c, steps[n]), false);
            decision == Finish && Final(c, s', steps, n + 1) && Countable(c, steps[n])
  {
    SumStep(steps, n);
    var s' := Processed(c, s, BufferOf(c, steps[n]), false).0;
    if c.direction == Capture {
      CaptureStep(c, s, Inputs(steps[..n]), BufferOf(c, steps[n]), false);
      assert s'.captured[..|s'.captured|] == s'.captured;
    }
  }

  /** Any other callback fails the operation. */
  lemma RefusedStep(c: Config, s: State, steps: seq<Step>, n: nat)
    requires Underway(c, s, steps, n) && n < |steps|
    requires !Completes(c, steps, n + 1) && !(Wanted(c, steps[n]) && Sum(steps[..n + 1]) < c.total)
    ensures Processed(c, s, BufferOf(c, steps[n]), false).0.failure != NoFailure
  {
    SumStep(steps, n);
    assert steps[..n + 1 - 1] == steps[..n];
  }

  lemma {:induction false} FailureStays(c: Config, s: State, steps: seq<Step>, carryOn: bool, quiet: int)
    requires Sound(c, s) && (s.failure != NoFailure || (s.accepting && s.terminal && steps != [] && carryOn))
    ensures !Completed(c, Callbacks(c, s, steps, carryOn, quiet))
    decreases |steps|
  {
    if steps != [] && Countable(c, steps[0]) {
      var b := BufferOf(c, steps[0]);
      ProcessedSound(c, s, b, quiet == 0);
      FailureStays(c, Processed(c, s, b, quiet == 0).0, steps[1..], carryOn, if quiet > 0 then quiet - 1 else quiet);
    }
  }

  /** The script completes the operation with its first `k` callbacks and makes no further one. */
  ghost predicate Completion(c: Config, steps: seq<Step>, carryOn: bool, k: nat) {
    Completes(c, steps, k) && (k == |steps| || !carryOn)
  }

  /** Where the script stands after `n` callbacks that were taken decides where it can complete. */
  lemma CompletesLater(c: Config, steps: seq<Step>, n: nat, k: nat)
    requires n <= |steps| && Sum(steps[..n]) < c.total && Completes(c, steps, k)
    ensures n < k && Wanted(c, steps[n]) && (Completes(c, steps, n + 1) ==> k == n + 1)
    ensures k > n + 1 ==> Sum(steps[..n + 1]) < c.total
  {
    if k <= n { SumGrows(steps, k, n); }
    if k > n + 1 { SumGrows(steps, n + 1, k - 1); }
  }

  /** The rest of the stream, after `n` callbacks. */
  ghost predicate Decided(c: Config, steps: seq<Step>, carryOn: bool, r: Streamed) {
    && (Completed(c, r) ==> exists k :: Completion(c, steps, carryOn, k) && Final(c, r.state, steps, k))
    && (!Completed(c, r) ==> forall k :: !Completion(c, steps, carryOn, k))
  }

  lemma DecidedFinal(c: Config, s: State, steps: seq<Step>, n: nat, carryOn: bool)
    requires Underway(c, s, steps, n) && n < |steps| && Completes(c, steps, n + 1)
    ensures Decided(c, steps, carryOn, Callbacks(c, s, steps[n..], carryOn, -1))
  {
    var b := BufferOf(c, steps[n]);
    FinalStep(c, s, steps, n);
    var (s1, decision, output) := Processed(c, s, b, false);
    var rest := steps[n..][1..];
    if carryOn && rest != [] {
      FailureStays(c, s1, rest, carryOn, -1);
      forall k ensures !Completion(c, steps, carryOn, k) {
        if Completes(c, steps, k) { CompletesLater(c, steps, n, k); }
      }
    } else {
      FinalLeaves(c, s, steps[n..], carryOn);
      assert Completion(c, steps, carryOn, n + 1) && Final(c, s1, steps, n + 1);
    }
  }

  /** Nothing is called after the callback that finishes. */
  lemma FinalLeaves(c: Config, s: State, steps: seq<Step>, carryOn: bool)
    requires Sound(c, s) && steps != [] && Countable(c, steps[0]) && (carryOn ==> |steps| == 1)
    requires Processed(c, s, BufferOf(c, steps[0]), false).1 == Finish
    ensures var r := Callbacks(c, s, steps, carryOn, -1);
            r.state == Processed(c, s, BufferOf(c, steps[0]), false).0 && !r.broken
  {
    assert carryOn ==> steps[1..] == [];
    ProcessedSound(c, s, BufferOf(c, steps[0]), false);
  }

  lemma DecidedRefused(c: Config, s: State, steps: seq<Step>, n: nat, carryOn: bool)
    requires Underway(c, s, steps, n) && n < |steps|
    requires !Completes(c, steps, n + 1) && !(Wanted(c, steps[n]) && Sum(steps[..n + 1]) < c.total)
    ensures Decided(c, steps, carryOn, Callbacks(c, s, steps[n..], carryOn, -1))
  {
    var b := BufferOf(c, steps[n]);
    RefusedStep(c, s, steps, n);
    ProcessedSound(c, s, b, false);
    FailureStays(c, Processed(c, s, b, false).0, steps[n..][1..], carryOn, -1);
    forall k ensures !Completion(c, steps, carryOn, k) {
      if Completes(c, steps, k) { CompletesLater(c, steps, n, k); }
    }
  }

  /** A stream that is not cancelled completes exactly when the script completes the operation and
      stops there; and then it has taken exactly the callbacks up to that point. */
  lemma {:induction false} StreamExact(c: Config, s: State, steps: seq<Step>, n: nat, carryOn: bool)
    requires Underway(c, s, steps, n)
    ensures Decided(c, steps, carryOn, Callbacks(c, s, steps[n..], carryOn, -1))
    decreases |steps| - n
  {
    if n == |steps| {
      forall k ensures !Completion(c, steps, carryOn, k) {
        if Completes(c, steps, k) { SumGrows(steps, k, n); }
      }
    } else if Completes(c, steps, n + 1) {
      DecidedFinal(c, s, steps, n, carryOn);
    } else if Wanted(c, steps[n]) && Sum(steps[..n + 1]) < c.total {
      TakenStep(c, s, steps, n);
      assert steps[n..][1..] == steps[n + 1..];
      StreamExact(c, Processed(c, s, BufferOf(c, steps[n]), false).0, steps, n + 1, carryOn);
    } else {
      DecidedRefused(c, s, steps, n, carryOn);
    }
  }

  lemma FreshUnderway(c: Config, steps: seq<Step>)
    requires ValidConfig(c)
    ensures Underway(c, Fresh(c), steps, 0)
  {
    assert Fresh(c).captured[..0] == [];
  }

  /** What a scripted stream has played. */
  lemma {:induction false} CallbacksPlay(c: Config, s: State, before: seq<int>, steps: seq<Step>, carryOn: bool, quiet: int)
    requires Sound(c, s) && c.direction == Playback && s.accepting && PlayInv(c, s, before)
    ensures var r := Callbacks(c, s, steps, carryOn, quiet); PlayInv(c, r.state, before + r.played)
    decreases |steps|
  {
    if steps == [] || !Countable(c, steps[0]) {
      assert before + [] == before;
    } else {
      var b := BufferOf(c, steps[0]);
      ProcessedSound(c, s, b, quiet == 0);
      PlayStep(c, s, before, b, quiet == 0);
      var (s1, decision, output) := Processed(c, s, b, quiet == 0);
      if decision == Continue || carryOn {
        var next := if quiet > 0 then quiet - 1 else quiet;
        CallbacksPlay(c, s1, before + output, steps[1..], carryOn, next);
        assert before + (output + Callbacks(c, s1, steps[1..], carryOn, next).played)
            == before + output + Callbacks(c, s1, steps[1..], carryOn, next).played;
      }
    }
  }
}
