/** The signed-16 callback contract of `evaluation/audio_device/device_contract.cpp`: class
    `ContractCallback`, which a device calls back on one thread, one call at a time.

    `Processed` is one call on values; the class does the same in place on the caller's output
    buffer and the capture buffer. */
module ContractCallback {
  import opened Sequences

  const SIZE_MAX: nat := 0xFFFF_FFFF_FFFF_FFFF

  datatype Direction = Playback | Capture
  datatype Status = Normal | PlaybackUnderrun | CaptureOverrun | DeviceLost
  datatype Decision = Continue | Finish | Abort
  datatype Failure = NoFailure | Underrun | Overrun | Lost | Violation

  /** What does not change during an operation. */
  datatype Config = Config(direction: Direction, channels: nat, total: nat, playback: seq<int>)

  ghost predicate ValidConfig(c: Config) {
    && (c.channels == 1 || c.channels == 2) && c.total > 0
    && (c.direction == Playback ==> |c.playback| == c.total * c.channels)
  }

  datatype Buffer = Buffer(frames: nat, output: seq<int>, input: seq<int>, status: Status)

  /** The fields of the callback object, with the capture buffer it fills. */
  datatype State = State(accepting: bool, terminal: bool, failure: Failure,
                         callbacks: nat, frames: nat, xruns: nat, late: nat, captured: seq<int>)

  function Fresh(c: Config): State {
    State(true, false, NoFailure, 0, 0, 0, 0, if c.direction == Capture then Zeros(c.total * c.channels) else [])
  }

  function Zeros(n: nat): seq<int> { seq(n, i => 0) }

  function Aborted(s: State, failure: Failure): State {
    s.(failure := if s.failure == NoFailure then failure else s.failure, terminal := true)
  }

  predicate WellSized(c: Config, b: Buffer) {
    && b.frames > 0 && b.frames <= SIZE_MAX / (if c.channels == 0 then 1 else c.channels)
    && (if c.direction == Playback then |b.output| == b.frames * c.channels && b.input == []
        else |b.input| == b.frames * c.channels && b.output == [])
  }

  /** A status other than normal: the state and the output afterwards. */
  function Reported(c: Config, s: State, b: Buffer): (State, seq<int>) {
    match b.status
    case Normal => (s, b.output)
    case DeviceLost => (Aborted(s, Lost), b.output)
    case PlaybackUnderrun =>
      (Aborted(s.(xruns := s.xruns + 1), if c.direction == Playback then Underrun else Violation),
       if c.direction == Playback then Zeros(|b.output|) else b.output)
    case CaptureOverrun =>
      (Aborted(s.(xruns := s.xruns + 1), if c.direction == Capture then Overrun else Violation), b.output)
  }

  function Overwritten(samples: seq<int>, offset: nat, data: seq<int>): (r: seq<int>)
    requires offset + |data| <= |samples|
    ensures |r| == |samples|
  {
    samples[..offset] + data + samples[offset + |data|..]
  }

  /** The part of a call that moves samples: as many frames as are still wanted. */
  function Transferred(c: Config, s: State, b: Buffer): (State, Decision, seq<int>)
    requires Sound(c, s) && WellSized(c, b)
  {
    var remaining := c.total - s.frames;
    if c.direction == Capture && b.frames > remaining then
      (Aborted(s.(xruns := s.xruns + 1), Overrun), Abort, b.output)
    else
      var accepted := if b.frames < remaining then b.frames else remaining;
      var offset, count := s.frames * c.channels, accepted * c.channels;
      Extent(c, s.frames, accepted, b.frames);
      var output := if c.direction == Playback then c.playback[offset..offset + count] + Zeros(|b.output| - count) else b.output;
      var captured := if c.direction == Capture then Overwritten(s.captured, offset, b.input[..count]) else s.captured;
      var s' := s.(frames := s.frames + accepted, captured := captured);
      if accepted == remaining then (s'.(terminal := true), Finish, output) else (s', Continue, output)
  }

  lemma Extent(c: Config, done: nat, accepted: nat, frames: nat)
    requires done + accepted <= c.total && accepted <= frames
    ensures done * c.channels + accepted * c.channels <= c.total * c.channels
    ensures accepted * c.channels <= frames * c.channels
    ensures done * c.channels + accepted * c.channels == (done + accepted) * c.channels
  {
    assert (done + accepted) * c.channels <= c.total * c.channels by { Scaled(done + accepted, c.total, c.channels); }
    Scaled(accepted, frames, c.channels);
  }

  lemma Scaled(a: nat, b: nat, n: nat)
    requires a <= b
    ensures a * n <= b * n
  {
  }

  /** What holds of the object between calls. */
  ghost predicate Sound(c: Config, s: State) {
    && ValidConfig(c) && s.frames <= c.total
    && (c.direction == Capture ==> |s.captured| == c.total * c.channels)
  }

  /** One call of `process()`: the object afterwards, the decision, and the device's output buffer. */
  function Processed(c: Config, s: State, b: Buffer, cancelled: bool): (State, Decision, seq<int>)
    requires Sound(c, s)
  {
    if !s.accepting then (s.(late := s.late + 1), Abort, b.output) else
      var s1 := s.(callbacks := s.callbacks + 1);
      if s.terminal then (Aborted(s1, Violation), Abort, b.output)
      else if cancelled then (s1.(terminal := true), Abort, b.output)
      else if !WellSized(c, b) then (Aborted(s1, Violation), Abort, b.output)
      else if b.status != Normal then
        var (s2, output) := Reported(c, s1, b);
        (s2, Abort, output)
      else Transferred(c, s1, b)
  }

  lemma ProcessedSound(c: Config, s: State, b: Buffer, cancelled: bool)
    requires Sound(c, s)
    ensures var (s', decision, output) := Processed(c, s, b, cancelled);
            Sound(c, s') && |output| == |b.output| && s'.accepting == s.accepting
  {
    var remaining := c.total - s.frames;
    var accepted := if b.frames < remaining then b.frames else remaining;
    Extent(c, s.frames, accepted, b.frames);
  }

  // ---------------------------------------------------------------------------------------------
  // In place
  // ---------------------------------------------------------------------------------------------

  /** `std::copy_n`. */
  method CopyInto(source: seq<int>, target: array<int>, offset: nat)
    requires offset + |source| <= target.Length
    modifies target
    ensures target[..] == Overwritten(old(target[..]), offset, source)
  {
    for i := 0 to |source|
      invariant forall k | 0 <= k < target.Length ::
                  target[k] == if offset <= k < offset + i then source[k - offset] else old(target[k])
    {
      target[offset + i] := source[i];
    }
  }

  /** `std::fill` from `start` to the end. */
  method FillZero(target: array<int>, start: nat)
    requires start <= target.Length
    modifies target
    ensures target[..] == old(target[..])[..start] + Zeros(target.Length - start)
  {
    for i := start to target.Length
      invariant forall k | 0 <= k < target.Length :: target[k] == if start <= k < i then 0 else old(target[k])
    {
      target[i] := 0;
    }
  }

  class Callback {
    const config: Config
    const capture: array<int>
    var accepting: bool
    var terminal: bool
    var failure: Failure
    var callbacks: nat
    var frames: nat
    var xruns: nat
    var late: nat

    ghost function View(): State
      reads this, capture
    {
      State(accepting, terminal, failure, callbacks, frames, xruns, late, capture[..])
    }

    ghost predicate Valid()
      reads this, capture
    {
      Sound(config, View())
    }

    constructor (config: Config)
      requires ValidConfig(config)
      ensures Valid() && this.config == config && View() == Fresh(config) && fresh(capture)
    {
      this.config := config;
      accepting, terminal, failure := true, false, NoFailure;
      callbacks, frames, xruns, late := 0, 0, 0, 0;
      capture := new int[if config.direction == Capture then config.total * config.channels else 0](i => 0);
    }

    method AbortWith(reason: Failure) returns (decision: Decision)
      modifies this`failure, this`terminal
      ensures View() == Aborted(old(View()), reason) && decision == Abort
    {
      if failure == NoFailure {
        failure := reason;
      }
      terminal := true;
      decision := Abort;
    }

    method Deactivate()
      modifies this`accepting
      ensures View() == old(View()).(accepting := false)
    {
      accepting := false;
    }

    method HandleStatus(status: Status, output: array<int>) returns (decision: Decision)
      requires Valid() && output != capture && status != Normal
      modifies this`failure, this`terminal, this`xruns, output
      ensures (View(), output[..]) == Reported(config, old(View()), Buffer(0, old(output[..]), [], status)) && decision == Abort
    {
      if status == DeviceLost {
        decision := AbortWith(Lost);
        return;
      }
      xruns := xruns + 1;
      if status == PlaybackUnderrun {
        if config.direction == Playback {
          FillZero(output, 0);
          assert old(output[..])[..0] + Zeros(output.Length) == Zeros(output.Length);
        }
        decision := AbortWith(if config.direction == Playback then Underrun else Violation);
        return;
      }
      decision := AbortWith(if config.direction == Capture then Overrun else Violation);
    }

    method Transfer(b: Buffer, output: array<int>) returns (decision: Decision)
      requires Valid() && output != capture && b.output == output[..] && WellSized(config, b)
      modifies this, capture, output
      ensures (View(), decision, output[..]) == Transferred(config, old(View()), b)
    {
      var remaining := config.total - frames;
      if config.direction == Capture && b.frames > remaining {
        xruns := xruns + 1;
        decision := AbortWith(Overrun);
        return;
      }
      var accepted := if b.frames < remaining then b.frames else remaining;
      var offset, count := frames * config.channels, accepted * config.channels;
      Extent(config, frames, accepted, b.frames);
      if config.direction == Playback {
        CopyInto(config.playback[offset..offset + count], output, 0);
        FillZero(output, count);
        assert output[..count] == config.playback[offset..offset + count];
      } else {
        CopyInto(b.input[..count], capture, offset);
      }
      frames := frames + accepted;
      if accepted == remaining {
        terminal := true;
        return Finish;
      }
      return Continue;
    }

    method Process(b: Buffer, output: array<int>, cancelled: bool) returns (decision: Decision)
      requires Valid() && output != capture && b.output == output[..]
      modifies this, capture, output
      ensures Valid() && (View(), decision, output[..]) == Processed(config, old(View()), b, cancelled)
    {
      ProcessedSound(config, View(), b, cancelled);
      if !accepting {
        late := late + 1;
        return Abort;
      }
      callbacks := callbacks + 1;
      if terminal {
        decision := AbortWith(Violation);
        return;
      }
      if cancelled {
        terminal := true;
        return Abort;
      }
      if !WellSized(config, b) {
        decision := AbortWith(Violation);
        return;
      }
      if b.status != Normal {
        decision := HandleStatus(b.status, output);
        return;
      }
      decision := Transfer(b, output);
    }
  }
}
