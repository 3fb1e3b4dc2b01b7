/** The scripted device of `evaluation/audio_device/scripted_device.cpp` and the controller of
    `evaluation/audio_device/device_contract.cpp` as objects: the device records its calls, decisions
    and played samples, the controller drives it and the callback object through one operation. */
module ScriptedDevice {
  import opened Wrappers
  import opened ContractCallback
  import opened DeviceContract
  import opened DeviceLifecycle

  /** What came before the rest of a stream. */
  function After(decisions: seq<Decision>, played: seq<int>, rest: Streamed): Streamed {
    Streamed(rest.state, decisions + rest.decisions, played + rest.played, rest.broken)
  }

  function NextQuiet(quiet: int): int { if quiet > 0 then quiet - 1 else quiet }

  lemma AfterStep(c: Config, s: State, steps: seq<Step>, i: nat, carryOn: bool, quiet: int, decisions: seq<Decision>, played: seq<int>)
    requires Sound(c, s) && i < |steps| && Countable(c, steps[i])
    ensures var (s1, decision, output) := Processed(c, s, BufferOf(c, steps[i]), quiet == 0);
            && Sound(c, s1)
            && After(decisions, played, Callbacks(c, s, steps[i..], carryOn, quiet))
               == if decision != Continue && !carryOn then Streamed(s1, decisions + [decision], played + output, false)
                  else After(decisions + [decision], played + output, Callbacks(c, s1, steps[i + 1..], carryOn, NextQuiet(quiet)))
  {
    ProcessedSound(c, s, BufferOf(c, steps[i]), quiet == 0);
    var (s1, decision, output) := Processed(c, s, BufferOf(c, steps[i]), quiet == 0);
    assert steps[i..][1..] == steps[i + 1..];
    var rest := Callbacks(c, s1, steps[i + 1..], carryOn, NextQuiet(quiet));
    assert decisions + ([decision] + rest.decisions) == decisions + [decision] + rest.decisions;
    assert played + (output + rest.played) == played + output + rest.played;
  }

  class Device {
    const plan: Plan
    var calls: seq<Stage>
    var playedSamples: seq<int>
    var decisions: seq<Decision>
    var workerFailed: bool
    var closeOutputUnchanged: bool

    constructor (plan: Plan)
      ensures this.plan == plan && calls == [] && playedSamples == [] && decisions == [] && !workerFailed && closeOutputUnchanged
    {
      this.plan := plan;
      calls, playedSamples, decisions, workerFailed, closeOutputUnchanged := [], [], [], false, true;
    }

    /** Open, start or stop: record the call and fail if the script says so. */
    method RunStage(stage: Stage) returns (failure: Option<DeviceFailure>)
      modifies this`calls
      ensures calls == old(calls) + [stage] && failure == Scripted(plan.failures, stage)
    {
      calls := calls + [stage];
      failure := Scripted(plan.failures, stage);
    }

    /** One scripted callback. */
    method RunStep(callback: Callback, step: Step, cancelled: bool) returns (decision: Decision)
      requires callback.Valid()
      modifies this`playedSamples, this`decisions, callback, callback.capture
      ensures callback.Valid()
      ensures var (s, d, output) := Processed(callback.config, old(callback.View()), BufferOf(callback.config, step), cancelled);
              && callback.View() == s && decision == d
              && decisions == old(decisions) + [d] && playedSamples == old(playedSamples) + output
    {
      var b := BufferOf(callback.config, step);
      var output := new int[|b.output|](k => 0);
      assert output[..] == b.output;
      decision := callback.Process(b, output, cancelled);
      decisions, playedSamples := decisions + [decision], playedSamples + output[..];
    }

    /** The loop over the scripted callbacks. */
    method RunCallbacks(callback: Callback, quiet: int)
      requires callback.Valid() && !workerFailed && decisions == [] && playedSamples == []
      modifies this`playedSamples, this`decisions, this`workerFailed, callback, callback.capture
      ensures callback.Valid()
      ensures Streamed(callback.View(), decisions, playedSamples, workerFailed)
           == Callbacks(callback.config, old(callback.View()), plan.callbacks, plan.continueAfterTerminal, quiet)
    {
      var c := callback.config;
      ghost var whole := Callbacks(c, callback.View(), plan.callbacks, plan.continueAfterTerminal, quiet);
      var left := quiet;
      assert plan.callbacks[0..] == plan.callbacks;
      for i := 0 to |plan.callbacks|
        invariant callback.Valid() && !workerFailed
        invariant After(decisions, playedSamples,
                        Callbacks(c, callback.View(), plan.callbacks[i..], plan.continueAfterTerminal, left)) == whole
      {
        var step := plan.callbacks[i];
        if !Countable(c, step) {
          workerFailed := true;
          return;
        }
        AfterStep(c, callback.View(), plan.callbacks, i, plan.continueAfterTerminal, left, decisions, playedSamples);
        var decision := RunStep(callback, step, left == 0);
        if decision != Continue && !plan.continueAfterTerminal {
          return;
        }
        left := NextQuiet(left);
      }
    }

    method StreamAll(callback: Callback, quiet: int) returns (failure: Option<DeviceFailure>)
      requires callback.Valid() && !workerFailed && decisions == [] && playedSamples == []
      modifies this`calls, this`playedSamples, this`decisions, this`workerFailed, callback, callback.capture
      ensures callback.Valid() && calls == old(calls) + [Stream]
      ensures (Streamed(callback.View(), decisions, playedSamples, workerFailed), failure)
           == StreamResult(plan, callback.config, Streamed(old(callback.View()), [], [], false), quiet)
    {
      failure := RunStage(Stream);
      if failure.Some? {
        return;
      }
      RunCallbacks(callback, quiet);
      failure := if workerFailed then Some(Internal) else None;
    }

    /** Closing may still call back; the callback object then touches nothing. */
    method CloseAll(callback: Callback) returns (failure: Option<DeviceFailure>)
      requires callback.Valid() && !callback.accepting && closeOutputUnchanged
      modifies this`calls, this`decisions, this`closeOutputUnchanged, callback, callback.capture
      ensures callback.Valid() && calls == old(calls) + [Close] && closeOutputUnchanged
      ensures var before := Streamed(old(callback.View()), old(decisions), playedSamples, workerFailed);
              Streamed(callback.View(), decisions, playedSamples, workerFailed)
              == if plan.callbackDuringClose then CloseCallback(before) else before
      ensures failure.Some? <==> Scripted(plan.failures, Close).Some? || workerFailed
    {
      failure := RunStage(Close);
      if plan.callbackDuringClose {
        var channels := callback.config.channels;
        var output := new int[if callback.config.direction == Playback then channels else 0](k => 1977);
        var b := Buffer(1, output[..], if callback.config.direction == Capture then seq(channels, k => 1977) else [], Normal);
        var decision := callback.Process(b, output, false);
        closeOutputUnchanged := forall k | 0 <= k < output.Length :: output[k] == 1977;
        assert forall k | 0 <= k < output.Length :: output[k] == output[..][k] == b.output[k];
        decisions := decisions + [decision];
      }
      if workerFailed && failure.None? {
        failure := Some(Internal);
      }
    }
  }

  /** `LifecycleState`. */
  datatype Progress = Progress(primary: Option<(DeviceFailure, Stage)>, stopFailed: bool, closeFailed: bool, cancelledAt: Option<Stage>,
                               openAttempted: bool, startAttempted: bool)

  ghost function LifeOf(p: Progress, device: Device, callback: Callback): Life
    reads device, callback, callback.capture
  {
    Life(device.calls, p.primary, p.stopFailed, p.closeFailed, p.cancelledAt,
         Streamed(callback.View(), device.decisions, device.playedSamples, device.workerFailed))
  }

  /** The attempts recorded are the calls made. */
  ghost predicate Recorded(p: Progress, device: Device)
    reads device
  {
    (p.openAttempted <==> Open in device.calls) && (p.startAttempted <==> Start in device.calls)
  }

  function Noted(p: Progress, cancel: Cancel, stage: Stage): Progress {
    if p.cancelledAt.None? && Seen(cancel, stage) then p.(cancelledAt := Some(stage)) else p
  }

  lemma AppendKeeps(calls: seq<Stage>, stage: Stage)
    ensures forall other | other != stage :: other in calls + [stage] <==> other in calls
  {
  }

  lemma StreamingIs(l: Life, l': Life, plan: Plan, c: Config, cancel: Cancel, failure: Option<DeviceFailure>)
    requires Sound(c, l.streamed.state) && (l'.streamed, failure) == StreamResult(plan, c, l.streamed, Quiet(cancel))
    requires l' == Observed(l.(calls := l.calls + [Stream], streamed := l'.streamed,
                               primary := match failure case None => None case Some(code) => Some((code, Stream))), cancel, Stream)
    ensures l' == Streaming(l, plan, c, cancel)
  {
  }

  lemma EnteredIs(l: Life, l': Life, plan: Plan, stage: Stage, cancel: Cancel)
    requires l' == Observed(l.(calls := l.calls + [stage], primary := FailureAt(plan, stage)), cancel, stage)
    ensures l' == Entered(l, plan, stage, cancel)
  {
  }

  /** Open or start, then look for cancellation. */
  method Enter(device: Device, callback: Callback, stage: Stage, cancel: Cancel, before: Progress) returns (p: Progress)
    requires Recorded(before, device) && before.primary.None? && (stage == Open || stage == Start)
    modifies device`calls
    ensures Recorded(p, device)
    ensures LifeOf(p, device, callback) == Entered(old(LifeOf(before, device, callback)), device.plan, stage, cancel)
  {
    ghost var l := LifeOf(before, device, callback);
    p := if stage == Open then before.(openAttempted := true) else before.(startAttempted := true);
    var failure := device.RunStage(stage);
    if failure.Some? {
      p := p.(primary := Some((failure.value, stage)));
    }
    p := Noted(p, cancel, stage);
    AppendKeeps(l.calls, stage);
    EnteredIs(l, LifeOf(p, device, callback), device.plan, stage, cancel);
  }

  method RunPrimaryLifecycle(device: Device, callback: Callback, cancel: Cancel) returns (p: Progress)
    requires callback.Valid() && callback.View() == Fresh(callback.config)
    requires device.calls == [] && device.decisions == [] && device.playedSamples == [] && !device.workerFailed
    modifies device, callback, callback.capture
    ensures callback.Valid() && Recorded(p, device) && device.closeOutputUnchanged == old(device.closeOutputUnchanged)
    ensures LifeOf(p, device, callback) == Primary(device.plan, callback.config, cancel)
  {
    p := Progress(None, false, false, if cancel == Before then Some(Open) else None, false, false);
    if p.cancelledAt.Some? {
      return;
    }
    p := Enter(device, callback, Open, cancel, p);
    if p.primary.Some? || p.cancelledAt.Some? {
      return;
    }
    p := Enter(device, callback, Start, cancel, p);
    if p.primary.Some? || p.cancelledAt.Some? {
      return;
    }
    p := EnterStream(device, callback, cancel, p);
  }

  method EnterStream(device: Device, callback: Callback, cancel: Cancel, before: Progress) returns (p: Progress)
    requires callback.Valid() && Recorded(before, device) && before.primary.None?
    requires device.decisions == [] && device.playedSamples == [] && !device.workerFailed
    modifies device, callback, callback.capture
    ensures callback.Valid() && Recorded(p, device) && device.closeOutputUnchanged == old(device.closeOutputUnchanged)
    ensures LifeOf(p, device, callback) == Streaming(old(LifeOf(before, device, callback)), device.plan, callback.config, cancel)
  {
    ghost var l := LifeOf(before, device, callback);
    assert l.streamed == Streamed(callback.View(), [], [], false);
    var failure := device.StreamAll(callback, Quiet(cancel));
    p := before.(primary := match failure case None => None case Some(code) => Some((code, Stream)));
    p := Noted(p, cancel, Stream);
    AppendKeeps(l.calls, Stream);
    StreamingIs(l, LifeOf(p, device, callback), device.plan, callback.config, cancel, failure);
  }

  method RunCleanup(device: Device, callback: Callback, cancel: Cancel, before: Progress) returns (p: Progress)
    requires callback.Valid() && Recorded(before, device) && device.closeOutputUnchanged
    requires !before.stopFailed && !before.closeFailed
    modifies device, callback, callback.capture
    ensures callback.Valid() && device.closeOutputUnchanged
    ensures LifeOf(p, device, callback) == Cleaned(old(LifeOf(before, device, callback)), device.plan, cancel)
  {
    callback.Deactivate();
    p := EnterStop(device, callback, cancel, before);
    p := EnterClose(device, callback, cancel, p);
  }

  method EnterClose(device: Device, callback: Callback, cancel: Cancel, before: Progress) returns (p: Progress)
    requires callback.Valid() && !callback.accepting && Recorded(before, device) && device.closeOutputUnchanged && !before.closeFailed
    modifies device, callback, callback.capture
    ensures callback.Valid() && device.closeOutputUnchanged
    ensures LifeOf(p, device, callback) == Closed(old(LifeOf(before, device, callback)), device.plan, cancel)
  {
    p := before;
    if p.openAttempted {
      var failure := device.CloseAll(callback);
      p := Noted(p.(closeFailed := failure.Some?), cancel, Close);
    }
  }

  method EnterStop(device: Device, callback: Callback, cancel: Cancel, before: Progress) returns (p: Progress)
    requires Recorded(before, device) && !before.stopFailed
    modifies device`calls
    ensures Recorded(p, device) && p.closeFailed == before.closeFailed
    ensures LifeOf(p, device, callback) == Stopped(old(LifeOf(before, device, callback)), device.plan, cancel)
  {
    p := before;
    if p.startAttempted {
      var failure := device.RunStage(Stop);
      p := Noted(p.(stopFailed := failure.Some?), cancel, Stop);
    }
  }

  method ExecuteLifecycle(device: Device, callback: Callback, cancel: Cancel) returns (r: Result)
    requires callback.Valid() && callback.View() == Fresh(callback.config)
    requires device.calls == [] && device.decisions == [] && device.playedSamples == [] && !device.workerFailed
    requires device.closeOutputUnchanged
    modifies device, callback, callback.capture
    ensures callback.Valid() && device.closeOutputUnchanged && Trace(device.calls)
    ensures var l := Executed(device.plan, callback.config, cancel);
            && r == Concluded(l, callback.config) && device.calls == l.calls
            && l.streamed == Streamed(callback.View(), device.decisions, device.playedSamples, device.workerFailed)
  {
    var p := RunPrimaryLifecycle(device, callback, cancel);
    PrimaryCalls(device.plan, callback.config, cancel);
    ScriptedTrace(device.plan, callback.config, cancel);
    p := RunCleanup(device, callback, cancel, p);
    ghost var l := LifeOf(p, device, callback);
    r := if p.closeFailed then Failure(CleanupFailed, Close)
         else if p.stopFailed then Failure(CleanupFailed, Stop)
         else if callback.late != 0 then Failure(LateCallback, Close)
         else if p.cancelledAt.Some? then Failure(Cancelled, p.cancelledAt.value)
         else if callback.failure != NoFailure then Failure(CallbackCode(callback.failure), Stream)
         else if p.primary.Some? then Failure(FromDevice(p.primary.value.0), p.primary.value.1)
         else if callback.frames != callback.config.total then Failure(IncompleteStream, Stream)
         else Success(Stats(callback.callbacks, callback.frames, callback.xruns, callback.late));
  }

  // ---------------------------------------------------------------------------------------------
  // The controller
  // ---------------------------------------------------------------------------------------------

  const MAXIMUM_BYTES: nat := 32 * 1024 * 1024
  const MAXIMUM_FRAMES: nat := MAXIMUM_BYTES / 2
  const SAMPLE_BYTES: nat := 2

  datatype Limits = Limits(bytes: nat, frames: nat)
  datatype Format = Format(sampleRate: nat, channels: nat)

  predicate ValidLimits(l: Limits) { 0 < l.bytes <= MAXIMUM_BYTES && 0 < l.frames <= MAXIMUM_FRAMES }

  predicate ValidFormat(f: Format) { (f.channels == 1 || f.channels == 2) && 8000 <= f.sampleRate <= 192000 }

  /** A capture the controller will attempt. */
  predicate Capturable(l: Limits, f: Format, frames: nat) {
    ValidLimits(l) && ValidFormat(f) && frames > 0 && frames * f.channels * SAMPLE_BYTES <= l.bytes && frames <= l.frames
  }

  /** A playback the controller will attempt. */
  predicate Playable(l: Limits, f: Format, samples: seq<int>) {
    && ValidLimits(l) && ValidFormat(f) && samples != [] && |samples| % f.channels == 0
    && |samples| * SAMPLE_BYTES <= l.bytes && |samples| / f.channels <= l.frames
  }

  /** What a request is told that is refused before the device is touched. */
  predicate Refused(l: Limits, f: Format, empty: bool, large: bool, active: bool, stopped: bool, r: Option<(Code, Stage)>) {
    var limited := 0 < l.bytes <= 33_554_432 && 0 < l.frames <= 16_777_216;
    var formed := (f.channels == 1 || f.channels == 2) && 8_000 <= f.sampleRate <= 192_000;
    && (!limited ==> r == Some((InvalidLimits, Open)))
    && (limited && !formed ==> r == Some((InvalidFormat, Open)))
    && (limited && formed && empty ==> r == Some((InvalidBuffer, Open)))
    && (limited && formed && !empty && large ==> r == Some((TooLarge, Open)))
    && (limited && formed && !empty && !large && active ==> r == Some((InProgress, Open)))
    && (limited && formed && !empty && !large && !active && stopped ==> r == Some((Cancelled, Open)))
  }

  datatype Captured = Recording(samples: seq<int>, stats: Stats) | NoRecording(code: Code, stage: Stage)

  lemma FitsBytes(l: Limits, f: Format, frames: nat)
    requires ValidFormat(f)
    ensures frames <= l.bytes / (f.channels * SAMPLE_BYTES) <==> frames * f.channels * SAMPLE_BYTES <= l.bytes
  {
    if f.channels == 2 { assert frames * f.channels * SAMPLE_BYTES == frames * 4; }
  }

  /** The script completes the operation. */
  ghost predicate Scripts(plan: Plan, c: Config) {
    exists k :: Completion(c, plan.callbacks, plan.continueAfterTerminal, k)
  }

  /** The samples are the inputs of the callbacks up to the one that completed the operation. */
  ghost predicate Provided(plan: Plan, c: Config, samples: seq<int>, stats: Stats) {
    exists k: nat :: && Completion(c, plan.callbacks, plan.continueAfterTerminal, k)
                     && samples == Inputs(plan.callbacks[..k]) && stats == Stats(k, c.total, 0, 0)
  }

  class Controller {
    const limits: Limits
    var active: bool

    constructor (limits: Limits)
      ensures this.limits == limits && !active
    {
      this.limits, active := limits, false;
    }

    /** `capture()` on a fresh scripted device: a recording exactly when the request is within the
        limits and the script completes it undisturbed, and then the inputs the script provided. */
    method Capture(device: Device, format: Format, frames: nat, cancel: Cancel) returns (r: Captured)
      requires device.calls == [] && device.decisions == [] && device.playedSamples == [] && !device.workerFailed
      requires device.closeOutputUnchanged
      modifies this, device
      ensures active == old(active) && device.closeOutputUnchanged && Trace(device.calls)
      ensures r.Recording? <==>
                && Capturable(limits, format, frames) && !old(active) && Undisturbed(device.plan, cancel)
                && Scripts(device.plan, Config(Direction.Capture, format.channels, frames, []))
      ensures r.Recording? ==>
                Provided(device.plan, Config(Direction.Capture, format.channels, frames, []), r.samples, r.stats)
      ensures Refused(limits, format, frames == 0, frames * format.channels * 2 > limits.bytes || frames > limits.frames,
                      old(active), cancel == Before,
                      if r.NoRecording? then Some((r.code, r.stage)) else None)
      ensures Capturable(limits, format, frames) && !old(active) && cancel != Before && r.NoRecording? ==>
                var c := Config(Direction.Capture, format.channels, frames, []);
                Concluded(Executed(device.plan, c, cancel), c) == Failure(r.code, r.stage)
    {
      if !ValidLimits(limits) {
        return NoRecording(InvalidLimits, Open);
      }
      if !ValidFormat(format) {
        return NoRecording(InvalidFormat, Open);
      }
      if frames == 0 {
        return NoRecording(InvalidBuffer, Open);
      }
      FitsBytes(limits, format, frames);
      if frames > limits.bytes / (format.channels * SAMPLE_BYTES) || frames > limits.frames {
        return NoRecording(TooLarge, Open);
      }
      if active {
        return NoRecording(InProgress, Open);
      }
      active := true;
      if cancel == Before {
        active := false;
        return NoRecording(Cancelled, Open);
      }
      r := Record(device, Config(Direction.Capture, format.channels, frames, []), cancel);
      active := false;
    }

    method Record(device: Device, c: Config, cancel: Cancel) returns (r: Captured)
      requires device.calls == [] && device.decisions == [] && device.playedSamples == [] && !device.workerFailed
      requires device.closeOutputUnchanged && ValidConfig(c) && c.direction == Direction.Capture
      modifies device
      ensures device.closeOutputUnchanged && Trace(device.calls)
      ensures r.Recording? <==> Undisturbed(device.plan, cancel) && Scripts(device.plan, c)
      ensures r.Recording? ==> Provided(device.plan, c, r.samples, r.stats)
      ensures r.NoRecording? ==> Concluded(Executed(device.plan, c, cancel), c) == Failure(r.code, r.stage)
    {
      var callback := new Callback(c);
      var result := ExecuteLifecycle(device, callback, cancel);
      OperationExact(device.plan, c, cancel);
      if result.Success? {
        CaptureReturnsInputs(device.plan, c, cancel);
        r := Recording(callback.capture[..], result.stats);
      } else {
        r := NoRecording(result.code, result.stage);
      }
    }

    /** `play()` on a fresh scripted device: success exactly when the samples are within the limits and
        the script completes them undisturbed, and then the device has played them and only zeros. */
    method Play(device: Device, format: Format, samples: seq<int>, cancel: Cancel) returns (r: Result)
      requires device.calls == [] && device.decisions == [] && device.playedSamples == [] && !device.workerFailed
      requires device.closeOutputUnchanged
      modifies this, device
      ensures active == old(active) && device.closeOutputUnchanged && Trace(device.calls)
      ensures r.Success? <==>
                && Playable(limits, format, samples) && !old(active) && Undisturbed(device.plan, cancel)
                && Scripts(device.plan, Config(Playback, format.channels, |samples| / format.channels, samples))
      ensures r.Success? ==>
                |samples| <= |device.playedSamples| && device.playedSamples == samples + Zeros(|device.playedSamples| - |samples|)
      ensures Refused(limits, format, samples == [] || (ValidFormat(format) && |samples| % format.channels != 0),
                      |samples| * 2 > limits.bytes || (ValidFormat(format) && |samples| / format.channels > limits.frames),
                      old(active), cancel == Before,
                      if r.Failure? then Some((r.code, r.stage)) else None)
      ensures Playable(limits, format, samples) && !old(active) && cancel != Before ==>
                var c := Config(Playback, format.channels, |samples| / format.channels, samples);
                r == Concluded(Executed(device.plan, c, cancel), c)
    {
      if !ValidLimits(limits) {
        return Failure(InvalidLimits, Open);
      }
      if !ValidFormat(format) {
        return Failure(InvalidFormat, Open);
      }
      if samples == [] || |samples| % format.channels != 0 {
        return Failure(InvalidBuffer, Open);
      }
      var frames := |samples| / format.channels;
      if |samples| > limits.bytes / SAMPLE_BYTES || frames > limits.frames {
        return Failure(TooLarge, Open);
      }
      if active {
        return Failure(InProgress, Open);
      }
      active := true;
      if cancel == Before {
        active := false;
        return Failure(Cancelled, Open);
      }
      r := PlayOut(device, Config(Playback, format.channels, frames, samples), cancel);
      active := false;
    }

    method PlayOut(device: Device, c: Config, cancel: Cancel) returns (r: Result)
      requires device.calls == [] && device.decisions == [] && device.playedSamples == [] && !device.workerFailed
      requires device.closeOutputUnchanged && ValidConfig(c) && c.direction == Playback
      modifies device
      ensures device.closeOutputUnchanged && Trace(device.calls)
      ensures r.Success? <==> Undisturbed(device.plan, cancel) && Scripts(device.plan, c)
      ensures r == Concluded(Executed(device.plan, c, cancel), c)
      ensures r.Success? ==> && |c.playback| <= |device.playedSamples|
                             && device.playedSamples == c.playback + Zeros(|device.playedSamples| - |c.playback|)
    {
      var callback := new Callback(c);
      r := ExecuteLifecycle(device, callback, cancel);
      OperationExact(device.plan, c, cancel);
      if r.Success? { PlaybackPlaysSource(device.plan, c, cancel); }
    }
  }
}
