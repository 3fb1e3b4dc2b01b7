# AIForge device, transport and evidence core: a verified model

This project models the parts of AIForge where many things can go wrong at once, and proves what they
are for:

- **Microphone capture.** A control thread opens, starts, streams, stops and closes a device while any
  number of device threads call back into one sample buffer. The model is a state machine with one
  step per atomic operation and one step per copied sample; theorems speak of every interleaving of
  any number of operations on one device gate (`CaptureCallback`, `AudioDeviceGate`,
  `CaptureController`, `CaptureSystem`). What the statistics of a success say, how long the gate keeps a
  callback object, and runs that show what can happen, are in `CaptureStatistics`, `CaptureLifetime` and
  `CaptureRuns`. When a call is accepted, when a capture succeeds and what it answers otherwise are in
  `CaptureCalls`, `CaptureAlone`, `CaptureSuccess` and `CaptureErrors`.
- **The signed-16 device contract** and the scripted device it is exercised with: callback objects that
  copy in place, and one operation from end to end, with an exact condition for success
  (`ContractCallback`, `DeviceContract`, `DeviceCalls`, `DeviceLifecycle`, `ScriptedDevice`).
- **The line transport.** Bounded newline framing over reads of any size, and records written in pieces
  of any size, each the other's inverse (`LineFraming`, `AgentTransport`).
- **Control groups.** Removal of directory trees with an explicit stack and a shared budget, who owns
  which directory, and setting up a delegated root and taking it down again (`CgroupWorld`,
  `CgroupCleanup`, `CgroupOwners`, `CgroupRemoval`, `CgroupNames`, `CgroupBootstrap`, `ProcessList`, `Decimal`).
- **Evidence.** Duplicate field detection, the audio device evidence codec and its byte limits, the probe
  runner, and the assessment of three reports for three levels (`JsonKeys`, `JsonTrees`,
  `AudioEvidence`, `AudioReports`, `AudioValidity`, `AudioNames`, `AudioSizes`, `IsolationEvidence`,
  `EvidenceRunner`, `EvidenceMapping`, `Provenance`).
- **Text, filters and bit sets.** The UTF-8 check, the seccomp programs, and the capability bounding set on
  its way to a child (`SafeText`, `SeccompFilters`, `CapabilitySets`, `Bits`).

`Sequences` and `Wrappers` are shared vocabulary. `dafny verify dfyconfig.toml` checks everything.

## How things are represented

- Every C++ atomic is one sequentially consistent step. What the device, the observer, the stop token,
  the kernel and the clock do is an input of the step or call concerned, and is arbitrary.
- Objects that one thread updates step by step are classes whose methods are proved against functions
  on values; what is promised is then proved of those functions over whole runs. The capture protocol
  is stated on values throughout, because its steps interleave.
- Counters are unbounded where the source cannot reach their limit; the `size_t` and 64-bit limits that
  the source itself checks are written out. Bytes of text are characters, except in `SafeText`.
- A loop that the source ends by a deadline takes a list of turns; the deadline passes at its end.

## Findings

Properties one would expect and that do not hold, each with an input and the exact condition:

- *The statistics of a successful capture show no late callback.* They are read again after the decision to
  succeed (`src/adapters/capture_device.cpp:412-429`). `CaptureRuns.LateButCaptured` is an execution that ends
  in success with one; by `CaptureStatistics.LateCountIsExact` the count is the number of calls counted as late
  between the two readings, so it is zero exactly when there is none.
- *A successful capture leaves the gate usable.* `CaptureRuns.CapturedYetQuarantined` does not; by
  `CaptureStatistics.CapturedQuarantines` this happens exactly when a call is counted as late between the
  reading that decides about success and the one that decides about the gate.
- *The gate keeps the callback object of an operation whose device may still call.* Its slot holds one object,
  and an exception in an operation that has given the gate back already replaces it, as when the message of its
  error cannot be allocated: `CaptureLifetime.KeptTooBriefly`. By `CaptureLifetime.KeptExactly` the object is kept exactly as long as the
  last exception since is not one of another operation, and `CaptureLifetime.NeedyIsKept` gives it without
  such exceptions.
- *Everything that was written can be read back.* The writer accepts records of up to 2 MiB and the reader
  refuses lines over 1 MiB: `AgentTransport.WriterTakesMore`. It holds if and only if every line is within
  1 MiB (`AgentTransport.ReadsBack`).
- *A record reported as failed is not completely in the output.* `AgentTransport.CompleteAndFailed` is one that
  is; by `AgentTransport.FailsComplete` this happens exactly when the deadline passes between the write of the
  last byte and the check after it. `AgentTransport.ReadsBack` counts such a record as completely written.
- *The filter for local sockets refuses only those.* It also names the family -1, so the two family filters
  together refuse that word besides the three families, and nothing else (`SeccompFilters.StackedFamilies`).
- *`CgroupBootstrap` never asks to move a process into a root with enabled controllers.* The kernel refuses, but
  is asked: `CgroupBootstrap.UnreportedController` gives calls for which every start does.
  `CgroupBootstrap.CgroupBootstrap.Start` and `Cleanup` state exactly when: disabling fails and leaves a controller enabled, or a failed enabling left
  one that was not reported. The answer is then a failed cleanup.
- *When more goes wrong with a probe, its record names nothing less grave.* Processes a child left behind are a
  failed cleanup, but not if it was cancelled or ran out of time and they could be removed:
  `EvidenceRunner.LessGrave`. `EvidenceRunner.WorseIsGraver` shows that this is the only exception.
- *A temporary directory that the evaluation leaves behind is reported.* Not if there is no memory for the rows,
  because the handler is told of the directory only after they are reserved: `EvidenceRunner.RootUnsaid`. By the
  contract of `EvidenceRunner.RunEvaluation` it is reported in every other case.

## Model

| member | source | states |
|---|---|---|
| AudioDeviceGate.Gate.Begin | src/adapters/audio_device_gate.cpp:7-14 | exactly an idle gate is acquired; an active and a quarantined one answer differently and stay as they are |
| AudioDeviceGate.Gate.Release | src/adapters/audio_device_gate.cpp:16-20 | only an active gate becomes idle; a quarantined one stays quarantined |
| AudioDeviceGate.Gate.Quarantine | src/adapters/audio_device_gate.cpp:22-26 | the gate is quarantined from any state and keeps the callback |
| CaptureCallback.AdvanceInv | src/adapters/capture_device.cpp:39-101 | any step of any overlapping call keeps the invariant of the callback, and a frozen recording stays frozen |
| CaptureCallback.ArriveInv | src/adapters/capture_device.cpp:39-52 | a new call may begin at any moment, with any input, size and status |
| CaptureCallback.ExclusiveCopy | src/adapters/capture_device.cpp:44-92 | two calls that are both in the copy region are the same call |
| CaptureCallback.CopyInBounds | src/adapters/capture_device.cpp:80-92 | a call about to copy a sample writes inside the buffer |
| CaptureCallback.CopyStep | src/adapters/capture_device.cpp:84-90 | copying one more sample of the input keeps what is published and extends what is copied |
| CaptureCallback.CommitStep | src/adapters/capture_device.cpp:88-95 | adding the frames publishes the input at the end of the recording |
| CaptureCallback.QuiescentFreezes | src/adapters/capture_device.cpp:103-117 | with accepting off and the in-flight counter at zero no call can reach the buffer |
| CaptureCallback.FrozenAdvance | src/adapters/capture_device.cpp:103-120 | no step of any call changes a frozen recording |
| CaptureCallback.CompleteMeansClean | src/adapters/capture_device.cpp:109-130 | all frames without a failure means no overrun, and every counted call was accepted; the step that judges success uses it |
| CaptureCalls.AcceptedExactly | src/adapters/capture_device.cpp:39-101 | in every execution, whatever overlaps, a call is accepted exactly when it found the counter at zero, accepting on and terminal off, is of the right size, saw no stop, is normal and brings no more than is left; it completes exactly when it brings all of that; and what a refusal leaves |
| CaptureCalls.CommitsExactly | src/adapters/capture_device.cpp:88-96 | the recording grows exactly when a call goes through, and then by its input |
| CaptureCalls.FailureIsFirst | src/adapters/capture_device.cpp:123-130 | the failure kept is the first one, and the one its call is to blame for |
| CaptureAlone.AloneExactly | src/adapters/capture_device.cpp:39-101 | everything a call does that meets no other: each way to be refused with its failure and counters, or its input put in its place |
| CaptureSuccess.SmoothSucceeds | src/adapters/capture_device.cpp:361-436 | in every execution a capture whose stages do not fail, and to which calls that do not overlap deliver what was asked for, ends in success with what was delivered |
| CaptureSuccess.ControlFinishes | src/adapters/capture_device.cpp:361-436 | the control thread is never blocked and is done after at most 39 of its steps |
| CaptureController.AdmittedFits | src/adapters/capture_device.cpp:361-394 | admitted are exactly the non-empty mono or stereo requests within the configured limits, and those are within the hard ones |
| CaptureController.RefusedFor | src/adapters/capture_device.cpp:364-386 | which error a request gets that is not admitted |
| CaptureController.LifeStepOk | src/adapters/capture_device.cpp:219-289 | each lifecycle step keeps flags, trace and stage in agreement |
| CaptureController.TornDownTrace | src/adapters/capture_device.cpp:219-289 | a lifecycle that has been torn down made one of four series of device calls |
| CaptureController.JudgeOk | src/adapters/capture_device.cpp:291-329 | each read after teardown stays true; no error means a complete and clean recording |
| CaptureController.StepInv | src/adapters/capture_device.cpp:361-436 | every step of the control thread keeps the invariant of the operation |
| CaptureController.ThrowInv | src/adapters/capture_device.cpp:331-351 | so does an exception at any point |
| CaptureSystem.NextInv | src/adapters/capture_device.cpp:361-436 | every action of every thread keeps the invariant of the whole system |
| CaptureSystem.NoCallIsStuck | src/adapters/capture_device.cpp:80-92 | in every execution no call is about to write out of bounds |
| CaptureSystem.CopiesExclude | src/adapters/capture_device.cpp:39-101 | in every execution at most one call is in the copy region |
| CaptureSystem.BufferIsRecording | src/adapters/capture_device.cpp:39-130 | at every moment the published samples are the accepted inputs in commit order, never more than requested |
| CaptureSystem.FrozenForever | src/adapters/capture_device.cpp:103-120 | a frozen recording is the same ever after, except for being handed over |
| CaptureSystem.QuiescentForever | src/adapters/capture_device.cpp:103-120 | after deactivation and a zero in-flight counter nothing changes the recording any more |
| CaptureSystem.CapturedIsExact | src/adapters/capture_device.cpp:412-429 | a successful capture returns exactly the inputs of its counted callbacks, as many frames as requested, no overrun; its late count is the subject of CaptureStatistics.LateCountIsExact |
| CaptureSystem.CapturedWasUndisturbed | src/adapters/capture_device.cpp:291-329 | a successful capture went through all five stages and none failed or was cancelled |
| CaptureSystem.DeviceCallsWellFormed | src/adapters/capture_device.cpp:219-289 | every finished operation made one of four series of device calls |
| CaptureSystem.GateExcludes | src/adapters/audio_device_gate.cpp:7-26 | at most one operation holds the gate, and none while it is idle |
| CaptureSystem.QuarantineAbsorbs | src/adapters/audio_device_gate.cpp:16-26 | a quarantined gate stays quarantined in every execution, also when an exception quarantines after release |
| CaptureSystem.ReleaseIsJustified | src/adapters/capture_device.cpp:395-435 | the gate is released only after an early cancellation, or when all that was opened closed, no late callback was seen and the counter was zero |
| CaptureSystem.QuarantineIsJustified | src/adapters/capture_device.cpp:395-435 | the gate is quarantined only by an exception, or when closing failed, a late callback was seen or a call was in flight |
| CaptureErrors.OutcomeExactly | src/adapters/capture_device.cpp:219-330 | in every execution an operation answers the gravest of what went wrong, and succeeds exactly when nothing did: a refusing gate, an early stop, a failed close, late calls, a failed stop, cancellation, a callback's failure, the first failed stage or observer, missing frames |
| CaptureErrors.StagesExactly | src/adapters/capture_device.cpp:219-289 | a stage up to the stream is begun only while nothing went wrong, and teardown only after something did or after the stream |
| CaptureErrors.ThrewIsInternal | src/adapters/capture_device.cpp:430-435 | an exception is answered as an internal failure and quarantines the gate |
| CaptureStatistics.LateIsCount | src/adapters/capture_device.cpp:60-63 | the late counter moves by exactly the calls counted as late |
| CaptureStatistics.CapturedHasRead | src/adapters/capture_device.cpp:412-429 | a successful capture read the late count three times: before it decided to succeed, before it decided about the gate, and for its statistics |
| CaptureStatistics.LateCountIsExact | src/adapters/capture_device.cpp:412-429 | the late count it returns is the number of calls counted between the two readings, so zero exactly when there is none |
| CaptureStatistics.CapturedQuarantines | src/adapters/capture_device.cpp:412-426 | a successful capture quarantines the gate exactly when a call is counted between the readings that decide about success and about the gate |
| CaptureRuns.LateButCaptured | src/adapters/capture_device.cpp:421-429 | an execution that ends in success with a late callback in its statistics |
| CaptureRuns.CapturedYetQuarantined | src/adapters/capture_device.cpp:412-426 | an execution that ends in success with the gate quarantined |
| CaptureLifetime.KeptIsLast | src/adapters/audio_device_gate.cpp:22-26 | the gate keeps the object of the operation quarantined last |
| CaptureLifetime.KeptExactly | src/adapters/capture_device.cpp:419-435 | a quarantined holder's object is kept exactly until an exception in another operation that gave the gate back |
| CaptureLifetime.NeedyWasQuarantined | src/adapters/capture_device.cpp:416-426 | an operation whose device did not close, or had a call in flight, was quarantined while it held the gate |
| CaptureLifetime.NeedyIsKept | src/adapters/audio_device_gate.cpp:22-26 | so without exceptions elsewhere its object is kept |
| CaptureLifetime.KeptTooBriefly | src/adapters/capture_device.cpp:430-435 | an execution in which the object of an operation whose device is still calling is let go |
| CaptureLifetime.GateIsObject | src/adapters/audio_device_gate.cpp:7-26 | in every execution the gate is in the state of an object on which the calls of the operations were made in turn |
| ContractCallback.CopyInto | evaluation/audio_device/device_contract.cpp:130-145 | the source is copied to its place and the rest of the array is untouched |
| ContractCallback.FillZero | evaluation/audio_device/device_contract.cpp:136-142 | everything from a position on is zero and the rest is untouched |
| ContractCallback.Callback.Process | evaluation/audio_device/device_contract.cpp:44-79 | object, decision and output buffer are those of the call on values, and the object stays sound |
| ContractCallback.Callback.HandleStatus | evaluation/audio_device/device_contract.cpp:111-128 | a status other than normal aborts with the failure of its direction; an underrun silences the output |
| ContractCallback.Callback.Transfer | evaluation/audio_device/device_contract.cpp:130-145 | as many frames as are wanted are moved in place, and a capture that brings more is an overrun |
| ContractCallback.ProcessedSound | evaluation/audio_device/device_contract.cpp:44-79 | frames never exceed the total and buffers keep their size, for every buffer a device passes |
| DeviceContract.PlayStep | evaluation/audio_device/device_contract.cpp:44-79 | while nothing failed, all output so far is the source in order and then zeros |
| DeviceContract.CaptureStep | evaluation/audio_device/device_contract.cpp:44-79 | while nothing failed, the front of the capture buffer is all inputs so far in order |
| DeviceContract.PlaybackExact | evaluation/audio_device/device_contract.cpp:44-158 | for every device, delivering all frames without failure means its callbacks were handed exactly the source and then only zeros |
| DeviceContract.StreamExact | evaluation/audio_device/scripted_device.cpp:74-124 | a stream completes exactly when some first run of normal, well-sized callbacks completes the request and nothing follows it |
| DeviceContract.FailureStays | evaluation/audio_device/scripted_device.cpp:74-124 | a failed stream, and one that goes on after its end, does not complete |
| DeviceCalls.CallExactly | evaluation/audio_device/device_contract.cpp:44-158 | everything one call does: each way to be refused with its failure, counters and output, or the frames moved |
| DeviceCalls.ConcludedExactly | evaluation/audio_device/device_contract.cpp:205-347 | the result is the gravest error, with its code and stage, and the statistics when there is none |
| DeviceCalls.LifeExactly | evaluation/audio_device/device_contract.cpp:267-316 | for every device: which stages it is called for, which failure is kept and which stop |
| DeviceCalls.StreamSeesStop | evaluation/audio_device/device_contract.cpp:44-63 | with a stop during the stream, the callbacks before are answered as without it and the one that sees it gives up |
| DeviceLifecycle.TraceShape | evaluation/audio_device/device_contract.cpp:267-316 | for every device, every behaviour of its callbacks and cancellation seen at any of the checks, the device is called in one of four orders |
| DeviceLifecycle.AnySuccess | evaluation/audio_device/device_contract.cpp:267-347 | for every device, success exactly when no stage failed, no check saw cancellation, no call was late, no callback failed and all frames came |
| DeviceLifecycle.ScriptedIsAny | evaluation/audio_device/scripted_device.cpp:74-196 | the scripted device is one of them, with the same calls and result |
| DeviceLifecycle.OperationExact | evaluation/audio_device/device_contract.cpp:318-358 | an operation succeeds exactly when it is not cancelled, no stage is scripted to fail, nothing calls back during close, and the script completes it and stops |
| DeviceLifecycle.CaptureReturnsInputs | evaluation/audio_device/device_contract.cpp:424-477 | a successful capture returns the inputs up to the completing callback, with the exact statistics |
| DeviceLifecycle.PlaybackPlaysSource | evaluation/audio_device/device_contract.cpp:375-422 | a successful playback played exactly the source and then only zeros |
| DeviceLifecycle.CleanupFailureComesFirst | evaluation/audio_device/device_contract.cpp:318-347 | a device that does not close or stop is reported as a failed cleanup whatever else happened, and a callback during close next |
| DeviceLifecycle.CancellationIsReported | evaluation/audio_device/device_contract.cpp:260-347 | on a device that does not fail, cancellation during any stage is reported with that stage and the device is closed, whatever the callbacks did |
| ScriptedDevice.Device.RunCallbacks | evaluation/audio_device/scripted_device.cpp:74-124 | the loop leaves the callback object, decisions and samples of the stream on values |
| ScriptedDevice.Device.StreamAll | evaluation/audio_device/scripted_device.cpp:126-142 | a scripted failure calls nothing back; a failed worker is an internal failure |
| ScriptedDevice.Device.CloseAll | evaluation/audio_device/scripted_device.cpp:148-196 | a callback during close is counted as late and leaves its output unchanged |
| ScriptedDevice.RunPrimaryLifecycle | evaluation/audio_device/device_contract.cpp:267-297 | open, start and stream until something fails or is cancelled |
| ScriptedDevice.RunCleanup | evaluation/audio_device/device_contract.cpp:299-316 | what was attempted is stopped and closed, after the callback is deactivated |
| ScriptedDevice.ExecuteLifecycle | evaluation/audio_device/device_contract.cpp:318-358 | result, trace and all records of the device are those of the operation on values |
| ScriptedDevice.Controller.Capture | evaluation/audio_device/device_contract.cpp:424-477 | a recording exactly when the request is within the limits and the script completes it undisturbed, and then exactly the inputs; otherwise which error |
| ScriptedDevice.Controller.Play | evaluation/audio_device/device_contract.cpp:375-422 | success exactly when the samples are within the limits and the script completes them undisturbed, and then they and only zeros were played; otherwise which error |
| LineFraming.CutJoined | src/adapters/agent_transport.cpp:205-224 | a stream can be cut into lines in only one way |
| LineFraming.FramedPrefix | src/adapters/agent_transport.cpp:205-224 | lines within the limit at the front are taken whatever follows |
| LineFraming.OverLong | src/adapters/agent_transport.cpp:210-219 | more than a limit without a newline is refused whatever follows |
| AgentTransport.PolledInv | src/adapters/agent_transport.cpp:227-280 | lines delivered and buffer are what was read, and the buffer is within the line limit and one chunk |
| AgentTransport.BufferExactly | src/adapters/agent_transport.cpp:205-224 | which answer the buffer gives: its first line, one that is too long, an unfinished last line, the end, or none |
| AgentTransport.PollExactly | src/adapters/agent_transport.cpp:227-280 | what every call answers, by what it meets: refused, stopped, unreadable, idle or from the buffer; and that nothing else changes |
| AgentTransport.RunExact | src/adapters/agent_transport.cpp:205-280 | for every chunking and interruption the delivered lines are the first lines of the whole input, and a final answer means all of them and the ending the whole input calls for |
| AgentTransport.ChunksDoNotMatter | src/adapters/agent_transport.cpp:205-280 | two runs over the same input that finish agree on lines and ending |
| AgentTransport.EndIsFinal | src/adapters/agent_transport.cpp:227-280 | in no run is there a read after the end of input or a refusal |
| AgentTransport.RunFinishes | src/adapters/agent_transport.cpp:227-280 | enough uninterrupted calls always come to a final answer |
| AgentTransport.Transport.Serve | src/adapters/agent_transport.cpp:205-224 | a line, the end or a lasting refusal from the buffer |
| AgentTransport.Transport.PollLine | src/adapters/agent_transport.cpp:227-280 | answer and state are those of the call on values, each answer exactly for its reason |
| AgentTransport.Transport.ReadRequest | src/adapters/agent_transport.cpp:172-202 | for every chunking, which turn decides and what each answer means: all of the input within the limit, too long, cancelled or a failed read; once, and not after lines were read |
| AgentTransport.Transport.WriteAll | src/adapters/agent_transport.cpp:70-110 | the output grows by a prefix of the record, all of it on success, and the ending is that of the events |
| AgentTransport.Transport.WriteRecord | src/adapters/agent_transport.cpp:282-308 | an invalid record or a failed sink writes nothing, and any failure lasts |
| AgentTransport.StopIsLast | src/adapters/agent_transport.cpp:70-110 | a record is given up as cancelled only with some of it left; one that can be written at once is written, stop or no stop |
| AgentTransport.SentExactly | src/adapters/agent_transport.cpp:70-110 | how an attempt ends, by the turn that ends it: done when the last byte is out in time, cancelled when some is left and a stop is seen, otherwise failed |
| AgentTransport.SentUntilLate | src/adapters/agent_transport.cpp:70-110 | an attempt that no turn ends fails when the deadline passes |
| AgentTransport.RefusedExactly | src/adapters/agent_transport.cpp:282-308 | a record is refused exactly when the sink has failed or it is not one line with its newline within 2 MiB; every call but a success leaves the sink failed |
| AgentTransport.FailureIsFinal | src/adapters/agent_transport.cpp:282-308 | nothing is written and nothing succeeds after a failure |
| AgentTransport.WriteExact | src/adapters/agent_transport.cpp:70-110 | over every run the output is the successful records and then at most a prefix of the one that failed |
| AgentTransport.FailsComplete | src/adapters/agent_transport.cpp:75-92 | a record fails although all of it went out exactly when the deadline passes right after the write of its last byte |
| AgentTransport.CompleteAndFailed | src/adapters/agent_transport.cpp:83-92 | such a record |
| AgentTransport.FailedLateIs | src/adapters/agent_transport.cpp:282-308 | over a run, then and only then is the record that failed completely in the output |
| AgentTransport.ReadsBack | src/adapters/agent_transport.cpp:205-308 | reading any writer's output gives exactly the lines completely written if and only if each is within the limit |
| AgentTransport.WriterTakesMore | src/adapters/agent_transport.cpp:282-292 | a record that is written in one turn and that the reader refuses |
| CgroupWorld.RemovedWellFormed | evaluation/process_isolation/linux_support.cpp:159-188 | removing an empty directory leaves a tree without exactly that directory |
| CgroupWorld.SafeNameExactly | evaluation/process_isolation/linux_support.cpp:98-105 | which names a listing accepts: letters, digits, dashes and underscores, and not too long |
| CgroupCleanup.Kernel.OpenAt | evaluation/process_isolation/linux_support.cpp:135-146 | a child is opened through a parent descriptor that is open, and gets a new one |
| CgroupCleanup.MakeCleanupFrame | evaluation/process_isolation/linux_support.cpp:135-157 | depth and budget are checked before opening; the directory is killed, drained and listed, or reported gone |
| CgroupCleanup.CleanupTree | evaluation/process_isolation/linux_support.cpp:159-188 | the explicit stack computes the recursive removal, never has more directories open than levels are allowed, leaves none open, and opens no more than the budget |
| CgroupCleanup.StackIsShallow | evaluation/process_isolation/linux_support.cpp:159-188 | in every state of the loop the stack is within the levels allowed and holds one descriptor for each frame |
| CgroupCleanup.ResumePush | evaluation/process_isolation/linux_support.cpp:166-178 | descending into a child keeps what is left to do |
| CgroupCleanup.ResumeSkip | evaluation/process_isolation/linux_support.cpp:166-178 | so does a child that yields no frame |
| CgroupCleanup.TreeWithin | evaluation/process_isolation/linux_support.cpp:135-188 | removal keeps the tree a tree, touches nothing outside it, and says it is gone only if it is |
| CgroupCleanup.SuccessRemovesAll | evaluation/process_isolation/linux_support.cpp:159-188 | success means every directory of the subtree is gone |
| CgroupCleanup.TreeCounted | evaluation/process_isolation/linux_support.cpp:135-188 | success costs exactly one opening per directory and needs a tree within depth, width and budget |
| CgroupCleanup.SuccessExactly | evaluation/process_isolation/linux_support.cpp:135-188 | removal succeeds exactly when the tree is within depth, width and budget and no call on a directory of it fails: open, kill, drain, list or remove |
| CgroupOwners.CleanupTaskCgroups | evaluation/process_isolation/linux_support.cpp:190-203 | the loop with its shared budget is the removal of all trees of the owner, with at most 64 openings and never more than eight directories open |
| CgroupOwners.OwnerCleaned | evaluation/process_isolation/linux_support.cpp:190-203 | only the owner's directories and processes go, and success leaves none of them |
| CgroupOwners.OwnerSuccessExactly | evaluation/process_isolation/linux_support.cpp:190-203 | cleaning up after an owner succeeds exactly when the root can be listed and its trees together are within the limits with no failing call |
| CgroupOwners.OthersUntouched | evaluation/process_isolation/linux_support.cpp:190-203 | other owners' trees and the supervisor's stay |
| CgroupRemoval.TreeRemoves | evaluation/process_isolation/linux_support.cpp:135-188 | whatever calls fail, a directory goes exactly when everything from it down is reached, is not kept by a failing removal, and has nobody whom no kill above reaches |
| CgroupRemoval.OwnerRemoves | evaluation/process_isolation/linux_support.cpp:190-203 | the same for all trees of an owner |
| CgroupBootstrap.OwnersSuccessExactly | evaluation/process_isolation/linux_support.cpp:473-477 | cleaning up after several owners succeeds exactly when the root can be listed each time and the trees of each are within the limits with no failing call |
| CgroupNames.OneOwner | evaluation/process_isolation/linux_support.cpp:413-419 | a name has at most one owner |
| CgroupNames.SupervisorUnowned | evaluation/process_isolation/linux_support.cpp:540-543 | the supervisor's name has none |
| CgroupNames.CreatorOwns | evaluation/process_isolation/linux_support.cpp:609-620 | a created name is its creator's exactly when the suffix is empty or dash-led |
| CgroupNames.OwnedShape | evaluation/process_isolation/linux_support.cpp:413-419 | owned names are prefix, number and nothing or a dash-led rest |
| ProcessList.ParseProcesses | evaluation/process_isolation/linux_support.cpp:305-326 | accepted exactly for a list of different numbers, and the answer is the numbers sorted |
| ProcessList.ParsedExact | evaluation/process_isolation/linux_support.cpp:305-326 | the accepted documents, by a grammar: blanks, then unsigned numbers in range, each but the last followed by a line feed and any blanks |
| ProcessList.DocumentRoundTrip | evaluation/process_isolation/linux_support.cpp:305-326 | a printed list comes back sorted exactly when it repeats nothing |
| ProcessList.SortSorts | evaluation/process_isolation/linux_support.cpp:318-320 | sorting orders the numbers and keeps each as often as it was |
| ProcessList.NeighboursSuffice | evaluation/process_isolation/linux_support.cpp:320-324 | comparing neighbours in a sorted list finds every repetition |
| CgroupBootstrap.CgroupBootstrap.Start | evaluation/process_isolation/linux_support.cpp:429-453 | success exactly when every check and call succeeds, and then the supervisor runs in its own directory with controllers enabled; otherwise which error, with the hierarchy as before or a failed cleanup exactly when undoing fails; and exactly when the kernel is asked to break the constraint |
| CgroupBootstrap.CgroupBootstrap.Validate | evaluation/process_isolation/linux_support.cpp:503-538 | success exactly for a valid root with the controllers, this process alone in it and nothing below; and when a controller is reported missing |
| CgroupBootstrap.CgroupBootstrap.CreateSupervisor | evaluation/process_isolation/linux_support.cpp:540-553 | one directory is added, or the hierarchy is as before |
| CgroupBootstrap.CgroupBootstrap.MigrateToSupervisor | evaluation/process_isolation/linux_support.cpp:555-576 | this process is moved and the root is empty, or all is undone |
| CgroupBootstrap.CgroupBootstrap.EnableControllers | evaluation/process_isolation/linux_support.cpp:578-603 | all three controllers are enabled, or all is undone, also after a partial write |
| CgroupBootstrap.CgroupBootstrap.Cleanup | evaluation/process_isolation/linux_support.cpp:468-501 | exactly when it succeeds, and what it leaves in any case: each step is made whatever failed before; a second call does nothing and gives the same answer; and exactly when it asks the kernel to break the constraint |
| CgroupBootstrap.CgroupBootstrap.RestoreRoot | evaluation/process_isolation/linux_support.cpp:479-486 | controllers are disabled before the process moves back; it moves into enabled ones exactly when some stay enabled |
| CgroupBootstrap.OwnersSwept | evaluation/process_isolation/linux_support.cpp:473-477 | cleaning up after several owners removes theirs and nothing else |
| CgroupBootstrap.RestoredUndoes | evaluation/process_isolation/linux_support.cpp:468-501 | undoing gives back the pristine hierarchy from every stage of the set-up |
| CgroupBootstrap.CleanupUndoesEverything | evaluation/process_isolation/linux_support.cpp:468-501 | after a successful cleanup the supervisor, the controllers and all owners' directories are gone and the rest is there |
| CgroupBootstrap.RoundTrip | evaluation/process_isolation/linux_support.cpp:429-501 | start, anything the remembered owners do, and a successful cleanup leave exactly the hierarchy of before |
| CgroupBootstrap.WorkingVacates | evaluation/process_isolation/linux_support.cpp:487-496 | after the owners' directories are gone, the supervisor's can be removed exactly when draining and removing do not fail themselves |
| CgroupBootstrap.UnreportedController | evaluation/process_isolation/linux_support.cpp:578-603 | a hierarchy and calls with which, by the contract of Start, the kernel is asked to break the constraint and the start ends as a failed cleanup |
| SafeText.SafeText | src/adapters/audio_backend.cpp:74-116 | accepts exactly the non-empty values within the limit that encode some sequence of safe scalar values |
| SafeText.Scan | src/adapters/audio_backend.cpp:78-112 | one turn of the loop finds the first character, or none |
| SafeText.DecodeEncode | src/adapters/audio_backend.cpp:74-116 | decoding an encoded text gives it back |
| SafeText.EncodeDecode | src/adapters/audio_backend.cpp:74-116 | encoding a decoded value gives it back |
| JsonKeys.RunValue | evaluation/audio_device/evidence.cpp:229-249 | over the events of any document the callback raises exactly when some object repeats a name, and otherwise restores its stack |
| JsonKeys.DetectDuplicates | evaluation/audio_device/evidence.cpp:220-258 | a duplicate is reported exactly when some object at some depth has one |
| AudioEvidence.EnumExact | evaluation/audio_device/evidence.cpp:198-218 | a name is read as a value exactly when it is that value's name |
| AudioEvidence.ProbeTable | evaluation/audio_device/evidence.cpp:20-74 | the table of probes is one to one and complete |
| AudioEvidence.RecordExact | evaluation/audio_device/evidence.cpp:335-390 | the decoder accepts exactly the encodings of valid records |
| AudioValidity.CancelsExactly | evaluation/audio_device/evidence.cpp:326-333 | the probes that are to observe cancellation are those whose names say so |
| AudioValidity.ValidRecordExactly | evaluation/audio_device/evidence.cpp:565-597 | a record is valid exactly when its state is that of its reason, its counters are within the limits, cancellation is observed where it is probed and nowhere else, and cleanup is complete unless that failed |
| AudioValidity.RecordRefusal | evaluation/audio_device/evidence.cpp:347-390 | a row is refused for an unknown field, then for a missing one, then for its values |
| AudioReports.ParseProbes | evaluation/audio_device/evidence.cpp:399-412 | the loop gives all rows or the first error |
| AudioReports.RowsExact | evaluation/audio_device/evidence.cpp:392-412 | rows decode exactly from the encodings of valid rows |
| AudioReports.ContractExact | evaluation/audio_device/evidence.cpp:646-680 | the decoder accepts exactly the encodings of valid contract reports |
| AudioReports.CandidateExact | evaluation/audio_device/evidence.cpp:414-465 | the same for candidates inside a report |
| AudioReports.CandidateDocumentExact | evaluation/audio_device/evidence.cpp:682-725 | the same for candidate reports of their own |
| AudioReports.ReportExact | evaluation/audio_device/evidence.cpp:727-785 | the decoder accepts exactly the encodings of valid reports |
| AudioValidity.ReportsDecodedExactly | evaluation/audio_device/evidence.cpp:599-785 | what the three decoders accept, with validity written out |
| AudioValidity.ContractStretch | evaluation/audio_device/evidence.cpp:137-162 | the contract asks for the first eighteen probes, in order |
| AudioValidity.ContractSteps | evaluation/audio_device/evidence.cpp:137-162 | each once, or for playback and then for capture |
| AudioValidity.ObservedCandidateIsValid | evaluation/audio_device/evidence.cpp:604-622 | a candidate of which everything was observed has a valid report, which is read back |
| AudioValidity.ObservedContractIsValid | evaluation/audio_device/evidence.cpp:599-602 | so does a contract |
| AudioValidity.ContractRefusal | evaluation/audio_device/evidence.cpp:658-680 | a document is refused for its shape, then for its schema, and then for what it says |
| AudioValidity.SucceededExactly | evaluation/audio_device/evidence.cpp:787-812 | a run has succeeded exactly when the whole contract was observed and each candidate used its backend, touched no device and failed in no probe |
| AudioSizes.RecordLength | evaluation/audio_device/evidence.cpp:335-345 | a valid record's compact text is bounded |
| AudioSizes.ContractRoundTrip | evaluation/audio_device/evidence.cpp:467-490 | a valid contract report fits 16 KiB with its newline and is read back |
| AudioSizes.CandidateRoundTrip | evaluation/audio_device/evidence.cpp:682-693 | so does a valid candidate report |
| AudioSizes.ReportRoundTrip | evaluation/audio_device/evidence.cpp:727-743 | a valid report fits 64 KiB with its newline and is read back |
| IsolationEvidence.ValidateRows | evaluation/process_isolation/evidence_v2.cpp:386-407 | accepted exactly when the rows are the required probes in order, each with a reason that fits its state |
| IsolationEvidence.RequiredExactly | evaluation/process_isolation/evidence_v2.cpp:337-339 | a schema requires exactly the probes of its table |
| Provenance.ProvenanceExactly | evaluation/process_isolation/evidence_v2.cpp:234-251 | which source revisions and platform names are valid, by their characters |
| IsolationEvidence.ValidRowExactly | evaluation/process_isolation/evidence_v2.cpp:253-283 | a row is valid exactly when enforcement gives no reason, a failed probe one of the failures and an unavailable one another, of those its schema has |
| EvidenceRunner.Drain | evaluation/process_isolation/runner_v2.cpp:453-473 | all that can be read is kept if it fits, otherwise the whole reads that fit; and how the reads end |
| EvidenceRunner.CollectOutput | evaluation/process_isolation/runner_v2.cpp:442-499 | output and flags are those of the turns up to the first that ends the loop: limit exceeded, a failed read, finished, stopped or late |
| EvidenceRunner.FittingFits | evaluation/process_isolation/runner_v2.cpp:455-466 | what is kept is a prefix of what there is to read, all of it exactly when it is within the limit |
| EvidenceRunner.CleanExactly | evaluation/process_isolation/runner_v2.cpp:442-499 | the loop finds nothing wrong exactly when the child is reaped and closes its output in time and within the limit; the output is then all it wrote |
| EvidenceRunner.ExceededExactly | evaluation/process_isolation/runner_v2.cpp:455-466 | too much is reported exactly when more was written than the limit, and otherwise everything written is kept |
| EvidenceRunner.NamesGravest | evaluation/process_isolation/runner_v2.cpp:505-531 | a record names the gravest of all troubles that apply, and is the child's own when none does |
| EvidenceRunner.WorseIsGraver | evaluation/process_isolation/runner_v2.cpp:506-531 | when more goes wrong with a child its record names nothing less grave, except exactly when processes it left behind no longer count because it was interrupted |
| EvidenceRunner.LessGrave | evaluation/process_isolation/runner_v2.cpp:506-520 | such a child: one process left behind, and the same child cancelled |
| EvidenceRunner.ProbedExactly | evaluation/process_isolation/runner_v2.cpp:442-531 | a record that is no error is answered exactly when the child finishes, nothing is wrong with its end, and all it wrote decodes to that record |
| EvidenceRunner.TooMuchIsSaid | evaluation/process_isolation/runner_v2.cpp:505-520 | a child that writes too much gets an error at least as grave as the output limit |
| EvidenceRunner.LaunchProbe | evaluation/process_isolation/runner_v2.cpp:442-531 | the record of the turns: valid and for its probe, no error exactly when the child speaks, and then its own |
| EvidenceRunner.AttemptedExactly | evaluation/process_isolation/runner_v2.cpp:627-655 | the row of every attempt is valid and of its probe; it is no error exactly when the probe is withheld for want of a control group or its child says so |
| EvidenceRunner.AttemptedFor | evaluation/process_isolation/runner_v2.cpp:65-79 | why a row is what it is: something left behind, cancellation, the reason of the control groups, or the setting up |
| EvidenceRunner.NeedsExactly | evaluation/process_isolation/runner_v2.cpp:88-121 | which probes need a control group |
| EvidenceRunner.MarkCleanupFailure | evaluation/process_isolation/runner_v2.cpp:534-539 | every row becomes a cleanup failure of its own probe |
| EvidenceRunner.RunEvaluation | evaluation/process_isolation/runner_v2.cpp:544-678 | exactly when there is a report and otherwise which error; the report is valid and in order, its rows are those of the attempts or all cleanup failures, and none claims more than its child said; a temporary root left behind is said except exactly when reserving the rows failed |
| EvidenceRunner.RootUnsaid | evaluation/process_isolation/runner_v2.cpp:588-597 | such a run |
| EvidenceMapping.NeverComplete | evaluation/process_isolation/evidence_mapping.cpp:357-373 | no level is complete, whatever the documents |
| EvidenceMapping.UsableExactly | evaluation/process_isolation/evidence_mapping.cpp:297-353 | the reports are used exactly when all three are valid, of one source and host and of the expected one; and which refusal is given otherwise |
| EvidenceMapping.RefusedExactly | evaluation/process_isolation/evidence_mapping.cpp:297-353 | which refusal it is, down to the document and the remark |
| EvidenceMapping.SearchLevels | evaluation/process_isolation/evidence_mapping.cpp:216-244 | the nested searches of a level are one search through its cumulative list |
| EvidenceMapping.NamesFirstCleanupFailure | evaluation/process_isolation/evidence_mapping.cpp:199-289 | a level names a cleanup failure exactly when its list has one, and then the first |
| EvidenceMapping.OtherwiseLowDecides | evaluation/process_isolation/evidence_mapping.cpp:246-289 | otherwise it says what the lowest level says: its first probe that has no row showing enforcement, with its reason, or the unproven conjunct |
| EvidenceMapping.RowExists | evaluation/process_isolation/evidence_mapping.cpp:184-196 | in valid reports no required probe is missing |
| EvidenceMapping.SourceCovers | evaluation/process_isolation/evidence_mapping.cpp:18-74 | every probe the levels require is one its schema requires |
| EvidenceMapping.SourceExactly | evaluation/process_isolation/evidence_mapping.cpp:18-74 | each probe of the second and the third schema is required by exactly one level |
| EvidenceMapping.CleanupFailureIsReported | evaluation/process_isolation/evidence_mapping.cpp:216-373 | a schema 2 report of cleanup failures is reported as one at every level once the reports are usable |
| SeccompFilters.AcceptedReturns | evaluation/process_isolation/low_capability_v3.cpp:471-495 | every accepted forward-jump program returns a value it names, for all data |
| SeccompFilters.FiltersAccepted | evaluation/process_isolation/low_capability_v3.cpp:471-493 | the installed programs are accepted ones |
| SeccompFilters.NamespaceVerdict | evaluation/process_isolation/low_capability_v3.cpp:456-494 | for all data the filter kills, refuses and allows exactly as its specification by call and flag says |
| SeccompFilters.FlagsMatter | evaluation/process_isolation/low_capability_v3.cpp:464-491 | the mask test is whether some namespace flag is set |
| SeccompFilters.InterfaceBit | evaluation/process_isolation/low_capability_v3.cpp:57-61 | the interface test is bit 30 on x86-64 and never refuses on AArch64 |
| SeccompFilters.FamilyVerdict | evaluation/process_isolation/probes_v2.cpp:1338-1374 | a family filter refuses exactly sockets of its two families |
| SeccompFilters.EachFamily | evaluation/process_isolation/probes_v2.cpp:1338-1374 | which families each of the two filters refuses |
| SeccompFilters.StackedFamilies | evaluation/process_isolation/probes_v2.cpp:1731-1739 | both filters together refuse exactly the union of their families |
| CapabilitySets.BoundingFingerprint | evaluation/process_isolation/low_capability_v3.cpp:209-220 | a bit is set exactly for a present capability up to the last, unless one is unreadable |
| CapabilitySets.ArgumentRoundTrip | evaluation/process_isolation/low_capability_v3.cpp:166-186 | every 64-bit word fits the argument and is parsed back |
| CapabilitySets.ParsedExactly | evaluation/process_isolation/low_capability_v3.cpp:166-174 | what is parsed: one or more hexadecimal digits of either case and nothing else, for a number that fits 64 bits |
| CapabilitySets.SubsetTest | evaluation/process_isolation/low_capability_v3.cpp:412-413 | the bit test is set inclusion |
| CapabilitySets.BoundingSubset | evaluation/process_isolation/low_capability_v3.cpp:397-431 | from reading to verdict the child finds its set included exactly when it is |

## Left out

- Weak memory: acquire and release orderings are taken as sequentially consistent.
- Clocks, poll timeouts and error message texts: only that a deadline has passed, and error codes.
- Statistics attached to capture errors, which are read without promising anything about them.
- Exceptions such as failed allocations, except in the capture controller, where one may occur at any step, also where the source raises none, and in the probe runner, where one may end the run at any of six places.
- An exception's stores to the gate, by the guard and by the handler, are one step; so are the two stores of `quarantine`.
- ContractCallback.Callback.Process: the numbers of callbacks, frames and overruns do not wrap around, because the limits on buffers keep them far below 64 bits.
- ScriptedDevice.Controller.Capture: cancellation is requested at one of the points the scripted device offers, and the device is fresh; reuse of a device after a failed operation is not modelled.
- ScriptedDevice.Controller.Play: the same.
- CgroupBootstrap.CgroupBootstrap.Start: exceptions while parsing control files are not modelled, and no other process changes the hierarchy during a call.
- CgroupCleanup.CleanupTree: each kernel call on each path fails or not, the same every time it is made.
- The kernel's constraint on internal processes is modelled for the delegated root only, where the source relies on it.
- TaskCgroup set-up and cleanup other than its naming; pidfd handling; opening and pinning the delegated root.
- `cleanup_descendants` and `direct_descendants` of the runner: their results are inputs of `Launched`.
- The text of JSON and its lexical errors: the model begins at parse events and decoded trees. Evidence of the process isolation schemas is modelled from the decoded report on; its encoders have the shape of the audio ones.
- Among the errors of a rejected audio device document, only the order of shape, schema and contents is proved.
- Opening the agent transport, and its non-blocking descriptors.
- Installing seccomp programs, Landlock, namespaces and the other system calls of the probes.
- The drawing tool state of `evaluation/drawforge/tool.py`, the dialogs, the provider calls and artifact storage, the remaining probes and the command line programs: plumbing, or easier state machines of the kinds above.
