/** Running the probes: `evaluation/process_isolation/runner_v2.cpp`. A probe is a child process that
    writes one record; whatever the child, the kernel and the clock do, the runner is to end with a
    report that is complete, in order and valid.

    One turn of the output loop, the end of a child, and the run of one probe are given as values. */
module EvidenceRunner {
  import opened Provenance
  import opened Wrappers
  import opened IsolationEvidence
  import Bootstrap = CgroupBootstrap

  // ---------------------------------------------------------------------------------------------
  // The output of a child
  // ---------------------------------------------------------------------------------------------

  const READ_SIZE: nat := 1024

  datatype ReadResult = Bytes(data: string) | Eof | TryAgain | ReadError
  datatype WaitResult = Running | Reaped | WaitError

  /** One turn of the loop: the reads until one returns no bytes, the wait, and then the stop token and
      the clock. */
  datatype Turn = Turn(reading: seq<ReadResult>, wait: WaitResult, stop: bool, late: bool)

  datatype Collected = Collected(output: string, exceeded: bool, readFailed: bool, timedOut: bool, cancelled: bool,
                                 pipeClosed: bool, reaped: bool, waitFailed: bool)

  function Bounded(data: string): string { if |data| <= READ_SIZE then data else data[..READ_SIZE] }

  /** All a turn has to read: the data up to the first read that returns none. */
  function Pulled(reading: seq<ReadResult>): string {
    if reading == [] || !reading[0].Bytes? then "" else Bounded(reading[0].data) + Pulled(reading[1..])
  }

  /** The read that returns none. */
  function Ending(reading: seq<ReadResult>): ReadResult {
    if reading == [] then TryAgain else if reading[0].Bytes? then Ending(reading[1..]) else reading[0]
  }

  /** The first of these data, as many whole reads as there is room for. */
  function Fitting(reading: seq<ReadResult>, room: nat): string {
    if reading == [] || !reading[0].Bytes? || |Bounded(reading[0].data)| > room then ""
    else Bounded(reading[0].data) + Fitting(reading[1..], room - |Bounded(reading[0].data)|)
  }

  lemma {:induction false} FittingFits(reading: seq<ReadResult>, room: nat)
    ensures Fitting(reading, room) <= Pulled(reading) && |Fitting(reading, room)| <= room
    ensures Fitting(reading, room) == Pulled(reading) <==> |Pulled(reading)| <= room
  {
    if reading != [] && reading[0].Bytes? && |Bounded(reading[0].data)| <= room {
      FittingFits(reading[1..], room - |Bounded(reading[0].data)|);
    }
  }

  /** Everything is kept if it is within the limit, and how the reads end counts only then. */
  function Drained(c: Collected, reading: seq<ReadResult>, maximum: nat): Collected
    requires |c.output| <= maximum
  {
    var all := c.output + Pulled(reading);
    if |all| > maximum then c.(output := c.output + Fitting(reading, maximum - |c.output|), exceeded := true)
    else c.(output := all, pipeClosed := c.pipeClosed || Ending(reading) == Eof,
            readFailed := c.readFailed || Ending(reading) == ReadError)
  }

  lemma Associative(a: string, b: string, c: string)
    ensures (a + b) + c == a + (b + c)
  {
  }

  lemma DrainedStep(c: Collected, reading: seq<ReadResult>, maximum: nat)
    requires |c.output| <= maximum && reading != [] && reading[0].Bytes?
    requires |c.output + Bounded(reading[0].data)| <= maximum
    ensures Drained(c, reading, maximum) == Drained(c.(output := c.output + Bounded(reading[0].data)), reading[1..], maximum)
  {
    var amount, rest := Bounded(reading[0].data), reading[1..];
    Associative(c.output, amount, Pulled(rest));
    Associative(c.output, amount, Fitting(rest, maximum - |c.output| - |amount|));
  }

  /** The reads are over, or the next does not fit. */
  lemma DrainedLast(c: Collected, reading: seq<ReadResult>, maximum: nat)
    requires |c.output| <= maximum
    ensures reading == [] ==> Drained(c, reading, maximum) == c
    ensures reading != [] ==> match reading[0]
            case Bytes(data) => |Bounded(data)| > maximum - |c.output| ==> Drained(c, reading, maximum) == c.(exceeded := true)
            case Eof => Drained(c, reading, maximum) == c.(pipeClosed := true)
            case TryAgain => Drained(c, reading, maximum) == c
            case ReadError => Drained(c, reading, maximum) == c.(readFailed := true)
  {
    assert c.output + "" == c.output;
  }

  /** Reading until there is nothing more to read for now. */
  method Drain(before: Collected, reading: seq<ReadResult>, maximum: nat) returns (c: Collected)
    requires |before.output| <= maximum
    ensures c == Drained(before, reading, maximum)
  {
    c := before;
    ghost var goal := Drained(before, reading, maximum);
    assert reading[0..] == reading;
    for i := 0 to |reading|
      invariant |c.output| <= maximum && goal == Drained(c, reading[i..], maximum)
    {
      assert reading[i..][1..] == reading[i + 1..];
      DrainedLast(c, reading[i..], maximum);
      match reading[i]
      case Bytes(data) =>
        var amount := Bounded(data);
        if |amount| > maximum - |c.output| {
          c := c.(exceeded := true);
          return;
        }
        DrainedStep(c, reading[i..], maximum);
        c := c.(output := c.output + amount);
      case Eof =>
        c := c.(pipeClosed := true);
        return;
      case TryAgain => return;
      case ReadError =>
        c := c.(readFailed := true);
        return;
    }
    DrainedLast(c, [], maximum);
  }

  // ---------------------------------------------------------------------------------------------
  // What a list of turns amounts to
  // ---------------------------------------------------------------------------------------------

  /** Everything the turns have to read. */
  function Written(turns: seq<Turn>): string {
    if turns == [] then "" else Written(turns[..|turns| - 1]) + Pulled(turns[|turns| - 1].reading)
  }

  /** The first answer of `waitpid` that ends the waiting. */
  function Waited(turns: seq<Turn>): WaitResult {
    if turns == [] then Running
    else if Waited(turns[..|turns| - 1]) != Running then Waited(turns[..|turns| - 1])
    else turns[|turns| - 1].wait
  }

  /** The end of the pipe has been read. */
  predicate Closes(turns: seq<Turn>) {
    turns != [] && (Closes(turns[..|turns| - 1]) || Ending(turns[|turns| - 1].reading) == Eof)
  }

  /** The last of the turns is one that ends the loop. */
  predicate Ends(turns: seq<Turn>, maximum: nat) {
    turns != [] && var last := turns[|turns| - 1];
    || |Written(turns)| > maximum || Ending(last.reading) == ReadError || (Waited(turns) != Running && Closes(turns))
    || last.stop || last.late
  }

  /** The first turn from number `k` on that ends the loop; all of them if none does. */
  function Used(turns: seq<Turn>, maximum: nat, k: nat): (n: nat)
    requires k <= |turns|
    ensures k <= n <= |turns| && (n < |turns| ==> Ends(turns[..n], maximum))
    ensures forall i | k <= i < n :: !Ends(turns[..i], maximum)
    decreases |turns| - k
  {
    if k == |turns| || Ends(turns[..k], maximum) then k else Used(turns, maximum, k + 1)
  }

  /** After turns of which none ends the loop. */
  function Going(turns: seq<Turn>): Collected {
    Collected(Written(turns), false, false, false, false, Closes(turns), Waited(turns) != Running, Waited(turns) == WaitError)
  }

  /** After turns of which the last does. */
  function Ended(turns: seq<Turn>, maximum: nat): Collected
    requires turns != [] && |Written(turns[..|turns| - 1])| <= maximum
  {
    var last, before, c := turns[|turns| - 1], turns[..|turns| - 1], Going(turns);
    if |Written(turns)| > maximum then
      c.(output := Written(before) + Fitting(last.reading, maximum - |Written(before)|), exceeded := true, pipeClosed := Closes(before))
    else if Ending(last.reading) == ReadError then c.(readFailed := true)
    else if c.reaped && c.pipeClosed then c
    else if last.stop then c.(cancelled := true)
    else c.(timedOut := true)
  }

  /** What the loop has found when it is over. The deadline passes when the turns are. */
  function Outcome(turns: seq<Turn>, maximum: nat): Collected {
    var seen := turns[..Used(turns, maximum, 0)];
    if !Ends(seen, maximum) then Going(seen).(timedOut := true) else EarlierWithin(turns, maximum); Ended(seen, maximum)
  }

  lemma EarlierWithin(turns: seq<Turn>, maximum: nat)
    ensures var n := Used(turns, maximum, 0); n > 0 ==> |Written(turns[..n][..n - 1])| <= maximum
  {
    var n := Used(turns, maximum, 0);
    if n > 0 {
      assert turns[..n][..n - 1] == turns[..n - 1];
      assert !Ends(turns[..n - 1], maximum);
    }
  }

  function AfterWait(c: Collected, wait: WaitResult): Collected {
    if !c.reaped && wait != Running then c.(reaped := true, waitFailed := wait == WaitError) else c
  }

  /** The reads and the wait of turn number `i`. */
  function InTurn(turns: seq<Turn>, maximum: nat, i: nat): Collected
    requires i < |turns| && |Written(turns[..i])| <= maximum
  {
    AfterWait(Drained(Going(turns[..i]), turns[i].reading, maximum), turns[i].wait)
  }

  /** One more turn: it ends the loop with the outcome, or the loop goes on. */
  lemma TurnStep(turns: seq<Turn>, maximum: nat, i: nat)
    requires i < |turns| && forall k | 0 <= k <= i :: !Ends(turns[..k], maximum)
    ensures |Written(turns[..i])| <= maximum
    ensures var c := InTurn(turns, maximum, i);
            if c.exceeded || c.readFailed || (c.reaped && c.pipeClosed) then Outcome(turns, maximum) == c
            else if turns[i].stop then Outcome(turns, maximum) == c.(cancelled := true)
            else if turns[i].late then Outcome(turns, maximum) == c.(timedOut := true)
            else c == Going(turns[..i + 1]) && !Ends(turns[..i + 1], maximum)
  {
    var seen := turns[..i + 1];
    assert seen[..i] == turns[..i] && seen[i] == turns[i];
    if Ends(seen, maximum) {
      assert Used(turns, maximum, 0) == i + 1;
      TurnEnds(seen, maximum);
      assert InTurn(seen, maximum, i) == InTurn(turns, maximum, i);
    }
  }

  /** What the last of the turns leaves is what the loop ends with. */
  lemma TurnEnds(turns: seq<Turn>, maximum: nat)
    requires turns != [] && |Written(turns[..|turns| - 1])| <= maximum && Ends(turns, maximum)
    ensures var c, last := InTurn(turns, maximum, |turns| - 1), turns[|turns| - 1];
            Ended(turns, maximum) == if c.exceeded || c.readFailed || (c.reaped && c.pipeClosed) then c
                                     else if last.stop then c.(cancelled := true) else c.(timedOut := true)
  {
  }

  /** The output loop of `launch_probe`. */
  method CollectOutput(turns: seq<Turn>, maximum: nat) returns (c: Collected)
    ensures c == Outcome(turns, maximum)
  {
    c := Collected("", false, false, false, false, false, false, false);
    var i := 0;
    while !c.reaped || !c.pipeClosed
      invariant i <= |turns| && c == Going(turns[..i])
      invariant forall k | 0 <= k <= i :: !Ends(turns[..k], maximum)
      decreases |turns| - i
    {
      if i == |turns| {
        c := c.(timedOut := true);
        return;
      }
      var turn := turns[i];
      TurnStep(turns, maximum, i);
      i := i + 1;
      c := Drain(c, turn.reading, maximum);
      if !c.reaped && turn.wait != Running {
        c := c.(reaped := true, waitFailed := turn.wait == WaitError);
      }
      if c.exceeded || c.readFailed {
        return;
      }
      if c.reaped && c.pipeClosed {
        return;
      }
      if turn.stop {
        c := c.(cancelled := true);
        return;
      }
      if turn.late {
        c := c.(timedOut := true);
        return;
      }
    }
  }

  /** After `n` turns the child has been reaped and has closed the pipe, for the first time; nothing was
      wrong until then, and it has written no more than the limit. */
  predicate Finishes(turns: seq<Turn>, maximum: nat, n: nat) {
    && 0 < n <= |turns| && |Written(turns[..n])| <= maximum && Waited(turns[..n]) == Reaped && Closes(turns[..n])
    && !(Waited(turns[..n - 1]) == Reaped && Closes(turns[..n - 1]))
    && (forall i | 0 <= i < n :: Ending(turns[i].reading) != ReadError)
    && forall i | 0 <= i < n - 1 :: !turns[i].stop && !turns[i].late
  }

  predicate Clean(c: Collected) { !c.cancelled && !c.timedOut && !c.exceeded && !c.readFailed && !c.waitFailed }

  lemma {:induction false} WrittenGrows(turns: seq<Turn>, m: nat, n: nat)
    requires m <= n <= |turns|
    ensures Written(turns[..m]) <= Written(turns[..n])
    ensures Waited(turns[..m]) != Running ==> Waited(turns[..n]) == Waited(turns[..m])
    ensures Closes(turns[..m]) ==> Closes(turns[..n])
    decreases n
  {
    if m < n {
      assert turns[..n][..n - 1] == turns[..n - 1];
      WrittenGrows(turns, m, n - 1);
    }
  }

  /** A child that finishes does so after exactly the turns that the loop makes. */
  lemma FinishesIs(turns: seq<Turn>, maximum: nat, n: nat)
    requires Finishes(turns, maximum, n)
    ensures Used(turns, maximum, 0) == n && Outcome(turns, maximum) == Going(turns[..n])
  {
    forall k | 0 <= k < n ensures !Ends(turns[..k], maximum) {
      WrittenGrows(turns, k, n);
      WrittenGrows(turns, k, n - 1);
      if k > 0 { assert turns[..k][k - 1] == turns[k - 1]; }
    }
    assert Ends(turns[..n], maximum);
    assert turns[..n][n - 1] == turns[n - 1];
  }

  /** The loop finds nothing wrong exactly when the child finishes, and then its output is everything
      the child has written. */
  lemma CleanExactly(turns: seq<Turn>, maximum: nat)
    ensures Clean(Outcome(turns, maximum)) <==> exists n: nat :: Finishes(turns, maximum, n)
    ensures forall n: nat | Finishes(turns, maximum, n) :: Outcome(turns, maximum) == Going(turns[..n])
  {
    forall n: nat | Finishes(turns, maximum, n) ensures Outcome(turns, maximum) == Going(turns[..n]) && Clean(Going(turns[..n])) {
      FinishesIs(turns, maximum, n);
    }
    if Clean(Outcome(turns, maximum)) {
      var n := Used(turns, maximum, 0);
      forall i | 0 <= i < n ensures Ending(turns[i].reading) != ReadError && (i < n - 1 ==> !turns[i].stop && !turns[i].late) {
        if i < n - 1 {
          assert !Ends(turns[..i + 1], maximum) && turns[..i + 1][i] == turns[i];
        }
      }
      assert !Ends(turns[..n - 1], maximum);
      assert turns[..n][..n - 1] == turns[..n - 1];
      assert Finishes(turns, maximum, n);
    }
  }

  /** It finds that the child wrote too much exactly when it did, in the turns made. */
  lemma ExceededExactly(turns: seq<Turn>, maximum: nat)
    ensures Keeps(Outcome(turns, maximum), Written(turns[..Used(turns, maximum, 0)]), maximum)
  {
    var n := Used(turns, maximum, 0);
    if Ends(turns[..n], maximum) {
      EarlierWithin(turns, maximum);
      EndedKeeps(turns[..n], maximum);
    }
  }

  /** All that was written is kept if it is within the limit, and otherwise a part of it. */
  predicate Keeps(c: Collected, written: string, maximum: nat) {
    && (c.exceeded <==> |written| > maximum) && c.output <= written && |c.output| <= maximum
    && (!c.exceeded ==> c.output == written)
  }

  lemma EndedKeeps(turns: seq<Turn>, maximum: nat)
    requires turns != [] && |Written(turns[..|turns| - 1])| <= maximum
    ensures Keeps(Ended(turns, maximum), Written(turns), maximum)
  {
    FittingFits(turns[|turns| - 1].reading, maximum - |Written(turns[..|turns| - 1])|);
  }

  // ---------------------------------------------------------------------------------------------
  // The record of a probe
  // ---------------------------------------------------------------------------------------------

  datatype Exit = KilledBySignal | Exited(code: int) | Otherwise

  /** What the output holds: nothing that decodes, or a record, of which only a valid one is taken. */
  datatype Spoken = Garbage | Said(row: Row)

  /** How a child and what it left behind ended. */
  datatype End = End(finalWaitFailed: bool, complete: bool, pidfdVerified: bool, observed: nat, cgroupCleaned: bool,
                     pidfdOpen: bool, exit: Exit, spoken: Spoken)

  function Closed(probe: Probe, reason: Reason): Row { Row(probe, ProbeError, reason) }

  function Parsed(spoken: Spoken): Option<Row> {
    if spoken.Said? && ValidRow(V2, spoken.row) then Some(spoken.row) else None
  }

  /** The end of `launch_probe`. */
  function Launched(probe: Probe, c: Collected, e: End): Row {
    var waitFailed := c.waitFailed || (!c.reaped && e.finalWaitFailed);
    if c.cancelled || c.timedOut then
      if e.complete && e.pidfdVerified && e.cgroupCleaned && !waitFailed && e.pidfdOpen
      then Closed(probe, if c.cancelled then Cancelled else Timeout)
      else Closed(probe, CleanupFailed)
    else if !e.complete || !e.pidfdVerified || !e.cgroupCleaned || e.observed != 0 then Closed(probe, CleanupFailed)
    else if waitFailed || !e.pidfdOpen then Closed(probe, PidReuse)
    else if c.exceeded then Closed(probe, OutputLimit)
    else if c.readFailed then Closed(probe, InternalError)
    else if e.exit == KilledBySignal then Closed(probe, Signaled)
    else if e.exit != Exited(0) then Closed(probe, NonzeroExit)
    else
      var parsed := Parsed(e.spoken);
      if parsed.None? || parsed.value.probe != probe then Closed(probe, MalformedProtocol) else parsed.value
  }

  /** Nothing went wrong with the end of the child. */
  predicate Calm(e: End) {
    e.complete && e.pidfdVerified && e.observed == 0 && e.cgroupCleaned && e.pidfdOpen && e.exit == Exited(0)
  }

  /** Nothing went wrong around the child. */
  predicate Undisturbed(c: Collected, e: End) { Clean(c) && (c.reaped || !e.finalWaitFailed) && Calm(e) }

  /** The output is a valid record of the probe. */
  predicate Tells(probe: Probe, spoken: Spoken) { Parsed(spoken).Some? && Parsed(spoken).value.probe == probe }

  /** For every child: the record is a valid one for this probe; it says anything other than an error
      exactly when nothing went wrong and that is what the child's own valid record says; and a
      failure to clean up is never hidden. */
  lemma LaunchedExact(probe: Probe, c: Collected, e: End)
    requires SchemaOf(probe) == V2
    ensures var row := Launched(probe, c, e);
            && row.probe == probe && ValidRow(V2, row)
            && (row.state != ProbeError <==>
                  && Undisturbed(c, e) && e.spoken.Said? && ValidRow(V2, e.spoken.row)
                  && e.spoken.row.probe == probe && e.spoken.row.state != ProbeError)
            && (row.state != ProbeError ==> row == e.spoken.row)
            && (!e.complete || !e.pidfdVerified || !e.cgroupCleaned ==> row.reason == CleanupFailed)
  {
  }

  /** What may be wrong with a child, each on its own. */
  predicate Applies(probe: Probe, c: Collected, e: End, trouble: Reason) {
    var interrupted := c.cancelled || c.timedOut;
    var unidentified := c.waitFailed || (!c.reaped && e.finalWaitFailed) || !e.pidfdOpen;
    match trouble
    case CleanupFailed =>
      !e.complete || !e.pidfdVerified || !e.cgroupCleaned || (if interrupted then unidentified else e.observed != 0)
    case Cancelled => c.cancelled
    case Timeout => c.timedOut
    case PidReuse => unidentified
    case OutputLimit => c.exceeded
    case InternalError => c.readFailed
    case Signaled => e.exit == KilledBySignal
    case NonzeroExit => e.exit != KilledBySignal && e.exit != Exited(0)
    case MalformedProtocol => !Tells(probe, e.spoken)
    case _ => false
  }

  /** How much a trouble says about everything else: what may have been left behind comes first, what
      only concerns the output last. */
  function Gravity(trouble: Reason): nat {
    match trouble
    case CleanupFailed => 0 case Cancelled => 1 case Timeout => 2 case PidReuse => 3 case OutputLimit => 4
    case InternalError => 5 case Signaled => 6 case NonzeroExit => 7 case _ => 8
  }

  /** A record names the gravest trouble there is, and is the child's own when there is none. */
  lemma NamesGravest(probe: Probe, c: Collected, e: End)
    ensures var row := Launched(probe, c, e);
            || (e.spoken == Said(row) && forall trouble :: !Applies(probe, c, e, trouble))
            || (&& row == Closed(probe, row.reason) && Applies(probe, c, e, row.reason)
                && forall other | Applies(probe, c, e, other) && other != row.reason :: Gravity(row.reason) < Gravity(other))
  {
  }

  /** Whatever may go wrong around a child also goes wrong around the other one. */
  predicate Worse(probe: Probe, c: Collected, e: End, c': Collected, e': End) {
    && (c.cancelled ==> c'.cancelled) && (c.timedOut ==> c'.timedOut) && (c.exceeded ==> c'.exceeded)
    && (c.readFailed ==> c'.readFailed) && (c.waitFailed ==> c'.waitFailed) && (c'.reaped ==> c.reaped)
    && (e.finalWaitFailed ==> e'.finalWaitFailed) && (e'.complete ==> e.complete) && (e'.pidfdVerified ==> e.pidfdVerified)
    && e.observed <= e'.observed && (e'.cgroupCleaned ==> e.cgroupCleaned) && (e'.pidfdOpen ==> e.pidfdOpen)
    && (e.exit == KilledBySignal ==> e'.exit == KilledBySignal) && (e'.exit == Exited(0) ==> e.exit == Exited(0))
    && (Tells(probe, e'.spoken) ==> Tells(probe, e.spoken))
  }

  /** Processes were left behind by a child that was not interrupted. Where one is, they do not count as
      long as they could be removed. */
  predicate Excused(c: Collected, e: End, c': Collected, e': End) {
    && !c.cancelled && !c.timedOut && e.observed != 0
    && (c'.cancelled || c'.timedOut) && e'.complete && e'.pidfdVerified && e'.cgroupCleaned
    && !c'.waitFailed && (c'.reaped || !e'.finalWaitFailed) && e'.pidfdOpen
  }

  /** When more goes wrong, a record names nothing less grave than before, except exactly there. */
  lemma WorseIsGraver(probe: Probe, c: Collected, e: End, c': Collected, e': End, trouble: Reason)
    requires Worse(probe, c, e, c', e') && Applies(probe, c, e, trouble)
    ensures var before, after := Launched(probe, c, e), Launched(probe, c', e');
            Gravity(after.reason) <= Gravity(before.reason) <==> !Excused(c, e, c', e')
  {
    NamesGravest(probe, c, e);
    NamesGravest(probe, c', e');
  }

  /** A child that leaves a process behind, and the same child cancelled, and killed, before it was reaped. */
  lemma LessGrave(probe: Probe, maximum: nat, e: End)
    requires e.complete && e.pidfdVerified && e.observed == 1 && e.cgroupCleaned && e.pidfdOpen && !e.finalWaitFailed
    ensures var c, c' := Outcome([Turn([Eof], Reaped, false, false)], maximum), Outcome([Turn([Eof], Running, true, false)], maximum);
            var e' := e.(exit := KilledBySignal);
            && Worse(probe, c, e, c', e') && Applies(probe, c, e, CleanupFailed)
            && Launched(probe, c, e) == Closed(probe, CleanupFailed) && Launched(probe, c', e') == Closed(probe, Cancelled)
            && Gravity(CleanupFailed) < Gravity(Cancelled)
  {
    OneTurn(Turn([Eof], Reaped, false, false), maximum);
    OneTurn(Turn([Eof], Running, true, false), maximum);
  }

  /** A turn that reads the end of the pipe and nothing else, and ends the loop. */
  lemma OneTurn(turn: Turn, maximum: nat)
    requires turn.reading == [Eof] && (turn.wait == Reaped || turn.stop)
    ensures Outcome([turn], maximum)
         == Collected("", false, false, false, turn.wait == Running && turn.stop, true, turn.wait != Running, turn.wait == WaitError)
  {
    assert [turn][..0] == [] && [turn][..1] == [turn];
    assert Written([turn]) == "" && Waited([turn]) == turn.wait && Closes([turn]);
    assert Ends([turn], maximum) && Used([turn], maximum, 0) == 1;
  }

  /** What `launch_probe` answers; `decode` is what a text decodes to. */
  function Probed(probe: Probe, turns: seq<Turn>, maximum: nat, e: End, decode: string -> Spoken): Row {
    var c := Outcome(turns, maximum);
    Launched(probe, c, e.(spoken := decode(c.output)))
  }

  /** The child's own record after `n` turns is a valid one for the probe, it says no error, and nothing is
      wrong with the child. */
  predicate Speaks(probe: Probe, turns: seq<Turn>, maximum: nat, n: nat, e: End, row: Row, decode: string -> Spoken) {
    && Finishes(turns, maximum, n) && Calm(e) && decode(Written(turns[..n])) == Said(row)
    && row.probe == probe && row.state != ProbeError && ValidRow(V2, row)
  }

  /** From the turns to the record: it is no error exactly when the child finishes, all it has written is a
      record that says so, and nothing is wrong; and then it is that record. */
  lemma ProbedExactly(probe: Probe, turns: seq<Turn>, maximum: nat, e: End, decode: string -> Spoken, row: Row)
    requires SchemaOf(probe) == V2 && row.state != ProbeError
    ensures Probed(probe, turns, maximum, e, decode) == row <==> exists n: nat :: Speaks(probe, turns, maximum, n, e, row, decode)
  {
    var c := Outcome(turns, maximum);
    CleanExactly(turns, maximum);
    LaunchedExact(probe, c, e.(spoken := decode(c.output)));
    if Probed(probe, turns, maximum, e, decode) == row {
      var n: nat :| Finishes(turns, maximum, n);
      assert Speaks(probe, turns, maximum, n, e, row, decode);
    }
    if n: nat :| Speaks(probe, turns, maximum, n, e, row, decode) {
      assert c == Going(turns[..n]);
    }
  }

  /** For every child: the record is a valid one for this probe, and where it is no error the child says it. */
  lemma ProbedTells(probe: Probe, turns: seq<Turn>, maximum: nat, e: End, decode: string -> Spoken)
    requires SchemaOf(probe) == V2
    ensures var row := Probed(probe, turns, maximum, e, decode);
            && row.probe == probe && ValidRow(V2, row)
            && (row.state != ProbeError <==> exists n: nat, said :: Speaks(probe, turns, maximum, n, e, said, decode))
            && (row.state != ProbeError ==> exists n: nat :: Speaks(probe, turns, maximum, n, e, row, decode))
  {
    var row, c := Probed(probe, turns, maximum, e, decode), Outcome(turns, maximum);
    LaunchedExact(probe, c, e.(spoken := decode(c.output)));
    if row.state != ProbeError { ProbedExactly(probe, turns, maximum, e, decode, row); }
    if n: nat, said :| Speaks(probe, turns, maximum, n, e, said, decode) { ProbedExactly(probe, turns, maximum, e, decode, said); }
  }

  /** A child that writes too much gets an error that says at least this. */
  lemma TooMuchIsSaid(probe: Probe, turns: seq<Turn>, maximum: nat, e: End, decode: string -> Spoken)
    requires |Written(turns[..Used(turns, maximum, 0)])| > maximum
    ensures var row := Probed(probe, turns, maximum, e, decode);
            row.state == ProbeError && Gravity(row.reason) <= Gravity(OutputLimit)
  {
    var c := Outcome(turns, maximum);
    var end := e.(spoken := decode(c.output));
    ExceededExactly(turns, maximum);
    NamesGravest(probe, c, end);
    assert Applies(probe, c, end, OutputLimit);
  }

  /** `launch_probe` from the output loop on. */
  method LaunchProbe(probe: Probe, turns: seq<Turn>, maximum: nat, e: End, decode: string -> Spoken) returns (row: Row)
    requires SchemaOf(probe) == V2
    ensures row == Probed(probe, turns, maximum, e, decode) && row.probe == probe && ValidRow(V2, row)
    ensures row.state != ProbeError <==> exists n: nat, said :: Speaks(probe, turns, maximum, n, e, said, decode)
    ensures row.state != ProbeError ==> exists n: nat :: Speaks(probe, turns, maximum, n, e, row, decode)
  {
    var c := CollectOutput(turns, maximum);
    var end := e.(spoken := decode(c.output));
    row := Launched(probe, c, end);
    ProbedTells(probe, turns, maximum, e, decode);
  }

  // ---------------------------------------------------------------------------------------------
  // The whole run
  // ---------------------------------------------------------------------------------------------

  predicate NeedsCgroup(probe: Probe) {
    match probe
    case CgroupDelegation | CgroupRequiredControllers | CgroupAtomicChildPlacement | CgroupSelfMigrationDenial
       | CgroupWholeTreeEnumeration | CgroupKill | CgroupPopulatedZero | CgroupSetsid | CgroupDoubleFork | CgroupDaemon
       | CgroupCloneForkFanout | CgroupLeaderExit | CgroupCancellationCleanup | CgroupCpuLimit | CgroupMemoryLimit
       | CgroupPidsLimit | CombinedSetupOrder | PrivateRootCombinedSetupOrder | PartialSetupCleanup => true
    case _ => false
  }

  function BootstrapReason(error: Bootstrap.BootstrapError): Reason {
    match error
    case NoError => NoReason
    case MissingDelegation => Reason.MissingDelegation
    case MissingController => Reason.MissingController
    case CleanupFailed => Reason.CleanupFailed
    case InternalError => Reason.InternalError
  }

  /** What happens around one probe. */
  datatype Attempt = Attempt(stopped: bool, prepared: bool, piped: bool, turns: seq<Turn>, end: End, removed: bool)

  function Attempted(probe: Probe, reason: Reason, a: Attempt, maximum: nat, decode: string -> Spoken): Row {
    var row := if a.stopped then Closed(probe, Cancelled)
               else if NeedsCgroup(probe) && reason != NoReason then Row(probe, StateOf(reason), reason)
               else if a.prepared && a.piped then Probed(probe, a.turns, maximum, a.end, decode)
               else Closed(probe, InternalError);
    if a.removed then row else Closed(probe, CleanupFailed)
  }

  /** A probe is not attempted without the control group it needs. */
  predicate Withheld(probe: Probe, reason: Reason, a: Attempt) {
    a.removed && !a.stopped && NeedsCgroup(probe) && StateOf(reason) == Unavailable
  }

  /** The row of an attempt is valid and of its probe; and it is no error exactly when the probe is withheld
      for want of a control group, or its child says so. */
  lemma AttemptedExactly(probe: Probe, error: Bootstrap.BootstrapError, a: Attempt, maximum: nat, decode: string -> Spoken)
    requires SchemaOf(probe) == V2
    ensures var reason := BootstrapReason(error); var row := Attempted(probe, reason, a, maximum, decode);
            && row.probe == probe && ValidRow(V2, row)
            && (row.state != ProbeError <==>
                  || Withheld(probe, reason, a)
                  || (&& Launches(probe, error, a)
                      && exists n: nat, said :: Speaks(probe, a.turns, maximum, n, a.end, said, decode)))
            && (row.state != ProbeError && !Withheld(probe, reason, a) ==>
                  exists n: nat :: Speaks(probe, a.turns, maximum, n, a.end, row, decode))
  {
    if Launches(probe, error, a) { ProbedTells(probe, a.turns, maximum, a.end, decode); }
  }

  predicate Launches(probe: Probe, error: Bootstrap.BootstrapError, a: Attempt) {
    a.removed && !a.stopped && a.prepared && a.piped && (!NeedsCgroup(probe) || error == Bootstrap.NoError)
  }

  /** The probes that need a control group: the first sixteen of the schema and the last three. */
  lemma NeedsExactly(i: nat)
    requires i < |Required(V2)|
    ensures |Required(V2)| == 29 && (NeedsCgroup(Required(V2)[i]) <==> i < 16 || i >= 26)
  {
  }

  /** Why a row is what it is, attempt by attempt: what is left behind comes first, then cancellation, then the control
      groups, then the setting up. */
  lemma AttemptedFor(probe: Probe, error: Bootstrap.BootstrapError, a: Attempt, maximum: nat, decode: string -> Spoken)
    ensures var row := Attempted(probe, BootstrapReason(error), a, maximum, decode);
            var grouped := a.removed && !a.stopped && NeedsCgroup(probe);
            var started := a.removed && !a.stopped && (!NeedsCgroup(probe) || error == Bootstrap.NoError);
            && (!a.removed ==> row == Row(probe, ProbeError, Reason.CleanupFailed))
            && (a.removed && a.stopped ==> row == Row(probe, ProbeError, Cancelled))
            && (grouped && error == Bootstrap.MissingDelegation ==> row == Row(probe, Unavailable, Reason.MissingDelegation))
            && (grouped && error == Bootstrap.MissingController ==> row == Row(probe, Unavailable, Reason.MissingController))
            && (grouped && error == Bootstrap.CleanupFailed ==> row == Row(probe, ProbeError, Reason.CleanupFailed))
            && (grouped && error == Bootstrap.InternalError ==> row == Row(probe, ProbeError, Reason.InternalError))
            && (started && !(a.prepared && a.piped) ==> row == Row(probe, ProbeError, Reason.InternalError))
            && (started && a.prepared && a.piped ==> row == Probed(probe, a.turns, maximum, a.end, decode))
  {
  }

  /** What happens in one run; the reports are those of `attempts`, one for every probe. */
  datatype Scenario = Scenario(raised: Option<Place>, optionsValid: bool, sourceSha: string, kernel: string, architecture: string,
                               parentUsable: bool, rootMade: bool,
                               childless: bool, subreaper: bool, bootstrap: Bootstrap.BootstrapError, attempts: seq<Attempt>,
                               maximum: nat, cgroupCleaned: bool, rootRemoved: bool, subreaperRestored: bool)

  /** Where an exception may be raised: while the options are checked, the report is begun, its rows are
      reserved, other processes are looked for, the control groups are made, or the probes are run. */
  datatype Place = Validating | Describing | Reserving | Scanning | Bootstrapping | Probing

  datatype Failure = InvalidOptions | PlatformMetadata | RootNotRemoved | HasChildren | NoSubreaper
                   | FailedInternally | CleanupIncomplete

  datatype Answer = Reported(report: Report) | Failed(failure: Failure)

  predicate OptionsValid(s: Scenario) { s.optionsValid && ValidSha(s.sourceSha) }

  predicate Runnable(s: Scenario) {
    OptionsValid(s) && ValidMetadata(s.kernel) && ValidMetadata(s.architecture) && s.parentUsable
  }

  predicate Supervised(s: Scenario) { Runnable(s) && s.rootMade && s.childless && s.subreaper }

  /** The run comes to this place. */
  predicate Reaches(s: Scenario, place: Place) {
    match place
    case Validating => true
    case Describing => OptionsValid(s)
    case Reserving => Runnable(s)
    case Scanning => Runnable(s) && s.rootMade
    case Bootstrapping => Supervised(s)
    case Probing => Supervised(s)
  }

  /** The exception is raised. */
  predicate Raised(s: Scenario) { s.raised.Some? && Reaches(s, s.raised.value) }

  predicate CleanedUp(s: Scenario) { s.cgroupCleaned && s.rootRemoved && s.subreaperRestored }

  /** The handler has undone all it knows of. */
  predicate Undone(s: Scenario, place: Place) {
    match place
    case Probing => CleanedUp(s)
    case Bootstrapping => s.rootRemoved && s.subreaperRestored
    case Scanning => s.rootRemoved
    case _ => true
  }

  /** The answer says that something may have been left behind. */
  ghost predicate SaysLeft(a: Answer) {
    match a
    case Reported(report) => AllCleanupFailed(report.rows)
    case Failed(failure) => failure == RootNotRemoved || failure == CleanupIncomplete
  }

  /** A row that is no error is the child's own, or that of a probe withheld. */
  ghost predicate Truthful(s: Scenario, probe: Probe, a: Attempt, row: Row, decode: string -> Spoken) {
    || (Withheld(probe, BootstrapReason(s.bootstrap), a) && row == Row(probe, Unavailable, BootstrapReason(s.bootstrap)))
    || exists n: nat :: Speaks(probe, a.turns, s.maximum, n, a.end, row, decode)
  }

  /** `mark_cleanup_failure`. */
  method MarkCleanupFailure(rows: seq<Row>) returns (marked: seq<Row>)
    ensures |marked| == |rows| && forall i | 0 <= i < |rows| :: marked[i] == Closed(rows[i].probe, CleanupFailed)
  {
    marked := rows;
    for k := 0 to |rows|
      invariant |marked| == |rows|
      invariant forall i | 0 <= i < |rows| :: marked[i] == if i < k then Closed(rows[i].probe, CleanupFailed) else rows[i]
    {
      marked := marked[k := marked[k].(state := ProbeError, reason := CleanupFailed)];
    }
  }

  ghost predicate AllCleanupFailed(rows: seq<Row>) {
    forall i | 0 <= i < |rows| :: rows[i].state == ProbeError && rows[i].reason == CleanupFailed
  }

  /** The rows of a run in which every probe was attempted. */
  method AttemptAll(required: seq<Probe>, s: Scenario, decode: string -> Spoken) returns (rows: seq<Row>)
    requires |s.attempts| == |required| && forall i | 0 <= i < |required| :: SchemaOf(required[i]) == V2
    ensures ValidRows(V2, required, rows)
    ensures forall i | 0 <= i < |rows| :: rows[i] == AttemptRow(required, s, decode, i)
  {
    rows := [];
    var reason := BootstrapReason(s.bootstrap);
    for i := 0 to |required|
      invariant |rows| == i
      invariant forall k | 0 <= k < i :: rows[k].probe == required[k] && ValidRow(V2, rows[k])
      invariant forall k | 0 <= k < i :: rows[k] == AttemptRow(required, s, decode, k)
    {
      var row;
      if s.attempts[i].stopped {
        row := Closed(required[i], Cancelled);
      } else if NeedsCgroup(required[i]) && reason != NoReason {
        row := Row(required[i], StateOf(reason), reason);
      } else if s.attempts[i].prepared && s.attempts[i].piped {
        row := LaunchProbe(required[i], s.attempts[i].turns, s.maximum, s.attempts[i].end, decode);
      } else {
        row := Closed(required[i], InternalError);
      }
      if !s.attempts[i].removed {
        row := Closed(required[i], CleanupFailed);
      }
      AttemptedExactly(required[i], s.bootstrap, s.attempts[i], s.maximum, decode);
      rows := rows + [row];
    }
  }

  function AttemptRow(required: seq<Probe>, s: Scenario, decode: string -> Spoken, i: nat): Row
    requires i < |required| == |s.attempts|
  {
    Attempted(required[i], BootstrapReason(s.bootstrap), s.attempts[i], s.maximum, decode)
  }

  method CloseAll(required: seq<Probe>) returns (rows: seq<Row>)
    requires forall i | 0 <= i < |required| :: SchemaOf(required[i]) == V2
    ensures ValidRows(V2, required, rows)
    ensures forall i | 0 <= i < |rows| :: rows[i] == Closed(required[i], InternalError)
  {
    rows := [];
    for i := 0 to |required|
      invariant |rows| == i
      invariant forall k | 0 <= k < i :: rows[k] == Closed(required[k], InternalError)
    {
      rows := rows + [Closed(required[i], InternalError)];
    }
  }

  /** `run_evaluation`. Any report is valid; a failed last cleanup makes every row a cleanup failure, and
      otherwise each row is that of its own attempt. `rootLeft` is whether the temporary root is still
      there: the answer says so, except exactly when the rows could not be reserved. */
  method RunEvaluation(s: Scenario, decode: string -> Spoken) returns (r: Answer, rootLeft: bool)
    requires |s.attempts| == |Required(V2)|
    ensures r.Reported? <==> !Raised(s) && Runnable(s) && (s.rootMade ==> Supervised(s))
    ensures r.Reported? ==>
              && ValidReport(V2, r.report) && r.report.identity == Identity(s.sourceSha, "linux", s.kernel, s.architecture)
              && (if !s.rootMade then forall i | 0 <= i < |r.report.rows| :: r.report.rows[i].reason == InternalError
                  else if !CleanedUp(s) then AllCleanupFailed(r.report.rows)
                  else forall i | 0 <= i < |r.report.rows| :: r.report.rows[i] == AttemptRow(Required(V2), s, decode, i))
              && forall i | 0 <= i < |r.report.rows| && r.report.rows[i].state != ProbeError ::
                   Truthful(s, Required(V2)[i], s.attempts[i], r.report.rows[i], decode)
    ensures Raised(s) <==> r == Failed(FailedInternally) || r == Failed(CleanupIncomplete)
    ensures Raised(s) ==> (r == Failed(FailedInternally) <==> Undone(s, s.raised.value))
    ensures !Raised(s) && !Runnable(s) ==>
              r == Failed(if OptionsValid(s) && !(ValidMetadata(s.kernel) && ValidMetadata(s.architecture)) then PlatformMetadata
                          else InvalidOptions)
    ensures !Raised(s) && Runnable(s) && s.rootMade && !Supervised(s) ==>
              r == Failed(if !s.rootRemoved then RootNotRemoved else if !s.childless then HasChildren else NoSubreaper)
    ensures rootLeft ==> s.rootMade && Runnable(s) && (s.rootRemoved ==> s.raised == Some(Reserving))
    ensures rootLeft && !SaysLeft(r) <==> s.raised == Some(Reserving) && Runnable(s) && s.rootMade
  {
    rootLeft := false;
    if s.raised == Some(Validating) {
      return Failed(FailedInternally), false;
    }
    if !OptionsValid(s) {
      return Failed(InvalidOptions), false;
    }
    if s.raised == Some(Describing) {
      return Failed(FailedInternally), false;
    }
    if !ValidMetadata(s.kernel) || !ValidMetadata(s.architecture) {
      return Failed(PlatformMetadata), false;
    }
    if !s.parentUsable {
      return Failed(InvalidOptions), false;
    }
    var identity := Identity(s.sourceSha, "linux", s.kernel, s.architecture);
    RequiredBelong();
    if s.raised == Some(Reserving) {
      return Failed(FailedInternally), s.rootMade;
    }
    if !s.rootMade {
      var rows := CloseAll(Required(V2));
      return Reported(Report(identity, rows)), false;
    }
    rootLeft := !s.rootRemoved;
    if s.raised == Some(Scanning) {
      r := Failed(if s.rootRemoved then FailedInternally else CleanupIncomplete);
    } else if !s.childless {
      r := Failed(if s.rootRemoved then HasChildren else RootNotRemoved);
    } else if !s.subreaper {
      r := Failed(if s.rootRemoved then NoSubreaper else RootNotRemoved);
    } else if s.raised == Some(Bootstrapping) {
      r := Failed(if s.rootRemoved && s.subreaperRestored then FailedInternally else CleanupIncomplete);
    } else if s.raised == Some(Probing) {
      r := Failed(if CleanedUp(s) then FailedInternally else CleanupIncomplete);
    } else {
      var rows := AttemptAndClean(Required(V2), s, decode);
      r := Reported(Report(identity, rows));
    }
  }

  /** A run that leaves its temporary root behind and does not say so, by the contract of `RunEvaluation`:
      everything would have gone well, but there is no memory for the rows. */
  lemma RootUnsaid(attempts: seq<Attempt>)
    requires |attempts| == |Required(V2)|
    ensures var s := Scenario(Some(Reserving), true, seq(40, i => '0'), "6", "x", true, true, true, true, Bootstrap.NoError, attempts,
                              1, true, true, true);
            s.raised == Some(Reserving) && Runnable(s) && s.rootMade && CleanedUp(s)
  {
  }

  lemma RowTruthful(required: seq<Probe>, s: Scenario, decode: string -> Spoken, i: nat)
    requires i < |required| == |s.attempts| && SchemaOf(required[i]) == V2
    ensures var row := AttemptRow(required, s, decode, i);
            row.state != ProbeError ==> Truthful(s, required[i], s.attempts[i], row, decode)
  {
    AttemptedExactly(required[i], s.bootstrap, s.attempts[i], s.maximum, decode);
  }

  /** All attempts and then the final cleanup. */
  method AttemptAndClean(required: seq<Probe>, s: Scenario, decode: string -> Spoken) returns (rows: seq<Row>)
    requires |s.attempts| == |required| && forall i | 0 <= i < |required| :: SchemaOf(required[i]) == V2
    ensures ValidRows(V2, required, rows)
    ensures if CleanedUp(s) then forall i | 0 <= i < |rows| :: rows[i] == AttemptRow(required, s, decode, i) else AllCleanupFailed(rows)
    ensures forall i | 0 <= i < |rows| && rows[i].state != ProbeError ::
              Truthful(s, required[i], s.attempts[i], rows[i], decode)
  {
    rows := AttemptAll(required, s, decode);
    forall i | 0 <= i < |rows| && rows[i].state != ProbeError ensures Truthful(s, required[i], s.attempts[i], rows[i], decode) {
      RowTruthful(required, s, decode, i);
    }
    if !s.cgroupCleaned {
      rows := MarkCleanupFailure(rows);
    }
    if !s.rootRemoved || !s.subreaperRestored {
      rows := MarkCleanupFailure(rows);
    }
  }
}
