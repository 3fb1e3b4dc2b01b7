/** The line transport of `src/adapters/agent_transport.cpp`: bounded newline framing over readCalls of any
    size, and records written out in pieces of any size.

    What the kernel and the clock do is given call by call: `PollEvent` for one `poll_line()`,
    a list of `ReadEvent` for the loop of `read_request()`, a list of `WriteEvent` for the loop of
    `write_all()`. The bytes the peer sends before it closes its end are `input`; the bytes that
    have gone out are `output`. */
module AgentTransport {
  import opened LineFraming

  const CHUNK: nat := 4096
  const RECORD_LIMIT: nat := 2 * 1024 * 1024

  datatype Failure = Unavailable | Cancelled | LineTooLong | EndedEarly | ReadFailed | InputTooLong | OutputFailed | BadRecord

  datatype Answer = Line(text: string) | End | Idle | Error(failure: Failure)

  datatype Poll = Ready | Nothing | Invalid

  datatype Read = Chunk(count: nat) | Again | Broken

  datatype PollEvent = PollEvent(stoppedBefore: bool, poll: Poll, stoppedAfter: bool, read: Read)

  /** The reading half of the transport's state; `readCalls` counts the calls of `read`. */
  datatype Reader = Reader(input: string, position: nat, read: bool, lines: bool, ended: bool, failed: bool, buffer: string, readCalls: nat)

  // ---------------------------------------------------------------------------------------------
  // Reading lines
  // ---------------------------------------------------------------------------------------------

  /** Where the first newline is, or the length when there is none. */
  function Find(s: string): (k: nat)
    ensures k <= |s| && Unbroken(s[..k]) && (k < |s| ==> s[k] == '\n')
  {
    if s == "" || s[0] == '\n' then 0 else 1 + Find(s[1..])
  }

  /** `buffered_line`: an answer if the buffer holds one, and the buffer without it. */
  function BufferedLine(buffer: string, ended: bool): (Answer, string) {
    var k := Find(buffer);
    if k < |buffer| then
      if k > LINE_LIMIT then (Error(LineTooLong), buffer) else (Line(buffer[..k]), buffer[k + 1..])
    else if |buffer| > LINE_LIMIT then (Error(LineTooLong), buffer)
    else if ended && buffer != "" then (Error(EndedEarly), buffer)
    else if ended then (End, buffer)
    else (Idle, buffer)
  }

  /** A read returns at most a chunk of what is left, and nothing only at the end. */
  function Available(input: string, position: nat, count: nat): (chunk: string)
    requires position <= |input|
    ensures |chunk| <= CHUNK && position + |chunk| <= |input|
    ensures chunk == input[position..position + |chunk|]
    ensures chunk == "" <==> position == |input|
    ensures input[..position] + chunk == input[..position + |chunk|]
  {
    var left := |input| - position;
    var most := if left < CHUNK then left else CHUNK;
    var n := if count > most then most else if count == 0 && most > 0 then 1 else count;
    input[position..position + n]
  }

  /** Answer from the buffer; a refusal is final. */
  function Served(s: Reader): (Reader, Answer) {
    var (answer, rest) := BufferedLine(s.buffer, s.ended);
    (s.(buffer := rest, failed := s.failed || answer.Error?), answer)
  }

  function Fed(s: Reader, count: nat): Reader
    requires s.position <= |s.input|
  {
    var chunk := Available(s.input, s.position, count);
    s.(position := s.position + |chunk|, ended := chunk == "", buffer := s.buffer + chunk)
  }

  function Received(s: Reader, read: Read): (Reader, Answer)
    requires s.position <= |s.input|
  {
    var s1 := s.(readCalls := s.readCalls + 1);
    match read
    case Again => (s1, Idle)
    case Broken => (s1, Error(ReadFailed))
    case Chunk(count) => Served(Fed(s1, count))
  }

  /** One call of `poll_line()`. */
  function Polled(s: Reader, e: PollEvent): (r: (Reader, Answer))
    requires s.position <= |s.input|
    ensures r.0.input == s.input && s.position <= r.0.position <= |s.input|
  {
    if s.read || s.failed then (s, Error(Unavailable)) else
      var s1 := s.(lines := true);
      if e.stoppedBefore then (s1, Error(Cancelled)) else
        var (s2, answer) := Served(s1);
        if answer != Idle then (s2, answer)
        else if e.stoppedAfter then (s2, Error(Cancelled))
        else if e.poll == Nothing then (s2, Idle)
        else if e.poll == Invalid then (s2, Error(ReadFailed))
        else Received(s2, e.read)
  }

  // ---------------------------------------------------------------------------------------------
  // What one call answers
  // ---------------------------------------------------------------------------------------------

  /** Line input may be asked for. */
  predicate Open(s: Reader) { !s.read && !s.failed }

  /** The buffer holds nothing to answer: no newline, no overlong line, and there may be more to come. */
  predicate Quiet(buffer: string, ended: bool) { '\n' !in buffer && |buffer| <= LINE_LIMIT && !ended }

  /** The call comes to read. */
  predicate Reads(s: Reader, e: PollEvent) {
    Open(s) && !e.stoppedBefore && Quiet(s.buffer, s.ended) && !e.stoppedAfter && e.poll == Ready
  }

  /** What the call answers from: the buffer, with what it has read, and whether the input has ended. */
  function Seen(s: Reader, e: PollEvent): (string, bool)
    requires s.position <= |s.input|
  {
    if Reads(s, e) && e.read.Chunk? then
      var chunk := Available(s.input, s.position, e.read.count); (s.buffer + chunk, chunk == "")
    else (s.buffer, s.ended)
  }

  /** The answers that come from the buffer. */
  ghost predicate FromBuffer(buffer: string, ended: bool, answer: Answer, rest: string) {
    && (answer.Line? <==> exists k: nat :: k <= LINE_LIMIT && NewlineAt(buffer, k))
    && (answer.Line? ==> NewlineAt(buffer, |answer.text|) && buffer == answer.text + "\n" + rest)
    && (answer == Error(LineTooLong) <==> |buffer| > LINE_LIMIT && forall k: nat | k <= LINE_LIMIT :: !NewlineAt(buffer, k))
    && (answer == Error(EndedEarly) <==> ended && buffer != "" && |buffer| <= LINE_LIMIT && '\n' !in buffer)
    && (answer == End <==> ended && buffer == "")
    && (answer == Idle <==> Quiet(buffer, ended))
    && (!answer.Line? ==> rest == buffer)
  }

  /** The first newline is at place `k`. */
  predicate NewlineAt(buffer: string, k: nat) {
    k < |buffer| && buffer[k] == '\n' && forall i | 0 <= i < k :: buffer[i] != '\n'
  }

  lemma BufferExactly(buffer: string, ended: bool)
    ensures FromBuffer(buffer, ended, BufferedLine(buffer, ended).0, BufferedLine(buffer, ended).1)
  {
    var k := Find(buffer);
    forall i | 0 <= i < k ensures buffer[i] != '\n' { assert buffer[..k][i] == buffer[i]; }
    if k < |buffer| {
      assert NewlineAt(buffer, k) && buffer == buffer[..k] + "\n" + buffer[k + 1..];
    } else {
      assert buffer[..k] == buffer;
    }
  }

  /** What every call answers, by what it meets: refused, stopped, unreadable, or from what the buffer holds then. Only
      a refusal of the buffer is remembered, and nothing but reading and answering a line changes the buffer. */
  ghost predicate AnswersPoll(s: Reader, e: PollEvent, s': Reader, answer: Answer)
    requires s.position <= |s.input|
  {
    var (buffer, ended) := Seen(s, e);
    var asked := Open(s) && !e.stoppedBefore;
    var waits := asked && Quiet(s.buffer, s.ended);
    var answered := asked && (Quiet(s.buffer, s.ended) ==> Reads(s, e) && e.read.Chunk?);
    && (answer == Error(Unavailable) <==> !Open(s))
    && (answer == Error(Cancelled) <==> Open(s) && (e.stoppedBefore || (waits && e.stoppedAfter)))
    && (answer == Error(ReadFailed) <==> waits && !e.stoppedAfter && (e.poll == Invalid || (e.poll == Ready && e.read == Broken)))
    && (answer == Idle <==>
          || (waits && !e.stoppedAfter && (e.poll == Nothing || (e.poll == Ready && e.read == Again)))
          || (answered && Quiet(buffer, ended)))
    && (answered ==> FromBuffer(buffer, ended, answer, s'.buffer) && s'.ended == ended)
    && (!answered ==> s'.buffer == s.buffer && s'.ended == s.ended && s'.position == s.position)
    && s'.failed == (s.failed || answer == Error(LineTooLong) || answer == Error(EndedEarly))
    && s'.lines == (s.lines || Open(s)) && s'.read == s.read
    && s'.readCalls == s.readCalls + if Reads(s, e) then 1 else 0
  }

  lemma PollExactly(s: Reader, e: PollEvent)
    requires s.position <= |s.input|
    ensures AnswersPoll(s, e, Polled(s, e).0, Polled(s, e).1)
  {
    BufferExactly(s.buffer, s.ended);
    BufferExactly(Seen(s, e).0, Seen(s, e).1);
  }

  /** A run of calls: the state after it and all the answers. */
  function Run(s: Reader, events: seq<PollEvent>): (r: (Reader, seq<Answer>))
    requires s.position <= |s.input|
    ensures r.0.input == s.input && s.position <= r.0.position <= |s.input|
    decreases |events|
  {
    if events == [] then (s, []) else
      var (before, answers) := Run(s, events[..|events| - 1]);
      var (after, answer) := Polled(before, events[|events| - 1]);
      (after, answers + [answer])
  }

  function Lines(answers: seq<Answer>): seq<string> {
    if answers == [] then [] else
      var last := answers[|answers| - 1];
      Lines(answers[..|answers| - 1]) + (if last.Line? then [last.text] else [])
  }

  function Opened(input: string): Reader { Reader(input, 0, false, false, false, false, "", 0) }

  /** What every run keeps: the lines delivered and the buffer are what was read, nothing is read
      after the end, and the buffer is bounded. */
  ghost predicate ReaderInv(s: Reader, delivered: seq<string>) {
    && s.position <= |s.input| && Fitting(delivered)
    && s.input[..s.position] == Joined(delivered) + s.buffer
    && (s.ended ==> s.position == |s.input|)
    && |s.buffer| <= LINE_LIMIT + CHUNK
    && (s.failed ==> BufferedLine(s.buffer, s.ended).0.Error?)
  }

  lemma ServedInv(s: Reader, delivered: seq<string>)
    requires ReaderInv(s, delivered) && !s.failed
    ensures var (s', answer) := Served(s);
            ReaderInv(s', if answer.Line? then delivered + [answer.text] else delivered)
    ensures Served(s).1 == Idle ==> Served(s).0 == s && Unbroken(s.buffer) && |s.buffer| <= LINE_LIMIT && !s.ended
  {
    var k := Find(s.buffer);
    assert s.buffer[..|s.buffer|] == s.buffer;
    if k < |s.buffer| && k <= LINE_LIMIT { LineTaken(delivered, s.buffer, k); }
  }

  lemma LineTaken(delivered: seq<string>, buffer: string, k: nat)
    requires k < |buffer| && buffer[k] == '\n'
    ensures Joined(delivered + [buffer[..k]]) + buffer[k + 1..] == Joined(delivered) + buffer
  {
    var line, rest := buffer[..k], buffer[k + 1..];
    JoinedAppend(delivered, line);
    assert buffer == line + "\n" + rest;
    assert Joined(delivered) + line + "\n" + rest == Joined(delivered) + (line + "\n" + rest);
  }

  lemma FedInv(s: Reader, delivered: seq<string>, count: nat)
    requires ReaderInv(s, delivered) && !s.failed && |s.buffer| <= LINE_LIMIT
    ensures ReaderInv(Fed(s, count), delivered)
  {
    var chunk := Available(s.input, s.position, count);
    assert s.input[..s.position + |chunk|] == s.input[..s.position] + chunk;
  }

  lemma PolledInv(s: Reader, delivered: seq<string>, e: PollEvent)
    requires ReaderInv(s, delivered)
    ensures var (s', answer) := Polled(s, e);
            && ReaderInv(s', if answer.Line? then delivered + [answer.text] else delivered)
            && s'.input == s.input && s'.read == s.read
  {
    var s1 := s.(lines := true);
    if !s.read && !s.failed && !e.stoppedBefore {
      ServedInv(s1, delivered);
      if Served(s1).1 == Idle { ReceivedInv(s1, delivered, e.read); }
    }
  }

  lemma ReceivedInv(s: Reader, delivered: seq<string>, read: Read)
    requires ReaderInv(s, delivered) && !s.failed && |s.buffer| <= LINE_LIMIT
    ensures var (s', answer) := Received(s, read);
            && ReaderInv(s', if answer.Line? then delivered + [answer.text] else delivered)
            && s'.input == s.input && s'.read == s.read
  {
    if read.Chunk? {
      var s1 := s.(readCalls := s.readCalls + 1);
      FedInv(s1, delivered, read.count);
      ServedInv(Fed(s1, read.count), delivered);
    }
  }

  lemma OpenedInv(input: string)
    ensures ReaderInv(Opened(input), [])
  {
    assert input[..0] == "";
  }

  lemma LinesStep(answers: seq<Answer>, answer: Answer)
    ensures Lines(answers + [answer]) == if answer.Line? then Lines(answers) + [answer.text] else Lines(answers)
  {
    assert (answers + [answer])[..|answers|] == answers;
  }

  lemma {:induction false} RunInv(input: string, events: seq<PollEvent>)
    ensures var (s, answers) := Run(Opened(input), events);
            ReaderInv(s, Lines(answers)) && |answers| == |events| && s.input == input && !s.read
    decreases |events|
  {
    if events == [] {
      OpenedInv(input);
    } else {
      RunInv(input, events[..|events| - 1]);
      RunStepInv(input, events);
    }
  }

  lemma RunStepInv(input: string, events: seq<PollEvent>)
    requires events != []
    requires var (s, answers) := Run(Opened(input), events[..|events| - 1]);
             ReaderInv(s, Lines(answers)) && |answers| == |events| - 1 && s.input == input && !s.read
    ensures var (s, answers) := Run(Opened(input), events);
            ReaderInv(s, Lines(answers)) && |answers| == |events| && s.input == input && !s.read
  {
    var (before, answers) := Run(Opened(input), events[..|events| - 1]);
    var (after, answer) := Polled(before, events[|events| - 1]);
    assert Run(Opened(input), events) == (after, answers + [answer]);
    PolledInv(before, Lines(answers), events[|events| - 1]);
    LinesStep(answers, answer);
  }

  /** The answer that ends a stream, for good, and how the stream then ended. */
  predicate Final(answer: Answer) { answer == End || answer == Error(LineTooLong) || answer == Error(EndedEarly) }

  function Meaning(answer: Answer): Ending
    requires Final(answer)
  {
    if answer == End then Clean else if answer == Error(EndedEarly) then Truncated else TooLong
  }

  /** What an answer says about the whole input, when this is what has been delivered before it. */
  ghost predicate Says(input: string, delivered: seq<string>, answer: Answer) {
    && (Final(answer) ==> Framed(input) == (delivered, Meaning(answer)))
    && (answer.Line? ==> delivered + [answer.text] <= Framed(input).0)
  }

  /** What the buffer answers is what the framing of everything not yet delivered says. */
  lemma ServedExact(s: Reader, delivered: seq<string>)
    requires ReaderInv(s, delivered)
    ensures Says(s.input, delivered, BufferedLine(s.buffer, s.ended).0)
  {
    InputSplit(s, delivered);
    RestExact(s.buffer, s.input[s.position..], s.ended);
    SaysAfter(delivered, s.buffer + s.input[s.position..], BufferedLine(s.buffer, s.ended).0);
  }

  /** The same, for what is left of the input. */
  lemma RestExact(buffer: string, rest: string, ended: bool)
    requires ended ==> rest == ""
    ensures Says(buffer + rest, [], BufferedLine(buffer, ended).0)
  {
    var answer := BufferedLine(buffer, ended).0;
    if answer == Error(LineTooLong) {
      RefusedExact(buffer, rest, ended);
    } else if answer.Line? {
      LineExact(buffer, rest, ended);
    } else if Final(answer) {
      EndExact(buffer, rest, ended);
    }
  }

  lemma SaysAfter(delivered: seq<string>, rest: string, answer: Answer)
    requires Fitting(delivered) && Says(rest, [], answer)
    ensures Says(Joined(delivered) + rest, delivered, answer)
  {
    FramedPrefix(delivered, rest);
    assert delivered + [] == delivered;
    if answer.Line? { Regrouped(delivered, answer.text, Framed(rest).0); }
  }

  lemma InputSplit(s: Reader, delivered: seq<string>)
    requires ReaderInv(s, delivered)
    ensures s.input == Joined(delivered) + (s.buffer + s.input[s.position..])
    ensures s.ended ==> s.input[s.position..] == ""
  {
    assert s.input == s.input[..s.position] + s.input[s.position..];
    assert Joined(delivered) + s.buffer + s.input[s.position..] == Joined(delivered) + (s.buffer + s.input[s.position..]);
  }

  lemma RefusedExact(buffer: string, rest: string, ended: bool)
    requires BufferedLine(buffer, ended).0 == Error(LineTooLong)
    ensures Framed(buffer + rest) == ([], TooLong)
  {
    var k := Find(buffer);
    OverLong(buffer[..k], buffer[k..] + rest);
    assert buffer[..k] + (buffer[k..] + rest) == buffer + rest;
  }

  lemma LineExact(buffer: string, rest: string, ended: bool)
    requires BufferedLine(buffer, ended).0.Line?
    ensures [BufferedLine(buffer, ended).0.text] <= Framed(buffer + rest).0
  {
    var k := Find(buffer);
    FramedLine(buffer[..k], buffer[k + 1..] + rest);
    assert buffer + rest == buffer[..k] + "\n" + (buffer[k + 1..] + rest);
  }

  lemma EndExact(buffer: string, rest: string, ended: bool)
    requires var answer := BufferedLine(buffer, ended).0; answer == End || answer == Error(EndedEarly)
    requires rest == ""
    ensures Framed(buffer + rest) == ([], Meaning(BufferedLine(buffer, ended).0))
  {
    assert buffer[..|buffer|] == buffer && buffer + rest == buffer;
    CutTail(buffer);
  }

  lemma Regrouped(delivered: seq<string>, line: string, lines: seq<string>)
    requires [line] <= lines
    ensures delivered + [line] <= delivered + lines
  {
  }

  lemma PolledExact(s: Reader, delivered: seq<string>, e: PollEvent)
    requires ReaderInv(s, delivered)
    ensures var answer := Polled(s, e).1;
            Says(s.input, delivered, answer)
  {
    if !s.read && !s.failed && !e.stoppedBefore {
      var s1 := s.(lines := true);
      ServedExact(s1, delivered);
      ServedInv(s1, delivered);
      if Served(s1).1 == Idle { ReceivedExact(s1, delivered, e.read); }
    }
  }

  lemma ReceivedExact(s: Reader, delivered: seq<string>, read: Read)
    requires ReaderInv(s, delivered) && !s.failed && |s.buffer| <= LINE_LIMIT
    ensures var answer := Received(s, read).1;
            Says(s.input, delivered, answer)
  {
    if read.Chunk? {
      var s1 := s.(readCalls := s.readCalls + 1);
      FedInv(s1, delivered, read.count);
      ServedExact(Fed(s1, read.count), delivered);
    }
  }

  /** What the answers of a run say about the whole input. */
  ghost predicate Faithful(input: string, answers: seq<Answer>) {
    && Lines(answers) <= Framed(input).0
    && forall i | 0 <= i < |answers| && Final(answers[i]) :: Framed(input) == (Lines(answers), Meaning(answers[i]))
  }

  lemma FaithfulStep(input: string, answers: seq<Answer>, answer: Answer)
    requires Faithful(input, answers)
    requires Final(answer) ==> Framed(input) == (Lines(answers), Meaning(answer))
    requires answer.Line? ==> Lines(answers) + [answer.text] <= Framed(input).0
    ensures Faithful(input, answers + [answer])
  {
    LinesStep(answers, answer);
  }

  /** For every way the input arrives in chunks, and whatever interrupts the calls: the lines
      delivered are the first lines of the whole input, and once a call has given a final answer
      they are all of them and the answer is the one the whole input calls for. */
  lemma {:induction false} RunExact(input: string, events: seq<PollEvent>)
    ensures Faithful(input, Run(Opened(input), events).1)
    decreases |events|
  {
    if events != [] {
      var (before, answers) := Run(Opened(input), events[..|events| - 1]);
      RunInv(input, events[..|events| - 1]);
      RunExact(input, events[..|events| - 1]);
      PolledExact(before, Lines(answers), events[|events| - 1]);
      FaithfulStep(input, answers, Polled(before, events[|events| - 1]).1);
    }
  }

  /** Two runs over the same input that both come to a final answer agree on everything. */
  lemma ChunksDoNotMatter(input: string, one: seq<PollEvent>, two: seq<PollEvent>, i: nat, j: nat)
    requires var answers := Run(Opened(input), one).1; i < |answers| && Final(answers[i])
    requires var answers := Run(Opened(input), two).1; j < |answers| && Final(answers[j])
    ensures Lines(Run(Opened(input), one).1) == Lines(Run(Opened(input), two).1)
    ensures Run(Opened(input), one).1[i] == Run(Opened(input), two).1[j]
  {
    RunExact(input, one);
    RunExact(input, two);
  }

  /** Nothing is read once the input has ended or been refused. */
  lemma NoReadAfterEnd(s: Reader, e: PollEvent)
    requires s.position <= |s.input| && (s.ended || s.failed)
    ensures var s' := Polled(s, e).0; s'.readCalls == s.readCalls && s'.position == s.position && s'.ended == s.ended && (s.failed ==> s'.failed)
  {
  }

  /** In no run is there a read after the end of the input was seen or the input was refused. */
  lemma {:induction false} EndIsFinal(input: string, events: seq<PollEvent>, k: nat)
    requires k <= |events|
    requires var s := Run(Opened(input), events[..k]).0; s.ended || s.failed
    ensures var s, s' := Run(Opened(input), events[..k]).0, Run(Opened(input), events).0;
            s'.readCalls == s.readCalls && s'.position == s.position && (s'.ended || s'.failed)
    decreases |events|
  {
    if k < |events| {
      var before := events[..|events| - 1];
      assert before[..k] == events[..k];
      EndIsFinal(input, before, k);
      RunInv(input, before);
      NoReadAfterEnd(Run(Opened(input), before).0, events[|events| - 1]);
    } else {
      assert events[..k] == events;
    }
  }

  /** A call that is not interrupted. */
  predicate Productive(e: PollEvent) { !e.stoppedBefore && !e.stoppedAfter && e.poll == Ready && e.read.Chunk? }

  /** How much is left to do. */
  function Left(s: Reader, delivered: seq<string>): int {
    |Framed(s.input).0| - |delivered| + |s.input| - s.position + (if s.ended then 0 else 1)
  }

  lemma PolledProgress(s: Reader, delivered: seq<string>, e: PollEvent)
    requires ReaderInv(s, delivered) && !s.read && !s.failed
    ensures Advances(s, delivered, Polled(s, e).0, Polled(s, e).1, Productive(e))
  {
    var s1 := s.(lines := true);
    ServedProgress(s1);
    if !e.stoppedBefore && Served(s1).1 == Idle { ReceivedProgress(s1, delivered, e.read); }
  }

  /** A call leaves no more to do than before; less, if it is productive and does not end the stream. */
  ghost predicate Advances(s: Reader, delivered: seq<string>, s': Reader, answer: Answer, productive: bool) {
    var delivered' := if answer.Line? then delivered + [answer.text] else delivered;
    && Left(s', delivered') <= Left(s, delivered) && (s'.failed ==> Final(answer))
    && (productive && !Final(answer) ==> Left(s', delivered') < Left(s, delivered))
  }

  lemma ReceivedProgress(s: Reader, delivered: seq<string>, read: Read)
    requires s.position <= |s.input| && !s.failed && !s.ended
    ensures Advances(s, delivered, Received(s, read).0, Received(s, read).1, read.Chunk?)
  {
    if read.Chunk? { ServedProgress(Fed(s.(readCalls := s.readCalls + 1), read.count)); }
  }

  /** Answering from the buffer reads nothing, and fails only for good. */
  lemma ServedProgress(s: Reader)
    requires !s.failed
    ensures var (s', answer) := Served(s);
            && s'.input == s.input && s'.position == s.position && s'.ended == s.ended
            && (answer == Idle || answer.Line? || Final(answer)) && (s'.failed ==> Final(answer)) && (answer == Idle ==> s' == s)
  {
  }

  function Count(events: seq<PollEvent>): nat {
    if events == [] then 0 else Count(events[..|events| - 1]) + (if Productive(events[|events| - 1]) then 1 else 0)
  }

  ghost predicate Finished(answers: seq<Answer>) { exists i | 0 <= i < |answers| :: Final(answers[i]) }

  /** Either the stream is over, or the productive calls so far are paid for by what they did. */
  ghost predicate OnTrack(s: Reader, answers: seq<Answer>, productive: nat) {
    || Finished(answers)
    || (!s.failed && 0 <= Left(s, Lines(answers)) && productive + Left(s, Lines(answers)) <= |Framed(s.input).0| + |s.input| + 1)
  }

  lemma OnTrackStep(s: Reader, answers: seq<Answer>, productive: nat, e: PollEvent, s': Reader, answer: Answer)
    requires ReaderInv(s, Lines(answers)) && !s.read && OnTrack(s, answers, productive)
    requires (s', answer) == Polled(s, e) && Lines(answers + [answer]) <= Framed(s.input).0
    ensures OnTrack(s', answers + [answer], productive + if Productive(e) then 1 else 0)
  {
    var all := answers + [answer];
    if Finished(answers) {
      var i :| 0 <= i < |answers| && Final(answers[i]);
      assert Final(all[i]);
    } else {
      LinesStep(answers, answer);
      PolledProgress(s, Lines(answers), e);
      if Final(answer) { assert Final(all[|answers|]); }
    }
  }

  lemma {:induction false} RunOnTrack(input: string, events: seq<PollEvent>)
    ensures OnTrack(Run(Opened(input), events).0, Run(Opened(input), events).1, Count(events))
    decreases |events|
  {
    if events != [] {
      var before := events[..|events| - 1];
      RunOnTrack(input, before);
      RunInv(input, before);
      RunExact(input, events);
      var (s, answers) := Run(Opened(input), before);
      var (s', answer) := Polled(s, events[|events| - 1]);
      OnTrackStep(s, answers, Count(before), events[|events| - 1], s', answer);
    }
  }

  /** Every run with enough calls that are not interrupted comes to a final answer. */
  lemma RunFinishes(input: string, events: seq<PollEvent>)
    requires Count(events) > |Framed(input).0| + |input| + 1
    ensures Finished(Run(Opened(input), events).1)
  {
    RunOnTrack(input, events);
  }

  // ---------------------------------------------------------------------------------------------
  // Writing records
  // ---------------------------------------------------------------------------------------------

  datatype Write = Wrote(count: nat) | Blocked | WriteBroken

  /** One turn of the loop of `write_all()`. */
  datatype WriteEvent = WriteEvent(lateBefore: bool, write: Write, lateAfter: bool, stopped: bool, pollFails: bool)

  datatype Outcome = Done | Gave(failure: Failure)

  function Taken(record: string, write: Write): (n: nat)
    ensures n <= |record|
  {
    if !write.Wrote? then 0 else if write.count <= |record| then write.count else |record|
  }

  /** How many bytes of the record go out, and how the attempt ends; the deadline passes when the
      events are over. */
  function Sent(record: string, events: seq<WriteEvent>): (r: (nat, Outcome))
    ensures r.0 <= |record| && (r.1 == Done ==> r.0 == |record|)
    decreases |events|
  {
    if record == "" then (0, Done)
    else if events == [] || events[0].lateBefore || events[0].write == WriteBroken then (0, Gave(OutputFailed)) else
      var n := Taken(record, events[0].write);
      if events[0].lateAfter then (n, Gave(OutputFailed))
      else if n == |record| then (n, Done)
      else if events[0].stopped then (n, Gave(Cancelled))
      else if events[0].pollFails then (n, Gave(OutputFailed))
      else
        var rest := Sent(record[n..], events[1..]);
        (n + rest.0, rest.1)
  }

  /** A record is given up as cancelled only with some of it left, after a turn that saw the stop; and a
      record that can be written at once is written, stop or no stop. */
  lemma {:induction false} StopIsLast(record: string, events: seq<WriteEvent>)
    ensures Sent(record, events).1 == Gave(Cancelled) ==>
              Sent(record, events).0 < |record| && exists i | 0 <= i < |events| :: events[i].stopped
    ensures record != "" && events != [] && !events[0].lateBefore && !events[0].lateAfter && events[0].write == Wrote(|record|) ==>
              Sent(record, events) == (|record|, Done)
    decreases |events|
  {
    if record != "" && events != [] {
      var rest := events[1..];
      StopIsLast(record[Taken(record, events[0].write)..], rest);
      if i :| 0 <= i < |rest| && rest[i].stopped { assert events[i + 1].stopped; }
    }
  }

  /** How many bytes the writes of these turns would take, were there that many. */
  function Total(events: seq<WriteEvent>): nat {
    if events == [] then 0 else (if events[0].write.Wrote? then events[0].write.count else 0) + Total(events[1..])
  }

  /** A turn after which the loop goes on if there is more to write. */
  predicate GoesOn(e: WriteEvent) { !e.lateBefore && e.write != WriteBroken && !e.lateAfter && !e.stopped && !e.pollFails }

  /** The turns before number `k` go on and leave some of the record, and turn `k` does not. */
  ghost predicate EndsAt(record: string, events: seq<WriteEvent>, k: nat) {
    && k < |events| && (forall i | 0 <= i < k :: GoesOn(events[i])) && Total(events[..k]) < |record|
    && (!GoesOn(events[k]) || Total(events[..k + 1]) >= |record|)
  }

  /** What has gone out after `k` turns. */
  function Out(record: string, events: seq<WriteEvent>, k: nat): nat
    requires k <= |events|
  {
    if Total(events[..k]) <= |record| then Total(events[..k]) else |record|
  }

  /** How an attempt to write ends, by the turn that ends it: done when the last byte is out in time, cancelled when
      some is left and a stop is seen, and otherwise failed. */
  ghost predicate EndsSo(record: string, events: seq<WriteEvent>, k: nat, sent: (nat, Outcome))
    requires k < |events|
  {
    var e := events[k];
    var wrote := !e.lateBefore && e.write != WriteBroken;
    && sent.0 == (if wrote then Out(record, events, k + 1) else Out(record, events, k))
    && (sent.1 == Done <==> wrote && !e.lateAfter && sent.0 == |record|)
    && (sent.1 == Gave(Cancelled) <==> wrote && !e.lateAfter && sent.0 < |record| && e.stopped)
    && (sent.1 == Done || sent.1 == Gave(Cancelled) || sent.1 == Gave(OutputFailed))
  }

  lemma {:induction false} SentExactly(record: string, events: seq<WriteEvent>, k: nat)
    requires EndsAt(record, events, k)
    ensures EndsSo(record, events, k, Sent(record, events))
    decreases k
  {
    assert events[..0] == [] && events[..1] == [events[0]] && [events[0]][1..] == [];
    if k > 0 {
      var n := Taken(record, events[0].write);
      TotalGrows(events, k);
      TotalGrows(events, k + 1);
      TotalStarts(events, k);
      assert events[1..][k - 1] == events[k];
      forall i | 0 <= i < k - 1 ensures GoesOn(events[1..][i]) { assert events[1..][i] == events[i + 1]; }
      SentExactly(record[n..], events[1..], k - 1);
    }
  }

  lemma TotalStarts(events: seq<WriteEvent>, k: nat)
    requires 0 < k <= |events|
    ensures (if events[0].write.Wrote? then events[0].write.count else 0) <= Total(events[..k])
  {
    TotalGrows(events, k);
  }

  /** When all turns go on and some of the record is left, the deadline passes. */
  lemma {:induction false} SentUntilLate(record: string, events: seq<WriteEvent>)
    requires (forall i | 0 <= i < |events| :: GoesOn(events[i])) && Total(events) < |record|
    ensures Sent(record, events) == (Total(events), Gave(OutputFailed))
    decreases |events|
  {
    if events != [] { SentUntilLate(record[Taken(record, events[0].write)..], events[1..]); }
  }

  /** The deadline passes between the write of the last byte, in turn `k`, and the check after it. */
  ghost predicate LateAt(record: string, events: seq<WriteEvent>, k: nat) {
    && k < |events| && (forall i | 0 <= i < k :: GoesOn(events[i]))
    && Total(events[..k]) < |record| <= Total(events[..k + 1])
    && !events[k].lateBefore && events[k].write.Wrote? && events[k].lateAfter
  }

  ghost predicate LateAfterLast(record: string, events: seq<WriteEvent>) { exists k: nat :: LateAt(record, events, k) }

  /** A record is reported as failed although all of it has gone out exactly when the deadline passes
      right after the write of its last byte. */
  lemma {:induction false} FailsComplete(record: string, events: seq<WriteEvent>)
    ensures Sent(record, events).0 == |record| && Sent(record, events).1 != Done <==> LateAfterLast(record, events)
    decreases |events|
  {
    if record != "" && events != [] {
      var n := Taken(record, events[0].write);
      if n == |record| || !GoesOn(events[0]) {
        LateNow(record, events);
      } else {
        FailsComplete(record[n..], events[1..]);
        LateLater(record, events);
      }
    }
  }

  lemma LateNow(record: string, events: seq<WriteEvent>)
    requires record != "" && events != [] && (Taken(record, events[0].write) == |record| || !GoesOn(events[0]))
    ensures LateAfterLast(record, events) <==>
              !events[0].lateBefore && events[0].lateAfter && Taken(record, events[0].write) == |record|
  {
    var none: nat := 0;
    assert events[..0] == [] && events[..1] == [events[0]] && events[..1][1..] == [];
    if !events[0].lateBefore && events[0].lateAfter && Taken(record, events[0].write) == |record| {
      assert LateAt(record, events, none);
    }
    forall k: nat | k > 0 ensures !LateAt(record, events, k) {
      if k < |events| && GoesOn(events[0]) { TotalGrows(events, k); }
    }
  }

  lemma TotalGrows(events: seq<WriteEvent>, k: nat)
    requires 0 < k <= |events|
    ensures Total(events[..k]) == (if events[0].write.Wrote? then events[0].write.count else 0) + Total(events[1..][..k - 1])
  {
    assert events[..k][1..] == events[1..][..k - 1];
  }

  lemma LateLater(record: string, events: seq<WriteEvent>)
    requires record != "" && events != [] && GoesOn(events[0]) && Taken(record, events[0].write) < |record|
    ensures LateAfterLast(record, events) <==> LateAfterLast(record[Taken(record, events[0].write)..], events[1..])
  {
    var n := Taken(record, events[0].write);
    var rest := events[1..];
    forall k: nat | k < |rest| ensures LateAt(record[n..], rest, k) <==> LateAt(record, events, k + 1) {
      TotalGrows(events, k + 1);
      TotalGrows(events, k + 2);
      assert rest[k] == events[k + 1];
      forall i | 0 <= i < k + 1 && (forall j | 0 <= j < k :: GoesOn(rest[j])) ensures GoesOn(events[i]) {
        if i > 0 { assert events[i] == rest[i - 1]; }
      }
      forall i | 0 <= i < k && (forall j | 0 <= j < k + 1 :: GoesOn(events[j])) ensures GoesOn(rest[i]) { assert rest[i] == events[i + 1]; }
    }
    if LateAfterLast(record, events) {
      var k: nat :| LateAt(record, events, k);
      assert events[..0] == [];
      assert k > 0;
      assert LateAt(record[n..], rest, k - 1);
    }
    if LateAfterLast(record[n..], rest) {
      var k: nat :| LateAt(record[n..], rest, k);
      assert LateAt(record, events, k + 1);
    }
  }

  /** A record that is completely written in its first turn and reported as a failure. */
  lemma CompleteAndFailed()
    ensures var events := [WriteEvent(false, Wrote(2), true, false, false)];
            Sent("x\n", events) == (2, Gave(OutputFailed)) && LateAfterLast("x\n", events)
  {
    FailsComplete("x\n", [WriteEvent(false, Wrote(2), true, false, false)]);
  }

  /** A record is one line with its newline. */
  predicate IsRecord(record: string) {
    record != "" && |record| <= RECORD_LIMIT && record[|record| - 1] == '\n' && Unbroken(record[..|record| - 1])
  }

  /** The writing half of the transport's state. */
  datatype Sink = Sink(output: string, failed: bool)

  /** One call of `write_record()`. */
  function Recorded(s: Sink, record: string, events: seq<WriteEvent>): (Sink, Outcome) {
    if s.failed || !IsRecord(record) then (s.(failed := true), Gave(BadRecord)) else
      var (n, outcome) := Sent(record, events);
      (Sink(s.output + record[..n], outcome != Done), outcome)
  }

  /** A record is refused exactly when the sink has failed or it is not one line with its newline within the limit;
      and every call but a success leaves the sink failed. */
  lemma RefusedExactly(s: Sink, record: string, events: seq<WriteEvent>)
    ensures var (s', outcome) := Recorded(s, record, events);
            && (outcome == Gave(BadRecord) <==>
                  s.failed || !(exists line :: record == line + "\n" && '\n' !in line && |line| < 2 * 1024 * 1024))
            && (s'.failed <==> outcome != Done)
            && (outcome != Gave(BadRecord) ==> outcome == Sent(record, events).1 && s'.output == s.output + record[..Sent(record, events).0])
            && (outcome == Gave(BadRecord) ==> s'.output == s.output)
  {
    if record != "" && record[|record| - 1] == '\n' { assert record == record[..|record| - 1] + "\n"; }
    NotBadRecord(record, events);
    forall line | record == line + "\n" ensures line == record[..|record| - 1] { }
  }

  lemma {:induction false} NotBadRecord(record: string, events: seq<WriteEvent>)
    ensures Sent(record, events).1 != Gave(BadRecord)
    decreases |events|
  {
    if record != "" && events != [] { NotBadRecord(record[Taken(record, events[0].write)..], events[1..]); }
  }

  datatype Call = Call(record: string, events: seq<WriteEvent>)

  function WriteRun(s: Sink, calls: seq<Call>): (r: (Sink, seq<Outcome>))
    ensures |r.1| == |calls|
    decreases |calls|
  {
    if calls == [] then (s, []) else
      var (s1, outcome) := Recorded(s, calls[0].record, calls[0].events);
      var (s2, outcomes) := WriteRun(s1, calls[1..]);
      (s2, [outcome] + outcomes)
  }

  /** The call succeeds on a sink that has not failed. */
  predicate Succeeds(call: Call) { IsRecord(call.record) && Sent(call.record, call.events).1 == Done }

  function Body(record: string): string
    requires IsRecord(record)
  {
    record[..|record| - 1]
  }

  /** The lines of the calls before the first that fails. */
  function Accepted(calls: seq<Call>): (lines: seq<string>)
    ensures |lines| <= |calls| && forall i | 0 <= i < |lines| :: Succeeds(calls[i]) && lines[i] == Body(calls[i].record)
    ensures |lines| < |calls| ==> !Succeeds(calls[|lines|])
  {
    if calls == [] || !Succeeds(calls[0]) then [] else [Body(calls[0].record)] + Accepted(calls[1..])
  }

  /** What the first call that fails leaves in the output: some of its record. */
  function Leftover(calls: seq<Call>): (partial: string)
    ensures var k := |Accepted(calls)|;
            partial == if k < |calls| && IsRecord(calls[k].record) then calls[k].record[..Sent(calls[k].record, calls[k].events).0] else ""
  {
    if calls == [] then ""
    else if Succeeds(calls[0]) then Leftover(calls[1..])
    else if IsRecord(calls[0].record) then calls[0].record[..Sent(calls[0].record, calls[0].events).0]
    else ""
  }

  /** Nothing is written and nothing succeeds after a failure. */
  lemma {:induction false} FailureIsFinal(s: Sink, calls: seq<Call>)
    requires s.failed
    ensures WriteRun(s, calls).0 == s && forall i | 0 <= i < |calls| :: WriteRun(s, calls).1[i] != Done
    decreases |calls|
  {
    if calls != [] { FailureIsFinal(s, calls[1..]); }
  }

  /** For every run of calls, with any partial writes, cancellations and deadlines: the output is the
      records of the calls that succeeded, then a part of the record of the one that failed. */
  lemma {:induction false} WriteExact(s: Sink, calls: seq<Call>)
    requires !s.failed
    ensures HasWritten(s, calls, WriteRun(s, calls).0, WriteRun(s, calls).1)
    decreases |calls|
  {
    if calls != [] {
      var s1 := Recorded(s, calls[0].record, calls[0].events).0;
      if Succeeds(calls[0]) {
        WriteExact(s1, calls[1..]);
        AcceptedStep(calls);
        SucceedStep(s, calls[0], Accepted(calls[1..]));
        AfterSuccess(s, calls, s1, WriteRun(s1, calls[1..]).0, WriteRun(s1, calls[1..]).1);
      } else {
        FailureIsFinal(s1, calls[1..]);
        assert Joined([]) == "";
      }
    } else {
      assert s.output + "" + "" == s.output;
    }
  }

  /** What a run has written, and which of its calls succeeded. */
  ghost predicate HasWritten(s: Sink, calls: seq<Call>, s': Sink, outcomes: seq<Outcome>) {
    var lines := Accepted(calls);
    && |outcomes| == |calls| && s' == Sink(s.output + Joined(lines) + Leftover(calls), |lines| < |calls|)
    && forall i | 0 <= i < |calls| :: outcomes[i] == Done <==> i < |lines|
  }

  lemma AfterSuccess(s: Sink, calls: seq<Call>, s1: Sink, s2: Sink, later: seq<Outcome>)
    requires calls != [] && Succeeds(calls[0]) && HasWritten(s1, calls[1..], s2, later)
    requires Accepted(calls) == [Body(calls[0].record)] + Accepted(calls[1..]) && Leftover(calls) == Leftover(calls[1..])
    requires s1.output + Joined(Accepted(calls[1..])) == s.output + Joined(Accepted(calls))
    ensures HasWritten(s, calls, s2, [Done] + later)
  {
    DoneStep(later, |Accepted(calls[1..])|);
  }

  lemma AcceptedStep(calls: seq<Call>)
    requires calls != [] && Succeeds(calls[0])
    ensures Accepted(calls) == [Body(calls[0].record)] + Accepted(calls[1..]) && Leftover(calls) == Leftover(calls[1..])
  {
  }

  lemma DoneStep(later: seq<Outcome>, n: nat)
    requires n <= |later| && forall i | 0 <= i < |later| :: later[i] == Done <==> i < n
    ensures forall i | 0 <= i < 1 + |later| :: ([Done] + later)[i] == Done <==> i < n + 1
  {
  }

  lemma SucceedStep(s: Sink, call: Call, lines: seq<string>)
    requires !s.failed && Succeeds(call)
    ensures Recorded(s, call.record, call.events).0.output + Joined(lines) == s.output + Joined([Body(call.record)] + lines)
  {
    assert call.record == Body(call.record) + "\n";
    assert call.record[..|call.record|] == call.record;
    assert ([Body(call.record)] + lines)[1..] == lines;
    assert s.output + call.record + Joined(lines) == s.output + (call.record + Joined(lines));
  }

  // ---------------------------------------------------------------------------------------------
  // What is written can be read back
  // ---------------------------------------------------------------------------------------------

  /** All lines that are completely in the output: those of the records that succeeded, and that of a
      record that failed only because the deadline passed right after its last byte. */
  ghost function Complete(calls: seq<Call>): seq<string> {
    if FailedLate(calls) then Accepted(calls) + [Body(calls[|Accepted(calls)|].record)] else Accepted(calls)
  }

  ghost predicate FailedLate(calls: seq<Call>) {
    var k := |Accepted(calls)|;
    k < |calls| && IsRecord(calls[k].record) && LateAfterLast(calls[k].record, calls[k].events)
  }

  ghost function Incomplete(calls: seq<Call>): string { if FailedLate(calls) then "" else Leftover(calls) }

  /** Then, and only then, is the record that failed in the output completely. */
  lemma FailedLateIs(calls: seq<Call>)
    ensures var k := |Accepted(calls)|;
            FailedLate(calls) <==> k < |calls| && IsRecord(calls[k].record) && Leftover(calls) == calls[k].record
  {
    var k := |Accepted(calls)|;
    if k < |calls| && IsRecord(calls[k].record) {
      FailsComplete(calls[k].record, calls[k].events);
      assert calls[k].record[..|calls[k].record|] == calls[k].record;
    }
  }

  lemma OutputComplete(calls: seq<Call>)
    ensures WriteRun(Sink("", false), calls).0.output == Joined(Complete(calls)) + Incomplete(calls)
  {
    WriteExact(Sink("", false), calls);
    FailedLateIs(calls);
    var lines, partial := Accepted(calls), Leftover(calls);
    assert "" + Joined(lines) + partial == Joined(lines) + partial;
    if FailedLate(calls) {
      JoinedAppend(lines, Body(partial));
      NewlineLast(Joined(lines), partial);
    }
  }

  lemma NewlineLast(output: string, record: string)
    requires IsRecord(record)
    ensures output + Body(record) + "\n" + "" == output + record
  {
    assert Body(record) + "\n" == record;
  }

  lemma PiecesUnbroken(calls: seq<Call>)
    ensures Unbroken(Incomplete(calls)) && forall i | 0 <= i < |Complete(calls)| :: Unbroken(Complete(calls)[i])
  {
    var lines, partial := Accepted(calls), Leftover(calls);
    FailedLateIs(calls);
    if !FailedLate(calls) && partial != "" {
      var record := calls[|lines|].record;
      assert |partial| < |record|;
      assert partial <= Body(record);
    }
  }

  /** Reading the output of any run of the writer gives back exactly the lines completely written, if
      and only if each is within the reader's limit. */
  lemma ReadsBack(calls: seq<Call>, events: seq<PollEvent>, i: nat)
    requires var answers := Run(Opened(WriteRun(Sink("", false), calls).0.output), events).1; i < |answers| && Final(answers[i])
    ensures var answers := Run(Opened(WriteRun(Sink("", false), calls).0.output), events).1;
            && (Lines(answers) == Complete(calls) <==> Fitting(Complete(calls)))
            && Lines(answers) <= Complete(calls)
            && (answers[i] == End <==> Fitting(Complete(calls)) && Incomplete(calls) == "")
  {
    var output := WriteRun(Sink("", false), calls).0.output;
    OutputComplete(calls);
    PiecesUnbroken(calls);
    CutJoined(Complete(calls), Incomplete(calls));
    RunExact(output, events);
    assert Framed(output).0 == Complete(calls)[..Leading(Complete(calls))];
  }

  /** However a record one byte over the reader's limit is written, the reader refuses it. */
  lemma RefusedByReader(record: string, events: seq<WriteEvent>)
    requires record == seq(LINE_LIMIT + 1, i => 'a') + "\n"
    requires Sent(record, events).1 == Done
    ensures Succeeds(Call(record, events))
    ensures Framed(WriteRun(Sink("", false), [Call(record, events)]).0.output) == ([], TooLong)
  {
    var calls := [Call(record, events)];
    OutputComplete(calls);
    assert Unbroken(record[..|record| - 1]);
    var body := Body(record);
    assert calls[1..] == [];
    assert Accepted(calls) == [body];
    OverLong(body, "\n");
    assert Joined([body]) == body + "\n" + Joined([]);
    assert body + "\n" + "" + "" == body + "\n";
  }

  /** The two limits differ: this record is written in one turn, and refused. */
  lemma WriterTakesMore()
    ensures var record := seq(LINE_LIMIT + 1, i => 'a') + "\n";
            var calls := [Call(record, [WriteEvent(false, Wrote(LINE_LIMIT + 2), false, false, false)])];
            && WriteRun(Sink("", false), calls).1 == [Done]
            && Framed(WriteRun(Sink("", false), calls).0.output) == ([], TooLong)
  {
    var record := seq(LINE_LIMIT + 1, i => 'a') + "\n";
    var events := [WriteEvent(false, Wrote(LINE_LIMIT + 2), false, false, false)];
    assert Sent(record, events) == (|record|, Done);
    RefusedByReader(record, events);
    WriteExact(Sink("", false), [Call(record, events)]);
    assert WriteRun(Sink("", false), [Call(record, events)]).1[0] == Done;
  }

  // ---------------------------------------------------------------------------------------------
  // The object
  // ---------------------------------------------------------------------------------------------

  /** One turn of the loops of `read_request()` and `read_chunk()`. */
  datatype ReadEvent = StoppedFirst | Wait | Fails(stoppedAfter: bool) | Bytes(count: nat, stoppedAfter: bool)

  function Readings(events: seq<ReadEvent>): nat {
    if events == [] then 0 else Readings(events[..|events| - 1]) + (if events[|events| - 1].Bytes? then 1 else 0)
  }

  predicate Undisturbed(events: seq<ReadEvent>) {
    forall i | 0 <= i < |events| :: events[i] == Wait || (events[i].Bytes? && !events[i].stoppedAfter)
  }

  datatype Request = Whole(text: string) | Rejected(failure: Failure)

  /** How much of the input has been read after these turns. */
  function ReadTo(input: string, events: seq<ReadEvent>): (position: nat)
    ensures position <= |input|
  {
    if events == [] then 0 else
      var before, last := ReadTo(input, events[..|events| - 1]), events[|events| - 1];
      if last.Bytes? then before + |Available(input, before, last.count)| else before
  }

  /** After the last of these turns there is nothing to read for any more: it has seen a stop or failed, it
      is over the limit, or it is at the end. */
  predicate Decides(input: string, events: seq<ReadEvent>) {
    events != [] && match events[|events| - 1]
    case Wait => false
    case Bytes(_, stoppedAfter) =>
      stoppedAfter || ReadTo(input, events) > LINE_LIMIT || ReadTo(input, events[..|events| - 1]) == |input|
    case _ => true
  }

  /** The turns from number `k` on up to the first that decides; all of them if none does. */
  function Deciding(input: string, events: seq<ReadEvent>, k: nat): (n: nat)
    requires k <= |events|
    ensures k <= n <= |events| && (n < |events| ==> Decides(input, events[..n]))
    ensures forall i | k <= i < n :: !Decides(input, events[..i])
    decreases |events| - k
  {
    if k == |events| || Decides(input, events[..k]) then k else Deciding(input, events, k + 1)
  }

  /** One more turn. */
  lemma AfterTurn(input: string, events: seq<ReadEvent>, i: nat)
    requires i < |events| && forall k | 0 <= k <= i :: !Decides(input, events[..k])
    ensures var seen, before, last := events[..i + 1], ReadTo(input, events[..i]), events[i];
            && seen != [] && seen[|seen| - 1] == last
            && ReadTo(input, seen) == (if last.Bytes? then before + |Available(input, before, last.count)| else before)
            && (Decides(input, seen) <==>
                  || last.StoppedFirst? || last.Fails?
                  || (last.Bytes? && (last.stoppedAfter || ReadTo(input, seen) > LINE_LIMIT || before == |input|)))
            && (Decides(input, seen) ==> Deciding(input, events, 0) == i + 1)
  {
    assert events[..i + 1][..i] == events[..i];
  }

  /** What the answer is, and why. The stop that ends the wait comes when the turns are over. */
  ghost predicate Answers(input: string, seen: seq<ReadEvent>, r: Request) {
    if !Decides(input, seen) then r == Rejected(Cancelled) else
      var last := seen[|seen| - 1];
      && (r == Rejected(Cancelled) <==> last.StoppedFirst? || (!last.Wait? && last.stoppedAfter))
      && (r == Rejected(ReadFailed) <==> last == Fails(false))
      && (r == Rejected(InputTooLong) <==> last.Bytes? && !last.stoppedAfter && ReadTo(input, seen) > LINE_LIMIT)
      && (r.Whole? <==> last.Bytes? && !last.stoppedAfter && ReadTo(input, seen) <= LINE_LIMIT)
      && (r.Whole? ==> r.text == input)
  }

  /** Until a turn decides, every read brings something. */
  lemma {:induction false} ReadingsBring(input: string, events: seq<ReadEvent>)
    requires forall k | 0 <= k <= |events| :: !Decides(input, events[..k])
    ensures Readings(events) <= ReadTo(input, events)
    decreases |events|
  {
    if events != [] {
      var before := events[..|events| - 1];
      forall k | 0 <= k <= |before| ensures !Decides(input, before[..k]) { assert before[..k] == events[..k]; }
      ReadingsBring(input, before);
      assert events[..|events|] == events;
    }
  }

  /** What an answer says about the input; and an undisturbed reader with enough turns gets it all. */
  lemma RequestExact(input: string, events: seq<ReadEvent>, r: Request)
    requires Answers(input, events[..Deciding(input, events, 0)], r)
    ensures r.Whole? ==> ReadTo(input, events[..Deciding(input, events, 0)]) == |input| <= LINE_LIMIT
    ensures r == Rejected(InputTooLong) ==> |input| > LINE_LIMIT
    ensures Undisturbed(events) && Readings(events) > |input| ==>
              r == if |input| <= LINE_LIMIT then Whole(input) else Rejected(InputTooLong)
  {
    var n := Deciding(input, events, 0);
    if !Decides(input, events[..n]) {
      assert events[..n] == events;
      ReadingsBring(input, events);
    } else {
      AfterTurn(input, events, n - 1);
    }
  }

  class Transport {
    const input: string
    var position: nat
    var readCalls: nat
    var read: bool
    var lines: bool
    var inputEnded: bool
    var inputFailed: bool
    var lineBuffer: string
    var failed: bool
    var output: string

    ghost predicate Valid()
      reads this
    {
      position <= |input| && (!read && !lines ==> position == 0)
    }

    ghost function ReaderView(): Reader
      reads this
    {
      Reader(input, position, read, lines, inputEnded, inputFailed, lineBuffer, readCalls)
    }

    ghost function SinkView(): Sink
      reads this
    {
      Sink(output, failed)
    }

    constructor (input: string)
      ensures Valid() && ReaderView() == Opened(input) && SinkView() == Sink("", false)
    {
      this.input, position, readCalls := input, 0, 0;
      read, lines, inputEnded, inputFailed, lineBuffer := false, false, false, false, "";
      failed, output := false, "";
    }

    /** `buffered_line()` with its caller's bookkeeping. */
    method Serve() returns (answer: Answer)
      modifies this`lineBuffer, this`inputFailed
      ensures (ReaderView(), answer) == Served(old(ReaderView()))
    {
      var newline := Find(lineBuffer);
      if newline < |lineBuffer| {
        if newline > LINE_LIMIT {
          inputFailed := true;
          return Error(LineTooLong);
        }
        answer := Line(lineBuffer[..newline]);
        lineBuffer := lineBuffer[newline + 1..];
        return;
      }
      if |lineBuffer| > LINE_LIMIT {
        inputFailed := true;
        return Error(LineTooLong);
      }
      if inputEnded && lineBuffer != "" {
        inputFailed := true;
        return Error(EndedEarly);
      }
      return if inputEnded then End else Idle;
    }

    method PollLine(e: PollEvent) returns (answer: Answer)
      requires Valid()
      modifies this`position, this`readCalls, this`lines, this`inputEnded, this`inputFailed, this`lineBuffer
      ensures Valid() && (ReaderView(), answer) == Polled(old(ReaderView()), e)
      ensures AnswersPoll(old(ReaderView()), e, ReaderView(), answer)
    {
      PollExactly(ReaderView(), e);
      if read || inputFailed {
        return Error(Unavailable);
      }
      lines := true;
      if e.stoppedBefore {
        return Error(Cancelled);
      }
      answer := Serve();
      if answer != Idle {
        return;
      }
      if e.stoppedAfter {
        return Error(Cancelled);
      }
      if e.poll != Ready {
        return if e.poll == Nothing then Idle else Error(ReadFailed);
      }
      answer := Receive(e.read);
    }

    /** The part of `poll_line()` from the read on. */
    method Receive(read: Read) returns (answer: Answer)
      requires Valid() && lines
      modifies this`position, this`readCalls, this`inputEnded, this`inputFailed, this`lineBuffer
      ensures Valid() && (ReaderView(), answer) == Received(old(ReaderView()), read)
    {
      readCalls := readCalls + 1;
      if !read.Chunk? {
        return if read == Again then Idle else Error(ReadFailed);
      }
      var chunk := Available(input, position, read.count);
      position := position + |chunk|;
      inputEnded := chunk == "";
      lineBuffer := lineBuffer + chunk;
      assert ReaderView() == Fed(old(ReaderView()).(readCalls := readCalls), read.count);
      answer := Serve();
    }

    /** `read_request()`: all of the input, if it is within the limit, for every way it arrives. The
        stop that ends the wait comes when the events are over. */
    method ReadRequest(events: seq<ReadEvent>) returns (r: Request)
      requires Valid()
      modifies this`read, this`position, this`readCalls
      ensures Valid()
      ensures old(read || lines || failed) ==> r == Rejected(Unavailable) && ReaderView() == old(ReaderView())
      ensures !old(read || lines || failed) ==> read && position <= LINE_LIMIT + CHUNK
      ensures r.Whole? ==> r.text == input && position == |input| <= LINE_LIMIT
      ensures r == Rejected(InputTooLong) ==> |input| > LINE_LIMIT
      ensures !old(read || lines || failed) ==>
                var seen := events[..Deciding(input, events, 0)]; position == ReadTo(input, seen) && Answers(input, seen, r)
      ensures !old(read || lines || failed) && Undisturbed(events) && Readings(events) > |input| ==>
                r == if |input| <= LINE_LIMIT then Whole(input) else Rejected(InputTooLong)
    {
      if read || lines || failed {
        return Rejected(Unavailable);
      }
      read := true;
      r := ReadAll(events);
      RequestExact(input, events, r);
    }

    /** The loop of `read_request()`. */
    method ReadAll(events: seq<ReadEvent>) returns (r: Request)
      requires Valid() && read && position == 0
      modifies this`position, this`readCalls
      ensures Valid() && position <= LINE_LIMIT + CHUNK
      ensures var seen := events[..Deciding(input, events, 0)]; position == ReadTo(input, seen) && Answers(input, seen, r)
    {
      var text := "";
      for i := 0 to |events|
        invariant Valid() && read && text == input[..position] && |text| <= LINE_LIMIT
        invariant position == ReadTo(input, events[..i]) && forall k | 0 <= k <= i :: !Decides(input, events[..k])
      {
        AfterTurn(input, events, i);
        match events[i]
        case StoppedFirst => return Rejected(Cancelled);
        case Wait =>
        case Fails(stoppedAfter) => return Rejected(if stoppedAfter then Cancelled else ReadFailed);
        case Bytes(count, stoppedAfter) =>
          var chunk := Available(input, position, count);
          position, readCalls := position + |chunk|, readCalls + 1;
          if stoppedAfter {
            return Rejected(Cancelled);
          }
          if |chunk| > LINE_LIMIT - |text| {
            return Rejected(InputTooLong);
          }
          if chunk == "" {
            return Whole(text);
          }
          text := text + chunk;
      }
      return Rejected(Cancelled);
    }

    /** `write_all()`. */
    method WriteAll(record: string, events: seq<WriteEvent>) returns (outcome: Outcome)
      modifies this`output
      ensures var (n, end) := Sent(record, events); output == old(output) + record[..n] && outcome == end
    {
      var left := record;
      var i := 0;
      ghost var gone := 0;
      while left != ""
        invariant 0 <= i <= |events| && gone + |left| == |record| && left == record[gone..]
        invariant output == old(output) + record[..gone]
        invariant Sent(record, events) == (gone + Sent(left, events[i..]).0, Sent(left, events[i..]).1)
        decreases |events| - i
      {
        if i == |events| || events[i].lateBefore {
          return Gave(OutputFailed);
        }
        assert events[i..][1..] == events[i + 1..];
        if events[i].write == WriteBroken {
          return Gave(OutputFailed);
        }
        var n := Taken(left, events[i].write);
        Resent(record, gone, n);
        assert old(output) + record[..gone] + left[..n] == old(output) + record[..gone + n];
        output := output + left[..n];
        if events[i].lateAfter {
          return Gave(OutputFailed);
        }
        if n == |left| {
          return Done;
        }
        if events[i].stopped {
          return Gave(Cancelled);
        }
        if events[i].pollFails {
          return Gave(OutputFailed);
        }
        left, gone, i := left[n..], gone + n, i + 1;
      }
      return Done;
    }

    method WriteRecord(record: string, events: seq<WriteEvent>) returns (outcome: Outcome)
      modifies this`output, this`failed
      ensures (SinkView(), outcome) == Recorded(old(SinkView()), record, events)
    {
      if failed || !IsRecord(record) {
        failed := true;
        return Gave(BadRecord);
      }
      failed := true;
      outcome := WriteAll(record, events);
      if outcome == Done {
        failed := false;
      }
    }
  }

  lemma Resent(record: string, gone: nat, n: nat)
    requires gone + n <= |record|
    ensures record[gone..][..n] == record[gone..gone + n]
    ensures record[gone..][n..] == record[gone + n..]
    ensures record[..gone] + record[gone..][..n] == record[..gone + n]
  {
  }
}
