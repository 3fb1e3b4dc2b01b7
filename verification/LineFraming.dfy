/** Newline framing, stated on a whole stream of bytes at once: which lines a reader with a line limit
    takes from it, and how it ends. This is the reference that `src/adapters/agent_transport.cpp` is
    compared with, and does not mention chunks or buffers. */
module LineFraming {

  /** `agent_maximum_input_bytes`. */
  const LINE_LIMIT: nat := 1024 * 1024

  predicate Unbroken(line: string) { '\n' !in line }

  /** The lines written out, each with its newline. */
  function Joined(lines: seq<string>): string {
    if lines == [] then "" else lines[0] + "\n" + Joined(lines[1..])
  }

  ghost predicate Fitting(lines: seq<string>) {
    forall i | 0 <= i < |lines| :: Unbroken(lines[i]) && |lines[i]| <= LINE_LIMIT
  }

  /** The lines of a stream, and what follows its last newline. */
  function Cut(s: string): (r: (seq<string>, string))
    ensures Joined(r.0) + r.1 == s
    ensures Unbroken(r.1) && forall i | 0 <= i < |r.0| :: Unbroken(r.0[i])
  {
    if s == "" then ([], "") else
      var (lines, tail) := Cut(s[1..]);
      if s[0] == '\n' then ([""] + lines, tail)
      else if lines == [] then ([], [s[0]] + tail)
      else
        var first := [s[0]] + lines[0];
        assert ([first] + lines[1..])[1..] == lines[1..];
        ([first] + lines[1..], tail)
  }

  datatype Ending = Clean | Truncated | TooLong

  /** How many lines come before the first one over the limit. */
  function Leading(lines: seq<string>): (k: nat)
    ensures k <= |lines| && (forall i | 0 <= i < k :: |lines[i]| <= LINE_LIMIT)
    ensures k < |lines| ==> |lines[k]| > LINE_LIMIT
  {
    if lines == [] || |lines[0]| > LINE_LIMIT then 0 else 1 + Leading(lines[1..])
  }

  /** What a reader is to make of a whole stream: the lines it gets, and then how it ends. */
  function Framed(s: string): (seq<string>, Ending) {
    var (lines, tail) := Cut(s);
    var k := Leading(lines);
    (lines[..k], if k < |lines| || |tail| > LINE_LIMIT then TooLong else if tail == "" then Clean else Truncated)
  }

  lemma {:induction false} JoinedAppend(a: seq<string>, line: string)
    ensures Joined(a + [line]) == Joined(a) + line + "\n"
  {
    if a == [] {
      assert a + [line] == [line];
    } else {
      assert (a + [line])[1..] == a[1..] + [line];
      JoinedAppend(a[1..], line);
    }
  }

  /** A first line stays in front of whatever the rest is cut into. */
  lemma {:induction false} CutLine(line: string, rest: string)
    requires Unbroken(line)
    ensures Cut(line + "\n" + rest) == ([line] + Cut(rest).0, Cut(rest).1)
    decreases |line|
  {
    var s := line + "\n" + rest;
    if line == "" {
      assert s[1..] == rest;
    } else {
      CutLine(line[1..], rest);
      CutCharacter(line[0], line[1..] + "\n" + rest);
      assert s == [line[0]] + (line[1..] + "\n" + rest);
      assert [line[0]] + line[1..] == line;
      assert ([line[1..]] + Cut(rest).0)[1..] == Cut(rest).0;
    }
  }

  lemma CutCharacter(c: char, rest: string)
    requires c != '\n' && Cut(rest).0 != []
    ensures var (lines, tail) := Cut(rest); Cut([c] + rest) == ([[c] + lines[0]] + lines[1..], tail)
  {
    assert ([c] + rest)[1..] == rest;
  }

  lemma {:induction false} CutTail(tail: string)
    requires Unbroken(tail)
    ensures Cut(tail) == ([], tail)
  {
    if tail != "" {
      CutTail(tail[1..]);
      assert [tail[0]] + tail[1..] == tail;
    }
  }

  /** There is only one way to cut a stream: what was joined is what is found. */
  lemma {:induction false} CutJoined(lines: seq<string>, tail: string)
    requires Unbroken(tail) && forall i | 0 <= i < |lines| :: Unbroken(lines[i])
    ensures Cut(Joined(lines) + tail) == (lines, tail)
  {
    if lines == [] {
      CutTail(tail);
      assert Joined(lines) + tail == tail;
    } else {
      CutJoined(lines[1..], tail);
      CutLine(lines[0], Joined(lines[1..]) + tail);
      assert Joined(lines) + tail == lines[0] + "\n" + (Joined(lines[1..]) + tail);
      assert [lines[0]] + lines[1..] == lines;
    }
  }

  /** Lines within the limit at the front of a stream are taken, whatever follows them. */
  lemma {:induction false} FramedPrefix(lines: seq<string>, rest: string)
    requires Fitting(lines)
    ensures Framed(Joined(lines) + rest) == (lines + Framed(rest).0, Framed(rest).1)
  {
    if lines == [] {
      assert Joined(lines) + rest == rest;
      assert lines + Framed(rest).0 == Framed(rest).0;
    } else {
      var tail := Joined(lines[1..]) + rest;
      FramedPrefix(lines[1..], rest);
      FramedLine(lines[0], tail);
      JoinedSplit(lines, rest);
      Regroup(lines, Framed(rest).0);
    }
  }

  lemma JoinedSplit(lines: seq<string>, rest: string)
    requires lines != []
    ensures Joined(lines) + rest == lines[0] + "\n" + (Joined(lines[1..]) + rest)
  {
  }

  lemma Regroup(lines: seq<string>, more: seq<string>)
    requires lines != []
    ensures [lines[0]] + (lines[1..] + more) == lines + more
  {
  }

  lemma FramedLine(line: string, rest: string)
    requires Unbroken(line) && |line| <= LINE_LIMIT
    ensures Framed(line + "\n" + rest) == ([line] + Framed(rest).0, Framed(rest).1)
  {
    CutLine(line, rest);
    LeadingLine(line, Cut(rest).0);
  }

  lemma LeadingLine(line: string, lines: seq<string>)
    requires |line| <= LINE_LIMIT
    ensures Leading([line] + lines) == 1 + Leading(lines)
    ensures ([line] + lines)[..1 + Leading(lines)] == [line] + lines[..Leading(lines)]
  {
    assert ([line] + lines)[1..] == lines;
  }

  /** Once more than a limit's worth of bytes has come without a newline, nothing that follows helps. */
  lemma OverLong(head: string, rest: string)
    requires Unbroken(head) && |head| > LINE_LIMIT
    ensures Framed(head + rest) == ([], TooLong)
  {
    var (lines, tail) := Cut(rest);
    if lines == [] {
      assert rest == tail;
      CutTail(head + tail);
    } else {
      var longer := [head + lines[0]] + lines[1..];
      assert longer[1..] == lines[1..];
      assert head + rest == Joined(longer) + tail;
      CutJoined(longer, tail);
      assert Leading(longer) == 0;
    }
  }
}
