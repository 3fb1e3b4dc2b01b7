/** `parse_processes` of `evaluation/process_isolation/linux_support.cpp`: the process numbers in a
    `cgroup.procs` document, sorted, or nothing if the document is not such a list or repeats one. */
module ProcessList {
  import opened Wrappers
  import opened Decimal

  const INT_MAX: int := 0x7FFF_FFFF

  type Pid = p: int | 0 < p <= INT_MAX witness 1

  predicate IsBlank(c: char) { c == ' ' || c == '\n' }

  function SkipBlanks(s: string, i: nat): (end: nat)
    requires i <= |s|
    ensures i <= end <= |s| && (end < |s| ==> !IsBlank(s[end]))
    decreases |s| - i
  {
    if i == |s| || !IsBlank(s[i]) then i else SkipBlanks(s, i + 1)
  }

  /** The numbers from `cursor` on, in document order. */
  function Scan(s: string, cursor: nat): Option<seq<Pid>>
    requires cursor <= |s|
    decreases |s| - cursor
  {
    var start := SkipBlanks(s, cursor);
    if start == |s| then Some([]) else
      match FromChars(s, start)
      case None => None
      case Some((value, next)) =>
        if value <= 0 || value > INT_MAX || (next != |s| && s[next] != '\n') then None
        else Prepend([value], Scan(s, next))
  }

  function Prepend(pids: seq<Pid>, rest: Option<seq<Pid>>): Option<seq<Pid>> {
    match rest case None => None case Some(more) => Some(pids + more)
  }

  function Insert(p: Pid, sorted: seq<Pid>): seq<Pid> {
    if sorted == [] || p <= sorted[0] then [p] + sorted else [sorted[0]] + Insert(p, sorted[1..])
  }

  function Sort(pids: seq<Pid>): seq<Pid> {
    if pids == [] then [] else Insert(pids[0], Sort(pids[1..]))
  }

  predicate Sorted(s: seq<Pid>) { forall i, j | 0 <= i < j < |s| :: s[i] <= s[j] }

  predicate Distinct(s: seq<Pid>) { forall i, j | 0 <= i < j < |s| :: s[i] != s[j] }

  predicate AdjacentRepeat(s: seq<Pid>) { exists i | 0 < i < |s| :: s[i - 1] == s[i] }

  lemma {:induction false} InsertCounts(p: Pid, s: seq<Pid>)
    ensures multiset(Insert(p, s)) == multiset(s) + multiset{p}
  {
    if s != [] && s[0] < p {
      InsertCounts(p, s[1..]);
      assert s == [s[0]] + s[1..];
    }
  }

  lemma {:induction false} InsertSorts(p: Pid, s: seq<Pid>, least: Pid)
    requires Sorted(s) && least <= p && forall i | 0 <= i < |s| :: least <= s[i]
    ensures var r := Insert(p, s); Sorted(r) && forall i | 0 <= i < |r| :: least <= r[i]
  {
    if s != [] && s[0] < p {
      InsertSorts(p, s[1..], s[0]);
    }
  }

  /** The result is sorted and has the same numbers, each as often. */
  lemma {:induction false} SortSorts(pids: seq<Pid>)
    ensures Sorted(Sort(pids)) && multiset(Sort(pids)) == multiset(pids)
  {
    if pids != [] {
      var rest := pids[1..];
      assert pids == [pids[0]] + rest;
      SortSorts(rest);
      InsertCounts(pids[0], Sort(rest));
      InsertSorts(pids[0], Sort(rest), 1);
    }
  }

  lemma {:induction false} DistinctByCount(s: seq<Pid>)
    ensures Distinct(s) <==> forall p | p in multiset(s) :: multiset(s)[p] == 1
  {
    if s != [] {
      var last, front := s[|s| - 1], s[..|s| - 1];
      assert s == front + [last];
      DistinctByCount(front);
      if Distinct(s) {
        assert last !in front;
        assert Distinct(front);
      } else if Distinct(front) {
        var i :| 0 <= i < |front| && s[i] == last;
        assert front[i] == last;
        assert multiset(s)[last] >= 2;
      } else {
        var p :| p in multiset(front) && multiset(front)[p] != 1;
        assert multiset(s)[p] >= 2;
      }
    }
  }

  /** In a sorted list, looking at neighbours finds every repeat. */
  lemma NeighboursSuffice(pids: seq<Pid>)
    ensures AdjacentRepeat(Sort(pids)) <==> !Distinct(pids)
  {
    var s := Sort(pids);
    SortSorts(pids);
    DistinctByCount(pids);
    DistinctByCount(s);
    if !Distinct(s) {
      var i, j :| 0 <= i < j < |s| && s[i] == s[j];
      assert s[i] <= s[i + 1] <= s[j];
      assert 0 < i + 1 < |s| && s[i + 1 - 1] == s[i + 1];
    }
  }

  /** What the parser answers. */
  function Parsed(document: string): Option<seq<Pid>> {
    match Scan(document, 0)
    case None => None
    case Some(pids) => if Distinct(pids) then Some(Sort(pids)) else None
  }

  lemma ScanBlank(s: string, cursor: nat)
    requires cursor < |s| && IsBlank(s[cursor])
    ensures Scan(s, cursor) == Scan(s, cursor + 1)
  {
  }

  lemma PrependTwice(a: seq<Pid>, b: seq<Pid>, rest: Option<seq<Pid>>)
    ensures Prepend(a, Prepend(b, rest)) == Prepend(a + b, rest)
  {
    if rest.Some? { assert a + (b + rest.value) == (a + b) + rest.value; }
  }

  lemma PrependNothing(rest: Option<seq<Pid>>)
    ensures Prepend([], rest) == rest
  {
    if rest.Some? { assert [] + rest.value == rest.value; }
  }

  /** A number that is not blank and in range is the next one of the scan. */
  lemma ScanNumber(s: string, cursor: nat, value: Pid, next: nat)
    requires cursor < |s| && !IsBlank(s[cursor]) && FromChars(s, cursor) == Some((value, next))
    requires next == |s| || s[next] == '\n'
    ensures Scan(s, cursor) == Prepend([value], Scan(s, next))
  {
  }

  // ---------------------------------------------------------------------------------------------
  // The documents it accepts
  // ---------------------------------------------------------------------------------------------

  predicate AllBlank(s: string) { forall i | 0 <= i < |s| :: IsBlank(s[i]) }

  /** A number, without a sign, and the blanks after it. */
  datatype Entry = Entry(token: string, gap: string)

  function Text(entries: seq<Entry>): string {
    if entries == [] then "" else entries[0].token + entries[0].gap + Text(entries[1..])
  }

  /** The entries are these numbers; each but the last is followed by a line feed and then any blanks,
      and the last by that or by nothing. */
  ghost predicate Numbered(entries: seq<Entry>, pids: seq<Pid>) {
    && |entries| == |pids|
    && (forall i | 0 <= i < |entries| ::
          && entries[i].token != "" && AllDigits(entries[i].token) && Value(entries[i].token) == pids[i]
          && AllBlank(entries[i].gap) && (entries[i].gap != "" ==> entries[i].gap[0] == '\n'))
    && (forall i | 0 <= i < |entries| - 1 :: entries[i].gap != "")
  }

  /** The document is a list of these numbers: blanks, and then entries. */
  ghost predicate Lists(document: string, pids: seq<Pid>) {
    exists lead, entries :: AllBlank(lead) && Numbered(entries, pids) && document == lead + Text(entries)
  }

  lemma {:induction false} SkipBlanksIs(s: string, i: nat, end: nat)
    requires i <= end <= |s| && AllBlank(s[i..end]) && (end < |s| ==> !IsBlank(s[end]))
    ensures SkipBlanks(s, i) == end
    decreases end - i
  {
    if i < end {
      assert IsBlank(s[i..end][0]);
      assert s[i + 1..end] == s[i..end][1..];
      SkipBlanksIs(s, i + 1, end);
    }
  }

  lemma {:induction false} SkippedBlank(s: string, i: nat)
    requires i <= |s|
    ensures AllBlank(s[i..SkipBlanks(s, i)])
    decreases |s| - i
  {
    if i < |s| && IsBlank(s[i]) {
      SkippedBlank(s, i + 1);
      assert s[i..SkipBlanks(s, i)] == [s[i]] + s[i + 1..SkipBlanks(s, i)];
    }
  }

  /** A run of digits in range, where something else or nothing follows, is read as its value. */
  lemma TokenRead(s: string, start: nat, next: nat, value: Pid)
    requires start < next <= |s| && AllDigits(s[start..next]) && Value(s[start..next]) == value
    requires next < |s| ==> s[next] == '\n'
    ensures FromChars(s, start) == Some((value, next)) && !IsBlank(s[start])
  {
    assert s[start] == s[start..next][0];
    RunEndIs(s, start, next);
  }

  lemma ScanToken(s: string, cursor: nat, value: Pid, next: nat)
    requires cursor <= |s| && SkipBlanks(s, cursor) < |s| && FromChars(s, SkipBlanks(s, cursor)) == Some((value, next))
    requires next == |s| || s[next] == '\n'
    ensures Scan(s, cursor) == Prepend([value], Scan(s, next))
  {
  }

  lemma AfterLead(s: string, cursor: nat, lead: string, rest: string)
    requires cursor <= |s| && s[cursor..] == lead + rest
    ensures cursor + |lead| <= |s| && s[cursor + |lead|..] == rest && s[cursor..cursor + |lead|] == lead
  {
    var tail := s[cursor..];
    assert |s| - cursor == |lead| + |rest|;
    forall i | 0 <= i < |rest| ensures s[cursor + |lead|..][i] == rest[i] { assert tail[|lead| + i] == (lead + rest)[|lead| + i]; }
    forall i | 0 <= i < |lead| ensures s[cursor..cursor + |lead|][i] == lead[i] { assert tail[i] == (lead + rest)[i]; }
  }

  lemma SplitAt(s: string, start: nat, next: nat)
    requires start <= next <= |s|
    ensures s[start..] == s[start..next] + s[next..]
  {
    forall i | 0 <= i < |s| - start ensures s[start..][i] == (s[start..next] + s[next..])[i] {}
  }

  /** A list is scanned as its numbers. */
  lemma {:induction false} ListScanned(s: string, cursor: nat, lead: string, entries: seq<Entry>, pids: seq<Pid>)
    requires cursor <= |s| && s[cursor..] == lead + Text(entries) && AllBlank(lead) && Numbered(entries, pids)
    ensures Scan(s, cursor) == Some(pids)
    decreases |entries|
  {
    var start := cursor + |lead|;
    AfterLead(s, cursor, lead, Text(entries));
    if entries == [] {
      SkipBlanksIs(s, cursor, start);
    } else {
      var gap, next := entries[0].gap, start + |entries[0].token|;
      EntrySplit(s, start, entries);
      RestNumbered(entries, pids);
      if next < |s| { NextIsLineFeed(s, next, gap, entries[1..]); }
      TokenRead(s, start, next, pids[0]);
      SkipBlanksIs(s, cursor, start);
      ScanToken(s, cursor, pids[0], next);
      ListScanned(s, next, gap, entries[1..], pids[1..]);
      assert [pids[0]] + pids[1..] == pids;
    }
  }

  lemma EntrySplit(s: string, start: nat, entries: seq<Entry>)
    requires start <= |s| && entries != [] && s[start..] == Text(entries)
    ensures var next := start + |entries[0].token|;
            next <= |s| && s[start..next] == entries[0].token && s[next..] == entries[0].gap + Text(entries[1..])
  {
    var token, rest := entries[0].token, entries[0].gap + Text(entries[1..]);
    assert s[start..] == token + rest;
    assert s[start..][..|token|] == token && s[start..][|token|..] == rest;
  }

  lemma NextIsLineFeed(s: string, next: nat, gap: string, rest: seq<Entry>)
    requires next < |s| && s[next..] == gap + Text(rest) && (rest != [] ==> gap != "") && (gap != "" ==> gap[0] == '\n')
    ensures s[next] == '\n'
  {
    assert s[next] == s[next..][0];
  }

  lemma RestNumbered(entries: seq<Entry>, pids: seq<Pid>)
    requires entries != [] && Numbered(entries, pids)
    ensures Numbered(entries[1..], pids[1..]) && (entries[1..] != [] ==> entries[0].gap != "")
  {
  }

  /** What is scanned is a list of the numbers found. */
  lemma {:induction false} ScannedLists(s: string, cursor: nat, pids: seq<Pid>)
    requires cursor <= |s| && Scan(s, cursor) == Some(pids)
    ensures Lists(s[cursor..], pids)
    decreases |s| - cursor
  {
    var start := SkipBlanks(s, cursor);
    var lead := s[cursor..start];
    SkippedBlank(s, cursor);
    assert s[cursor..] == lead + s[start..];
    if start == |s| {
      assert Numbered([], []) && s[cursor..] == lead + Text([]);
    } else {
      var (value, next) := FromChars(s, start).value;
      ScannedLists(s, next, pids[1..]);
      var gap, entries :| AllBlank(gap) && Numbered(entries, pids[1..]) && s[next..] == gap + Text(entries);
      GapBegins(s, next, gap, entries, pids[1..]);
      FirstEntry(s, start, next, value, gap, entries, pids);
    }
  }

  /** A line feed follows the number, so the blanks before the next one begin with it. */
  lemma GapBegins(s: string, next: nat, gap: string, entries: seq<Entry>, pids: seq<Pid>)
    requires next <= |s| && s[next..] == gap + Text(entries) && Numbered(entries, pids)
    requires next < |s| ==> s[next] == '\n'
    ensures (gap != "" ==> gap[0] == '\n') && (entries != [] ==> gap != "")
  {
    if next < |s| { assert s[next] == s[next..][0]; }
    TextBegins(entries, pids);
  }

  lemma TextBegins(entries: seq<Entry>, pids: seq<Pid>)
    requires Numbered(entries, pids)
    ensures entries != [] ==> Text(entries) != "" && IsDigit(Text(entries)[0])
  {
    if entries != [] { assert Text(entries)[0] == entries[0].token[0]; }
  }

  lemma FirstEntry(s: string, start: nat, next: nat, value: Pid, gap: string, entries: seq<Entry>, pids: seq<Pid>)
    requires start < |s| && FromChars(s, start) == Some((value, next)) && pids != [] && pids[0] == value
    requires AllBlank(gap) && Numbered(entries, pids[1..]) && s[next..] == gap + Text(entries)
    requires (gap != "" ==> gap[0] == '\n') && (entries != [] ==> gap != "")
    ensures exists all :: Numbered(all, pids) && s[start..] == Text(all)
  {
    var all := [Entry(s[start..next], gap)] + entries;
    assert all[1..] == entries;
    SplitAt(s, start, next);
    assert Text(all) == s[start..next] + gap + Text(entries) == s[start..next] + (gap + Text(entries));
    FirstNumbered(Entry(s[start..next], gap), entries, value, pids);
  }

  lemma FirstNumbered(first: Entry, entries: seq<Entry>, value: Pid, pids: seq<Pid>)
    requires pids != [] && pids[0] == value && Numbered(entries, pids[1..])
    requires first.token != "" && AllDigits(first.token) && Value(first.token) == value && AllBlank(first.gap)
    requires (first.gap != "" ==> first.gap[0] == '\n') && (entries != [] ==> first.gap != "")
    ensures Numbered([first] + entries, pids)
  {
  }

  /** Accepted are exactly the lists of different numbers, and the answer is the numbers sorted. */
  lemma ParsedExact(document: string, answer: seq<Pid>)
    ensures Parsed(document) == Some(answer) <==>
              exists pids :: Lists(document, pids) && Distinct(pids) && answer == Sort(pids)
  {
    assert document[0..] == document;
    if Scan(document, 0).Some? { ScannedLists(document, 0, Scan(document, 0).value); }
    forall pids | Lists(document, pids) ensures Scan(document, 0) == Some(pids) {
      var lead, entries :| AllBlank(lead) && Numbered(entries, pids) && document == lead + Text(entries);
      ListScanned(document, 0, lead, entries, pids);
    }
  }

  lemma ParsedIsList(document: string)
    ensures Parsed(document).Some? <==> exists pids :: Lists(document, pids) && Distinct(pids)
    ensures forall pids | Lists(document, pids) && Distinct(pids) :: Parsed(document) == Some(Sort(pids))
  {
    if Parsed(document).Some? { ParsedExact(document, Parsed(document).value); }
    forall pids | Lists(document, pids) && Distinct(pids) ensures Parsed(document) == Some(Sort(pids)) {
      ParsedExact(document, Sort(pids));
    }
  }

  /** `parse_processes`, with the cursor in a variable. */
  method ParseProcesses(document: string) returns (r: Option<seq<Pid>>)
    ensures r == Parsed(document)
    ensures r.Some? <==> exists pids :: Lists(document, pids) && Distinct(pids)
    ensures forall pids | Lists(document, pids) && Distinct(pids) :: r == Some(Sort(pids))
  {
    ParsedIsList(document);
    var result: seq<Pid> := [];
    var cursor := 0;
    PrependNothing(Scan(document, 0));
    while cursor != |document|
      invariant 0 <= cursor <= |document|
      invariant Scan(document, 0) == Prepend(result, Scan(document, cursor))
      decreases |document| - cursor
    {
      while cursor != |document| && IsBlank(document[cursor])
        invariant 0 <= cursor <= |document|
        invariant Scan(document, 0) == Prepend(result, Scan(document, cursor))
        decreases |document| - cursor
      {
        ScanBlank(document, cursor);
        cursor := cursor + 1;
      }
      if cursor == |document| {
        break;
      }
      ghost var before := cursor;
      var parsed := FromChars(document, cursor);
      if parsed.None? || parsed.value.0 <= 0 || parsed.value.0 > INT_MAX {
        return None;
      }
      var value: Pid := parsed.value.0;
      cursor := parsed.value.1;
      if cursor != |document| && document[cursor] != '\n' {
        return None;
      }
      ScanNumber(document, before, value, cursor);
      PrependTwice(result, [value], Scan(document, cursor));
      result := result + [value];
    }
    assert result + [] == result;
    NeighboursSuffice(result);
    result := Sort(result);
    if AdjacentRepeat(result) {
      return None;
    }
    return Some(result);
  }

  /** A `cgroup.procs` document: one number a line. */
  function Document(pids: seq<Pid>): string {
    if pids == [] then "" else Print(pids[0]) + "\n" + Document(pids[1..])
  }

  function Printed(pids: seq<Pid>): seq<Entry> {
    if pids == [] then [] else [Entry(Print(pids[0]), "\n")] + Printed(pids[1..])
  }

  lemma {:induction false} DocumentLists(pids: seq<Pid>)
    ensures Numbered(Printed(pids), pids) && Text(Printed(pids)) == Document(pids)
  {
    if pids != [] {
      DocumentLists(pids[1..]);
      ValueOfPrint(pids[0]);
      assert Printed(pids)[1..] == Printed(pids[1..]);
      FirstNumbered(Entry(Print(pids[0]), "\n"), Printed(pids[1..]), pids[0], pids);
    }
  }

  /** A printed list comes back sorted, exactly when it repeats nothing. */
  lemma DocumentRoundTrip(pids: seq<Pid>)
    ensures Parsed(Document(pids)) == if Distinct(pids) then Some(Sort(pids)) else None
  {
    DocumentLists(pids);
    assert Document(pids)[0..] == "" + Text(Printed(pids));
    ListScanned(Document(pids), 0, "", Printed(pids), pids);
  }
}
