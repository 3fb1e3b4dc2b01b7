/** Duplicate field detection while a JSON document is parsed: the callback of `parse_json` in
    `evaluation/audio_device/evidence.cpp`, which every evidence decoder of the repository shares.

    The parser is represented by the events it reports for a document; the callback keeps one set of
    names for every object that is open. Uniqueness is that of section 4 of RFC 8259. */
module JsonKeys {
  import opened Wrappers

  /** A document as its text has it: an object is a list of members, and names may repeat. */
  datatype Json = Scalar | Array(items: seq<Json>) | Object(members: seq<Member>)
  datatype Member = Member(name: string, value: Json)

  datatype Event = ObjectStart | Key(name: string) | ObjectEnd | ArrayStart | ArrayEnd | Value

  /** What the parser reports. */
  function Events(j: Json): seq<Event> {
    match j
    case Scalar => [Value]
    case Array(items) => [ArrayStart] + ItemEvents(items) + [ArrayEnd]
    case Object(members) => [ObjectStart] + MemberEvents(members) + [ObjectEnd]
  }

  function ItemEvents(items: seq<Json>): seq<Event> {
    if items == [] then [] else Events(items[0]) + ItemEvents(items[1..])
  }

  function MemberEvents(members: seq<Member>): seq<Event> {
    if members == [] then [] else [Key(members[0].name)] + Events(members[0].value) + MemberEvents(members[1..])
  }

  /** The names of one object's members, in order. */
  function Names(members: seq<Member>): (names: seq<string>)
    ensures |names| == |members| && forall i | 0 <= i < |names| :: names[i] == members[i].name
  {
    seq(|members|, i requires 0 <= i < |members| => members[i].name)
  }

  /** The names of every object in the document, at any depth. */
  function Objects(j: Json): set<seq<string>> {
    match j
    case Scalar => {}
    case Array(items) => set i, names | 0 <= i < |items| && names in Objects(items[i]) :: names
    case Object(members) => {Names(members)} + MemberObjects(members)
  }

  function MemberObjects(members: seq<Member>): set<seq<string>> {
    set i, names | 0 <= i < |members| && names in Objects(members[i].value) :: names
  }

  ghost predicate Distinct(names: seq<string>) { forall i, j | 0 <= i < j < |names| :: names[i] != names[j] }

  /** No object of the document repeats a name. */
  ghost predicate Unique(j: Json) { forall names | names in Objects(j) :: Distinct(names) }

  /** The callback on one event: the sets of the open objects, innermost last, or the exception. */
  function Step(stack: seq<set<string>>, e: Event): Option<seq<set<string>>> {
    match e
    case ObjectStart => Some(stack + [{}])
    case Key(name) =>
      if stack == [] || name in stack[|stack| - 1] then None
      else Some(stack[|stack| - 1 := stack[|stack| - 1] + {name}])
    case ObjectEnd => Some(if stack == [] then stack else stack[..|stack| - 1])
    case _ => Some(stack)
  }

  function Run(stack: seq<set<string>>, events: seq<Event>): Option<seq<set<string>>>
    decreases |events|
  {
    if events == [] then Some(stack) else
      match Step(stack, events[0])
      case None => None
      case Some(next) => Run(next, events[1..])
  }

  lemma {:induction false} RunAppend(stack: seq<set<string>>, a: seq<Event>, b: seq<Event>)
    ensures Run(stack, a + b) == match Run(stack, a) case None => None case Some(next) => Run(next, b)
    decreases |a|
  {
    if a == [] {
      assert a + b == b;
    } else {
      assert (a + b)[1..] == a[1..] + b;
      if Step(stack, a[0]).Some? { RunAppend(Step(stack, a[0]).value, a[1..], b); }
    }
  }

  lemma RunOne(stack: seq<set<string>>, e: Event, rest: seq<Event>)
    ensures Run(stack, [e] + rest) == match Step(stack, e) case None => None case Some(next) => Run(next, rest)
  {
    assert ([e] + rest)[1..] == rest;
  }

  /** The run over a whole value: an exception exactly when some object in it repeats a name, and
      otherwise the stack is as before. */
  lemma {:induction false} RunValue(stack: seq<set<string>>, j: Json)
    ensures Run(stack, Events(j)) == if Unique(j) then Some(stack) else None
    decreases j, 0
  {
    match j
    case Scalar =>
      assert [Value][1..] == [];
    case Array(items) =>
      RunItems(stack, items);
      RunOne(stack, ArrayStart, ItemEvents(items) + [ArrayEnd]);
      assert [ArrayStart] + ItemEvents(items) + [ArrayEnd] == [ArrayStart] + (ItemEvents(items) + [ArrayEnd]);
      RunAppend(stack, ItemEvents(items), [ArrayEnd]);
      RunOne(stack, ArrayEnd, []);
      ArrayUnique(items);
    case Object(members) =>
      var inner := stack + [{}];
      RunMembers(stack, {}, members);
      RunOne(stack, ObjectStart, MemberEvents(members) + [ObjectEnd]);
      assert [ObjectStart] + MemberEvents(members) + [ObjectEnd] == [ObjectStart] + (MemberEvents(members) + [ObjectEnd]);
      RunAppend(inner, MemberEvents(members), [ObjectEnd]);
      ObjectUnique(members);
      RunClose(stack, {} + Range(members));
  }

  lemma RunClose(stack: seq<set<string>>, seen: set<string>)
    ensures Run(stack + [seen], [ObjectEnd]) == Some(stack)
  {
    assert [ObjectEnd][1..] == [];
    assert (stack + [seen])[..|stack|] == stack;
  }

  lemma {:induction false} RunItems(stack: seq<set<string>>, items: seq<Json>)
    ensures Run(stack, ItemEvents(items)) == if AllUnique(items) then Some(stack) else None
    decreases items, 0
  {
    if items != [] {
      RunAppend(stack, Events(items[0]), ItemEvents(items[1..]));
      RunValue(stack, items[0]);
      RunItems(stack, items[1..]);
      assert AllUnique(items) <==> Unique(items[0]) && AllUnique(items[1..]);
    }
  }

  ghost predicate AllUnique(items: seq<Json>) { forall i | 0 <= i < |items| :: Unique(items[i]) }

  lemma ArrayUnique(items: seq<Json>)
    ensures Unique(Array(items)) <==> AllUnique(items)
  {
    forall i, names | 0 <= i < |items| && names in Objects(items[i]) ensures names in Objects(Array(items)) {}
  }

  function Range(members: seq<Member>): set<string> { set i | 0 <= i < |members| :: members[i].name }

  /** The members are distinct from each other and from those seen before, and are unique inside. */
  ghost predicate Fresh(seen: set<string>, members: seq<Member>) {
    && (forall i | 0 <= i < |members| :: members[i].name !in seen && Unique(members[i].value))
    && (forall i, j | 0 <= i < j < |members| :: members[i].name != members[j].name)
  }

  lemma ObjectUnique(members: seq<Member>)
    ensures Unique(Object(members)) <==> Fresh({}, members)
  {
    var j := Object(members);
    if Unique(j) {
      assert Names(members) in Objects(j);
      forall i | 0 <= i < |members| ensures Unique(members[i].value) {
        forall names | names in Objects(members[i].value) ensures names in Objects(j) { assert names in MemberObjects(members); }
      }
      forall i, k | 0 <= i < k < |members| ensures members[i].name != members[k].name {
        assert Names(members)[i] != Names(members)[k];
      }
    }
    if Fresh({}, members) {
      assert Distinct(Names(members));
      assert forall names | names in MemberObjects(members) :: Distinct(names);
    }
  }

  lemma {:induction false} RunMembers(stack: seq<set<string>>, seen: set<string>, members: seq<Member>)
    ensures Run(stack + [seen], MemberEvents(members))
         == if Fresh(seen, members) then Some(stack + [seen + Range(members)]) else None
    decreases members, 0
  {
    if members == [] {
      assert seen + Range(members) == seen;
    } else {
      var first, rest := members[0], members[1..];
      var here := stack + [seen];
      FreshFirst(seen, members);
      RunOne(here, Key(first.name), Events(first.value) + MemberEvents(rest));
      assert [Key(first.name)] + Events(first.value) + MemberEvents(rest)
          == [Key(first.name)] + (Events(first.value) + MemberEvents(rest));
      if first.name !in seen {
        var next := stack + [seen + {first.name}];
        assert Step(here, Key(first.name)) == Some(next) by { assert here[|here| - 1 := seen + {first.name}] == next; }
        RunAppend(next, Events(first.value), MemberEvents(rest));
        RunValue(next, first.value);
        RunMembers(stack, seen + {first.name}, rest);
      }
    }
  }

  lemma FreshFirst(seen: set<string>, members: seq<Member>)
    requires members != []
    ensures Fresh(seen, members) <==>
              members[0].name !in seen && Unique(members[0].value) && Fresh(seen + {members[0].name}, members[1..])
    ensures seen + {members[0].name} + Range(members[1..]) == seen + Range(members)
  {
    var rest := members[1..];
    assert forall i | 0 < i < |members| :: members[i] == rest[i - 1];
    assert forall i | 0 <= i < |rest| :: rest[i] == members[i + 1];
    forall name | name in Range(members) ensures name == members[0].name || name in Range(rest) {
      var i :| 0 <= i < |members| && members[i].name == name;
      if i > 0 { assert rest[i - 1].name == name; }
    }
  }

  /** The callback as the parser drives it, with its stack in a variable: for every document, it
      raises exactly when some object at some depth repeats a name; otherwise nothing is left over. */
  method DetectDuplicates(j: Json) returns (duplicate: bool, objectFields: seq<set<string>>)
    ensures duplicate <==> exists names | names in Objects(j) :: !Distinct(names)
    ensures !duplicate ==> objectFields == []
  {
    var events := Events(j);
    RunValue([], j);
    objectFields := [];
    assert events[0..] == events;
    for i := 0 to |events|
      invariant Run(objectFields, events[i..]) == Run([], events)
    {
      assert events[i..][1..] == events[i + 1..];
      match events[i]
      case ObjectStart =>
        objectFields := objectFields + [{}];
      case Key(name) =>
        if objectFields == [] || name in objectFields[|objectFields| - 1] {
          return true, objectFields;
        }
        var last := |objectFields| - 1;
        objectFields := objectFields[last := objectFields[last] + {name}];
      case ObjectEnd =>
        if objectFields != [] {
          objectFields := objectFields[..|objectFields| - 1];
        }
      case _ =>
    }
    return false, objectFields;
  }
}
