/** What is removed, and who is killed, when calls fail on the way: `cleanup_cgroup_tree` of
    `evaluation/process_isolation/linux_support.cpp:135-188` goes on after every failure. */
module CgroupRemoval {
  import opened CgroupWorld
  import opened CgroupCleanup
  import opened CgroupNames
  import opened CgroupOwners

  // ---------------------------------------------------------------------------------------------
  // What the walk reaches
  // ---------------------------------------------------------------------------------------------

  /** The walk opens this directory: it is not too deep, all from the top down to it can be opened, and all above it
      can be listed. */
  ghost predicate Reached(w: World, f: Faults, path: Path, depth: nat, q: Path) {
    && path <= q && q in w.names && |q| - |path| + depth <= MAXIMUM_DEPTH
    && (forall n | |path| <= n <= |q| :: q[..n] !in f.open)
    && (forall n | |path| <= n < |q| :: Scan(w, f, q[..n]).Names?)
  }

  /** Somebody lives there, and no `cgroup.kill` from the top down to it works. */
  ghost predicate Stuck(w: World, f: Faults, path: Path, q: Path) {
    (exists pid | pid in w.homes :: w.homes[pid] == q) && forall n | |path| <= n <= |q| :: q[..n] in f.kill
  }

  /** The directory can go once those below it are gone. */
  ghost predicate Clears(w: World, f: Faults, path: Path, depth: nat, q: Path)
    requires path <= q
  {
    Reached(w, f, path, depth, q) && q !in f.remove && !Stuck(w, f, path, q)
  }

  /** Everything from `p` down can go. */
  ghost predicate AllClear(w: World, f: Faults, path: Path, depth: nat, p: Path)
    requires path <= p
  {
    forall q | q in Sub(w, p) :: Clears(w, f, path, depth, q)
  }

  // ---------------------------------------------------------------------------------------------
  // The budget
  // ---------------------------------------------------------------------------------------------

  /** A tree costs at most one opening for each of its directories. */
  lemma {:induction false} TreeCost(w: World, f: Faults, path: Path, depth: nat, remaining: nat)
    requires WellFormed(w) && path != [] && path in w.names
    ensures remaining - CleanTree(w, f, path, depth, remaining).1 <= |Sub(w, path)|
    decreases remaining, 0
  {
    assert path in Sub(w, path);
    var (w1, left, made) := MakeFrame(w, f, path, depth, remaining);
    if made.Frame? {
      SubSplit(w, path);
      assert SubList(w1, path, w.names[path]) == SubList(w, path, w.names[path]);
      if made.names != [] { ListCost(w1, f, path, made.names, depth, left, made.complete); }
    }
  }

  lemma {:induction false} ListCost(w: World, f: Faults, path: Path, names: seq<string>, depth: nat, remaining: nat, complete: bool)
    requires WellFormed(w) && Distinct(names) && forall n | n in names :: path + [n] in w.names
    ensures remaining - CleanList(w, f, path, names, depth, remaining, complete).1 <= |SubList(w, path, names)|
    decreases remaining, |names| + 1
  {
    if names != [] {
      var child := path + [names[0]];
      var (w1, left, gone) := CleanTree(w, f, child, depth + 1, remaining);
      TreeWithin(w, f, child, depth + 1, remaining);
      TreeCost(w, f, child, depth + 1, remaining);
      SiblingsKept(w, w1, f, path, names[0], names[1..], depth);
      ListSplit(w, path, names);
      ListCost(w1, f, path, names[1..], depth, left, complete && gone);
    }
  }

  // ---------------------------------------------------------------------------------------------
  // What is removed
  // ---------------------------------------------------------------------------------------------

  /** Cleaning some children leaves the trees of the others alone. */
  lemma {:induction false} ListSpares(w: World, f: Faults, path: Path, names: seq<string>, depth: nat, remaining: nat, complete: bool, p: Path)
    requires WellFormed(w) && path < p && p[|path|] !in names
    ensures p in CleanList(w, f, path, names, depth, remaining, complete).0.names <==> p in w.names
    decreases remaining, |names| + 1
  {
    if names != [] {
      var child := path + [names[0]];
      var (w1, left, gone) := CleanTree(w, f, child, depth + 1, remaining);
      TreeWithin(w, f, child, depth + 1, remaining);
      BelowChild(path, names[0], p);
      ListSpares(w1, f, path, names[1..], depth, left, complete && gone, p);
    }
  }

  /** Cleaning one child leaves what there is to know of the trees of the others. */
  lemma OthersClear(w: World, w1: World, f: Faults, path: Path, name: string, depth: nat, p: Path)
    requires WellFormed(w) && Within(w, w1, path + [name]) && path < p && p[|path|] != name
    ensures p in w.names <==> p in w1.names
    ensures var c := path + [p[|path|]]; AllClear(w1, f, c, depth + 1, p) <==> AllClear(w, f, c, depth + 1, p)
  {
    var c, child := path + [p[|path|]], path + [name];
    assert Above(child) == path;
    BelowChild(path, name, p);
    forall q | q in w.names && p <= q ensures q in w1.names && !(child <= q) { BelowChild(path, name, q); }
    assert Sub(w1, p) == Sub(w, p);
    forall q | q in Sub(w, p) ensures Clears(w1, f, c, depth + 1, q) <==> Clears(w, f, c, depth + 1, q) {
      OtherClears(w, w1, f, path, name, depth, q);
    }
  }

  lemma OtherClears(w: World, w1: World, f: Faults, path: Path, name: string, depth: nat, q: Path)
    requires WellFormed(w) && Within(w, w1, path + [name]) && path < q && q[|path|] != name && q in w.names
    ensures var c := path + [q[|path|]];
            c <= q && (Clears(w1, f, c, depth + 1, q) <==> Clears(w, f, c, depth + 1, q))
  {
    var c, child := path + [q[|path|]], path + [name];
    assert Above(child) == path;
    assert c <= q by { assert q[..|path| + 1] == c; }
    forall n | |c| <= n <= |q| ensures q[..n] in w.names && q[..n] in w1.names && w1.names[q[..n]] == w.names[q[..n]] {
      assert q[..n] <= q && path < q[..n] && q[..n][|path|] == q[|path|];
      if q[..n] !in w.names { BelowMissing(w, q[..n], q); }
      BelowChild(path, name, q[..n]);
    }
    BelowChild(path, name, q);
    forall pid | pid in w.homes && w.homes[pid] == q ensures pid in w1.homes && w1.homes[pid] == q {}
  }

  /** Seen from a child, when the walk has come through the directory above. */
  lemma ChildClears(w: World, w1: World, f: Faults, path: Path, depth: nat, q: Path)
    requires WellFormed(w) && w1.names == w.names && path < q && q in w.names && path !in f.open && depth <= MAXIMUM_DEPTH
    requires Scan(w, f, path).Names?
    requires w1.homes == if path in f.kill then w.homes else map pid | pid in w.homes && !(path <= w.homes[pid]) :: w.homes[pid]
    ensures var c := path + [q[|path|]]; c <= q && (Clears(w1, f, c, depth + 1, q) <==> Clears(w, f, path, depth, q))
  {
    var c := path + [q[|path|]];
    assert c <= q by { assert q[..|path| + 1] == c; }
    assert q[..|path|] == path;
    assert Reached(w, f, path, depth, q) <==> Reached(w1, f, c, depth + 1, q) by {
      forall n | |path| <= n <= |q| ensures Scan(w, f, q[..n]) == Scan(w1, f, q[..n]) {}
    }
    if path in f.kill {
      assert Stuck(w1, f, c, q) <==> Stuck(w, f, path, q);
    } else {
      assert q[..|path|] !in f.kill;
      assert !Stuck(w1, f, c, q);
    }
  }

  /** Within a budget for the whole tree, a directory of it goes exactly when everything from it down can go. */
  lemma {:induction false} TreeRemoves(w: World, f: Faults, path: Path, depth: nat, remaining: nat, p: Path)
    requires WellFormed(w) && path != [] && path in w.names && |Sub(w, path)| <= remaining && p in Sub(w, path)
    ensures p !in CleanTree(w, f, path, depth, remaining).0.names <==> AllClear(w, f, path, depth, p)
    decreases remaining, 0
  {
    assert path in Sub(w, path) && p in Sub(w, p);
    var (w1, left, made) := MakeFrame(w, f, path, depth, remaining);
    assert p[..|path|] == path;
    if made.Unopened? {
      assert !Reached(w, f, path, depth, p);
    } else if Scan(w, f, path).Unreadable? {
      UnreadableStays(w, w1, f, path, depth, p);
    } else {
      FrameRemoves(w, f, path, depth, left, made.names, made.complete, p);
    }
  }

  /** A directory that was opened and listed. */
  lemma FrameRemoves(w: World, f: Faults, path: Path, depth: nat, left: nat, names: seq<string>, complete: bool, p: Path)
    requires WellFormed(w) && path != [] && path in w.names && p in Sub(w, path) && |Sub(w, path)| <= left + 1
    requires path !in f.open && depth <= MAXIMUM_DEPTH && Scan(w, f, path) == Names(names)
    ensures var w2 := CleanList(Kill(w, f, path).0, f, path, names, depth, left, complete).0;
            p !in Remove(w2, f, path).0.names <==> AllClear(w, f, path, depth, p)
    decreases left, 2 * |names| + 3, 1
  {
    SubSplit(w, path);
    if p == path { TopFrame(w, f, path, depth, left, names, complete); } else { LowerFrame(w, f, path, depth, left, names, complete, p); }
  }

  lemma LowerFrame(w: World, f: Faults, path: Path, depth: nat, left: nat, names: seq<string>, complete: bool, p: Path)
    requires WellFormed(w) && path != [] && path in w.names && p in Sub(w, path) && p != path && |SubList(w, path, names)| <= left
    requires path !in f.open && depth <= MAXIMUM_DEPTH && Scan(w, f, path) == Names(names) && names == w.names[path]
    ensures var w2 := CleanList(Kill(w, f, path).0, f, path, names, depth, left, complete).0;
            p !in Remove(w2, f, path).0.names <==> AllClear(w, f, path, depth, p)
    decreases left, 2 * |names| + 3, 0
  {
    BelowRemoves(w, Kill(w, f, path).0, f, path, depth, left, names, complete, p);
  }

  lemma TopFrame(w: World, f: Faults, path: Path, depth: nat, left: nat, names: seq<string>, complete: bool)
    requires WellFormed(w) && path != [] && path in w.names && |SubList(w, path, names)| <= left
    requires path !in f.open && depth <= MAXIMUM_DEPTH && Scan(w, f, path) == Names(names) && names == w.names[path]
    ensures var w2 := CleanList(Kill(w, f, path).0, f, path, names, depth, left, complete).0;
            path !in Remove(w2, f, path).0.names <==> AllClear(w, f, path, depth, path)
    decreases left, 2 * |names| + 3, 0
  {
    var w1 := Kill(w, f, path).0;
    var w2 := CleanList(w1, f, path, names, depth, left, complete).0;
    ListWithin(w1, f, path, names, depth, left, complete);
    forall q | q in Sub(w, path) && q != path ensures q !in w2.names <==> AllClear(w, f, path, depth, q) {
      BelowRemoves(w, w1, f, path, depth, left, names, complete, q);
    }
    ListKeepsTop(w1, f, path, names, depth, left, complete);
    TopRemoves(w, w1, w2, f, path, depth);
  }

  /** Whoever lives at the top is not killed from below. */
  lemma {:induction false} ListKeepsTop(w: World, f: Faults, path: Path, names: seq<string>, depth: nat, remaining: nat, complete: bool)
    requires WellFormed(w)
    ensures forall pid | pid in w.homes && w.homes[pid] == path :: pid in CleanList(w, f, path, names, depth, remaining, complete).0.homes
    decreases remaining, |names| + 1
  {
    if names != [] {
      var (w1, left, gone) := CleanTree(w, f, path + [names[0]], depth + 1, remaining);
      TreeWithin(w, f, path + [names[0]], depth + 1, remaining);
      ListKeepsTop(w1, f, path, names[1..], depth, left, complete && gone);
    }
  }

  /** Below the top, the list of children decides. */
  lemma BelowRemoves(w: World, w1: World, f: Faults, path: Path, depth: nat, left: nat, names: seq<string>, complete: bool, q: Path)
    requires WellFormed(w) && path != [] && path in w.names && q in Sub(w, path) && q != path
    requires path !in f.open && depth <= MAXIMUM_DEPTH && Scan(w, f, path).Names? && names == w.names[path]
    requires w1 == Kill(w, f, path).0 && |SubList(w, path, names)| <= left
    ensures q in SubList(w1, path, names)
    ensures q !in CleanList(w1, f, path, names, depth, left, complete).0.names <==> AllClear(w, f, path, depth, q)
    decreases left, 2 * |names| + 2
  {
    var c := path + [q[|path|]];
    assert c <= q by { assert q[..|path| + 1] == c; }
    if c !in w.names { BelowMissing(w, c, q); }
    assert Parent(c) == path && Last(c) == q[|path|];
    assert SubList(w1, path, names) == SubList(w, path, names);
    ListRemoves(w1, f, path, names, depth, left, complete, q);
    assert Sub(w1, q) == Sub(w, q);
    forall r | r in Sub(w, q) ensures Clears(w1, f, c, depth + 1, r) <==> Clears(w, f, path, depth, r) {
      assert r[|path|] == q[|path|];
      ChildClears(w, w1, f, path, depth, r);
    }
  }

  /** The top goes when all below it has gone, nobody is left in it and removing it does not fail. */
  lemma TopRemoves(w: World, w1: World, w2: World, f: Faults, path: Path, depth: nat)
    requires WellFormed(w) && path != [] && path in w.names && w1 == Kill(w, f, path).0
    requires path !in f.open && depth <= MAXIMUM_DEPTH && Scan(w, f, path).Names?
    requires WellFormed(w2) && Within(w1, w2, path) && path in w2.names
    requires forall q | q in Sub(w, path) && q != path :: q !in w2.names <==> AllClear(w, f, path, depth, q)
    requires forall pid | pid in w1.homes && w1.homes[pid] == path :: pid in w2.homes
    ensures path !in Remove(w2, f, path).0.names <==> AllClear(w, f, path, depth, path)
  {
    assert path[..|path|] == path;
    assert Stuck(w, f, path, path) <==> exists pid :: pid in w1.homes && w1.homes[pid] == path;
    assert path in Sub(w, path) && Reached(w, f, path, depth, path);
    if w2.names[path] == [] {
      assert Removable(w2, f, path) <==> path !in f.remove && !Stuck(w, f, path, path);
      forall q | q in Sub(w, path) && q != path ensures q !in w2.names {
        var c := path + [q[|path|]];
        assert c <= q by { assert q[..|path| + 1] == c; }
        assert Parent(c) == path && Last(c) == q[|path|];
        if c !in w2.names { BelowMissing(w2, c, q); }
      }
      forall q | q in Sub(w, path) && q != path ensures Clears(w, f, path, depth, q) { assert q in Sub(w, q); }
    } else {
      var n := w2.names[path][0];
      assert path + [n] in w2.names && n in w2.names[path];
      var q := path + [n];
      assert q in Sub(w, path);
      assert !AllClear(w, f, path, depth, q);
      forall r | r in Sub(w, q) ensures r in Sub(w, path) {}
    }
  }

  lemma {:induction false} ListRemoves(w: World, f: Faults, path: Path, names: seq<string>, depth: nat, remaining: nat, complete: bool, p: Path)
    requires WellFormed(w) && Distinct(names) && forall n | n in names :: path + [n] in w.names
    requires |SubList(w, path, names)| <= remaining && p in SubList(w, path, names)
    ensures path + [p[|path|]] <= p
    ensures p !in CleanList(w, f, path, names, depth, remaining, complete).0.names <==> AllClear(w, f, path + [p[|path|]], depth + 1, p)
    decreases remaining, 2 * |names| + 1
  {
    assert p[..|path| + 1] == path + [p[|path|]];
    if p[|path|] == names[0] {
      FirstRemoves(w, f, path, names, depth, remaining, complete, p);
    } else {
      RestRemoves(w, f, path, names, depth, remaining, complete, p);
    }
  }

  /** In the tree of the first child. */
  lemma FirstRemoves(w: World, f: Faults, path: Path, names: seq<string>, depth: nat, remaining: nat, complete: bool, p: Path)
    requires WellFormed(w) && names != [] && Distinct(names) && forall n | n in names :: path + [n] in w.names
    requires |SubList(w, path, names)| <= remaining && p in SubList(w, path, names) && p[|path|] == names[0] && path + [names[0]] <= p
    ensures p !in CleanList(w, f, path, names, depth, remaining, complete).0.names <==> AllClear(w, f, path + [names[0]], depth + 1, p)
    decreases remaining, 2 * |names|
  {
    var child := path + [names[0]];
    var (w1, left, gone) := CleanTree(w, f, child, depth + 1, remaining);
    TreeWithin(w, f, child, depth + 1, remaining);
    ListSplit(w, path, names);
    assert p in Sub(w, child) && names[0] !in names[1..];
    TreeRemoves(w, f, child, depth + 1, remaining, p);
    ListSpares(w1, f, path, names[1..], depth, left, complete && gone, p);
  }

  /** In the tree of a later one. */
  lemma RestRemoves(w: World, f: Faults, path: Path, names: seq<string>, depth: nat, remaining: nat, complete: bool, p: Path)
    requires WellFormed(w) && names != [] && Distinct(names) && forall n | n in names :: path + [n] in w.names
    requires |SubList(w, path, names)| <= remaining && p in SubList(w, path, names) && p[|path|] != names[0]
    requires path + [p[|path|]] <= p
    ensures p !in CleanList(w, f, path, names, depth, remaining, complete).0.names <==> AllClear(w, f, path + [p[|path|]], depth + 1, p)
    decreases remaining, 2 * |names|
  {
    var child, rest := path + [names[0]], names[1..];
    var (w1, left, gone) := CleanTree(w, f, child, depth + 1, remaining);
    TreeWithin(w, f, child, depth + 1, remaining);
    ListSplit(w, path, names);
    TreeCost(w, f, child, depth + 1, remaining);
    SiblingsKept(w, w1, f, path, names[0], rest, depth);
    OthersClear(w, w1, f, path, names[0], depth, p);
    ListRemoves(w1, f, path, rest, depth, left, complete && gone, p);
  }

  /** A directory that cannot be listed stays with all below it, unless there is nothing below it. */
  lemma UnreadableStays(w: World, w1: World, f: Faults, path: Path, depth: nat, p: Path)
    requires WellFormed(w) && path != [] && path in w.names && w1 == Kill(w, f, path).0 && p in Sub(w, path)
    requires path !in f.open && depth <= MAXIMUM_DEPTH && Scan(w, f, path).Unreadable?
    ensures p !in Remove(w1, f, path).0.names <==> AllClear(w, f, path, depth, p)
  {
    assert path[..|path|] == path && p[..|path|] == path && p in Sub(w, p);
    assert Stuck(w, f, path, path) <==> exists pid :: pid in w1.homes && w1.homes[pid] == path;
    if p == path {
      if w.names[path] != [] {
        var q := path + [w.names[path][0]];
        assert w.names[path][0] in w.names[path] && q in Sub(w, path) && q[..|path|] == path;
        assert !Reached(w, f, path, depth, q);
      } else {
        SubSplit(w, path);
        assert Sub(w, path) == {path};
        assert Reached(w, f, path, depth, path);
      }
    }
  }

  /** All trees of an owner: what goes is exactly what can, and nothing does when the root cannot be listed. */
  lemma OwnerRemoves(w: World, f: Faults, owner: int, prefix: string, p: Path)
    requires WellFormed(w) && |OwnedTrees(w, owner, prefix)| <= MAXIMUM_CHILDREN && p in OwnedTrees(w, owner, prefix)
    ensures p !in CleanOwner(w, f, owner, prefix).0.names <==>
              Scan(w, f, []).Names? && [p[0]] <= p && AllClear(w, f, [p[0]], 1, p)
  {
    if Scan(w, f, []).Names? {
      var names := OwnedNames(owner, prefix, w.names[[]]);
      OwnedSublist(w, owner, prefix);
      OwnedIsList(w, f, owner, prefix, w.names[[]], MAXIMUM_CHILDREN, true);
      ListRemoves(w, f, [], names, 0, MAXIMUM_CHILDREN, true, p);
      assert [] + [p[0]] == [p[0]];
    }
  }
}
