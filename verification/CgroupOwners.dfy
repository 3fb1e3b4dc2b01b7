/** Cleaning up everything one process left below the delegated root: `cleanup_task_cgroups` of
    `evaluation/process_isolation/linux_support.cpp`. All trees of an owner share one budget. */
module CgroupOwners {
  import opened CgroupWorld
  import opened CgroupNames
  import opened CgroupCleanup

  /** Remove the owner's trees among `children`, one after the other. */
  function CleanOwned(w: World, f: Faults, owner: int, prefix: string, children: seq<string>, remaining: nat, complete: bool)
      : (World, bool)
    decreases |children|
  {
    if children == [] then (w, complete)
    else if OwnedBy(owner, prefix, children[0]) then
      var (w1, left, gone) := CleanTree(w, f, [children[0]], 1, remaining);
      CleanOwned(w1, f, owner, prefix, children[1..], left, complete && gone)
    else CleanOwned(w, f, owner, prefix, children[1..], remaining, complete)
  }

  function CleanOwner(w: World, f: Faults, owner: int, prefix: string): (World, bool) {
    match Scan(w, f, [])
    case Unreadable => (w, false)
    case Names(children) => CleanOwned(w, f, owner, prefix, children, MAXIMUM_CHILDREN, true)
  }

  /** The loop of the source, with the budget in a variable it shares with every tree. */
  method CleanupTaskCgroups(k: Kernel, root: nat, owner: int, prefix: string) returns (complete: bool)
    requires k.Valid() && root in k.descriptors && k.descriptors[root] == []
    modifies k
    ensures k.Valid() && k.descriptors == old(k.descriptors)
    ensures (k.world, complete) == CleanOwner(old(k.world), k.faults, owner, prefix)
    ensures k.opens - old(k.opens) <= MAXIMUM_CHILDREN
    ensures k.most <= Max(old(k.most), |old(k.descriptors)| + MAXIMUM_DEPTH)
  {
    var children := Scan(k.world, k.faults, k.descriptors[root]);
    if children.Unreadable? {
      return false;
    }
    complete := true;
    var remaining := MAXIMUM_CHILDREN;
    assert children.names[0..] == children.names;
    for i := 0 to |children.names|
      invariant k.Valid() && k.descriptors == old(k.descriptors)
      invariant k.opens - old(k.opens) <= MAXIMUM_CHILDREN - remaining
      invariant k.most <= Max(old(k.most), |old(k.descriptors)| + MAXIMUM_DEPTH)
      invariant CleanOwned(k.world, k.faults, owner, prefix, children.names[i..], remaining, complete)
             == CleanOwner(old(k.world), k.faults, owner, prefix)
    {
      assert children.names[i..][1..] == children.names[i + 1..];
      if OwnedBy(owner, prefix, children.names[i]) {
        var gone;
        assert [] + [children.names[i]] == [children.names[i]];
        remaining, gone := CleanupTree(k, root, children.names[i], 1, remaining);
        if !gone {
          complete := false;
        }
      }
    }
  }

  /** The directory belongs to `owner`, by the name of the tree it is in. */
  predicate Owned(owner: int, prefix: string, p: Path) { p != [] && OwnedBy(owner, prefix, p[0]) }

  /** Only the owner's directories, and processes in them, have gone; nothing has appeared. */
  ghost predicate OnlyOwned(w: World, w': World, owner: int, prefix: string) {
    && w'.subtree == w.subtree
    && (forall p | p in w'.names :: p in w.names)
    && (forall p | p in w.names && !Owned(owner, prefix, p) :: p in w'.names)
    && (forall p | p in w.names && !Owned(owner, prefix, p) && p != [] :: w'.names[p] == w.names[p])
    && ([] in w.names ==> Shrunk(w'.names[[]], w.names[[]]))
    && (forall pid | pid in w'.homes :: pid in w.homes && w'.homes[pid] == w.homes[pid])
    && (forall pid | pid in w.homes && !Owned(owner, prefix, w.homes[pid]) :: pid in w'.homes)
  }

  lemma {:induction false} OwnedOnly(w: World, f: Faults, owner: int, prefix: string, children: seq<string>, remaining: nat, complete: bool)
    requires WellFormed(w)
    ensures var (w', all) := CleanOwned(w, f, owner, prefix, children, remaining, complete);
            && WellFormed(w') && OnlyOwned(w, w', owner, prefix)
            && (all ==> complete && forall n | n in children && OwnedBy(owner, prefix, n) :: [n] !in w'.names)
    decreases |children|
  {
    if children != [] {
      var rest := children[1..];
      if OwnedBy(owner, prefix, children[0]) {
        var (w1, left, gone) := CleanTree(w, f, [children[0]], 1, remaining);
        TreeWithin(w, f, [children[0]], 1, remaining);
        assert forall p: Path | [children[0]] <= p :: p[0] == children[0];
        assert OnlyOwned(w, w1, owner, prefix);
        OwnedOnly(w1, f, owner, prefix, rest, left, complete && gone);
      } else {
        OwnedOnly(w, f, owner, prefix, rest, remaining, complete);
      }
    }
  }

  /** Cleaning up after an owner removes nothing that is not theirs, and success means that nothing
      of theirs is left. */
  lemma OwnerCleaned(w: World, f: Faults, owner: int, prefix: string)
    requires WellFormed(w)
    ensures var (w', complete) := CleanOwner(w, f, owner, prefix);
            && WellFormed(w') && OnlyOwned(w, w', owner, prefix)
            && (complete ==> forall p | p in w'.names :: !Owned(owner, prefix, p))
  {
    var (w', complete) := CleanOwner(w, f, owner, prefix);
    if Scan(w, f, []).Names? {
      OwnedOnly(w, f, owner, prefix, w.names[[]], MAXIMUM_CHILDREN, true);
      if complete {
        forall p | p in w'.names ensures !Owned(owner, prefix, p) {
          if p != [] {
            var top := [p[0]];
            assert top <= p && [] + top == top && Parent(top) == [];
            if top !in w'.names { BelowMissing(w', top, p); }
            assert Last(top) in w.names[[]];
          }
        }
      }
    }
  }

  // ---------------------------------------------------------------------------------------------
  // When it succeeds
  // ---------------------------------------------------------------------------------------------

  /** The owner's names among `children`. */
  function OwnedNames(owner: int, prefix: string, children: seq<string>): (names: seq<string>)
    ensures forall n :: n in names <==> n in children && OwnedBy(owner, prefix, n)
  {
    if children == [] then []
    else (if OwnedBy(owner, prefix, children[0]) then [children[0]] else []) + OwnedNames(owner, prefix, children[1..])
  }

  lemma {:induction false} OwnedDistinct(owner: int, prefix: string, children: seq<string>)
    requires Distinct(children)
    ensures Distinct(OwnedNames(owner, prefix, children))
  {
    if children != [] {
      OwnedDistinct(owner, prefix, children[1..]);
      assert children[0] !in children[1..];
    }
  }

  /** Cleaning up after an owner is removing a list of sibling trees that share a budget. */
  lemma {:induction false} OwnedIsList(w: World, f: Faults, owner: int, prefix: string, children: seq<string>, remaining: nat, complete: bool)
    ensures var (w', _, all) := CleanList(w, f, [], OwnedNames(owner, prefix, children), 0, remaining, complete);
            CleanOwned(w, f, owner, prefix, children, remaining, complete) == (w', all)
    decreases |children|
  {
    if children != [] {
      var rest := OwnedNames(owner, prefix, children[1..]);
      if OwnedBy(owner, prefix, children[0]) {
        assert ([children[0]] + rest)[1..] == rest && [] + [children[0]] == [children[0]];
        var (w1, left, gone) := CleanTree(w, f, [children[0]], 1, remaining);
        OwnedIsList(w1, f, owner, prefix, children[1..], left, complete && gone);
      } else {
        assert [] + rest == rest;
        OwnedIsList(w, f, owner, prefix, children[1..], remaining, complete);
      }
    }
  }

  /** The owner's directories. */
  ghost function OwnedTrees(w: World, owner: int, prefix: string): set<Path> { set p | p in w.names && Owned(owner, prefix, p) }

  /** The root can be listed; all the owner's trees together are within the budget, each of their directories is
      within the limits on depth and children, and no call on one fails. */
  ghost predicate OwnerFits(w: World, f: Faults, owner: int, prefix: string) {
    RootFits(w) && [] !in f.scan && TreesFit(w, f, owner, prefix)
  }

  ghost predicate RootFits(w: World) {
    [] in w.names && |w.names[[]]| <= MAXIMUM_CHILDREN && forall n | n in w.names[[]] :: SafeName(n)
  }

  ghost predicate TreesFit(w: World, f: Faults, owner: int, prefix: string) {
    && |OwnedTrees(w, owner, prefix)| <= MAXIMUM_CHILDREN
    && forall p | p in OwnedTrees(w, owner, prefix) :: Visitable(w, f, p, [], 0)
  }

  lemma OwnedSublist(w: World, owner: int, prefix: string)
    requires WellFormed(w)
    ensures var names := OwnedNames(owner, prefix, w.names[[]]);
            && SubList(w, [], names) == OwnedTrees(w, owner, prefix)
            && Distinct(names) && forall n | n in names :: [] + [n] in w.names
  {
    var names := OwnedNames(owner, prefix, w.names[[]]);
    OwnedDistinct(owner, prefix, w.names[[]]);
    forall p | p in OwnedTrees(w, owner, prefix) ensures p in SubList(w, [], names) {
      var top := [p[0]];
      assert top <= p && Parent(top) == [];
      if top !in w.names { BelowMissing(w, top, p); }
      assert Last(top) in w.names[[]];
    }
  }

  /** Cleaning up after an owner succeeds exactly when the root can be listed, the owner's trees together are within
      the limits and no call on any of their directories fails. */
  lemma OwnerSuccessExactly(w: World, f: Faults, owner: int, prefix: string)
    requires WellFormed(w)
    ensures CleanOwner(w, f, owner, prefix).1 <==> OwnerFits(w, f, owner, prefix)
  {
    OwnedSublist(w, owner, prefix);
    NeedsFit(w, f, owner, prefix);
    if OwnerFits(w, f, owner, prefix) {
      OwnedIsList(w, f, owner, prefix, w.names[[]], MAXIMUM_CHILDREN, true);
      ListFits(w, f, [], OwnedNames(owner, prefix, w.names[[]]), 0, MAXIMUM_CHILDREN);
    }
  }

  lemma NeedsFit(w: World, f: Faults, owner: int, prefix: string)
    requires WellFormed(w)
    ensures CleanOwner(w, f, owner, prefix).1 ==> OwnerFits(w, f, owner, prefix)
  {
    OwnedSublist(w, owner, prefix);
    if CleanOwner(w, f, owner, prefix).1 {
      OwnedIsList(w, f, owner, prefix, w.names[[]], MAXIMUM_CHILDREN, true);
      ListCounted(w, f, [], OwnedNames(owner, prefix, w.names[[]]), 0, MAXIMUM_CHILDREN, true);
    }
  }

  /** One owner's cleanup leaves every other owner's trees, and the supervisor's, alone. */
  lemma OthersUntouched(w: World, f: Faults, owner: int, prefix: string, p: Path)
    requires WellFormed(w) && p in w.names && p != []
    requires (exists other :: other != owner && OwnedBy(other, prefix, p[0]))
          || (exists process :: p[0] == SupervisorName(prefix, process))
    ensures p in CleanOwner(w, f, owner, prefix).0.names
  {
    OwnerCleaned(w, f, owner, prefix);
    if other :| other != owner && OwnedBy(other, prefix, p[0]) {
      if OwnedBy(owner, prefix, p[0]) { OneOwner(owner, other, prefix, p[0]); }
    } else {
      var process :| p[0] == SupervisorName(prefix, process);
      SupervisorUnowned(owner, prefix, process);
    }
  }
}
