/** The control group hierarchy below a delegated root, as the kernel presents it, and the file
    system calls that `evaluation/process_isolation/linux_support.cpp` makes on it.

    Directories are named by their path from the root. Which calls fail although nothing stands in
    their way is fixed by a set of paths per call; cleaning up after one owner makes each call at most
    once on each path, so this covers every pattern of failures. */
module CgroupWorld {

  type Path = seq<string>

  datatype Controller = Cpu | Memory | Pids

  /** `names` lists the child directories of every directory that exists, `homes` says where each
      process lives and `subtree` is the root's `cgroup.subtree_control`. */
  datatype World = World(names: map<Path, seq<string>>, homes: map<nat, Path>, subtree: set<Controller>)

  datatype Faults = Faults(open: set<Path>, kill: set<Path>, drain: set<Path>, scan: set<Path>, remove: set<Path>)

  const NO_FAULTS := Faults({}, {}, {}, {}, {})

  const MAXIMUM_CHILDREN: nat := 64

  function Parent(path: Path): Path
    requires path != []
  {
    path[..|path| - 1]
  }

  function Last(path: Path): string
    requires path != []
  {
    path[|path| - 1]
  }

  ghost predicate Distinct(names: seq<string>) { forall i, j | 0 <= i < j < |names| :: names[i] != names[j] }

  /** The hierarchy is a tree: every directory but the root is listed by its parent, and every name
      listed is a directory. */
  ghost predicate WellFormed(w: World) {
    [] in w.names && Listed(w) && Backed(w) && Unrepeated(w)
  }

  ghost predicate Listed(w: World) {
    forall p {:trigger Parent(p)} | p in w.names && p != [] :: Parent(p) in w.names && Last(p) in w.names[Parent(p)]
  }

  ghost predicate Backed(w: World) {
    forall p, n {:trigger p + [n]} | p in w.names && n in w.names[p] :: p + [n] in w.names
  }

  ghost predicate Unrepeated(w: World) { forall p | p in w.names :: Distinct(w.names[p]) }

  /** Nothing below a missing directory exists. */
  lemma {:induction false} BelowMissing(w: World, top: Path, p: Path)
    requires WellFormed(w) && top !in w.names && top <= p
    ensures p !in w.names
    decreases |p|
  {
    if p != top && p in w.names {
      assert top <= Parent(p);
      BelowMissing(w, top, Parent(p));
      assert false;
    }
  }

  datatype Opened = Descriptor | Missing | Refused

  function Open(w: World, f: Faults, path: Path): Opened {
    if path !in w.names then Missing else if path in f.open then Refused else Descriptor
  }

  /** Writing `cgroup.kill` ends every process in the subtree. */
  function Kill(w: World, f: Faults, path: Path): (World, bool) {
    if path in f.kill then (w, false)
    else (w.(homes := map pid | pid in w.homes && !(path <= w.homes[pid]) :: w.homes[pid]), true)
  }

  /** `cgroup.events` reports the subtree unpopulated before the deadline. */
  predicate Drained(w: World, f: Faults, path: Path) {
    path !in f.drain && forall pid | pid in w.homes :: !(path <= w.homes[pid])
  }

  predicate SafeCharacter(c: char) {
    'a' <= c <= 'z' || 'A' <= c <= 'Z' || '0' <= c <= '9' || c == '-' || c == '_'
  }

  predicate SafeName(name: string) {
    0 < |name| <= 255 && forall i | 0 <= i < |name| :: SafeCharacter(name[i])
  }

  predicate NameCharacter(c: char) {
    c in {
      'a', 'b', 'c', 'd', 'e', 'f', 'g', 'h', 'i', 'j', 'k', 'l', 'm', 'n', 'o', 'p', 'q', 'r', 's', 't', 'u', 'v',
    'w', 'x', 'y', 'z', 'A', 'B', 'C', 'D', 'E', 'F', 'G', 'H', 'I', 'J', 'K', 'L', 'M', 'N', 'O', 'P', 'Q', 'R',
    'S', 'T', 'U', 'V', 'W', 'X', 'Y', 'Z', '0', '1', '2', '3', '4', '5', '6', '7', '8', '9', '-', '_'}
  }

  /** A safe name is made of letters, digits, dashes and underscores, and is not too long. */
  lemma SafeNameExactly(name: string)
    ensures SafeName(name) <==> 1 <= |name| <= 255 && forall i | 0 <= i < |name| :: NameCharacter(name[i])
  {
    forall i | 0 <= i < |name| ensures SafeCharacter(name[i]) <==> NameCharacter(name[i]) { SafeCharacterExactly(name[i]); }
  }

  lemma SafeCharacterExactly(c: char)
    ensures SafeCharacter(c) <==> NameCharacter(c)
  {
  }

  datatype Listing = Unreadable | Names(names: seq<string>)

  /** The names of the child directories, unless there are too many or one of them is unsafe. */
  function Scan(w: World, f: Faults, path: Path): Listing {
    if path !in w.names || path in f.scan || |w.names[path]| > MAXIMUM_CHILDREN
       || exists n | n in w.names[path] :: !SafeName(n)
    then Unreadable else Names(w.names[path])
  }

  function Without(names: seq<string>, name: string): (r: seq<string>)
    ensures forall n :: n in r <==> n in names && n != name
  {
    if names == [] then []
    else if names[0] == name then Without(names[1..], name)
    else [names[0]] + Without(names[1..], name)
  }

  lemma {:induction false} WithoutDistinct(names: seq<string>, name: string)
    requires Distinct(names)
    ensures Distinct(Without(names, name))
  {
    if names != [] {
      WithoutDistinct(names[1..], name);
      assert names[0] !in names[1..];
    }
  }

  /** `rmdir` removes an empty, unpopulated directory. */
  predicate Removable(w: World, f: Faults, path: Path) {
    path in w.names && path !in f.remove && w.names[path] == [] && forall pid | pid in w.homes :: w.homes[pid] != path
  }

  function Removed(w: World, path: Path): World
    requires path != []
  {
    var parent := Parent(path);
    var names := w.names - {path};
    w.(names := if parent in names then names[parent := Without(names[parent], Last(path))] else names)
  }

  /** The hierarchy after `rmdir`, and whether the directory is gone: a missing one counts. */
  function Remove(w: World, f: Faults, path: Path): (World, bool)
    requires path != []
  {
    if Removable(w, f, path) then (Removed(w, path), true) else (w, path !in w.names)
  }

  lemma RemovedListed(w: World, path: Path)
    requires WellFormed(w) && path != [] && path in w.names && w.names[path] == []
    ensures Listed(Removed(w, path))
  {
    var w' := Removed(w, path);
    forall p {:trigger Parent(p)} | p in w'.names && p != [] ensures Parent(p) in w'.names && Last(p) in w'.names[Parent(p)] {
      assert Parent(p) != path;
      assert p == Parent(p) + [Last(p)] && path == Parent(path) + [Last(path)];
    }
  }

  lemma RemovedBacked(w: World, path: Path)
    requires WellFormed(w) && path != [] && path in w.names
    ensures Backed(Removed(w, path))
  {
    var w' := Removed(w, path);
    forall p, n {:trigger p + [n]} | p in w'.names && n in w'.names[p] ensures p + [n] in w'.names {
      assert n in w.names[p];
      assert p == Parent(p + [n]) && n == Last(p + [n]);
    }
  }

  lemma RemovedWellFormed(w: World, path: Path)
    requires WellFormed(w) && path != [] && path in w.names && w.names[path] == []
    ensures WellFormed(Removed(w, path)) && Removed(w, path).names.Keys == w.names.Keys - {path}
  {
    RemovedListed(w, path);
    RemovedBacked(w, path);
    assert Parent(path) in w.names;
    WithoutDistinct(w.names[Parent(path)], Last(path));
  }
}
