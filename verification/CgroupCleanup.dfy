/** Removal of a control group tree: `make_cleanup_frame`, `cleanup_cgroup_tree` and
    `cleanup_task_cgroups` of `evaluation/process_isolation/linux_support.cpp`.

    The source walks the tree with an explicit stack of frames that hold open descriptors, under a
    depth limit and a budget shared by all trees of one owner. `CleanTree` is the recursive removal
    it stands for; `Kernel` is the file system with its descriptor table, whose methods may only be
    called on descriptors that are open. */
module CgroupCleanup {
  import opened CgroupWorld
  import opened CgroupNames

  const MAXIMUM_DEPTH: nat := 8

  function Max(a: nat, b: nat): nat { if a >= b then a else b }

  // ---------------------------------------------------------------------------------------------
  // The recursive removal
  // ---------------------------------------------------------------------------------------------

  /** A directory that was opened, with the children still to visit; or the answer without one. */
  datatype Made = Frame(names: seq<string>, complete: bool) | Unopened(gone: bool)

  function MakeFrame(w: World, f: Faults, path: Path, depth: nat, remaining: nat): (r: (World, nat, Made))
    ensures r.1 <= remaining && (r.2.Frame? ==> r.1 < remaining && depth <= MAXIMUM_DEPTH)
    ensures r.0.names == w.names
  {
    if depth > MAXIMUM_DEPTH || remaining == 0 then (w, remaining, Unopened(false)) else
      match Open(w, f, path)
      case Missing => (w, remaining - 1, Unopened(true))
      case Refused => (w, remaining - 1, Unopened(false))
      case Descriptor =>
        var (killed, ok) := Kill(w, f, path);
        var drained := ok && Drained(killed, f, path);
        match Scan(killed, f, path)
        case Unreadable => (killed, remaining - 1, Frame([], false))
        case Names(names) => (killed, remaining - 1, Frame(names, drained))
  }

  /** Remove the tree at `path`: the hierarchy left, the budget left, and whether it is all gone. */
  function CleanTree(w: World, f: Faults, path: Path, depth: nat, remaining: nat): (r: (World, nat, bool))
    requires path != []
    ensures r.1 <= remaining
    decreases remaining, 0
  {
    var (w1, left, made) := MakeFrame(w, f, path, depth, remaining);
    match made
    case Unopened(gone) => (w1, left, gone)
    case Frame(names, complete) =>
      var (w2, left2, all) := CleanList(w1, f, path, names, depth, left, complete);
      var (w3, gone) := Remove(w2, f, path);
      (w3, left2, all && gone)
  }

  /** Remove the trees of the children `names` of `path`, one after the other. */
  function CleanList(w: World, f: Faults, path: Path, names: seq<string>, depth: nat, remaining: nat, complete: bool)
      : (r: (World, nat, bool))
    ensures r.1 <= remaining
    decreases remaining, |names| + 1
  {
    if names == [] then (w, remaining, complete) else
      var (w1, left, gone) := CleanTree(w, f, path + [names[0]], depth + 1, remaining);
      CleanList(w1, f, path, names[1..], depth, left, complete && gone)
  }

  // ---------------------------------------------------------------------------------------------
  // The explicit stack
  // ---------------------------------------------------------------------------------------------

  /** `CgroupCleanupFrame`: `parent` and `child` are descriptors. */
  datatype StackFrame = StackFrame(parent: nat, name: string, path: Path, depth: nat, child: nat,
                                   names: seq<string>, next: nat, complete: bool)

  predicate Resumable(stack: seq<StackFrame>) {
    forall i | 0 <= i < |stack| :: stack[i].path != [] && stack[i].next <= |stack[i].names|
  }

  /** What is left to do when the loop has this stack: finish the top frame, then the ones below. */
  function Resume(w: World, f: Faults, stack: seq<StackFrame>, remaining: nat): (World, nat, bool)
    requires stack != [] && Resumable(stack)
    decreases |stack|
  {
    var top, below := stack[|stack| - 1], stack[..|stack| - 1];
    var (w1, left, all) := CleanList(w, f, top.path, top.names[top.next..], top.depth, remaining, top.complete);
    var (w2, gone) := Remove(w1, f, top.path);
    if below == [] then (w2, left, all && gone) else Resume(w2, f, Absorb(below, all && gone), left)
  }

  /** A finished frame reports to the one below it. */
  function Absorb(stack: seq<StackFrame>, complete: bool): (r: seq<StackFrame>)
    requires stack != []
    ensures |r| == |stack|
  {
    var top := stack[|stack| - 1];
    stack[|stack| - 1 := top.(complete := top.complete && complete)]
  }

  /** Visiting the next child of a frame. */
  lemma ListStep(w: World, f: Faults, path: Path, names: seq<string>, next: nat, depth: nat, remaining: nat, complete: bool)
    requires next < |names|
    ensures var (w1, left, gone) := CleanTree(w, f, path + [names[next]], depth + 1, remaining);
            CleanList(w, f, path, names[next..], depth, remaining, complete)
              == CleanList(w1, f, path, names[next + 1..], depth, left, complete && gone)
  {
    assert names[next..][1..] == names[next + 1..];
  }

  /** Trying a child of the top frame that yields no frame of its own. */
  lemma ResumeSkip(w: World, f: Faults, stack: seq<StackFrame>, remaining: nat)
    requires stack != [] && Resumable(stack)
    requires var top := stack[|stack| - 1]; top.next < |top.names|
    requires var top := stack[|stack| - 1];
             MakeFrame(w, f, top.path + [top.names[top.next]], top.depth + 1, remaining).2.Unopened?
    ensures var top := stack[|stack| - 1];
            var (w', left, made) := MakeFrame(w, f, top.path + [top.names[top.next]], top.depth + 1, remaining);
            var stack' := stack[|stack| - 1 := top.(next := top.next + 1, complete := top.complete && made.gone)];
            Resumable(stack') && Resume(w, f, stack, remaining) == Resume(w', f, stack', left)
  {
    var top := stack[|stack| - 1];
    var (w', left, made) := MakeFrame(w, f, top.path + [top.names[top.next]], top.depth + 1, remaining);
    var stack' := stack[|stack| - 1 := top.(next := top.next + 1, complete := top.complete && made.gone)];
    ListStep(w, f, top.path, top.names, top.next, top.depth, remaining, top.complete);
    assert CleanTree(w, f, top.path + [top.names[top.next]], top.depth + 1, remaining) == (w', left, made.gone);
    ResumeSame(w, w', f, stack, stack', remaining, left);
  }

  /** Two stacks that differ only in the top frame, with the same left to do for it. */
  lemma ResumeSame(w: World, w': World, f: Faults, stack: seq<StackFrame>, stack': seq<StackFrame>, remaining: nat, left: nat)
    requires stack != [] && Resumable(stack) && |stack'| == |stack| && Resumable(stack')
    requires stack'[..|stack| - 1] == stack[..|stack| - 1] && stack'[|stack| - 1].path == stack[|stack| - 1].path
    requires var top, top' := stack[|stack| - 1], stack'[|stack| - 1];
             CleanList(w, f, top.path, top.names[top.next..], top.depth, remaining, top.complete)
             == CleanList(w', f, top'.path, top'.names[top'.next..], top'.depth, left, top'.complete)
    ensures Resume(w, f, stack, remaining) == Resume(w', f, stack', left)
  {
  }

  /** Descending into a child of the top frame. */
  lemma ResumePush(w: World, f: Faults, stack: seq<StackFrame>, remaining: nat, child: StackFrame)
    requires stack != [] && Resumable(stack)
    requires var top := stack[|stack| - 1]; top.next < |top.names|
    requires var top := stack[|stack| - 1];
             var (w', left, made) := MakeFrame(w, f, top.path + [top.names[top.next]], top.depth + 1, remaining);
             && made == Frame(child.names, child.complete) && child.next == 0
             && child.path == top.path + [top.names[top.next]] && child.depth == top.depth + 1
    ensures var top := stack[|stack| - 1];
            var (w', left, made) := MakeFrame(w, f, top.path + [top.names[top.next]], top.depth + 1, remaining);
            var stack' := stack[|stack| - 1 := top.(next := top.next + 1)] + [child];
            Resumable(stack') && Resume(w, f, stack, remaining) == Resume(w', f, stack', left)
  {
    var top := stack[|stack| - 1];
    var below' := stack[|stack| - 1 := top.(next := top.next + 1)];
    ListStep(w, f, top.path, top.names, top.next, top.depth, remaining, top.complete);
    var (w', left, _) := MakeFrame(w, f, child.path, child.depth, remaining);
    var (w1, left1, gone) := CleanTree(w, f, child.path, child.depth, remaining);
    TreeFromFrame(w, f, child.path, child.depth, remaining);
    ResumeChild(w', f, below', child, left);
    AbsorbedTop(stack, gone);
    ResumeSame(w, w1, f, stack, Absorb(below', gone), remaining, left1);
  }

  lemma TreeFromFrame(w: World, f: Faults, path: Path, depth: nat, remaining: nat)
    requires path != [] && MakeFrame(w, f, path, depth, remaining).2.Frame?
    ensures var (w1, left, made) := MakeFrame(w, f, path, depth, remaining);
            var (w2, left2, all) := CleanList(w1, f, path, made.names, depth, left, made.complete);
            var (w3, gone) := Remove(w2, f, path);
            CleanTree(w, f, path, depth, remaining) == (w3, left2, all && gone)
  {
  }

  /** The top frame after a child of it has been visited and has reported. */
  lemma AbsorbedTop(stack: seq<StackFrame>, gone: bool)
    requires stack != [] && Resumable(stack) && stack[|stack| - 1].next < |stack[|stack| - 1].names|
    ensures var top := stack[|stack| - 1];
            var below := stack[|stack| - 1 := top.(next := top.next + 1)];
            var stack' := Absorb(below, gone);
            && Resumable(below) && Resumable(stack') && |stack'| == |stack| && stack'[..|stack| - 1] == stack[..|stack| - 1]
            && stack'[|stack| - 1] == top.(next := top.next + 1, complete := top.complete && gone)
  {
  }

  /** A frame on top that has only just been pushed. */
  lemma ResumeChild(w: World, f: Faults, below: seq<StackFrame>, child: StackFrame, left: nat)
    requires below != [] && Resumable(below) && child.path != [] && child.next == 0
    ensures Resumable(below + [child])
    ensures var (w1, left1, all) := CleanList(w, f, child.path, child.names, child.depth, left, child.complete);
            var (w2, gone) := Remove(w1, f, child.path);
            Resume(w, f, below + [child], left) == Resume(w2, f, Absorb(below, all && gone), left1)
  {
    assert child.names[0..] == child.names && (below + [child])[..|below|] == below;
  }

  // ---------------------------------------------------------------------------------------------
  // The loop, on a file system with descriptors
  // ---------------------------------------------------------------------------------------------

  /** The hierarchy behind a table of open descriptors. Every call names the descriptor it goes
      through, and asks that it is open. */
  class Kernel {
    const faults: Faults
    var world: World
    var descriptors: map<nat, Path>
    var unused: nat
    var opens: nat
    /** The most descriptors that were open at a time. */
    var most: nat

    ghost predicate Valid()
      reads this
    {
      forall d | d in descriptors :: d < unused
    }

    constructor (world: World, faults: Faults, root: nat)
      ensures Valid() && this.world == world && this.faults == faults && descriptors == map[root := []] && opens == 0 && most == 1
    {
      this.world, this.faults, descriptors, unused, opens, most := world, faults, map[root := []], root + 1, 0, 1;
    }

    method OpenAt(parent: nat, name: string) returns (r: Opened, child: nat)
      requires Valid() && parent in descriptors
      modifies this`descriptors, this`unused, this`opens, this`most
      ensures Valid() && r == Open(world, faults, old(descriptors[parent]) + [name])
      ensures r == Descriptor ==>
                && child !in old(descriptors) && opens == old(opens) + 1
                && descriptors == old(descriptors)[child := old(descriptors[parent]) + [name]]
                && most == Max(old(most), |descriptors|)
      ensures r != Descriptor ==> descriptors == old(descriptors) && opens == old(opens) && most == old(most)
    {
      var path := descriptors[parent] + [name];
      r, child := Open(world, faults, path), unused;
      if r == Descriptor {
        descriptors, unused, opens := descriptors[child := path], unused + 1, opens + 1;
        most := Max(most, |descriptors|);
      }
    }

    method KillAt(directory: nat) returns (ok: bool)
      requires directory in descriptors
      modifies this`world
      ensures (world, ok) == Kill(old(world), faults, descriptors[directory])
    {
      var (after, done) := Kill(world, faults, descriptors[directory]);
      world, ok := after, done;
    }

    method RemoveAt(parent: nat, name: string) returns (gone: bool)
      requires parent in descriptors
      modifies this`world
      ensures (world, gone) == Remove(old(world), faults, descriptors[parent] + [name])
    {
      var (after, done) := Remove(world, faults, descriptors[parent] + [name]);
      world, gone := after, done;
    }

    method Close(directory: nat)
      requires Valid() && directory in descriptors
      modifies this`descriptors
      ensures Valid() && descriptors == old(descriptors) - {directory}
    {
      descriptors := descriptors - {directory};
    }
  }

  method MakeCleanupFrame(k: Kernel, parent: nat, name: string, depth: nat, remaining: nat)
    returns (left: nat, made: Made, child: nat)
    requires k.Valid() && parent in k.descriptors
    modifies k
    ensures k.Valid()
    ensures (k.world, left, made) == MakeFrame(old(k.world), k.faults, old(k.descriptors[parent]) + [name], depth, remaining)
    ensures made.Frame? ==>
              child !in old(k.descriptors) && k.descriptors == old(k.descriptors)[child := old(k.descriptors[parent]) + [name]]
    ensures made.Unopened? ==> k.descriptors == old(k.descriptors)
    ensures k.opens - old(k.opens) <= remaining - left
    ensures k.most == if made.Frame? then Max(old(k.most), |k.descriptors|) else old(k.most)
  {
    child := 0;
    if depth > MAXIMUM_DEPTH || remaining == 0 {
      return remaining, Unopened(false), child;
    }
    left := remaining - 1;
    var answer;
    answer, child := k.OpenAt(parent, name);
    if answer != Descriptor {
      return left, Unopened(answer == Missing), child;
    }
    var complete := k.KillAt(child);
    complete := complete && Drained(k.world, k.faults, k.descriptors[child]);
    var descendants := Scan(k.world, k.faults, k.descriptors[child]);
    if descendants.Unreadable? {
      complete := false;
    }
    made := Frame(if descendants.Names? then descendants.names else [], complete);
  }

  /** The descriptors open while the loop has this stack. */
  ghost function Held(before: map<nat, Path>, stack: seq<StackFrame>): map<nat, Path> {
    if stack == [] then before
    else Held(before, stack[..|stack| - 1])[stack[|stack| - 1].child := stack[|stack| - 1].path]
  }

  /** Every frame goes through a descriptor that is open below it, names its own by a fresh one, and
      is one level deeper than the frame below. */
  ghost predicate Stacked(before: map<nat, Path>, stack: seq<StackFrame>, depth: nat) {
    stack == [] ||
    var top, below := stack[|stack| - 1], stack[..|stack| - 1];
    && Stacked(before, below, depth)
    && top.parent in Held(before, below) && top.path == Held(before, below)[top.parent] + [top.name]
    && top.child !in Held(before, below)
    && top.depth == depth + |below| && top.depth <= MAXIMUM_DEPTH
  }

  /** Children still to visit, over the whole stack. */
  function Unvisited(stack: seq<StackFrame>): nat
    requires Resumable(stack)
  {
    if stack == [] then 0 else
      var top := stack[|stack| - 1];
      Unvisited(stack[..|stack| - 1]) + (|top.names| - top.next)
  }

  /** The top frame may change what it has visited; everything below stays as it is. */
  lemma Retop(before: map<nat, Path>, stack: seq<StackFrame>, depth: nat, next: nat, complete: bool)
    requires stack != [] && Stacked(before, stack, depth)
    ensures var top := stack[|stack| - 1];
            var stack' := stack[|stack| - 1 := top.(next := next, complete := complete)];
            Held(before, stack') == Held(before, stack) && Stacked(before, stack', depth)
  {
    var top := stack[|stack| - 1];
    var stack' := stack[|stack| - 1 := top.(next := next, complete := complete)];
    assert stack'[..|stack| - 1] == stack[..|stack| - 1];
  }

  lemma RetopUnvisited(stack: seq<StackFrame>, next: nat, complete: bool)
    requires stack != [] && Resumable(stack) && next <= |stack[|stack| - 1].names|
    ensures var top := stack[|stack| - 1];
            var stack' := stack[|stack| - 1 := top.(next := next, complete := complete)];
            Resumable(stack') && Unvisited(stack') == Unvisited(stack) + top.next - next
  {
    var top := stack[|stack| - 1];
    var stack' := stack[|stack| - 1 := top.(next := next, complete := complete)];
    assert stack'[..|stack| - 1] == stack[..|stack| - 1];
  }

  lemma PushStacked(before: map<nat, Path>, stack: seq<StackFrame>, depth: nat, frame: StackFrame)
    requires stack != [] && Stacked(before, stack, depth)
    requires var top := stack[|stack| - 1];
             && frame.parent == top.child && frame.path == top.path + [frame.name]
             && frame.depth == top.depth + 1 && frame.depth <= MAXIMUM_DEPTH
             && frame.child !in Held(before, stack)
    ensures Stacked(before, stack + [frame], depth)
    ensures Held(before, stack + [frame]) == Held(before, stack)[frame.child := frame.path]
  {
    assert (stack + [frame])[..|stack|] == stack;
  }

  /** What the loop keeps: the work left on the stack is the rest of the recursive removal, and the
      frames go through open descriptors. */
  ghost predicate LoopInv(before: map<nat, Path>, stack: seq<StackFrame>, depth: nat, w: World, f: Faults, left: nat,
                          answer: (World, nat, bool)) {
    && stack != [] && Resumable(stack) && Stacked(before, stack, depth)
    && Resume(w, f, stack, left) == answer
  }

  lemma StartInv(before: map<nat, Path>, frame: StackFrame, w: World, f: Faults, remaining: nat)
    requires frame.parent in before && frame.path == before[frame.parent] + [frame.name] && frame.child !in before
    requires var (w', left, made) := MakeFrame(w, f, frame.path, frame.depth, remaining);
             made == Frame(frame.names, frame.complete) && frame.next == 0
    ensures var (w', left, made) := MakeFrame(w, f, frame.path, frame.depth, remaining);
            && LoopInv(before, [frame], frame.depth, w', f, left, CleanTree(w, f, frame.path, frame.depth, remaining))
            && Held(before, [frame]) == before[frame.child := frame.path]
  {
    assert frame.names[0..] == frame.names && [frame][..0] == [];
    assert Stacked(before, [], frame.depth) && Held(before, []) == before;
  }

  lemma SkipInv(before: map<nat, Path>, stack: seq<StackFrame>, depth: nat, w: World, f: Faults, left: nat,
                answer: (World, nat, bool))
    requires LoopInv(before, stack, depth, w, f, left, answer)
    requires var top := stack[|stack| - 1]; top.next < |top.names|
    requires var top := stack[|stack| - 1];
             MakeFrame(w, f, top.path + [top.names[top.next]], top.depth + 1, left).2.Unopened?
    ensures var top := stack[|stack| - 1];
            var (w', left', made) := MakeFrame(w, f, top.path + [top.names[top.next]], top.depth + 1, left);
            var stack' := stack[|stack| - 1 := top.(next := top.next + 1, complete := top.complete && made.gone)];
            && LoopInv(before, stack', depth, w', f, left', answer)
            && Held(before, stack') == Held(before, stack) && Unvisited(stack') < Unvisited(stack)
  {
    var top := stack[|stack| - 1];
    var made := MakeFrame(w, f, top.path + [top.names[top.next]], top.depth + 1, left).2;
    ResumeSkip(w, f, stack, left);
    Retop(before, stack, depth, top.next + 1, top.complete && made.gone);
    RetopUnvisited(stack, top.next + 1, top.complete && made.gone);
  }

  lemma PushInv(before: map<nat, Path>, stack: seq<StackFrame>, depth: nat, w: World, f: Faults, left: nat,
                answer: (World, nat, bool), frame: StackFrame)
    requires LoopInv(before, stack, depth, w, f, left, answer)
    requires var top := stack[|stack| - 1];
             && top.next < |top.names| && frame.parent == top.child && frame.name == top.names[top.next]
             && frame.path == top.path + [frame.name] && frame.depth == top.depth + 1 && frame.next == 0
             && frame.child !in Held(before, stack)
    requires MakeFrame(w, f, frame.path, frame.depth, left).2 == Frame(frame.names, frame.complete)
    ensures var top := stack[|stack| - 1];
            var (w', left', made) := MakeFrame(w, f, frame.path, frame.depth, left);
            var stack' := stack[|stack| - 1 := top.(next := top.next + 1)] + [frame];
            && LoopInv(before, stack', depth, w', f, left', answer)
            && Held(before, stack') == Held(before, stack)[frame.child := frame.path]
  {
    var top := stack[|stack| - 1];
    ResumePush(w, f, stack, left, frame);
    Retop(before, stack, depth, top.next + 1, top.complete);
    PushStacked(before, stack[|stack| - 1 := top.(next := top.next + 1)], depth, frame);
  }

  /** A frame with nothing left to visit removes its directory and reports downwards. */
  lemma ResumePop(w: World, f: Faults, stack: seq<StackFrame>, left: nat)
    requires stack != [] && Resumable(stack)
    requires var top := stack[|stack| - 1]; top.next == |top.names|
    ensures var top, below := stack[|stack| - 1], stack[..|stack| - 1];
            var (w', gone) := Remove(w, f, top.path);
            Resume(w, f, stack, left) ==
            if below == [] then (w', left, top.complete && gone) else Resume(w', f, Absorb(below, top.complete && gone), left)
  {
    var top := stack[|stack| - 1];
    assert top.names[top.next..] == [];
  }

  /** Closing the top frame's directory leaves its parent's descriptor open. */
  lemma PopHeld(before: map<nat, Path>, stack: seq<StackFrame>, depth: nat)
    requires stack != [] && Stacked(before, stack, depth)
    ensures var top, below := stack[|stack| - 1], stack[..|stack| - 1];
            && Held(before, stack) - {top.child} == Held(before, below)
            && top.parent in Held(before, below) && top.path == Held(before, below)[top.parent] + [top.name]
  {
  }

  /** Reporting to the frame below. */
  lemma AbsorbInv(before: map<nat, Path>, below: seq<StackFrame>, depth: nat, complete: bool)
    requires below != [] && Resumable(below) && Stacked(before, below, depth)
    ensures var stack' := Absorb(below, complete);
            && Resumable(stack') && Stacked(before, stack', depth)
            && Held(before, stack') == Held(before, below) && Unvisited(stack') == Unvisited(below)
  {
    var top := below[|below| - 1];
    Retop(before, below, depth, top.next, top.complete && complete);
    RetopUnvisited(below, top.next, top.complete && complete);
  }

  /** Finishing the top frame. */
  lemma PopInv(before: map<nat, Path>, stack: seq<StackFrame>, depth: nat, w: World, f: Faults, left: nat,
               answer: (World, nat, bool))
    requires LoopInv(before, stack, depth, w, f, left, answer)
    requires var top := stack[|stack| - 1]; top.next == |top.names|
    ensures var top, below := stack[|stack| - 1], stack[..|stack| - 1];
            var (w', gone) := Remove(w, f, top.path);
            && (below == [] ==> answer == (w', left, top.complete && gone))
            && (below != [] ==>
                  var stack' := Absorb(below, top.complete && gone);
                  && LoopInv(before, stack', depth, w', f, left, answer)
                  && Held(before, stack') == Held(before, below) && Unvisited(stack') <= Unvisited(stack))
  {
    var top, below := stack[|stack| - 1], stack[..|stack| - 1];
    ResumePop(w, f, stack, left);
    if below != [] { AbsorbInv(before, below, depth, top.complete && Remove(w, f, top.path).1); }
  }

  /** How many levels of a walk are within the limit from `depth` on. */
  function Levels(depth: nat): nat { if depth > MAXIMUM_DEPTH then 0 else MAXIMUM_DEPTH + 1 - depth }

  lemma {:induction false} HeldCount(before: map<nat, Path>, stack: seq<StackFrame>, depth: nat)
    requires Stacked(before, stack, depth)
    ensures |Held(before, stack)| == |before| + |stack|
  {
    if stack != [] {
      var top, below := stack[|stack| - 1], stack[..|stack| - 1];
      HeldCount(before, below, depth);
      assert Held(before, stack).Keys == Held(before, below).Keys + {top.child};
    }
  }

  /** A frame deeper than the limit is never made, and each holds one descriptor: a walk that starts at depth
      one never holds more than eight. */
  lemma StackIsShallow(before: map<nat, Path>, stack: seq<StackFrame>, depth: nat, w: World, f: Faults, left: nat,
                       answer: (World, nat, bool))
    requires LoopInv(before, stack, depth, w, f, left, answer)
    ensures |stack| <= Levels(depth) && |Held(before, stack)| <= |before| + Levels(depth)
  {
    HeldCount(before, stack, depth);
  }

  /** Close the finished frame's directory and remove it through its parent. */
  method FinishFrame(k: Kernel, frame: StackFrame) returns (complete: bool)
    requires k.Valid() && frame.child in k.descriptors && frame.parent in k.descriptors && frame.parent != frame.child
    requires frame.path == k.descriptors[frame.parent] + [frame.name]
    modifies k`world, k`descriptors
    ensures k.Valid() && k.descriptors == old(k.descriptors) - {frame.child}
    ensures var (w, gone) := Remove(old(k.world), k.faults, frame.path); k.world == w && complete == (frame.complete && gone)
  {
    k.Close(frame.child);
    var gone := k.RemoveAt(frame.parent, frame.name);
    complete := frame.complete && gone;
  }

  /** The stack after the next child of the top frame has been tried. */
  function Visited(stack: seq<StackFrame>, made: Made, child: nat): seq<StackFrame>
    requires stack != [] && stack[|stack| - 1].next < |stack[|stack| - 1].names|
  {
    var top := stack[|stack| - 1];
    var name := top.names[top.next];
    match made
    case Frame(names, complete) =>
      stack[|stack| - 1 := top.(next := top.next + 1)]
      + [StackFrame(top.child, name, top.path + [name], top.depth + 1, child, names, 0, complete)]
    case Unopened(gone) => stack[|stack| - 1 := top.(next := top.next + 1, complete := top.complete && gone)]
  }

  lemma VisitInv(before: map<nat, Path>, stack: seq<StackFrame>, depth: nat, w: World, f: Faults, left: nat,
                 answer: (World, nat, bool), w': World, left': nat, made: Made, child: nat)
    requires LoopInv(before, stack, depth, w, f, left, answer)
    requires var top := stack[|stack| - 1];
             && top.next < |top.names| && (made.Frame? ==> child !in Held(before, stack))
             && (w', left', made) == MakeFrame(w, f, top.path + [top.names[top.next]], top.depth + 1, left)
    ensures var top, stack' := stack[|stack| - 1], Visited(stack, made, child);
            && LoopInv(before, stack', depth, w', f, left', answer)
            && Held(before, stack') == (if made.Frame? then Held(before, stack)[child := top.path + [top.names[top.next]]]
                                        else Held(before, stack))
            && (left' < left || (left' == left && |stack'| == |stack| && Unvisited(stack') < Unvisited(stack)))
  {
    if made.Frame? {
      var stack' := Visited(stack, made, child);
      PushInv(before, stack, depth, w, f, left, answer, stack'[|stack|]);
    } else {
      SkipInv(before, stack, depth, w, f, left, answer);
    }
  }

  /** Try the next child of the top frame. */
  method VisitNext(k: Kernel, pending: seq<StackFrame>, budget: nat, ghost before: map<nat, Path>, ghost depth: nat,
                   ghost answer: (World, nat, bool))
    returns (left: nat, stack: seq<StackFrame>)
    requires k.Valid() && LoopInv(before, pending, depth, k.world, k.faults, budget, answer) && k.descriptors == Held(before, pending)
    requires var top := pending[|pending| - 1]; top.next < |top.names|
    modifies k
    ensures k.Valid() && LoopInv(before, stack, depth, k.world, k.faults, left, answer) && k.descriptors == Held(before, stack)
    ensures left < budget || (left == budget && |stack| == |pending| && Unvisited(stack) < Unvisited(pending))
    ensures k.opens - old(k.opens) <= budget - left
    ensures k.most <= Max(old(k.most), |before| + Levels(depth)) && |stack| <= Levels(depth)
  {
    var current := pending[|pending| - 1];
    ghost var w := k.world;
    var made, child;
    left, made, child := MakeCleanupFrame(k, current.child, current.names[current.next], current.depth + 1, budget);
    VisitInv(before, pending, depth, w, k.faults, budget, answer, k.world, left, made, child);
    stack := Visited(pending, made, child);
    StackIsShallow(before, stack, depth, k.world, k.faults, left, answer);
  }

  /** The explicit-stack loop computes what the recursive removal does, opens no more directories than
      it takes from the budget, never has more of them open than levels are allowed, and closes every
      descriptor it opened. */
  method CleanupTree(k: Kernel, parent: nat, name: string, depth: nat, remaining: nat) returns (left: nat, ok: bool)
    requires k.Valid() && parent in k.descriptors
    modifies k
    ensures k.Valid() && k.descriptors == old(k.descriptors)
    ensures (k.world, left, ok) == CleanTree(old(k.world), k.faults, old(k.descriptors[parent]) + [name], depth, remaining)
    ensures k.opens - old(k.opens) <= remaining - left
    ensures k.most <= Max(old(k.most), |old(k.descriptors)| + Levels(depth))
  {
    ghost var before, world := k.descriptors, k.world;
    ghost var answer := CleanTree(world, k.faults, before[parent] + [name], depth, remaining);
    var made, child;
    left, made, child := MakeCleanupFrame(k, parent, name, depth, remaining);
    if made.Unopened? {
      return left, made.gone;
    }
    var initial := StackFrame(parent, name, k.descriptors[child], depth, child, made.names, 0, made.complete);
    StartInv(before, initial, world, k.faults, remaining);
    var pending := [initial];
    StackIsShallow(before, pending, depth, k.world, k.faults, left, answer);
    while true
      invariant k.Valid() && LoopInv(before, pending, depth, k.world, k.faults, left, answer)
      invariant k.descriptors == Held(before, pending)
      invariant k.opens - old(k.opens) <= remaining - left
      invariant |pending| <= Levels(depth) && k.most <= Max(old(k.most), |before| + Levels(depth))
      decreases left, Unvisited(pending) + |pending|
    {
      var current := pending[|pending| - 1];
      if current.next < |current.names| {
        left, pending := VisitNext(k, pending, left, before, depth, answer);
        continue;
      }
      PopHeld(before, pending, depth);
      PopInv(before, pending, depth, k.world, k.faults, left, answer);
      var complete := FinishFrame(k, current);
      pending := pending[..|pending| - 1];
      if pending == [] {
          return left, complete;
      }
      pending := Absorb(pending, complete);
    }
  }

  // ---------------------------------------------------------------------------------------------
  // What removal does to the hierarchy
  // ---------------------------------------------------------------------------------------------

  /** Only directories and processes at or below `path` have gone, and nothing has appeared. */
  ghost predicate Within(w: World, w': World, path: Path) {
    && w'.subtree == w.subtree
    && (forall p | p in w'.names :: p in w.names && Shrunk(w'.names[p], w.names[p]))
    && (forall p | p in w.names && !(path <= p) :: p in w'.names)
    && (forall p | p in w.names && !(path <= p) && p != Above(path) :: w'.names[p] == w.names[p])
    && (forall pid | pid in w'.homes :: pid in w.homes && w'.homes[pid] == w.homes[pid])
    && (forall pid | pid in w.homes && !(path <= w.homes[pid]) :: pid in w'.homes)
  }

  function Above(path: Path): Path { if path == [] then [] else Parent(path) }

  ghost predicate Shrunk(a: seq<string>, b: seq<string>) { |a| <= |b| && forall n | n in a :: n in b }

  lemma {:induction false} WithoutShrinks(names: seq<string>, name: string)
    ensures |Without(names, name)| <= |names|
  {
    if names != [] { WithoutShrinks(names[1..], name); }
  }

  lemma WithinTrans(a: World, b: World, c: World, path: Path)
    requires Within(a, b, path) && Within(b, c, path)
    ensures Within(a, c, path)
  {
  }

  lemma WithinWider(w: World, w': World, path: Path, name: string)
    requires Within(w, w', path + [name])
    ensures Within(w, w', path) && (path in w.names ==> path in w'.names)
  {
    assert Above(path + [name]) == path;
  }

  lemma RemoveWithin(w: World, f: Faults, path: Path)
    requires WellFormed(w) && path != []
    ensures var (w', gone) := Remove(w, f, path);
            WellFormed(w') && Within(w, w', path) && (gone <==> path !in w'.names)
  {
    if Removable(w, f, path) {
      RemovedWellFormed(w, path);
      assert Parent(path) in w.names;
      WithoutShrinks(w.names[Parent(path)], Last(path));
    }
  }

  /** Removal keeps the tree a tree, stays within it, and says it is gone only if it is. */
  lemma {:induction false} TreeWithin(w: World, f: Faults, path: Path, depth: nat, remaining: nat)
    requires WellFormed(w) && path != []
    ensures var (w', _, gone) := CleanTree(w, f, path, depth, remaining);
            WellFormed(w') && Within(w, w', path) && (gone ==> path !in w'.names)
    decreases remaining, 0
  {
    var (w1, left, made) := MakeFrame(w, f, path, depth, remaining);
    if made.Frame? {
      assert Within(w, w1, path);
      ListWithin(w1, f, path, made.names, depth, left, made.complete);
      var w2 := CleanList(w1, f, path, made.names, depth, left, made.complete).0;
      RemoveWithin(w2, f, path);
      WithinTrans(w, w1, w2, path);
      WithinTrans(w, w2, Remove(w2, f, path).0, path);
    }
  }

  lemma {:induction false} ListWithin(w: World, f: Faults, path: Path, names: seq<string>, depth: nat, remaining: nat, complete: bool)
    requires WellFormed(w)
    ensures var (w', _, all) := CleanList(w, f, path, names, depth, remaining, complete);
            WellFormed(w') && Within(w, w', path) && (path in w.names ==> path in w'.names)
    decreases remaining, |names| + 1
  {
    if names != [] {
      var child := path + [names[0]];
      var (w1, left, gone) := CleanTree(w, f, child, depth + 1, remaining);
      TreeWithin(w, f, child, depth + 1, remaining);
      WithinWider(w, w1, path, names[0]);
      ListWithin(w1, f, path, names[1..], depth, left, complete && gone);
      WithinTrans(w, w1, CleanList(w1, f, path, names[1..], depth, left, complete && gone).0, path);
    }
  }

  /** Success means that every directory of the tree is gone. */
  lemma SuccessRemovesAll(w: World, f: Faults, path: Path, depth: nat, remaining: nat, p: Path)
    requires WellFormed(w) && path != [] && CleanTree(w, f, path, depth, remaining).2 && path <= p
    ensures p !in CleanTree(w, f, path, depth, remaining).0.names
  {
    TreeWithin(w, f, path, depth, remaining);
    BelowMissing(CleanTree(w, f, path, depth, remaining).0, path, p);
  }

  // ---------------------------------------------------------------------------------------------
  // When it succeeds
  // ---------------------------------------------------------------------------------------------

  /** The directories of the tree at `path`. */
  ghost function Sub(w: World, path: Path): set<Path> { set p | p in w.names && path <= p }

  /** The directories of the trees of the children `names` of `path`. */
  ghost function SubList(w: World, path: Path, names: seq<string>): set<Path> {
    set p | p in w.names && path < p && p[|path|] in names
  }

  /** A directory the walk gets past: not too deep, not too many or unsafe children, and no call on it fails. */
  ghost predicate Visitable(w: World, f: Faults, p: Path, path: Path, depth: nat) {
    && p in w.names && |p| - |path| + depth <= MAXIMUM_DEPTH
    && |w.names[p]| <= MAXIMUM_CHILDREN && (forall n | n in w.names[p] :: SafeName(n)) && Unfailing(f, p)
  }

  /** No call on this directory fails of itself. */
  ghost predicate Unfailing(f: Faults, p: Path) { p !in f.open && p !in f.kill && p !in f.drain && p !in f.scan && p !in f.remove }

  /** The tree is within the budget, each of its directories is within the limits, and no call on one fails. */
  ghost predicate Fits(w: World, f: Faults, path: Path, depth: nat, remaining: nat) {
    |Sub(w, path)| <= remaining && forall p | p in Sub(w, path) :: Visitable(w, f, p, path, depth)
  }

  lemma SubSplit(w: World, path: Path)
    requires WellFormed(w) && path in w.names
    ensures Sub(w, path) == {path} + SubList(w, path, w.names[path])
    ensures |Sub(w, path)| == 1 + |SubList(w, path, w.names[path])|
  {
    forall p | p in Sub(w, path) && p != path ensures p in SubList(w, path, w.names[path]) {
      var child := path + [p[|path|]];
      assert child <= p;
      if child !in w.names { BelowMissing(w, child, p); }
      assert Parent(child) == path;
    }
  }

  lemma ListSplit(w: World, path: Path, names: seq<string>)
    requires names != [] && Distinct(names)
    ensures SubList(w, path, names) == Sub(w, path + [names[0]]) + SubList(w, path, names[1..])
    ensures |SubList(w, path, names)| == |Sub(w, path + [names[0]])| + |SubList(w, path, names[1..])|
  {
    var child := path + [names[0]];
    assert names[0] !in names[1..];
    forall p | p in w.names ensures child <= p <==> path < p && p[|path|] == names[0] { BelowChild(path, names[0], p); }
    assert Sub(w, child) !! SubList(w, path, names[1..]);
  }

  lemma BelowChild(path: Path, name: string, p: Path)
    ensures path + [name] <= p <==> path < p && p[|path|] == name
  {
    if path < p { assert p[..|path| + 1] == path + [p[|path|]]; }
  }

  lemma SomeMember(names: seq<string>)
    ensures names != [] ==> exists n :: n in names
  {
    if names != [] { assert names[0] in names; }
  }

  /** A directory whose listed children are all gone lists none. */
  lemma ChildrenGone(w: World, w': World, path: Path)
    requires WellFormed(w') && path in w.names && path in w'.names && Shrunk(w'.names[path], w.names[path])
    requires forall n | n in w.names[path] :: path + [n] !in w'.names
    ensures w'.names[path] == []
  {
    SomeMember(w'.names[path]);
  }

  /** Seen from its parent, a directory is one level further away but the walk began one level higher. */
  lemma ChildVisitable(w: World, f: Faults, path: Path, name: string, depth: nat)
    ensures forall p | p in Sub(w, path + [name]) :: Visitable(w, f, p, path + [name], depth + 1) <==> Visitable(w, f, p, path, depth)
  {
  }

  /** Removing one child's tree leaves those of its siblings as they were. */
  lemma SiblingsKept(w: World, w': World, f: Faults, path: Path, name: string, names: seq<string>, depth: nat)
    requires Within(w, w', path + [name]) && name !in names && forall n | n in names :: path + [n] in w.names
    ensures SubList(w', path, names) == SubList(w, path, names)
    ensures forall p | p in SubList(w, path, names) :: Visitable(w', f, p, path, depth) <==> Visitable(w, f, p, path, depth)
    ensures forall n | n in names :: path + [n] in w'.names
  {
    forall p | p in SubList(w, path, names) ensures !(path + [name] <= p) && p != path { BelowChild(path, name, p); }
    forall n | n in names ensures path + [n] in w'.names { assert path + [n] in SubList(w, path, names); }
    assert Above(path + [name]) == path;
  }

  /** The trees of the children `names` are there, within the budget and the limits. */
  ghost predicate ListFit(w: World, f: Faults, path: Path, names: seq<string>, depth: nat, remaining: nat) {
    && WellFormed(w) && Distinct(names) && (forall n | n in names :: path + [n] in w.names)
    && |SubList(w, path, names)| <= remaining
    && forall p | p in SubList(w, path, names) :: Visitable(w, f, p, path, depth)
  }

  /** The first child's tree fits, and the others fit what it leaves, so together they fit. */
  lemma JoinFit(w: World, w1: World, f: Faults, path: Path, names: seq<string>, depth: nat, remaining: nat, left: nat)
    requires names != [] && WellFormed(w) && Distinct(names) && (forall n | n in names :: path + [n] in w.names)
    requires Within(w, w1, path + [names[0]]) && Fits(w, f, path + [names[0]], depth + 1, remaining)
    requires left == remaining - |Sub(w, path + [names[0]])| && ListFit(w1, f, path, names[1..], depth, left)
    ensures ListFit(w, f, path, names, depth, remaining)
    ensures |SubList(w, path, names)| == |Sub(w, path + [names[0]])| + |SubList(w1, path, names[1..])|
  {
    SiblingsKept(w, w1, f, path, names[0], names[1..], depth);
    ListSplit(w, path, names);
    ChildVisitable(w, f, path, names[0], depth);
  }

  /** Success costs exactly one opening per directory, and only a tree that fits can succeed. */
  lemma {:induction false} TreeCounted(w: World, f: Faults, path: Path, depth: nat, remaining: nat)
    requires WellFormed(w) && path != [] && path in w.names && CleanTree(w, f, path, depth, remaining).2
    ensures Fits(w, f, path, depth, remaining)
    ensures CleanTree(w, f, path, depth, remaining).1 == remaining - |Sub(w, path)|
    decreases remaining, 0
  {
    var (w1, left, made) := MakeFrame(w, f, path, depth, remaining);
    ListCounted(w1, f, path, made.names, depth, left, made.complete);
    ListWithin(w1, f, path, made.names, depth, left, made.complete);
    FrameFits(w, w1, f, path, depth, remaining);
  }

  /** A directory fits when the trees of its children fit what is left after opening it. */
  lemma FrameFits(w: World, w1: World, f: Faults, path: Path, depth: nat, remaining: nat)
    requires WellFormed(w) && path in w.names && w1.names == w.names && remaining > 0 && Visitable(w, f, path, path, depth)
    requires ListFit(w1, f, path, w.names[path], depth, remaining - 1)
    ensures Fits(w, f, path, depth, remaining)
    ensures SubList(w1, path, w.names[path]) == SubList(w, path, w.names[path])
    ensures |Sub(w, path)| == 1 + |SubList(w, path, w.names[path])|
  {
    SubSplit(w, path);
    assert SubList(w1, path, w.names[path]) == SubList(w, path, w.names[path]);
    forall p | p in Sub(w, path) ensures Visitable(w, f, p, path, depth) {
      if p != path { assert Visitable(w1, f, p, path, depth); }
    }
  }

  lemma {:induction false} ListCounted(w: World, f: Faults, path: Path, names: seq<string>, depth: nat, remaining: nat, complete: bool)
    requires WellFormed(w) && Distinct(names) && forall n | n in names :: path + [n] in w.names
    requires CleanList(w, f, path, names, depth, remaining, complete).2
    ensures complete && ListFit(w, f, path, names, depth, remaining)
    ensures CleanList(w, f, path, names, depth, remaining, complete).1 == remaining - |SubList(w, path, names)|
    decreases remaining, |names| + 1
  {
    if names == [] {
      assert SubList(w, path, names) == {};
    } else {
      var child := path + [names[0]];
      var (w1, left, gone) := CleanTree(w, f, child, depth + 1, remaining);
      TreeWithin(w, f, child, depth + 1, remaining);
      SiblingsKept(w, w1, f, path, names[0], names[1..], depth);
      ListCounted(w1, f, path, names[1..], depth, left, complete && gone);
      TreeCounted(w, f, child, depth + 1, remaining);
      JoinFit(w, w1, f, path, names, depth, remaining, left);
    }
  }

  /** A tree that fits, and on which no call fails, is removed. */
  lemma {:induction false} TreeFits(w: World, f: Faults, path: Path, depth: nat, remaining: nat)
    requires WellFormed(w) && path != [] && path in w.names && Fits(w, f, path, depth, remaining)
    ensures CleanTree(w, f, path, depth, remaining).2
    decreases remaining, 0
  {
    assert path in Sub(w, path);
    var (w1, left, made) := MakeFrame(w, f, path, depth, remaining);
    SubSplit(w, path);
    assert SubList(w1, path, made.names) == SubList(w, path, made.names);
    ListFits(w1, f, path, made.names, depth, left);
    ListWithin(w1, f, path, made.names, depth, left, true);
    var w2 := CleanList(w1, f, path, made.names, depth, left, true).0;
    ChildrenGone(w1, w2, path);
  }

  /** The first child's tree is removed and leaves the others fitting what is left of the budget. */
  lemma {:induction false} FirstFits(w: World, f: Faults, path: Path, names: seq<string>, depth: nat, remaining: nat)
    requires names != [] && ListFit(w, f, path, names, depth, remaining)
    ensures var (w1, left, gone) := CleanTree(w, f, path + [names[0]], depth + 1, remaining);
            gone && path + [names[0]] !in w1.names && ListFit(w1, f, path, names[1..], depth, left)
    decreases remaining, |names|
  {
    var child := path + [names[0]];
    ListSplit(w, path, names);
    ChildVisitable(w, f, path, names[0], depth);
    TreeFits(w, f, child, depth + 1, remaining);
    TreeCounted(w, f, child, depth + 1, remaining);
    TreeWithin(w, f, child, depth + 1, remaining);
    SiblingsKept(w, CleanTree(w, f, child, depth + 1, remaining).0, f, path, names[0], names[1..], depth);
  }

  lemma {:induction false} ListFits(w: World, f: Faults, path: Path, names: seq<string>, depth: nat, remaining: nat)
    requires ListFit(w, f, path, names, depth, remaining)
    ensures var (w', _, all) := CleanList(w, f, path, names, depth, remaining, true);
            all && forall n | n in names :: path + [n] !in w'.names
    decreases remaining, |names| + 1
  {
    if names != [] {
      FirstFits(w, f, path, names, depth, remaining);
      var (w1, left, _) := CleanTree(w, f, path + [names[0]], depth + 1, remaining);
      ListFits(w1, f, path, names[1..], depth, left);
      ListWithin(w1, f, path, names[1..], depth, left, true);
    }
  }

  /** Exactly when removal of an existing tree succeeds, whatever calls fail. */
  lemma SuccessExactly(w: World, f: Faults, path: Path, depth: nat, remaining: nat)
    requires WellFormed(w) && path != [] && path in w.names
    ensures CleanTree(w, f, path, depth, remaining).2 <==> Fits(w, f, path, depth, remaining)
  {
    if Fits(w, f, path, depth, remaining) {
      TreeFits(w, f, path, depth, remaining);
    } else if CleanTree(w, f, path, depth, remaining).2 {
      TreeCounted(w, f, path, depth, remaining);
    }
  }
}
