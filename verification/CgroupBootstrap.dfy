/** Setting up a delegated control group root and taking it down again: class `CgroupBootstrap` of
    `evaluation/process_isolation/linux_support.cpp`.

    The kernel's "No Internal Process Constraint" (Linux cgroup v2 documentation) is part of the
    hierarchy: a process cannot be moved into the root while controllers are enabled for its subtree,
    and controllers cannot be enabled while a process is in it. Every system call may also fail on
    its own, as `StartCalls` and `CleanupCalls` say; what the kernel reports when asked again is
    arbitrary where the source only uses it to decide on an error. */
module CgroupBootstrap {
  import opened Wrappers
  import opened CgroupWorld
  import opened CgroupNames
  import opened CgroupCleanup
  import opened CgroupOwners

  datatype BootstrapError = NoError | MissingDelegation | MissingController | CleanupFailed | InternalError

  const REQUIRED: set<Controller> := {Cpu, Memory, Pids}

  /** How a write of several controllers to `cgroup.subtree_control` ends: it may take effect in part
      and fail. */
  datatype Write = Applied | Failed(partly: set<Controller>)

  datatype Mkdir = Created | Denied | OtherError

  datatype StartCalls = StartCalls(
    pathGiven: bool,
    rootValid: bool,
    controllers: Option<set<Controller>>,
    processesReadable: bool,
    childrenReadable: bool,
    mkdir: Mkdir,
    supervisorOpens: bool,
    moveFails: bool,
    supervisorProcesses: Option<set<nat>>,
    rootProcesses: Option<set<nat>>,
    enable: Write,
    enableDenied: bool,
    enabledNow: Option<set<Controller>>)

  /** A root that passes all checks: it is valid, has the controllers, holds this process alone and no
      directories. */
  ghost predicate Acceptable(calls: StartCalls, w: World, self: nat) {
    && calls.rootValid && calls.controllers.Some? && REQUIRED <= calls.controllers.value
    && calls.processesReadable && (set pid | pid in w.homes && w.homes[pid] == []) == {self}
    && calls.childrenReadable && [] in w.names && w.names[[]] == []
  }

  /** Every call of `start()` does and reports what it should. */
  ghost predicate Startable(calls: StartCalls, w: World, self: nat) {
    ReachesEnabling(calls, w, self) && Enables(calls)
  }

  /** Everything up to the last step of `start()` succeeds. */
  ghost predicate ReachesEnabling(calls: StartCalls, w: World, self: nat) {
    && calls.pathGiven && Acceptable(calls, w, self) && calls.mkdir == Created && calls.supervisorOpens && Migrates(calls, self)
  }

  /** Controllers that a failed write enabled stay enabled: none was reported, or disabling them failed. */
  predicate UnreportedOrStuck(calls: StartCalls, undo: CleanupCalls, on: set<Controller>) {
    if calls.enabledNow.None? || calls.enabledNow.value * REQUIRED == {} then on != {}
    else undo.disable.Failed? && on - undo.disable.partly != {}
  }

  /** Enabling the controllers fails, and some of them stay enabled when it is undone. */
  predicate LeftEnabled(calls: StartCalls, undo: CleanupCalls) {
    match calls.enable
    case Failed(partly) => UnreportedOrStuck(calls, undo, partly)
    case Applied => !Enables(calls) && undo.disable.Failed? && REQUIRED - undo.disable.partly != {}
  }

  predicate Migrates(calls: StartCalls, self: nat) {
    !calls.moveFails && calls.supervisorProcesses == Some({self}) && calls.rootProcesses == Some({})
  }

  predicate Enables(calls: StartCalls) {
    calls.enable.Applied? && calls.enabledNow.Some? && REQUIRED <= calls.enabledNow.value
  }

  datatype CleanupCalls = CleanupCalls(faults: seq<Faults>, disable: Write, moveFails: bool, drainFails: bool, removeFails: bool)

  lemma AllRequired(on: set<Controller>)
    ensures on - REQUIRED == {}
  {
    forall c | c in on ensures c in REQUIRED {
      match c case Cpu => case Memory => case Pids =>
    }
  }

  /** Some process lives in the root itself. */
  predicate RootPopulated(w: World) { exists pid | pid in w.homes :: w.homes[pid] == [] }

  /** The No Internal Process Constraint. */
  predicate Constrained(w: World) { !(w.subtree != {} && RootPopulated(w)) }

  function MoveTo(w: World, pid: nat, path: Path, fails: bool): (World, bool) {
    if fails || path !in w.names || (path == [] && w.subtree != {}) then (w, false)
    else (w.(homes := w.homes[pid := path]), true)
  }

  function Enable(w: World, write: Write): (World, bool) {
    if RootPopulated(w) then (w, false) else
      match write
      case Applied => (w.(subtree := w.subtree + REQUIRED), true)
      case Failed(partly) => (w.(subtree := w.subtree + partly), false)
  }

  function Disable(w: World, write: Write): (World, bool) {
    match write
    case Applied => (w.(subtree := w.subtree - REQUIRED), true)
    case Failed(partly) => (w.(subtree := w.subtree - partly), false)
  }

  function WithChild(w: World, name: string): World
    requires [] in w.names
  {
    w.(names := w.names[[name] := []][[] := w.names[[]] + [name]])
  }

  /** What fails for the next owner, and for those after it; nothing does when the list is over. */
  function Now(faults: seq<Faults>): Faults { if faults == [] then NO_FAULTS else faults[0] }

  function Later(faults: seq<Faults>): seq<Faults> { if faults == [] then [] else faults[1..] }

  /** Clean up after each of the remembered owners in turn. */
  function CleanOwners(w: World, f: seq<Faults>, prefix: string, owners: seq<int>): (World, bool)
    decreases |owners|
  {
    if owners == [] then (w, true) else
      var (w1, first) := CleanOwner(w, Now(f), owners[0], prefix);
      var (w2, rest) := CleanOwners(w1, Later(f), prefix, owners[1..]);
      (w2, first && rest)
  }

  /** The flags of the object decide what is undone: controllers, then the move, then the directory. */
  function Restored(w: World, self: nat, supervisor: string, enabled: bool, moved: bool, created: bool): World {
    var w1 := if enabled then w.(subtree := w.subtree - REQUIRED) else w;
    var w2 := if moved then w1.(homes := w1.homes[self := []]) else w1;
    if created then Removed(w2, [supervisor]) else w2
  }

  /** The root can be restored: no write fails, and no controller is left enabled under this process. */
  predicate Restorable(calls: CleanupCalls, subtree: set<Controller>, enabled: bool, moved: bool) {
    (enabled ==> calls.disable.Applied?) && (moved ==> !calls.moveFails && (enabled || subtree == {}))
  }

  /** The move back asks the kernel to break the constraint: some controller is still enabled, because
      disabling failed for it, or because it was never known to be enabled. */
  predicate Violates(calls: CleanupCalls, subtree: set<Controller>, enabled: bool, moved: bool) {
    moved && if enabled then calls.disable.Failed? && subtree - calls.disable.partly != {} else subtree != {}
  }

  /** The supervisor's directory can be removed: it drains, and nothing is in it. */
  predicate Vacated(calls: CleanupCalls, w: World, home: Path, open: bool, created: bool) {
    && (open ==> !calls.drainFails && forall pid | pid in w.homes :: !(home <= w.homes[pid]))
    && (created ==> !calls.removeFails && home in w.names && w.names[home] == [] && forall pid | pid in w.homes :: w.homes[pid] != home)
  }

  /** What undoing leaves, whatever fails: each step is made, and has its effect unless it fails itself. */
  function WithoutControllers(w: World, calls: CleanupCalls, enabled: bool): World {
    if enabled then w.(subtree := w.subtree - if calls.disable.Applied? then REQUIRED else calls.disable.partly) else w
  }

  function MovedBack(w: World, self: nat, calls: CleanupCalls, moved: bool): World {
    if moved && !calls.moveFails && w.subtree == {} then w.(homes := w.homes[self := []]) else w
  }

  function WithoutSupervisor(w: World, home: Path, calls: CleanupCalls, created: bool): World
    requires home != []
  {
    if created && !calls.removeFails && home in w.names && w.names[home] == [] && (forall pid | pid in w.homes :: w.homes[pid] != home)
    then Removed(w, home) else w
  }

  /** Undoing from here succeeds. */
  predicate Undone(w: World, self: nat, supervisor: string, calls: CleanupCalls, open: bool, created: bool, moved: bool, enabled: bool) {
    && Restorable(calls, w.subtree, enabled, moved)
    && Vacated(calls, Restored(w, self, supervisor, enabled, moved, false), [supervisor], open, created)
  }

  // ---------------------------------------------------------------------------------------------
  // What a start answers
  // ---------------------------------------------------------------------------------------------

  /** What is wrong with the root, if anything. */
  ghost function RootFault(calls: StartCalls, w: World, self: nat): BootstrapError {
    if !calls.rootValid then MissingDelegation
    else if calls.controllers.None? then InternalError
    else if exists c :: c in REQUIRED && c !in calls.controllers.value then MissingController
    else if !calls.processesReadable then InternalError
    else if (set pid | pid in w.homes && w.homes[pid] == []) != {self} then MissingDelegation
    else if !calls.childrenReadable || [] !in w.names || |w.names[[]]| > MAXIMUM_CHILDREN || (exists n | n in w.names[[]] :: !SafeName(n))
    then InternalError
    else if w.names[[]] != [] then MissingDelegation
    else NoError
  }

  /** What is wrong with a list of processes that is to be this one. */
  function ListFault(read: Option<set<nat>>, wanted: set<nat>): BootstrapError {
    match read case None => InternalError case Some(processes) => if processes == wanted then NoError else MissingDelegation
  }

  /** What is wrong with moving into the supervisor's directory. */
  function MoveFault(calls: StartCalls, self: nat): BootstrapError {
    if calls.moveFails then MissingDelegation
    else if calls.supervisorProcesses != Some({self}) then ListFault(calls.supervisorProcesses, {self})
    else ListFault(calls.rootProcesses, {})
  }

  /** What is wrong with enabling the controllers. */
  ghost function EnableFault(calls: StartCalls): BootstrapError {
    if calls.enabledNow.None? then InternalError
    else if calls.enable.Failed? then (if calls.enableDenied then MissingDelegation else InternalError)
    else if exists c :: c in REQUIRED && c !in calls.enabledNow.value then MissingController
    else NoError
  }

  /** The error, or a failed cleanup where undoing fails. */
  function Unless(error: BootstrapError, undone: bool): BootstrapError { if undone then error else CleanupFailed }

  /** Undoing after the controllers could not be enabled: some may be enabled, and are known to be if they were read. */
  predicate EnableUndone(calls: StartCalls, undo: CleanupCalls, w: World, self: nat, supervisor: string) {
    match calls.enable
    case Applied => Undone(w.(subtree := REQUIRED), self, supervisor, undo, true, true, true, true)
    case Failed(partly) =>
      Undone(w.(subtree := partly), self, supervisor, undo, true, true, true, calls.enabledNow.Some? && calls.enabledNow.value * REQUIRED != {})
  }

  /** What `start()` answers. */
  ghost function StartAnswer(calls: StartCalls, undo: CleanupCalls, w: World, self: nat, supervisor: string): BootstrapError {
    if !calls.pathGiven then MissingDelegation
    else if RootFault(calls, w, self) != NoError then RootFault(calls, w, self)
    else if calls.mkdir == Denied then MissingDelegation
    else if calls.mkdir == OtherError then InternalError
    else
      var made := WithChild(w, supervisor);
      if !calls.supervisorOpens then Unless(InternalError, Undone(made, self, supervisor, undo, false, true, false, false))
      else if MoveFault(calls, self) != NoError then
        if calls.moveFails then Unless(MissingDelegation, Undone(made, self, supervisor, undo, true, true, false, false))
        else Unless(MoveFault(calls, self), Undone(Migrated(w, self, supervisor), self, supervisor, undo, true, true, true, false))
      else Unless(EnableFault(calls), EnableFault(calls) == NoError || EnableUndone(calls, undo, Migrated(w, self, supervisor), self, supervisor))
  }

  /** What cleaning up after several owners keeps: everything that is none of theirs. */
  ghost predicate Swept(w: World, w': World, prefix: string, owners: seq<int>) {
    && WellFormed(w') && w'.subtree == w.subtree
    && (forall p | p in w'.names :: p in w.names)
    && (forall p | p in w.names && !OwnedByAny(owners, prefix, p) :: p in w'.names)
    && (forall pid | pid in w'.homes :: pid in w.homes && w'.homes[pid] == w.homes[pid])
    && (forall pid | pid in w.homes && !OwnedByAny(owners, prefix, w.homes[pid]) :: pid in w'.homes)
  }

  ghost predicate OwnedByAny(owners: seq<int>, prefix: string, p: Path) {
    exists i | 0 <= i < |owners| :: Owned(owners[i], prefix, p)
  }

  lemma {:induction false} OwnersSwept(w: World, f: seq<Faults>, prefix: string, owners: seq<int>)
    requires WellFormed(w)
    ensures var (w', all) := CleanOwners(w, f, prefix, owners);
            && Swept(w, w', prefix, owners)
            && (all ==> forall p | p in w'.names :: !OwnedByAny(owners, prefix, p))
    decreases |owners|
  {
    if owners != [] {
      var w1 := CleanOwner(w, Now(f), owners[0], prefix).0;
      OwnerCleaned(w, Now(f), owners[0], prefix);
      OwnersSwept(w1, Later(f), prefix, owners[1..]);
      forall p | !OwnedByAny(owners, prefix, p) ensures !OwnedByAny(owners[1..], prefix, p) && !Owned(owners[0], prefix, p) {
        assert forall i | 0 <= i < |owners[1..]| :: owners[1..][i] == owners[i + 1];
      }
      forall p | OwnedByAny(owners, prefix, p) ensures Owned(owners[0], prefix, p) || OwnedByAny(owners[1..], prefix, p) {
        var i :| 0 <= i < |owners| && Owned(owners[i], prefix, p);
        if i > 0 { assert owners[1..][i - 1] == owners[i]; }
      }
    }
  }

  /** What fails for owner number `i`. */
  function At(f: seq<Faults>, i: nat): Faults { if i < |f| then f[i] else NO_FAULTS }

  /** There is nothing to do, or the root can be listed every time, and the trees of each owner, when it is its first
      turn, are within the limits and no call on them fails. */
  ghost predicate OwnersFit(w: World, f: seq<Faults>, prefix: string, owners: seq<int>) {
    owners != [] ==> RootFits(w) && forall i | 0 <= i < |owners| :: TurnFits(w, f, prefix, owners, i)
  }

  ghost predicate TurnFits(w: World, f: seq<Faults>, prefix: string, owners: seq<int>, i: nat)
    requires i < |owners|
  {
    [] !in At(f, i).scan && (owners[i] !in owners[..i] ==> TreesFit(w, At(f, i), owners[i], prefix))
  }

  /** After a successful turn the others' trees are as they were, and the owner's are gone. */
  lemma TreesAfter(w: World, f: Faults, owner: int, prefix: string, g: Faults, other: int)
    requires WellFormed(w) && CleanOwner(w, f, owner, prefix).1
    ensures var w1 := CleanOwner(w, f, owner, prefix).0;
            && (RootFits(w) ==> RootFits(w1))
            && (TreesFit(w1, g, other, prefix) <==> other == owner || TreesFit(w, g, other, prefix))
  {
    var w1 := CleanOwner(w, f, owner, prefix).0;
    OwnerCleaned(w, f, owner, prefix);
    if other == owner {
      assert OwnedTrees(w1, other, prefix) == {};
    } else {
      forall p | p in w.names && Owned(other, prefix, p) ensures !Owned(owner, prefix, p) {
        if Owned(owner, prefix, p) { OneOwner(owner, other, prefix, p[0]); }
      }
      assert OwnedTrees(w1, other, prefix) == OwnedTrees(w, other, prefix);
      forall p | p in OwnedTrees(w, other, prefix) ensures Visitable(w1, g, p, [], 0) <==> Visitable(w, g, p, [], 0) {}
    }
  }

  lemma TurnShifts(w: World, w1: World, f: seq<Faults>, prefix: string, owners: seq<int>, i: nat)
    requires 0 < i < |owners|
    requires forall g, other :: TreesFit(w1, g, other, prefix) <==> other == owners[0] || TreesFit(w, g, other, prefix)
    ensures TurnFits(w1, Later(f), prefix, owners[1..], i - 1) <==> TurnFits(w, f, prefix, owners, i)
  {
    assert At(Later(f), i - 1) == At(f, i);
    assert owners[..i] == [owners[0]] + owners[1..][..i - 1];
  }

  /** Exactly when cleaning up after all owners succeeds, whatever fails. */
  lemma {:induction false} OwnersSuccessExactly(w: World, f: seq<Faults>, prefix: string, owners: seq<int>)
    requires WellFormed(w)
    ensures CleanOwners(w, f, prefix, owners).1 <==> OwnersFit(w, f, prefix, owners)
    decreases |owners|
  {
    if owners != [] {
      var (w1, first) := CleanOwner(w, Now(f), owners[0], prefix);
      OwnerSuccessExactly(w, Now(f), owners[0], prefix);
      assert At(f, 0) == Now(f) && owners[..0] == [];
      if first {
        OwnerCleaned(w, Now(f), owners[0], prefix);
        OwnersSuccessExactly(w1, Later(f), prefix, owners[1..]);
        OwnersFitAfter(w, w1, f, prefix, owners);
      } else {
        assert !TurnFits(w, f, prefix, owners, 0) || !RootFits(w);
      }
    }
  }

  lemma OwnersFitAfter(w: World, w1: World, f: seq<Faults>, prefix: string, owners: seq<int>)
    requires owners != [] && WellFormed(w) && CleanOwner(w, Now(f), owners[0], prefix) == (w1, true)
    requires OwnerFits(w, Now(f), owners[0], prefix)
    ensures OwnersFit(w1, Later(f), prefix, owners[1..]) <==> OwnersFit(w, f, prefix, owners)
  {
    assert At(f, 0) == Now(f) && owners[..0] == [];
    forall g, other ensures TreesFit(w1, g, other, prefix) <==> other == owners[0] || TreesFit(w, g, other, prefix) {
      TreesAfter(w, Now(f), owners[0], prefix, g, other);
    }
    TreesAfter(w, Now(f), owners[0], prefix, NO_FAULTS, owners[0]);
    var rest := owners[1..];
    forall i | 0 < i < |owners| ensures TurnFits(w1, Later(f), prefix, rest, i - 1) <==> TurnFits(w, f, prefix, owners, i) {
      TurnShifts(w, w1, f, prefix, owners, i);
    }
    if OwnersFit(w, f, prefix, owners) {
      forall k: nat | k < |rest| ensures TurnFits(w1, Later(f), prefix, rest, k) { assert TurnFits(w, f, prefix, owners, k + 1); }
    }
    if OwnersFit(w1, Later(f), prefix, rest) {
      forall i: nat | i < |owners| ensures TurnFits(w, f, prefix, owners, i) {
        if i > 0 { assert TurnFits(w1, Later(f), prefix, rest, i - 1); }
      }
    }
  }

  /** The supervisor's directory, and a process in it, survive any cleaning up after owners. */
  lemma SupervisorKept(w: World, w': World, prefix: string, owners: seq<int>, self: nat)
    requires Swept(w, w', prefix, owners)
    ensures var home := [SupervisorName(prefix, self)];
            && (home in w.names ==> home in w'.names)
            && (self in w.homes && w.homes[self] == home ==> self in w'.homes && w'.homes[self] == home)
  {
    var home := [SupervisorName(prefix, self)];
    forall i | 0 <= i < |owners| ensures !Owned(owners[i], prefix, home) { SupervisorUnowned(owners[i], prefix, self); }
  }

  lemma CleanOwnersSplit(w: World, f: seq<Faults>, prefix: string, owners: seq<int>, i: nat)
    requires i < |owners|
    ensures var (w1, first) := CleanOwner(w, Now(f), owners[i], prefix);
            var (w2, rest) := CleanOwners(w1, Later(f), prefix, owners[i + 1..]);
            CleanOwners(w, f, prefix, owners[i..]) == (w2, first && rest)
  {
    assert owners[i..][1..] == owners[i + 1..];
  }

  class CgroupBootstrap {
    const prefix: string
    const self: nat
    const supervisor: string
    var world: World
    var rootOpen: bool
    var supervisorOpen: bool
    var created: bool
    var moved: bool
    var enabled: bool
    var ready: bool
    var cleaned: bool
    var cleanupOkay: bool
    var owners: seq<int>

    /** How often the kernel was asked to move a process into a root with enabled controllers. */
    ghost var violations: nat

    ghost predicate Valid()
      reads this
    {
      && supervisor == SupervisorName(prefix, self)
      && WellFormed(world) && Constrained(world)
      && (created ==> rootOpen && [supervisor] in world.names)
      && (supervisorOpen ==> created)
      && (moved ==> created && self in world.homes && world.homes[self] == [supervisor])
      && (enabled ==> moved)
      && (cleaned ==> !created && !moved && !enabled && !ready)
    }

    constructor (prefix: string, self: nat, world: World)
      requires WellFormed(world) && Constrained(world)
      ensures Valid() && this.world == world && this.prefix == prefix && this.self == self
      ensures Idle() && !rootOpen && violations == 0
    {
      this.prefix, this.self, this.world, supervisor := prefix, self, world, SupervisorName(prefix, self);
      rootOpen, supervisorOpen, created, moved, enabled, ready := false, false, false, false, false, false;
      cleaned, cleanupOkay, owners, violations := false, true, [], 0;
    }

    method RememberTaskOwner(process: int)
      requires Valid()
      modifies this`owners
      ensures Valid() && owners == old(owners) + (if process > 0 then [process] else [])
    {
      if process > 0 {
        owners := owners + [process];
      }
    }

    /** Clean up after the remembered owners, in the order they were remembered. */
    method SweepOwners(faults: seq<Faults>) returns (okay: bool)
      requires Valid()
      modifies this`world, this`owners
      ensures Valid() && owners == [] && world.subtree == old(world.subtree)
      ensures okay <==> (rootOpen || old(owners) == []) && CleanOwners(old(world), faults, prefix, old(owners)).1
      ensures world == if rootOpen then CleanOwners(old(world), faults, prefix, old(owners)).0 else old(world)
    {
      okay := true;
      var i, left := 0, faults;
      assert owners[0..] == owners;
      while i < |owners|
        invariant 0 <= i <= |owners| && owners == old(owners) && Valid() && world.subtree == old(world.subtree)
        invariant !rootOpen ==> (i > 0 ==> !okay) && world == old(world)
        invariant rootOpen || i == 0 ==>
                    var (w, rest) := CleanOwners(world, left, prefix, owners[i..]);
                    CleanOwners(old(world), faults, prefix, owners) == (w, okay && rest)
      {
        if rootOpen {
          CleanOwnersSplit(world, left, prefix, owners, i);
          OwnerCleaned(world, Now(left), owners[i], prefix);
          SupervisorUnowned(owners[i], prefix, self);
          var (w, complete) := CleanOwner(world, Now(left), owners[i], prefix);
          world, okay := w, okay && complete;
        } else {
          okay := false;
        }
        i, left := i + 1, Later(left);
      }
      owners := [];
    }

    /** Disable the controllers, then move this process back into the root. */
    method RestoreRoot(calls: CleanupCalls) returns (okay: bool)
      requires Valid()
      modifies this`world, this`enabled, this`moved, this`violations
      ensures Valid() && !enabled && !moved && world.names == old(world.names)
      ensures okay <==> Restorable(calls, old(world.subtree), old(enabled), old(moved))
      ensures okay ==> world == Restored(old(world), self, supervisor, old(enabled), old(moved), false)
      ensures world == MovedBack(WithoutControllers(old(world), calls, old(enabled)), self, calls, old(moved))
      ensures violations == old(violations) + if Violates(calls, old(world.subtree), old(enabled), old(moved)) then 1 else 0
    {
      okay := true;
      if enabled {
        var (w, done) := Disable(world, calls.disable);
        AllRequired(world.subtree);
        world, okay := w, done;
      }
      enabled := false;
      if moved {
        var (w, done) := MoveTo(world, self, [], calls.moveFails);
        violations := if world.subtree != {} then violations + 1 else violations;
        world, okay := w, okay && done;
      }
      moved := false;
    }

    /** Wait for the supervisor's directory to drain and remove it. */
    method RemoveSupervisor(calls: CleanupCalls) returns (okay: bool)
      requires Valid() && !moved && !enabled
      modifies this`world, this`supervisorOpen, this`created
      ensures Valid() && !created
      ensures okay <==> Vacated(calls, old(world), [supervisor], old(supervisorOpen), old(created))
      ensures okay ==> world == Restored(old(world), self, supervisor, false, false, old(created))
      ensures world == WithoutSupervisor(old(world), [supervisor], calls, old(created))
    {
      okay := true;
      var here := [supervisor];
      if supervisorOpen && !Drained(world, NO_FAULTS.(drain := if calls.drainFails then {here} else {}), here) {
        okay := false;
      }
      supervisorOpen := false;
      if created {
        if Removable(world, NO_FAULTS.(remove := if calls.removeFails then {here} else {}), here) {
          RemovedWellFormed(world, here);
          world := Removed(world, here);
        } else {
          okay := false;
        }
      }
      created := false;
    }

    /** `cleanup()`. The first call undoes what the flags say was done; when it succeeds, it has undone
        all of it, and never asked the kernel to break the constraint. Later calls do nothing. */
    method Cleanup(calls: CleanupCalls) returns (okay: bool)
      requires Valid()
      modifies this
      ensures Valid() && cleaned && okay == cleanupOkay && !ready && rootOpen == old(rootOpen)
      ensures old(cleaned) ==> okay == old(cleanupOkay) && world == old(world) && violations == old(violations)
      ensures !old(cleaned) ==>
                var (swept, all) := CleanOwners(old(world), calls.faults, prefix, old(owners));
                okay <==>
                  && (rootOpen || old(owners) == []) && all && Restorable(calls, old(world.subtree), old(enabled), old(moved))
                  && Vacated(calls, Restored(swept, self, supervisor, old(enabled), old(moved), false), [supervisor],
                             old(supervisorOpen), old(created))
      ensures !old(cleaned) && okay ==>
                && CleanOwners(old(world), calls.faults, prefix, old(owners)).1
                && world == Restored(CleanOwners(old(world), calls.faults, prefix, old(owners)).0,
                                     self, supervisor, old(enabled), old(moved), old(created))
      ensures !old(cleaned) ==>
                var swept := if rootOpen then CleanOwners(old(world), calls.faults, prefix, old(owners)).0 else old(world);
                var back := MovedBack(WithoutControllers(swept, calls, old(enabled)), self, calls, old(moved));
                world == WithoutSupervisor(back, [supervisor], calls, old(created))
      ensures var broken := !old(cleaned) && Violates(calls, old(world.subtree), old(enabled), old(moved));
              violations == old(violations) + (if broken then 1 else 0) && (broken ==> !okay)
    {
      if cleaned {
        return cleanupOkay;
      }
      okay := UndoAll(calls);
      cleaned := true;
      cleanupOkay := okay;
    }

    /** The body of the first call: the owners' directories, the controllers, the move, the directory. */
    method UndoAll(calls: CleanupCalls) returns (okay: bool)
      requires Valid() && !cleaned
      modifies this
      ensures Valid() && !cleaned && !created && !moved && !enabled && !ready && rootOpen == old(rootOpen)
      ensures var (swept, all) := CleanOwners(old(world), calls.faults, prefix, old(owners));
              okay <==>
                && (rootOpen || old(owners) == []) && all && Restorable(calls, old(world.subtree), old(enabled), old(moved))
                && Vacated(calls, Restored(swept, self, supervisor, old(enabled), old(moved), false), [supervisor],
                           old(supervisorOpen), old(created))
      ensures okay ==> world == Restored(CleanOwners(old(world), calls.faults, prefix, old(owners)).0,
                                         self, supervisor, old(enabled), old(moved), old(created))
      ensures var swept := if rootOpen then CleanOwners(old(world), calls.faults, prefix, old(owners)).0 else old(world);
              var back := MovedBack(WithoutControllers(swept, calls, old(enabled)), self, calls, old(moved));
              world == WithoutSupervisor(back, [supervisor], calls, old(created))
      ensures violations == old(violations) + if Violates(calls, old(world.subtree), old(enabled), old(moved)) then 1 else 0
    {
      ready := false;
      okay := SweepOwners(calls.faults);
      var restored := RestoreRoot(calls);
      var removed := RemoveSupervisor(calls);
      okay := okay && restored && removed;
    }

    method Fail(error: BootstrapError, calls: CleanupCalls) returns (r: BootstrapError)
      requires Valid() && !cleaned && owners == []
      modifies this
      ensures Valid() && !ready && (r == error || r == CleanupFailed) && cleaned
      ensures r == Unless(error, Undone(old(world), self, supervisor, calls, old(supervisorOpen), old(created), old(moved), old(enabled)))
      ensures r == CleanupFailed && error != CleanupFailed ==> !cleanupOkay
      ensures r != CleanupFailed ==> world == Restored(old(world), self, supervisor, old(enabled), old(moved), old(created))
      ensures var broken := Violates(calls, old(world.subtree), old(enabled), old(moved));
              violations == old(violations) + (if broken then 1 else 0) && (broken ==> r == CleanupFailed)
    {
      var okay := Cleanup(calls);
      r := if okay then error else CleanupFailed;
    }

    /** The three checks before anything is changed. */
    method Validate(calls: StartCalls) returns (r: BootstrapError)
      requires Valid()
      ensures r != CleanupFailed && (r == NoError ==> calls.rootValid && Pristine(world, self))
      ensures r == NoError <==> Acceptable(calls, world, self)
      ensures r == MissingController <==>
                calls.rootValid && calls.controllers.Some? && !(REQUIRED <= calls.controllers.value)
      ensures r == RootFault(calls, world, self)
    {
      if !calls.rootValid {
        return MissingDelegation;
      }
      if calls.controllers.None? {
        return InternalError;
      }
      if !(REQUIRED <= calls.controllers.value) {
        return MissingController;
      }
      if !calls.processesReadable {
        return InternalError;
      }
      var inRoot := set pid | pid in world.homes && world.homes[pid] == [];
      if inRoot != {self} {
        return MissingDelegation;
      }
      var children := Scan(world, NO_FAULTS.(scan := if calls.childrenReadable then {} else {[]}), []);
      if children != Names([]) {
        return if children.Names? then MissingDelegation else InternalError;
      }
      assert self in inRoot && forall pid | pid in world.homes && world.homes[pid] == [] :: pid in inRoot;
      return NoError;
    }

    method CreateSupervisor(calls: StartCalls, undo: CleanupCalls) returns (r: BootstrapError)
      requires Idle() && rootOpen && Pristine(world, self)
      modifies this
      ensures Valid() && !ready
      ensures r == NoError ==>
                && created && supervisorOpen && !moved && !enabled && !cleaned && owners == []
                && world == WithChild(old(world), supervisor)
      ensures r == NoError <==> calls.mkdir == Created && calls.supervisorOpens
      ensures r == if calls.mkdir == Denied then MissingDelegation
                   else if calls.mkdir == OtherError then InternalError
                   else if calls.supervisorOpens then NoError
                   else Unless(InternalError, Undone(WithChild(old(world), supervisor), self, supervisor, undo, false, true, false, false))
      ensures violations == old(violations)
      ensures r != NoError && r != CleanupFailed ==> world == old(world)
      ensures r == CleanupFailed ==> cleaned && !cleanupOkay
    {
      ghost var w0 := world;
      if calls.mkdir != Created {
        return if calls.mkdir == Denied then MissingDelegation else InternalError;
      }
      WithChildWellFormed(world, supervisor);
      world := WithChild(world, supervisor);
      created := true;
      supervisorOpen := calls.supervisorOpens;
      if !supervisorOpen {
        RestoredUndoes(w0, self, supervisor, false, false, w0.subtree);
        r := Fail(InternalError, undo);
        return;
      }
      return NoError;
    }

    method MigrateToSupervisor(calls: StartCalls, undo: CleanupCalls, ghost w0: World) returns (r: BootstrapError)
      requires Valid() && created && supervisorOpen && !moved && !enabled && !cleaned && !ready && owners == []
      requires WellFormed(w0) && Pristine(w0, self) && world == WithChild(w0, supervisor)
      modifies this
      ensures Valid() && !ready
      ensures r == NoError ==>
                && created && supervisorOpen && moved && !enabled && !cleaned && owners == []
                && world == Migrated(w0, self, supervisor)
      ensures r == NoError <==> Migrates(calls, self)
      ensures r == if MoveFault(calls, self) == NoError then NoError
                   else if calls.moveFails then
                     Unless(MissingDelegation, Undone(old(world), self, supervisor, undo, true, true, false, false))
                   else Unless(MoveFault(calls, self), Undone(Migrated(w0, self, supervisor), self, supervisor, undo, true, true, true, false))
      ensures violations == old(violations)
      ensures r != NoError && r != CleanupFailed ==> world == w0
      ensures r == CleanupFailed ==> cleaned && !cleanupOkay
    {
      RestoredUndoes(w0, self, supervisor, false, false, w0.subtree);
      RestoredUndoes(w0, self, supervisor, true, false, w0.subtree);
      var (w, done) := MoveTo(world, self, [supervisor], calls.moveFails);
      world := w;
      if !done {
        r := Fail(MissingDelegation, undo);
        return;
      }
      moved := true;
      if calls.supervisorProcesses != Some({self}) {
        r := Fail(if calls.supervisorProcesses.Some? then MissingDelegation else InternalError, undo);
        return;
      }
      if calls.rootProcesses != Some({}) {
        r := Fail(if calls.rootProcesses.Some? then MissingDelegation else InternalError, undo);
        return;
      }
      return NoError;
    }

    method EnableControllers(calls: StartCalls, undo: CleanupCalls, ghost w0: World) returns (r: BootstrapError)
      requires Valid() && created && supervisorOpen && moved && !enabled && !cleaned && !ready && owners == []
      requires WellFormed(w0) && Pristine(w0, self) && world == Migrated(w0, self, supervisor)
      modifies this
      ensures Valid() && !ready
      ensures r == NoError ==>
                moved && enabled && !cleaned && owners == [] && world == Migrated(w0, self, supervisor).(subtree := REQUIRED)
      ensures r == NoError <==> Enables(calls)
      ensures r == Unless(EnableFault(calls), EnableFault(calls) == NoError
                                              || EnableUndone(calls, undo, Migrated(w0, self, supervisor), self, supervisor))
      ensures violations == old(violations) + (if LeftEnabled(calls, undo) then 1 else 0) && (LeftEnabled(calls, undo) ==> r == CleanupFailed)
      ensures r != NoError && r != CleanupFailed ==> world == w0
      ensures r == CleanupFailed ==> cleaned && !cleanupOkay
    {
      MigratedUnpopulated(w0, self, supervisor);
      var (w, done) := Enable(world, calls.enable);
      world := w;
      if !done {
        r := EnablingFailed(calls, undo, w0);
        return;
      }
      enabled := true;
      if calls.enabledNow.None? || !(REQUIRED <= calls.enabledNow.value) {
        r := EnablingUnseen(calls, undo, w0);
        return;
      }
      return NoError;
    }

    /** The write succeeded, but does not show. */
    method EnablingUnseen(calls: StartCalls, undo: CleanupCalls, ghost w0: World) returns (r: BootstrapError)
      requires Valid() && created && supervisorOpen && moved && enabled && !cleaned && owners == []
      requires calls.enable.Applied? && (calls.enabledNow.None? || !(REQUIRED <= calls.enabledNow.value))
      requires WellFormed(w0) && Pristine(w0, self) && world == Migrated(w0, self, supervisor).(subtree := REQUIRED)
      modifies this
      ensures Valid() && !ready && r != NoError
      ensures r == Unless(EnableFault(calls), Undone(old(world), self, supervisor, undo, true, true, true, true))
      ensures violations == old(violations) + (if LeftEnabled(calls, undo) then 1 else 0) && (LeftEnabled(calls, undo) ==> r == CleanupFailed)
      ensures r != CleanupFailed ==> world == w0
      ensures r == CleanupFailed ==> cleaned && !cleanupOkay
    {
      RestoredUndoes(w0, self, supervisor, true, true, world.subtree);
      r := Fail(if calls.enabledNow.Some? then MissingController else InternalError, undo);
    }

    /** The write may have enabled some of the controllers: undo that only if some are reported. */
    method EnablingFailed(calls: StartCalls, undo: CleanupCalls, ghost w0: World) returns (r: BootstrapError)
      requires Valid() && created && supervisorOpen && moved && !enabled && !cleaned && owners == [] && calls.enable.Failed?
      requires WellFormed(w0) && Pristine(w0, self) && world == Migrated(w0, self, supervisor).(subtree := world.subtree)
      modifies this
      ensures Valid() && !ready && r != NoError
      ensures r == Unless(EnableFault(calls), Undone(old(world), self, supervisor, undo, true, true, true,
                                                     calls.enabledNow.Some? && calls.enabledNow.value * REQUIRED != {}))
      ensures violations == old(violations) + if UnreportedOrStuck(calls, undo, old(world.subtree)) then 1 else 0
      ensures UnreportedOrStuck(calls, undo, old(world.subtree)) ==> r == CleanupFailed
      ensures r != CleanupFailed ==> world == w0
      ensures r == CleanupFailed ==> cleaned && !cleanupOkay
    {
      if calls.enabledNow.None? {
        RestoredUndoes(w0, self, supervisor, true, false, world.subtree);
        r := Fail(InternalError, undo);
        return;
      }
      enabled := calls.enabledNow.value * REQUIRED != {};
      RestoredUndoes(w0, self, supervisor, true, enabled, world.subtree);
      r := Fail(if calls.enableDenied then MissingDelegation else InternalError, undo);
    }

    /** `start()`: either the supervisor runs in its own directory with the controllers enabled, or the
        hierarchy is exactly as it was, or the error says that it could not be put back. */
    method Start(calls: StartCalls, undo: CleanupCalls) returns (r: BootstrapError)
      requires Idle()
      modifies this
      ensures Valid()
      ensures r == NoError ==>
                && ready && created && moved && enabled && !cleaned && owners == []
                && world == Migrated(old(world), self, supervisor).(subtree := REQUIRED)
      ensures r == NoError <==> Startable(calls, old(world), self)
      ensures r == StartAnswer(calls, undo, old(world), self, supervisor)
      ensures var broken := ReachesEnabling(calls, old(world), self) && LeftEnabled(calls, undo);
              violations == old(violations) + (if broken then 1 else 0) && (broken ==> r == CleanupFailed)
      ensures r != NoError ==> !ready
      ensures r != NoError && r != CleanupFailed ==> world == old(world)
      ensures r == CleanupFailed ==> cleaned && !cleanupOkay
    {
      ghost var w0 := world;
      if !calls.pathGiven {
        return MissingDelegation;
      }
      rootOpen := calls.rootValid;
      r := Validate(calls);
      if r != NoError {
        return;
      }
      r := CreateSupervisor(calls, undo);
      if r != NoError {
        return;
      }
      r := MigrateToSupervisor(calls, undo, w0);
      if r != NoError {
        return;
      }
      r := EnableControllers(calls, undo, w0);
      if r != NoError {
        return;
      }
      ready := true;
    }

    /** As constructed: nothing has been started or cleaned up yet. */
    ghost predicate Idle()
      reads this
    {
      Valid() && !created && !moved && !enabled && !ready && !cleaned && !supervisorOpen && owners == []
    }
  }

  /** A start that ends so, by the contract of `Start`: the write enables one controller and fails, and what
      is enabled cannot be read. The process is then to move back into a root with that controller enabled,
      which the kernel refuses. */
  lemma UnreportedController(self: nat)
    ensures var w := World(map[[] := []], map[self := []], {});
            var calls := StartCalls(true, true, Some(REQUIRED), true, true, Created, true, false, Some({self}), Some({}),
                                    Failed({Cpu}), false, None);
            var undo := CleanupCalls([], Applied, false, false, false);
            WellFormed(w) && Pristine(w, self) && ReachesEnabling(calls, w, self) && LeftEnabled(calls, undo)
  {
    var w := World(map[[] := []], map[self := []], {});
    assert (set pid | pid in w.homes && w.homes[pid] == []) == {self};
  }

  /** The delegated root as `start()` wants it: this process alone in it, and no directories below. */
  ghost predicate Pristine(w: World, self: nat) {
    && [] in w.names && w.names[[]] == [] && Constrained(w)
    && self in w.homes && w.homes[self] == []
    && forall pid | pid in w.homes && w.homes[pid] == [] :: pid == self
  }

  /** The root with this process moved into the supervisor's directory. */
  function Migrated(w: World, self: nat, supervisor: string): World
    requires [] in w.names
  {
    WithChild(w, supervisor).(homes := w.homes[self := [supervisor]])
  }

  lemma WithChildWellFormed(w: World, name: string)
    requires WellFormed(w) && w.names[[]] == []
    ensures WellFormed(WithChild(w, name)) && [name] !in w.names
  {
    assert Parent([name]) == [];
    forall p, n {:trigger p + [n]} | p in WithChild(w, name).names && n in WithChild(w, name).names[p]
      ensures p + [n] in WithChild(w, name).names
    {
      if p == [] { assert p + [n] == [name]; }
    }
  }

  lemma MigratedUnpopulated(w: World, self: nat, supervisor: string)
    requires Pristine(w, self)
    ensures w.subtree == {} && !RootPopulated(Migrated(w, self, supervisor))
  {
  }

  /** Undoing what was done gives the pristine hierarchy back, whatever controllers were enabled,
      unless the kernel is left with some of them enabled under this process. */
  lemma RestoredUndoes(w: World, self: nat, supervisor: string, moved: bool, enabled: bool, on: set<Controller>)
    requires WellFormed(w) && Pristine(w, self)
    ensures var made := if moved then Migrated(w, self, supervisor) else WithChild(w, supervisor);
            var r := Restored(made.(subtree := on), self, supervisor, enabled, moved, true);
            Constrained(r) ==> r == w
  {
    var made := if moved then Migrated(w, self, supervisor) else WithChild(w, supervisor);
    var r := Restored(made.(subtree := on), self, supervisor, enabled, moved, true);
    ChildRemoved(w, supervisor);
    assert r.homes == w.homes && r.homes[self] == [];
    assert w.subtree == {};
  }

  lemma ChildRemoved(w: World, name: string)
    requires WellFormed(w) && w.names[[]] == []
    ensures Removed(WithChild(w, name), [name]).names == w.names
  {
    WithChildWellFormed(w, name);
    assert Without([name], name) == [];
    assert Parent([name]) == [] && Last([name]) == name;
    var made := WithChild(w, name).names;
    assert [] != [name] && [] in made - {[name]} && made[[]] == [] + [name] == [name];
    assert made - {[name]} == w.names[[] := [name]];
    assert w.names[[] := [name]][[] := []] == w.names;
  }

  /** What a successful cleanup of a successful start leaves: the supervisor's directory is gone, the
      controllers are off, this process is back, and nothing of any remembered owner is left. */
  lemma CleanupUndoesEverything(w: World, f: seq<Faults>, prefix: string, self: nat, owners: seq<int>)
    requires WellFormed(w) && [SupervisorName(prefix, self)] in w.names
    requires self in w.homes && w.homes[self] == [SupervisorName(prefix, self)]
    requires CleanOwners(w, f, prefix, owners).1
    ensures var after := Restored(CleanOwners(w, f, prefix, owners).0, self, SupervisorName(prefix, self), true, true, true);
            && [SupervisorName(prefix, self)] !in after.names && after.subtree == w.subtree - REQUIRED
            && self in after.homes && after.homes[self] == []
            && (forall p | p in after.names :: !OwnedByAny(owners, prefix, p))
            && (forall p | p in w.names && p != [SupervisorName(prefix, self)] && !OwnedByAny(owners, prefix, p) :: p in after.names)
  {
    OwnersSwept(w, f, prefix, owners);
    SupervisorKept(w, CleanOwners(w, f, prefix, owners).0, prefix, owners, self);
  }

  // ---------------------------------------------------------------------------------------------
  // A whole life: start, any number of tasks, cleanup
  // ---------------------------------------------------------------------------------------------

  /** Every process lives in a directory that exists. */
  ghost predicate Housed(w: World) { forall pid | pid in w.homes :: w.homes[pid] in w.names }

  lemma {:induction false} TreeHoused(w: World, f: Faults, path: Path, depth: nat, remaining: nat)
    requires path != [] && Housed(w)
    ensures Housed(CleanTree(w, f, path, depth, remaining).0)
    decreases remaining, 0
  {
    var (w1, left, made) := MakeFrame(w, f, path, depth, remaining);
    if made.Frame? {
      ListHoused(w1, f, path, made.names, depth, left, made.complete);
    }
  }

  lemma {:induction false} ListHoused(w: World, f: Faults, path: Path, names: seq<string>, depth: nat, remaining: nat, complete: bool)
    requires Housed(w)
    ensures Housed(CleanList(w, f, path, names, depth, remaining, complete).0)
    decreases remaining, |names| + 1
  {
    if names != [] {
      var (w1, left, gone) := CleanTree(w, f, path + [names[0]], depth + 1, remaining);
      TreeHoused(w, f, path + [names[0]], depth + 1, remaining);
      ListHoused(w1, f, path, names[1..], depth, left, complete && gone);
    }
  }

  lemma {:induction false} OwnedHoused(w: World, f: Faults, owner: int, prefix: string, children: seq<string>, remaining: nat, complete: bool)
    requires Housed(w)
    ensures Housed(CleanOwned(w, f, owner, prefix, children, remaining, complete).0)
    decreases |children|
  {
    if children != [] {
      if OwnedBy(owner, prefix, children[0]) {
        var (w1, left, gone) := CleanTree(w, f, [children[0]], 1, remaining);
        TreeHoused(w, f, [children[0]], 1, remaining);
        OwnedHoused(w1, f, owner, prefix, children[1..], left, complete && gone);
      } else {
        OwnedHoused(w, f, owner, prefix, children[1..], remaining, complete);
      }
    }
  }

  lemma {:induction false} OwnersHoused(w: World, f: seq<Faults>, prefix: string, owners: seq<int>)
    requires Housed(w)
    ensures Housed(CleanOwners(w, f, prefix, owners).0)
    decreases |owners|
  {
    if owners != [] {
      OwnedHoused(w, Now(f), owners[0], prefix, if [] in w.names then w.names[[]] else [], MAXIMUM_CHILDREN, true);
      OwnersHoused(CleanOwner(w, Now(f), owners[0], prefix).0, Later(f), prefix, owners[1..]);
    }
  }

  /** Whatever the remembered owners have made below a started root by the time it is cleaned up:
      only they and this process have directories or processes there. */
  ghost predicate Working(w: World, prefix: string, self: nat, owners: seq<int>) {
    && WellFormed(w) && Housed(w) && w.subtree == REQUIRED
    && [SupervisorName(prefix, self)] in w.names && self in w.homes && w.homes[self] == [SupervisorName(prefix, self)]
    && (forall p | p in w.names :: p == [] || p == [SupervisorName(prefix, self)] || OwnedByAny(owners, prefix, p))
    && (forall pid | pid in w.homes :: pid == self || OwnedByAny(owners, prefix, w.homes[pid]))
  }

  /** A root that was pristine before `start()` is exactly as it was after a successful `cleanup()`,
      whatever the tasks did in between. */
  lemma RoundTrip(before: World, w: World, f: seq<Faults>, prefix: string, self: nat, owners: seq<int>)
    requires WellFormed(before) && Housed(before) && Pristine(before, self)
    requires Working(w, prefix, self, owners) && CleanOwners(w, f, prefix, owners).1
    ensures Restored(CleanOwners(w, f, prefix, owners).0, self, SupervisorName(prefix, self), true, true, true) == before
  {
    var home := [SupervisorName(prefix, self)];
    var swept := CleanOwners(w, f, prefix, owners).0;
    SweptWorking(w, f, prefix, self, owners);
    var after := Restored(swept, self, home[0], true, true, true);
    OnlyRoot(before);
    NoGrandchildren(swept, home[0]);
    RemovedWellFormed(swept, home);
    assert after.names.Keys == {[]};
    OnlyRoot(after.(homes := map[]));
    assert after.homes == map[self := []];
    assert before.homes == map[self := []] by { assert before.homes.Keys == {self}; }
    AllRequired(w.subtree);
    assert before.subtree == {};
  }

  /** From such a root, cleanup has everything it needs as soon as no call fails: after the owners only
      this process is left, and it moves out of the supervisor's directory by itself. */
  lemma WorkingVacates(w: World, calls: CleanupCalls, prefix: string, self: nat, owners: seq<int>)
    requires Working(w, prefix, self, owners) && CleanOwners(w, calls.faults, prefix, owners).1
    ensures var home := [SupervisorName(prefix, self)];
            var restored := Restored(CleanOwners(w, calls.faults, prefix, owners).0, self, home[0], true, true, false);
            Vacated(calls, restored, home, true, true) <==> !calls.drainFails && !calls.removeFails
  {
    var home := [SupervisorName(prefix, self)];
    var swept := CleanOwners(w, calls.faults, prefix, owners).0;
    SweptWorking(w, calls.faults, prefix, self, owners);
    NoGrandchildren(swept, home[0]);
  }

  /** All that is left after the owners. */
  lemma SweptWorking(w: World, f: seq<Faults>, prefix: string, self: nat, owners: seq<int>)
    requires Working(w, prefix, self, owners) && CleanOwners(w, f, prefix, owners).1
    ensures var swept := CleanOwners(w, f, prefix, owners).0;
            var home := [SupervisorName(prefix, self)];
            && WellFormed(swept) && swept.names.Keys == {[], home} && swept.subtree == w.subtree
            && swept.homes.Keys == {self} && swept.homes[self] == home
  {
    OwnersSwept(w, f, prefix, owners);
    OwnersHoused(w, f, prefix, owners);
    SupervisorKept(w, CleanOwners(w, f, prefix, owners).0, prefix, owners, self);
  }

  /** A tree with only the root directory, or with no other than the supervisor's below it. */
  lemma OnlyRoot(w: World)
    requires WellFormed(w)
    ensures w.names.Keys == {[]} || w.names[[]] == [] ==> w.names == map[[] := []]
  {
    if w.names.Keys == {[]} && w.names[[]] != [] {
      FirstChild(w, []);
      assert false;
    }
    if w.names[[]] == [] {
      forall p | p in w.names ensures p == [] {
        if p != [] { BelowRoot(w, p); }
      }
      assert w.names.Keys == {[]};
    }
  }

  lemma FirstChild(w: World, p: Path)
    requires WellFormed(w) && p in w.names && w.names[p] != []
    ensures p + [w.names[p][0]] in w.names
  {
  }

  lemma BelowRoot(w: World, p: Path)
    requires WellFormed(w) && p in w.names && p != []
    ensures p[0] in w.names[[]]
  {
    var top := [p[0]];
    assert top <= p && Parent(top) == [] && Last(top) == p[0];
    if top !in w.names { BelowMissing(w, top, p); }
  }

  lemma NoGrandchildren(w: World, name: string)
    requires WellFormed(w) && w.names.Keys == {[], [name]}
    ensures w.names[[name]] == []
  {
    if w.names[[name]] != [] {
      FirstChild(w, [name]);
      assert false;
    }
  }
}
