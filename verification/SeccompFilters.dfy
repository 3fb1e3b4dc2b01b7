/** The seccomp programs the evaluation installs: the namespace filter of
    `evaluation/process_isolation/low_capability_v3.cpp` and the socket family filters of
    `evaluation/process_isolation/probes_v2.cpp`, run by an interpreter for the classic BPF
    instructions they use.

    System call numbers, the architecture tag and the x32 bit depend on the platform and are
    parameters; everything is proved for all of them. */
module SeccompFilters {
  import opened Wrappers
  import opened Bits

  type Word = n: nat | n < 0x1_0000_0000

  // ---------------------------------------------------------------------------------------------
  // The machine
  // ---------------------------------------------------------------------------------------------

  /** `struct seccomp_data` on a little-endian machine, in words; an argument has a low and a high one. */
  datatype Data = Data(nr: Word, arch: Word, pointerLow: Word, pointerHigh: Word, args: seq<Argument>)
  datatype Argument = Argument(low: Word, high: Word)

  ghost predicate ValidData(d: Data) { |d.args| == 6 }

  function Load(d: Data, offset: nat): Word
    requires ValidData(d) && Loadable(offset)
  {
    if offset == 0 then d.nr
    else if offset == 4 then d.arch
    else if offset == 8 then d.pointerLow
    else if offset == 12 then d.pointerHigh
    else
      var argument := d.args[(offset - 16) / 8];
      if offset % 8 == 0 then argument.low else argument.high
  }

  predicate Loadable(offset: nat) { offset % 4 == 0 && offset < 64 }

  datatype Instruction =
    | LoadWord(offset: nat)
    | JumpIfEqual(k: nat, onTrue: nat, onFalse: nat)
    | JumpIfSet(k: nat, onTrue: nat, onFalse: nat)
    | Return(action: Word)

  type Program = seq<Instruction>

  /** Jumps only go forward, so a run ends: with a value, or by leaving the program. */
  function Run(p: Program, d: Data, pc: nat, a: Word): Option<Word>
    requires ValidData(d)
    decreases |p| - pc
  {
    if pc >= |p| then None else
      if p[pc].Return? then Some(p[pc].action)
      else if p[pc].LoadWord? && !Loadable(p[pc].offset) then None
      else
        var (next, a') := Next(p[pc], d, pc, a);
        Run(p, d, next, a')
  }

  function Evaluate(p: Program, d: Data): Option<Word>
    requires ValidData(d)
  {
    Run(p, d, 0, 0)
  }

  /** What the kernel checks before it accepts a program. */
  predicate Accepted(p: Program) {
    && p != [] && p[|p| - 1].Return?
    && forall i | 0 <= i < |p| :: Fits(p[i], |p| - i - 1)
  }

  /** The instruction reads inside the data and stays within the `left` instructions after it. */
  predicate Fits(i: Instruction, left: nat) {
    match i
    case LoadWord(offset) => Loadable(offset)
    case JumpIfEqual(_, t, f) => t < left && f < left
    case JumpIfSet(_, t, f) => t < left && f < left
    case Return(_) => true
  }

  lemma FiltersAccepted(p: Platform, internet: bool)
    ensures Accepted(NamespaceFilter(p)) && Accepted(FamilyFilter(p, internet))
  {
  }

  /** Every accepted program returns a value, for all data, and one that it names. */
  lemma {:induction false} AcceptedReturns(p: Program, d: Data, pc: nat, a: Word)
    requires ValidData(d) && Accepted(p) && pc < |p|
    ensures Run(p, d, pc, a).Some? && Return(Run(p, d, pc, a).value) in p
    decreases |p| - pc
  {
    assert Fits(p[pc], |p| - pc - 1) && (pc == |p| - 1 ==> p[pc].Return?);
    if !p[pc].Return? {
      var (next, a') := Next(p[pc], d, pc, a);
      AcceptedReturns(p, d, next, a');
    }
  }

  /** Where an instruction that does not return goes on, and with which accumulator. */
  function Next(i: Instruction, d: Data, pc: nat, a: Word): (nat, Word)
    requires ValidData(d) && !i.Return? && (i.LoadWord? ==> Loadable(i.offset))
  {
    match i
    case LoadWord(offset) => (pc + 1, Load(d, offset))
    case JumpIfEqual(k, t, f) => (pc + 1 + (if a == k then t else f), a)
    case JumpIfSet(k, t, f) => (pc + 1 + (if And(a, k) != 0 then t else f), a)
  }

  // ---------------------------------------------------------------------------------------------
  // Verdicts
  // ---------------------------------------------------------------------------------------------

  const KILL: Word := 0x8000_0000
  const ALLOW: Word := 0x7FFF_0000
  const EPERM_ERRNO: Word := 0x0005_0001

  /** The action of a return value, read as a signed number: the low half is its data. */
  function Action(value: Word): int {
    var action := value - value % 0x1_0000;
    if action >= 0x8000_0000 then action - 0x1_0000_0000 else action
  }

  /** Several filters run on every call, and the lowest action wins. */
  function Stacked(filters: seq<Program>, d: Data): Option<Word>
    requires ValidData(d)
  {
    if filters == [] then Some(ALLOW) else
      var rest, last := Stacked(filters[..|filters| - 1], d), Evaluate(filters[|filters| - 1], d);
      if rest.None? || last.None? then None
      else if Action(last.value) < Action(rest.value) then last else rest
  }

  const NR: nat := 0
  const ARCH: nat := 4
  const ARG0: nat := 16

  // ---------------------------------------------------------------------------------------------
  // The namespace filter
  // ---------------------------------------------------------------------------------------------

  /** What the headers of a platform define. `namespaceBits` are the positions of the `CLONE_NEW` flags
      it has, `x32` is zero where there is no x32 interface. */
  datatype Platform = Platform(arch: Word, unshare: Word, setns: Word, clone3: Word, clone: Word, socket: Word,
                               x32: Word, namespaceBits: seq<nat>)

  /** Cgroup, ipc, net, mount, pid, user, uts and time. */
  const CLONE_NEW_BITS: seq<nat> := [25, 27, 30, 17, 29, 28, 26, 7]

  const X86_64 := Platform(0xC000_003E, 272, 308, 435, 56, 41, 0x4000_0000, CLONE_NEW_BITS)
  const AARCH64 := Platform(0xC000_00B7, 97, 268, 435, 220, 198, 0, CLONE_NEW_BITS)

  function NamespaceFilter(p: Platform): Program {
    [ LoadWord(ARCH),
      JumpIfEqual(p.arch, 1, 0),
      Return(KILL),
      LoadWord(NR),
      JumpIfSet(p.x32, 0, 1),
      Return(EPERM_ERRNO),
      JumpIfEqual(p.unshare, 0, 1),
      Return(EPERM_ERRNO),
      JumpIfEqual(p.setns, 0, 1),
      Return(EPERM_ERRNO),
      JumpIfEqual(p.clone3, 0, 1),
      Return(EPERM_ERRNO),
      JumpIfEqual(p.clone, 0, 3),
      LoadWord(ARG0),
      JumpIfSet(OrAll(p.namespaceBits), 0, 1),
      Return(EPERM_ERRNO),
      Return(ALLOW) ]
  }

  /** The flags ask for at least one new namespace. */
  predicate AsksForNamespace(p: Platform, flags: Word) { exists bit | bit in p.namespaceBits :: Has(flags, bit) }

  /** A call that makes or enters a namespace, or goes through the x32 interface where there is one. */
  predicate MakesNamespace(p: Platform, d: Data)
    requires ValidData(d)
  {
    || And(d.nr, p.x32) != 0
    || d.nr in {p.unshare, p.setns, p.clone3}
    || (d.nr == p.clone && AsksForNamespace(p, d.args[0].low))
  }

  lemma FlagsMatter(p: Platform, flags: Word)
    ensures And(flags, OrAll(p.namespaceBits)) != 0 <==> AsksForNamespace(p, flags)
  {
    var mask := OrAll(p.namespaceBits);
    if And(flags, mask) != 0 {
      var bit := Lowest(And(flags, mask));
      HasLowest(And(flags, mask));
      HasAnd(flags, mask, bit);
      HasOrAll(p.namespaceBits, bit);
      assert bit in p.namespaceBits;
    }
    if bit :| bit in p.namespaceBits && Has(flags, bit) {
      HasAnd(flags, mask, bit);
      HasOrAll(p.namespaceBits, bit);
      HasNonzero(And(flags, mask), bit);
    }
  }

  lemma CloneVerdict(p: Platform, d: Data)
    requires ValidData(d)
    ensures Run(NamespaceFilter(p), d, 12, d.nr)
         == Some(if d.nr == p.clone && AsksForNamespace(p, d.args[0].low) then EPERM_ERRNO else ALLOW)
  {
    var f := NamespaceFilter(p);
    var flags := d.args[0].low;
    FlagsMatter(p, flags);
    assert Run(f, d, 16, d.nr) == Run(f, d, 16, flags) == Some(ALLOW);
    assert Run(f, d, 15, flags) == Some(EPERM_ERRNO);
    assert Run(f, d, 13, d.nr) == Run(f, d, 14, flags);
  }

  lemma CallVerdict(p: Platform, d: Data)
    requires ValidData(d)
    ensures Run(NamespaceFilter(p), d, 6, d.nr)
         == if d.nr in {p.unshare, p.setns, p.clone3} then Some(EPERM_ERRNO) else Run(NamespaceFilter(p), d, 12, d.nr)
  {
    var f := NamespaceFilter(p);
    assert f[6] == JumpIfEqual(p.unshare, 0, 1) && f[8] == JumpIfEqual(p.setns, 0, 1) && f[10] == JumpIfEqual(p.clone3, 0, 1);
    assert f[7] == f[9] == f[11] == Return(EPERM_ERRNO);
    EqualStep(f, d, 6, d.nr);
    EqualStep(f, d, 8, d.nr);
    EqualStep(f, d, 10, d.nr);
  }

  lemma EqualStep(f: Program, d: Data, pc: nat, a: Word)
    requires ValidData(d) && pc + 1 < |f| && f[pc].JumpIfEqual? && f[pc].onTrue == 0 && f[pc].onFalse == 1 && f[pc + 1].Return?
    ensures Run(f, d, pc, a) == if a == f[pc].k then Some(f[pc + 1].action) else Run(f, d, pc + 2, a)
  {
  }

  /** Both filters begin by killing a foreign architecture and then look at the call's number. */
  lemma ArchitectureFirst(f: Program, d: Data, arch: Word)
    requires ValidData(d) && |f| > 4 && f[0] == LoadWord(ARCH) && f[1] == JumpIfEqual(arch, 1, 0)
    requires f[2] == Return(KILL) && f[3] == LoadWord(NR)
    ensures Evaluate(f, d) == if d.arch != arch then Some(KILL) else Run(f, d, 4, d.nr)
  {
    assert Run(f, d, 2, d.arch) == Some(KILL);
    assert Run(f, d, 3, d.arch) == Run(f, d, 4, d.nr);
    assert Run(f, d, 1, d.arch) == if d.arch == arch then Run(f, d, 3, d.arch) else Run(f, d, 2, d.arch);
  }

  lemma SetStep(f: Program, d: Data, pc: nat, a: Word, k: Word, refusal: Word)
    requires ValidData(d) && pc + 1 < |f| && f[pc] == JumpIfSet(k, 0, 1) && f[pc + 1] == Return(refusal)
    ensures Run(f, d, pc, a) == if And(a, k) != 0 then Some(refusal) else Run(f, d, pc + 2, a)
  {
  }

  /** The filter kills a foreign architecture, refuses exactly the calls that make or enter a
      namespace, and allows everything else. */
  lemma NamespaceVerdict(p: Platform, d: Data)
    requires ValidData(d)
    ensures Evaluate(NamespaceFilter(p), d)
         == Some(if d.arch != p.arch then KILL else if MakesNamespace(p, d) then EPERM_ERRNO else ALLOW)
  {
    var f := NamespaceFilter(p);
    ArchitectureFirst(f, d, p.arch);
    SetStep(f, d, 4, d.nr, p.x32, EPERM_ERRNO);
    CallVerdict(p, d);
    CloneVerdict(p, d);
  }

  /** On x86-64 the interface test looks at bit 30 of the number; where there is no x32 interface it refuses
      nothing. */
  lemma InterfaceBit(nr: Word)
    ensures And(nr, X86_64.x32) != 0 <==> Has(nr, 30)
    ensures And(nr, AARCH64.x32) == 0
  {
    PowerOfSixteen(2); PowerOfSixteen(6); PowerOfSixteen(10); PowerOfSixteen(14);
    PowerOfSixteen(18); PowerOfSixteen(22); PowerOfSixteen(26);
    assert Power(2) == 4;
    HasAnd(nr, Power(30), 30);
    HasPower(30, 30);
    if And(nr, Power(30)) != 0 {
      var bit := Lowest(And(nr, Power(30)));
      HasLowest(And(nr, Power(30)));
      HasAnd(nr, Power(30), bit);
      HasPower(30, bit);
    } else {
      HasZero(30);
    }
    if And(nr, 0) != 0 {
      HasLowest(And(nr, 0));
      HasAnd(nr, 0, Lowest(And(nr, 0)));
      HasZero(Lowest(And(nr, 0)));
    }
  }

  // ---------------------------------------------------------------------------------------------
  // The socket family filters
  // ---------------------------------------------------------------------------------------------

  const AF_UNIX: Word := 1
  const AF_INET: Word := 2
  const AF_INET6: Word := 10

  /** The second family of the local filter is -1, converted to a word. */
  const NO_FAMILY: Word := 0xFFFF_FFFF

  function Families(internet: bool): (Word, Word) { if internet then (AF_INET, AF_INET6) else (AF_UNIX, NO_FAMILY) }

  function FamilyFilter(p: Platform, internet: bool): Program {
    var (first, second) := Families(internet);
    [ LoadWord(ARCH),
      JumpIfEqual(p.arch, 1, 0),
      Return(KILL),
      LoadWord(NR),
      JumpIfEqual(p.socket, 0, 5),
      LoadWord(ARG0),
      JumpIfEqual(first, 2, 0),
      JumpIfEqual(second, 1, 0),
      Return(ALLOW),
      Return(EPERM_ERRNO),
      Return(ALLOW) ]
  }

  lemma FamilyVerdict(p: Platform, internet: bool, d: Data)
    requires ValidData(d)
    ensures var (first, second) := Families(internet);
            var family := d.args[0].low;
            Evaluate(FamilyFilter(p, internet), d)
            == Some(if d.arch != p.arch then KILL
                    else if d.nr == p.socket && (family == first || family == second) then EPERM_ERRNO else ALLOW)
  {
    var f := FamilyFilter(p, internet);
    ArchitectureFirst(f, d, p.arch);
    SocketVerdict(p, internet, d);
  }

  lemma SocketVerdict(p: Platform, internet: bool, d: Data)
    requires ValidData(d)
    ensures var (first, second) := Families(internet);
            var family := d.args[0].low;
            Run(FamilyFilter(p, internet), d, 4, d.nr)
            == Some(if d.nr == p.socket && (family == first || family == second) then EPERM_ERRNO else ALLOW)
  {
    var f := FamilyFilter(p, internet);
    var (first, second) := Families(internet);
    var family := d.args[0].low;
    assert f[6] == JumpIfEqual(first, 2, 0) && f[7] == JumpIfEqual(second, 1, 0);
    assert Run(f, d, 9, family) == Some(EPERM_ERRNO) && Run(f, d, 8, family) == Some(ALLOW);
    assert Run(f, d, 7, family) == Some(if family == second then EPERM_ERRNO else ALLOW);
    assert Run(f, d, 6, family) == if family == first then Some(EPERM_ERRNO) else Run(f, d, 7, family);
    assert f[5] == LoadWord(ARG0) && f[4] == JumpIfEqual(p.socket, 0, 5);
    assert Run(f, d, 5, d.nr) == Run(f, d, 6, family);
    assert Run(f, d, 10, d.nr) == Some(ALLOW);
  }

  /** One filter is for the families 2 and 10, the other for 1; and for the word -1. */
  lemma EachFamily(p: Platform, d: Data)
    requires ValidData(d) && d.arch == p.arch && d.nr == p.socket
    ensures Evaluate(FamilyFilter(p, true), d) == Some(EPERM_ERRNO) <==> d.args[0].low == 2 || d.args[0].low == 10
    ensures Evaluate(FamilyFilter(p, false), d) == Some(EPERM_ERRNO) <==> d.args[0].low == 1 || d.args[0].low == 0xFFFF_FFFF
  {
    FamilyVerdict(p, true, d);
    FamilyVerdict(p, false, d);
  }

  /** Both family filters, one installed after the other, refuse a socket exactly when its family is
      one that either of them names: internet, local, or the word -1. */
  lemma StackedFamilies(p: Platform, d: Data)
    requires ValidData(d)
    ensures Stacked([FamilyFilter(p, true), FamilyFilter(p, false)], d)
         == Some(if d.arch != p.arch then KILL
                 else if d.nr == p.socket && d.args[0].low in {AF_INET, AF_INET6, AF_UNIX, NO_FAMILY} then EPERM_ERRNO
                 else ALLOW)
  {
    var internet, local := FamilyFilter(p, true), FamilyFilter(p, false);
    FamilyVerdict(p, true, d);
    FamilyVerdict(p, false, d);
    assert [internet, local][..1] == [internet] && [internet][..0] == [];
    assert Stacked([internet], d) == Evaluate(internet, d);
  }
}
