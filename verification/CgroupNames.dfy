/** Which process owns which control group directory, by name:
    `task_cgroup_owned_by`, `create_supervisor` and `TaskCgroup::create` of
    `evaluation/process_isolation/linux_support.cpp`. */
module CgroupNames {
  import opened Decimal

  predicate OwnedBy(process: int, prefix: string, name: string) {
    process > 0 &&
    var base := prefix + Print(process);
    name == base || (base <= name && |name| > |base| && name[|base|] == '-')
  }

  function TaskName(prefix: string, process: nat, suffix: string): string { prefix + Print(process) + suffix }

  function SupervisorName(prefix: string, process: nat): string { prefix + "supervisor-" + Print(process) }

  /** An owned name is the prefix, the owner's number, and nothing or a dash-led rest. */
  lemma OwnedShape(process: int, prefix: string, name: string)
    ensures OwnedBy(process, prefix, name) <==>
              process > 0 && exists rest :: name == prefix + (Print(process) + rest) && (rest == [] || rest[0] == '-')
  {
    if OwnedBy(process, prefix, name) {
      var base := prefix + Print(process);
      var rest := name[|base|..];
      assert name == base + rest == prefix + (Print(process) + rest);
    }
    if process > 0 && exists rest :: name == prefix + (Print(process) + rest) && (rest == [] || rest[0] == '-') {
      var rest :| name == prefix + (Print(process) + rest) && (rest == [] || rest[0] == '-');
      var base := prefix + Print(process);
      assert name == base + rest;
      assert base <= name;
    }
  }

  /** Nobody shares a name. */
  lemma OneOwner(p: int, q: int, prefix: string, name: string)
    requires OwnedBy(p, prefix, name) && OwnedBy(q, prefix, name)
    ensures p == q
  {
    OwnedShape(p, prefix, name);
    OwnedShape(q, prefix, name);
    var restP :| name == prefix + (Print(p) + restP) && (restP == [] || restP[0] == '-');
    var restQ :| name == prefix + (Print(q) + restQ) && (restQ == [] || restQ[0] == '-');
    assert Print(p) + restP == name[|prefix|..] == Print(q) + restQ;
    PrintIsDelimited(p, restP, q, restQ);
  }

  lemma OwnedStartsWithDigit(p: int, prefix: string, name: string)
    ensures OwnedBy(p, prefix, name) ==> |name| > |prefix| && IsDigit(name[|prefix|])
  {
    if OwnedBy(p, prefix, name) {
      OwnedShape(p, prefix, name);
      var rest :| name == prefix + (Print(p) + rest);
      assert name[|prefix|] == Print(p)[0];
    }
  }

  /** The supervisor's directory is nobody's task directory. */
  lemma SupervisorUnowned(p: int, prefix: string, process: nat)
    ensures !OwnedBy(p, prefix, SupervisorName(prefix, process))
  {
    OwnedStartsWithDigit(p, prefix, SupervisorName(prefix, process));
    assert SupervisorName(prefix, process)[|prefix|] == 's';
  }

  /** A created directory belongs to its creator exactly when the suffix is empty or dash-led. */
  lemma CreatorOwns(prefix: string, process: nat, suffix: string)
    requires process > 0
    ensures OwnedBy(process, prefix, TaskName(prefix, process, suffix)) <==> suffix == [] || suffix[0] == '-'
  {
    var base, name := prefix + Print(process), TaskName(prefix, process, suffix);
    assert name == base + suffix;
    if suffix != [] { assert name[|base|] == suffix[0]; }
  }
}
