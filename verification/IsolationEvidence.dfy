/** Process isolation evidence: the closed values, required probes and validity of the schema 1, 2 and 3
    reports of `evaluation/process_isolation/evidence.cpp`, `evidence_v2.cpp` and `evidence_v3.cpp`. */
module IsolationEvidence {
  import opened Provenance

  datatype Schema = V1 | V2 | V3

  datatype Probe =
    // schema 1
    | NoNewPrivileges | RlimitCpu | RlimitAddressSpace | RlimitProcessCount | RlimitDescriptorCount | RlimitFileSize
    | InheritedDescriptors | SubreaperSessionCleanup | SubreaperDoubleForkCleanup | LandlockRead1 | UserNamespace
    | MountNamespace | PidNamespace | NetworkNamespace | SeccompSocketCreation | DisposableWorkspace
    | Openat2Resolution | FexecveIdentity | ExecveatIdentity | FchdirIdentity | StagedInput1
    // schema 2
    | CgroupDelegation | CgroupRequiredControllers | CgroupAtomicChildPlacement | CgroupSelfMigrationDenial
    | CgroupWholeTreeEnumeration | CgroupKill | CgroupPopulatedZero | CgroupSetsid | CgroupDoubleFork | CgroupDaemon
    | CgroupCloneForkFanout | CgroupLeaderExit | CgroupCancellationCleanup | CgroupCpuLimit | CgroupMemoryLimit
    | CgroupPidsLimit | LandlockRead | LandlockWrite | LandlockExecute | SeccompInternet | SeccompUnix
    | PrivateRootConstruction | PrivateMountPropagation | DescriptorRelativeLaunch | StagedInput | StagedOutput
    | CombinedSetupOrder | PrivateRootCombinedSetupOrder | PartialSetupCleanup
    // schema 3
    | DirectProcessTreeNonescape | LowCapabilityNonescalation | PrivateRootCapabilityDiscard

  datatype State = Enforced | Unavailable | ProbeError

  datatype Reason =
    | NoReason
    | UnsupportedKernel | UnsupportedArchitecture | PermissionDenied | MechanismAbsent | EnforcementFailed
    | PrerequisiteUnavailable | MissingDelegation | MissingController | UnsupportedCombination | LimitNotTriggered
    | Timeout | Cancelled | PidReuse | SetupRace | Signaled | NonzeroExit | MalformedProtocol | OutputLimit
    | CleanupFailed | InternalError

  datatype Row = Row(probe: Probe, state: State, reason: Reason)

  datatype Identity = Identity(sourceSha: string, platform: string, kernel: string, architecture: string)

  datatype Report = Report(identity: Identity, rows: seq<Row>)

  function Required(schema: Schema): seq<Probe> {
    match schema
    case V1 => [
      NoNewPrivileges, RlimitCpu, RlimitAddressSpace, RlimitProcessCount, RlimitDescriptorCount, RlimitFileSize,
      InheritedDescriptors, SubreaperSessionCleanup, SubreaperDoubleForkCleanup, LandlockRead1, UserNamespace,
      MountNamespace, PidNamespace, NetworkNamespace, SeccompSocketCreation, DisposableWorkspace,
      Openat2Resolution, FexecveIdentity, ExecveatIdentity, FchdirIdentity, StagedInput1 ]
    case V2 => [
      CgroupDelegation, CgroupRequiredControllers, CgroupAtomicChildPlacement, CgroupSelfMigrationDenial,
      CgroupWholeTreeEnumeration, CgroupKill, CgroupPopulatedZero, CgroupSetsid, CgroupDoubleFork, CgroupDaemon,
      CgroupCloneForkFanout, CgroupLeaderExit, CgroupCancellationCleanup, CgroupCpuLimit, CgroupMemoryLimit,
      CgroupPidsLimit, LandlockRead, LandlockWrite, LandlockExecute, SeccompInternet, SeccompUnix,
      PrivateRootConstruction, PrivateMountPropagation, DescriptorRelativeLaunch, StagedInput, StagedOutput,
      CombinedSetupOrder, PrivateRootCombinedSetupOrder, PartialSetupCleanup ]
    case V3 => [DirectProcessTreeNonescape, LowCapabilityNonescalation, PrivateRootCapabilityDiscard]
  }

  /** The schema whose table of probes has this one. */
  function SchemaOf(probe: Probe): Schema {
    match probe
    case NoNewPrivileges | RlimitCpu | RlimitAddressSpace | RlimitProcessCount | RlimitDescriptorCount | RlimitFileSize
       | InheritedDescriptors | SubreaperSessionCleanup | SubreaperDoubleForkCleanup | LandlockRead1 | UserNamespace
       | MountNamespace | PidNamespace | NetworkNamespace | SeccompSocketCreation | DisposableWorkspace
       | Openat2Resolution | FexecveIdentity | ExecveatIdentity | FchdirIdentity | StagedInput1 => V1
    case DirectProcessTreeNonescape | LowCapabilityNonescalation | PrivateRootCapabilityDiscard => V3
    case _ => V2
  }

  lemma RequiredBelong()
    ensures forall i | 0 <= i < |Required(V2)| :: SchemaOf(Required(V2)[i]) == V2
  {
  }

  /** Reasons the schema does not have. */
  predicate Foreign(schema: Schema, reason: Reason) {
    match schema
    case V1 => reason in {MissingDelegation, MissingController, UnsupportedCombination, LimitNotTriggered, Cancelled, PidReuse, SetupRace}
    case V2 => false
    case V3 => reason == LimitNotTriggered
  }

  /** The state that a reason goes with: `valid_reason`. */
  function StateOf(reason: Reason): State {
    match reason
    case NoReason => Enforced
    case UnsupportedKernel | UnsupportedArchitecture | PermissionDenied | MechanismAbsent | EnforcementFailed
       | PrerequisiteUnavailable | MissingDelegation | MissingController | UnsupportedCombination | LimitNotTriggered => Unavailable
    case Timeout | Cancelled | PidReuse | SetupRace | Signaled | NonzeroExit | MalformedProtocol | OutputLimit
       | CleanupFailed | InternalError => ProbeError
  }

  predicate ValidRow(schema: Schema, row: Row) {
    SchemaOf(row.probe) == schema && !Foreign(schema, row.reason) && row.state == StateOf(row.reason)
  }

  /** A schema requires exactly the probes of its table. */
  lemma RequiredExactly(schema: Schema, p: Probe)
    ensures p in Required(schema) <==> SchemaOf(p) == schema
  {
    RequiredOnly(schema);
    RequiredListed(p);
  }

  lemma RequiredOnly(schema: Schema)
    ensures forall i | 0 <= i < |Required(schema)| :: SchemaOf(Required(schema)[i]) == schema
  {
    match schema case V1 => case V2 => RequiredBelong(); case V3 =>
  }

  lemma RequiredListed(p: Probe)
    ensures p in Required(SchemaOf(p))
  {
    match SchemaOf(p) case V1 => RequiredV1(p); case V2 => RequiredV2(p); case V3 =>
  }

  lemma RequiredV1(p: Probe)
    requires SchemaOf(p) == V1
    ensures p in Required(V1)
  {
  }

  lemma RequiredV2(p: Probe)
    requires SchemaOf(p) == V2
    ensures p in Required(V2)
  {
  }

  /** The reasons of failures, which all schemas have but for three that the first lacks. */
  const FAILURES: set<Reason> :=
    {Timeout, Cancelled, PidReuse, SetupRace, Signaled, NonzeroExit, MalformedProtocol, OutputLimit, CleanupFailed, InternalError}

  /** A row is valid exactly when enforcement gives no reason, a failed probe one of the failures, and an unavailable one
      another; the first schema has seven reasons less, and the third one less. */
  lemma ValidRowExactly(schema: Schema, row: Row)
    ensures ValidRow(schema, row) <==>
              && row.probe in Required(schema)
              && (row.state == Enforced <==> row.reason == NoReason) && (row.state == ProbeError <==> row.reason in FAILURES)
              && (schema == V1 ==>
                    row.reason !in {MissingDelegation, MissingController, UnsupportedCombination, LimitNotTriggered, Cancelled, PidReuse, SetupRace})
              && (schema == V3 ==> row.reason != LimitNotTriggered)
  {
    RequiredExactly(schema, row.probe);
  }

  predicate ValidIdentity(id: Identity) {
    ValidSha(id.sourceSha) && id.platform == "linux" && ValidMetadata(id.kernel) && ValidMetadata(id.architecture)
  }

  /** `validate_report`: exactly the required probes, in order, each with a reason that fits its state. */
  ghost predicate ValidReport(schema: Schema, r: Report) {
    ValidIdentity(r.identity) && ValidRows(schema, Required(schema), r.rows)
  }

  ghost predicate ValidRows(schema: Schema, required: seq<Probe>, rows: seq<Row>) {
    |rows| == |required| && forall i | 0 <= i < |rows| :: rows[i].probe == required[i] && ValidRow(schema, rows[i])
  }

  /** The loop of `validate_report`. */
  method ValidateRows(schema: Schema, required: seq<Probe>, rows: seq<Row>) returns (ok: bool)
    ensures ok <==> ValidRows(schema, required, rows)
  {
    if |rows| != |required| {
      return false;
    }
    for i := 0 to |rows|
      invariant forall k | 0 <= k < i :: rows[k].probe == required[k] && ValidRow(schema, rows[k])
    {
      if rows[i].probe != required[i] || !ValidRow(schema, rows[i]) {
        return false;
      }
    }
    return true;
  }
}
