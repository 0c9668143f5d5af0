/** The records that the collectors, the policy and the plan share. */
module Domain {
  import opened FileSystem

  /** An instant and the zone it is shown in. Nanoseconds count from the first instant of year 1, Go's zero time. */
  datatype Time = Time(nanos: int, zone: string) {
    predicate IsZero() { nanos == 0 }
    predicate After(other: Time) { nanos > other.nanos }
    function Utc(): Time { Time(nanos, "UTC") }
    function Plus(duration: int): Time { Time(nanos + duration, zone) }
  }

  const NO_TIME := Time(0, "UTC")
  const UNIX_EPOCH := Time(62_135_596_800 * 1_000_000_000, "UTC")

  const MAXIMUM_DURATION: int := 0x7FFF_FFFF_FFFF_FFFF
  const MINIMUM_DURATION: int := -0x8000_0000_0000_0000

  /** `Time.Sub`, which saturates at the ends of a 64-bit duration. */
  function Sub(a: Time, b: Time): int {
    var difference := a.nanos - b.nanos;
    if difference > MAXIMUM_DURATION then MAXIMUM_DURATION
    else if difference < MINIMUM_DURATION then MINIMUM_DURATION
    else difference
  }

  /** An evidence state is any text in the source; these are the ones it has names for. */
  datatype EvidenceState = Active | Idle | Completed | Archived | Inactive | Unknown | NotApplicable
                         | OtherState(text: string)

  datatype TrustGrade = SupportedApi | SupportedAppServer | SupportedCli | ExperimentalApi | VersionedPrivate
                      | UnversionedPrivate | ProcessOnly | OtherGrade(text: string)

  datatype ProcessEvidence = ProcessEvidence(pid: int, createdAt: Time, executable: string, cwd: string,
                                             state: EvidenceState, error: string, fingerprint: string)

  datatype ProcessReference = ProcessReference(pid: int, createdAt: Time, executable: string, fingerprint: string)

  datatype ExecutableIdentity = ExecutableIdentity(path: string, version: string, sha256: string,
                                                   arguments: seq<string>, workingDirectory: string,
                                                   environmentDigest: string, invocationDigest: string)

  datatype WorktreeBinding = WorktreeBinding(kind: string, identifier: string, version: string)

  datatype AgentEvidence = AgentEvidence(
    adapterId: string, adapterVersion: string, bundleDigest: string, provider: string, sourceId: string,
    sessionId: string, threadId: string, projectId: string, cwd: string, repositoryRoot: string, worktreePath: string,
    state: EvidenceState, createdAt: Time, updatedAt: Time, observedAt: Time, processRefs: seq<ProcessReference>,
    binding: Option<WorktreeBinding>, sourceKind: string, supportGrade: TrustGrade, confidence: string,
    schemaVersion: string, rawFingerprint: string, trustRecordDigest: string, executable: Option<ExecutableIdentity>,
    revalidationMode: string, warnings: seq<string>)

  datatype AdapterStatus = AdapterStatus(adapterId: string, applicable: bool, healthy: bool, trusted: bool,
                                         bestGrade: TrustGrade, offlineRevalidatable: bool, error: string)

  datatype EvidenceSet = EvidenceSet(processes: seq<ProcessEvidence>, agents: seq<AgentEvidence>,
                                     adapters: seq<AdapterStatus>, warnings: seq<string>)

  datatype GitStatus = GitStatus(staged: int, unstaged: int, unmerged: int, untracked: int) {
    predicate Clean() { staged == 0 && unstaged == 0 && unmerged == 0 && untracked == 0 }
  }

  datatype Worktree = Worktree(
    path: string, repositoryRoot: string, commonGitDir: string, adminDir: string, head: string, branch: string,
    upstream: string, primary: bool, current: bool, pathSafe: bool, detached: bool, locked: bool, lockReason: string,
    prunable: bool, gitStateKnown: bool, collectionErrors: seq<string>, status: GitStatus, recoverable: bool,
    lastCommitAt: Time, metadataModifiedAt: Time, estimatedBytes: int, indexHash: string, adminHash: string)

  /** A classification is any text in the source; these are the ones it has names for. */
  datatype Classification = Protected | Review | Safe | OtherClass(text: string)

  datatype Reason = Reason(code: string, message: string)

  datatype Decision = Decision(classification: Classification, reasons: seq<Reason>, inactiveFor: int)

  datatype PolicySettings = PolicySettings(inactivityThreshold: int, planExpiry: int, baseBranches: seq<string>,
                                           minimumTrustGrade: TrustGrade, snapshotMaxBytes: int)

  datatype Policy = Policy(now: Time, settings: PolicySettings)

  datatype ApplyMode = Interactive | Scheduled | OtherMode(text: string)

  datatype SnapshotPlan = SnapshotPlan(required: bool, maximumBytes: int, untrackedFiles: int, untrackedBytes: int,
                                       sensitiveBlocked: bool)

  const NO_SNAPSHOT := SnapshotPlan(false, 0, 0, 0, false)

  datatype CandidateSelection = CandidateSelection(selected: bool, skipReason: string)

  datatype Candidate = Candidate(id: string, worktree: Worktree, evidence: EvidenceSet, decision: Decision,
                                 action: string, fingerprint: string, snapshot: SnapshotPlan,
                                 selection: Option<CandidateSelection>)

  datatype PlanSummary = PlanSummary(safe: nat, review: nat, protected: nat, reclaimableBytes: int)

  datatype RemovalPlan = RemovalPlan(intent: string, contentDisposition: string, backupMode: string, skipDirty: bool,
                                     selectedPaths: seq<string>, execution: string)

  datatype Plan = Plan(id: string, generatedAt: Time, expiresAt: Time, intendedApplyMode: ApplyMode, roots: seq<string>,
                       candidates: seq<Candidate>, summary: PlanSummary, warnings: seq<string>,
                       removal: Option<RemovalPlan>)

  const INTENT_INVENTORY := "inventory-preview"
  const INTENT_EXPLICIT := "explicit-worktree-removal"
  const DISCARD_ALL := "discard-all"
  const BACKUP_NONE := "none"
  const PREVIEW_ONLY := "preview-only"
}
