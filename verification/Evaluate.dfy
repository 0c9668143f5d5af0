/** Classification of a worktree from its evidence. */
module Evaluate {
  import opened Domain
  import Sequences

  // ---------------------------------------------------------------- what the evidence shows

  const GRADES: seq<TrustGrade> := [SupportedApi, SupportedAppServer, SupportedCli, ExperimentalApi, VersionedPrivate,
                                    UnversionedPrivate, ProcessOnly]

  /** `trustRank`: the position in the list of grades, or its length. */
  function TrustRank(grade: TrustGrade): (rank: nat)
    ensures rank < |GRADES| ==> GRADES[rank] == grade
    ensures rank >= |GRADES| ==> rank == |GRADES| && grade !in GRADES
  {
    match grade
    case SupportedApi => 0
    case SupportedAppServer => 1
    case SupportedCli => 2
    case ExperimentalApi => 3
    case VersionedPrivate => 4
    case UnversionedPrivate => 5
    case ProcessOnly => 6
    case OtherGrade(_) => 7
  }

  predicate HasActiveProcess(evidence: EvidenceSet) {
    exists p <- evidence.processes :: p.state == Active
  }

  function Latest(agent: AgentEvidence): Time {
    if agent.createdAt.After(agent.updatedAt) then agent.createdAt else agent.updatedAt
  }

  /** An agent that is active, or whose last sign of life is more recent than the threshold. */
  predicate ActiveOrRecent(agent: AgentEvidence, now: Time, threshold: int) {
    || agent.state == Active
    || (&& (agent.state == Idle || agent.state == Completed || agent.state == Archived || agent.state == Inactive)
        && !Latest(agent).IsZero() && Sub(now, Latest(agent)) < threshold)
  }

  predicate HasActiveAgent(evidence: EvidenceSet, now: Time, threshold: int) {
    exists a <- evidence.agents :: ActiveOrRecent(a, now, threshold)
  }

  predicate HasUnhealthyAdapter(evidence: EvidenceSet) {
    exists a <- evidence.adapters :: a.applicable && (!a.healthy || a.error != "")
  }

  predicate UnknownProcess(p: ProcessEvidence) {
    p.error != "" || (p.state != Active && p.state != Inactive && p.state != NotApplicable)
  }

  /** An applicable agent whose record alone is not conclusive. */
  predicate UnknownAgent(a: AgentEvidence) {
    && a.state != NotApplicable
    && (|| (a.state != Active && a.state != Idle && a.state != Completed && a.state != Archived && a.state != Inactive)
        || a.warnings != []
        || (a.createdAt.IsZero() && a.updatedAt.IsZero()))
  }

  datatype Identity = Identity(adapter: string, source: string, session: string, thread: string)

  function IdentityOf(a: AgentEvidence): Identity {
    Identity(a.adapterId, a.sourceId, a.sessionId, a.threadId)
  }

  /** Agents with a session or a thread can be told to be the same one. */
  predicate Identified(a: AgentEvidence) {
    a.state != NotApplicable && (a.sessionId != "" || a.threadId != "")
  }

  predicate SameReport(a: AgentEvidence, b: AgentEvidence) {
    a.state == b.state && a.cwd == b.cwd && a.worktreePath == b.worktreePath && a.repositoryRoot == b.repositoryRoot
  }

  /** Two reports of one agent that contradict each other. */
  predicate Contradict(a: AgentEvidence, b: AgentEvidence) {
    Identified(a) && Identified(b) && IdentityOf(a) == IdentityOf(b) && !SameReport(a, b)
  }

  predicate HasContradiction(agents: seq<AgentEvidence>) {
    exists a <- agents, b <- agents :: Contradict(a, b)
  }

  /** What `hasUnknownEvidence` looks for, over all records and all pairs of agents. */
  predicate UnknownEvidence(evidence: EvidenceSet) {
    || evidence.warnings != []
    || (exists p <- evidence.processes :: UnknownProcess(p))
    || (exists a <- evidence.agents :: UnknownAgent(a))
    || HasContradiction(evidence.agents)
  }

  /** The map of the last report seen of every identity, over reports that do not contradict each other. */
  ghost predicate LastSeen(agents: seq<AgentEvidence>, seen: map<Identity, AgentEvidence>) {
    && (forall a <- agents :: Identified(a) ==> IdentityOf(a) in seen && SameReport(a, seen[IdentityOf(a)]))
    && (forall k <- seen :: seen[k] in agents && Identified(seen[k]) && IdentityOf(seen[k]) == k)
  }

  lemma NoContradictionSeen(agents: seq<AgentEvidence>, seen: map<Identity, AgentEvidence>)
    requires LastSeen(agents, seen)
    ensures !HasContradiction(agents)
  {
  }

  lemma SeenOneMore(agents: seq<AgentEvidence>, agent: AgentEvidence, seen: map<Identity, AgentEvidence>)
    requires LastSeen(agents, seen)
    requires Identified(agent) ==> IdentityOf(agent) in seen ==> SameReport(seen[IdentityOf(agent)], agent)
    ensures LastSeen(agents + [agent], if Identified(agent) then seen[IdentityOf(agent) := agent] else seen)
  {
    var after := if Identified(agent) then seen[IdentityOf(agent) := agent] else seen;
    forall a | a in agents + [agent] && Identified(a)
      ensures IdentityOf(a) in after && SameReport(a, after[IdentityOf(a)])
    {
      Sequences.InMore(agents, agent, a);
    }
    forall k | k in after ensures after[k] in agents + [agent] && Identified(after[k]) && IdentityOf(after[k]) == k {
      Sequences.InMore(agents, agent, after[k]);
    }
  }

  /** The agents' loop of `hasUnknownEvidence`: one pass with the last report of every identity. */
  method HasUnknownAgents(agents: seq<AgentEvidence>) returns (unknown: bool)
    ensures unknown <==> (exists a <- agents :: UnknownAgent(a)) || HasContradiction(agents)
  {
    var seen: map<Identity, AgentEvidence> := map[];
    for k := 0 to |agents|
      invariant forall a <- agents[..k] :: !UnknownAgent(a)
      invariant LastSeen(agents[..k], seen)
    {
      var agent := agents[k];
      assert agent in agents;
      Sequences.TakeNext(agents, k);
      if UnknownAgent(agent) { return true; }
      if Identified(agent) {
        var key := IdentityOf(agent);
        if key in seen && !SameReport(seen[key], agent) {
          Sequences.InLonger(agents[..k], agents, seen[key]);
          assert Contradict(seen[key], agent);
          return true;
        }
      }
      SeenOneMore(agents[..k], agent, seen);
      if Identified(agent) { seen := seen[IdentityOf(agent) := agent]; }
    }
    Sequences.TakeAll(agents);
    NoContradictionSeen(agents, seen);
    unknown := false;
  }

  method HasUnknownEvidence(evidence: EvidenceSet) returns (unknown: bool)
    ensures unknown <==> UnknownEvidence(evidence)
  {
    if |evidence.warnings| != 0 { return true; }
    for k := 0 to |evidence.processes|
      invariant forall i :: 0 <= i < k ==> !UnknownProcess(evidence.processes[i])
    {
      if UnknownProcess(evidence.processes[k]) {
        assert evidence.processes[k] in evidence.processes;
        return true;
      }
    }
    unknown := HasUnknownAgents(evidence.agents);
  }

  predicate HasNonOfflineAdapter(evidence: EvidenceSet) {
    exists a <- evidence.adapters :: a.applicable && !a.offlineRevalidatable
  }

  predicate HasInsufficientTrust(evidence: EvidenceSet, minimum: TrustGrade) {
    || (exists a <- evidence.adapters :: a.applicable && (!a.trusted || TrustRank(a.bestGrade) > TrustRank(minimum)))
    || (exists a <- evidence.agents :: a.state != NotApplicable && TrustRank(a.supportGrade) > TrustRank(minimum))
  }

  // ---------------------------------------------------------------- the decision

  function InactiveFor(worktree: Worktree, policy: Policy): (d: int)
    ensures d >= 0
  {
    var since := if worktree.metadataModifiedAt.After(worktree.lastCommitAt) then worktree.metadataModifiedAt
        else worktree.lastCommitAt;
    var d := Sub(policy.now, since);
    if d < 0 then 0 else d
  }

  /** Everything that can be held against a worktree, the gravest first. */
  datatype Concern = PrimaryWorktree | CurrentWorktree | UnsafePath | LockedWorktree | PrunableRegistration
                   | UnknownGitState
                   | DirtyWorktree | InvalidPolicy | ActiveProcess | ActiveAgent | AdapterUnhealthy | EvidenceUnknown
                   | RecentlyUsed
                   | DetachedHead | UnrecoverableCommits | OfflineRevalidation | AdapterTrust | NoConcern {
    function Gravity(): nat {
      match this
      case PrimaryWorktree => 0 case CurrentWorktree => 1 case UnsafePath => 2 case LockedWorktree => 3
      case PrunableRegistration => 4 case UnknownGitState => 5 case DirtyWorktree => 6 case InvalidPolicy => 7
      case ActiveProcess => 8 case ActiveAgent => 9 case AdapterUnhealthy => 10 case EvidenceUnknown => 11
      case RecentlyUsed => 12 case DetachedHead => 13 case UnrecoverableCommits => 14 case OfflineRevalidation => 15
      case AdapterTrust => 16 case NoConcern => 17
    }

    function Class(): Classification {
      if Gravity() < 13 then Protected else if Gravity() < 17 then Review else Safe
    }

    function Text(): Reason {
      match this
      case PrimaryWorktree => Reason("primary_worktree", "primary worktrees are never removable")
      case CurrentWorktree => Reason("current_worktree", "Treeclear is running inside this worktree")
      case UnsafePath => Reason("unsafe_path", "canonical path identity is not safe")
      case LockedWorktree => Reason("locked", "Git reports the worktree as locked")
      case PrunableRegistration => Reason("prunable_registration",
                                          "missing worktree registration requires explicit metadata cleanup")
      case UnknownGitState => Reason("unknown_git_state", "required Git state could not be collected")
      case DirtyWorktree => Reason("dirty", "worktree has staged, unstaged, unmerged, or untracked changes")
      case InvalidPolicy => Reason("invalid_policy", "clock, inactivity threshold, or minimum trust grade is invalid")
      case ActiveProcess => Reason("active_process", "a process cwd is inside the worktree")
      case ActiveAgent => Reason("active_agent", "an agent session is active or recent")
      case AdapterUnhealthy => Reason("adapter_unhealthy", "a relevant adapter is unhealthy")
      case EvidenceUnknown => Reason("unknown_evidence", "relevant evidence is unknown or conflicting")
      case RecentlyUsed => Reason("recent", "worktree has not exceeded the inactivity threshold")
      case DetachedHead => Reason("detached", "detached HEAD requires review")
      case UnrecoverableCommits => Reason("unrecoverable_commits", "branch state has no proven recovery path")
      case OfflineRevalidation => Reason("offline_revalidation",
                                         "relevant adapter evidence cannot be fully revalidated offline")
      case AdapterTrust => Reason("adapter_trust", "relevant adapter evidence does not meet the trust policy")
      case NoConcern => Reason("safe", "clean, inactive, and recoverable under collected evidence")
    }
  }

  /** When a concern applies, each by itself. */
  predicate Applies(concern: Concern, worktree: Worktree, evidence: EvidenceSet, policy: Policy) {
    var settings := policy.settings;
    match concern
    case PrimaryWorktree => worktree.primary
    case CurrentWorktree => worktree.current
    case UnsafePath => !worktree.pathSafe
    case LockedWorktree => worktree.locked
    case PrunableRegistration => worktree.prunable
    case UnknownGitState => !worktree.gitStateKnown || worktree.lastCommitAt.IsZero()
        || worktree.metadataModifiedAt.IsZero()
    case DirtyWorktree => !worktree.status.Clean()
    case InvalidPolicy => policy.now.IsZero() || settings.inactivityThreshold <= 0
        || TrustRank(settings.minimumTrustGrade) >= |GRADES|
    case ActiveProcess => HasActiveProcess(evidence)
    case ActiveAgent => HasActiveAgent(evidence, policy.now, settings.inactivityThreshold)
    case AdapterUnhealthy => HasUnhealthyAdapter(evidence)
    case EvidenceUnknown => UnknownEvidence(evidence)
    case RecentlyUsed => InactiveFor(worktree, policy) < settings.inactivityThreshold
    case DetachedHead => worktree.detached
    case UnrecoverableCommits => !worktree.recoverable
    case OfflineRevalidation => HasNonOfflineAdapter(evidence)
    case AdapterTrust => HasInsufficientTrust(evidence, settings.minimumTrustGrade)
    case NoConcern => true
  }

  /** The concern applies, and no graver one does. */
  ghost predicate Foremost(concern: Concern, worktree: Worktree, evidence: EvidenceSet, policy: Policy) {
    && Applies(concern, worktree, evidence, policy)
    && forall other: Concern :: other.Gravity() < concern.Gravity() ==> !Applies(other, worktree, evidence, policy)
  }

  ghost predicate SomeApplies(level: Classification, worktree: Worktree, evidence: EvidenceSet, policy: Policy) {
    exists concern: Concern :: concern.Class() == level && Applies(concern, worktree, evidence, policy)
  }

  /** The first concern that applies. */
  function FirstConcern(worktree: Worktree, evidence: EvidenceSet, policy: Policy): Concern {
    if worktree.primary then PrimaryWorktree
    else if worktree.current then CurrentWorktree
    else if !worktree.pathSafe then UnsafePath
    else if worktree.locked then LockedWorktree
    else if worktree.prunable then PrunableRegistration
    else if Applies(UnknownGitState, worktree, evidence, policy) then UnknownGitState
    else if !worktree.status.Clean() then DirtyWorktree
    else if Applies(InvalidPolicy, worktree, evidence, policy) then InvalidPolicy
    else if HasActiveProcess(evidence) then ActiveProcess
    else if HasActiveAgent(evidence, policy.now, policy.settings.inactivityThreshold) then ActiveAgent
    else if HasUnhealthyAdapter(evidence) then AdapterUnhealthy
    else if UnknownEvidence(evidence) then EvidenceUnknown
    else if InactiveFor(worktree, policy) < policy.settings.inactivityThreshold then RecentlyUsed
    else if worktree.detached then DetachedHead
    else if !worktree.recoverable then UnrecoverableCommits
    else if HasNonOfflineAdapter(evidence) then OfflineRevalidation
    else if HasInsufficientTrust(evidence, policy.settings.minimumTrustGrade) then AdapterTrust
    else NoConcern
  }

  function Decide(worktree: Worktree, evidence: EvidenceSet, policy: Policy): Decision {
    var concern := FirstConcern(worktree, evidence, policy);
    Decision(concern.Class(), [concern.Text()], InactiveFor(worktree, policy))
  }

  lemma FirstApplies(worktree: Worktree, evidence: EvidenceSet, policy: Policy)
    ensures Applies(FirstConcern(worktree, evidence, policy), worktree, evidence, policy)
  {
  }

  lemma NoneGraver(other: Concern, worktree: Worktree, evidence: EvidenceSet, policy: Policy)
    requires other.Gravity() < FirstConcern(worktree, evidence, policy).Gravity()
    ensures !Applies(other, worktree, evidence, policy)
  {
  }

  lemma FirstIsForemost(worktree: Worktree, evidence: EvidenceSet, policy: Policy)
    ensures Foremost(FirstConcern(worktree, evidence, policy), worktree, evidence, policy)
  {
    FirstApplies(worktree, evidence, policy);
    forall other: Concern | other.Gravity() < FirstConcern(worktree, evidence, policy).Gravity()
      ensures !Applies(other, worktree, evidence, policy)
    {
      NoneGraver(other, worktree, evidence, policy);
    }
  }

  /** No two concerns can both be the foremost, so the reason of a decision is determined by what applies. */
  lemma OneForemost(a: Concern, b: Concern, worktree: Worktree, evidence: EvidenceSet, policy: Policy)
    requires Foremost(a, worktree, evidence, policy) && Foremost(b, worktree, evidence, policy)
    ensures a == b
  {
    assert !(a.Gravity() < b.Gravity()) && !(b.Gravity() < a.Gravity());
    GravityInjective(a, b);
  }

  /** The gravest class that any concern calls for. */
  lemma ClassOfForemost(concern: Concern, worktree: Worktree, evidence: EvidenceSet, policy: Policy)
    requires Foremost(concern, worktree, evidence, policy)
    ensures concern.Class() == Protected <==> SomeApplies(Protected, worktree, evidence, policy)
    ensures concern.Class() == Review <==>
              !SomeApplies(Protected, worktree, evidence, policy) && SomeApplies(Review, worktree, evidence, policy)
  {
  }

  /** `Evaluate`: the class is the gravest that any concern calls for, whatever the order of the checks; the reason is
      the gravest concern itself; safe is only what `Harmless` describes. */
  method Evaluate(worktree: Worktree, evidence: EvidenceSet, policy: Policy) returns (decision: Decision)
    ensures decision.classification == Safe <==> Harmless(worktree, evidence, policy)
    ensures decision.classification == Protected <==> SomeApplies(Protected, worktree, evidence, policy)
    ensures decision.classification == Review <==>
              !SomeApplies(Protected, worktree, evidence, policy) && SomeApplies(Review, worktree, evidence, policy)
    ensures forall concern :: Foremost(concern, worktree, evidence, policy) ==> decision.reasons == [concern.Text()]
    ensures decision == Decide(worktree, evidence, policy)
  {
    var concern := FindConcern(worktree, evidence, policy);
    decision := Decision(concern.Class(), [concern.Text()], InactiveFor(worktree, policy));
    FirstIsForemost(worktree, evidence, policy);
    forall other | Foremost(other, worktree, evidence, policy) ensures other == concern {
      OneForemost(other, concern, worktree, evidence, policy);
    }
    ClassOfForemost(concern, worktree, evidence, policy);
    SafeExactlyWhen(worktree, evidence, policy);
  }

  /** The cases of `Evaluate`. */
  method FindConcern(worktree: Worktree, evidence: EvidenceSet, policy: Policy) returns (concern: Concern)
    ensures concern == FirstConcern(worktree, evidence, policy)
  {
    var settings := policy.settings;
    concern := NoConcern;
    if worktree.primary { concern := PrimaryWorktree; }
    else if worktree.current { concern := CurrentWorktree; }
    else if !worktree.pathSafe { concern := UnsafePath; }
    else if worktree.locked { concern := LockedWorktree; }
    else if worktree.prunable { concern := PrunableRegistration; }
    else if Applies(UnknownGitState, worktree, evidence, policy) { concern := UnknownGitState; }
    else if !worktree.status.Clean() { concern := DirtyWorktree; }
    else if Applies(InvalidPolicy, worktree, evidence, policy) { concern := InvalidPolicy; }
    else if HasActiveProcess(evidence) { concern := ActiveProcess; }
    else if HasActiveAgent(evidence, policy.now, settings.inactivityThreshold) { concern := ActiveAgent; }
    else if HasUnhealthyAdapter(evidence) { concern := AdapterUnhealthy; }
    else {
      var unknown := HasUnknownEvidence(evidence);
      if unknown { concern := EvidenceUnknown; }
      else if InactiveFor(worktree, policy) < settings.inactivityThreshold { concern := RecentlyUsed; }
      else if worktree.detached { concern := DetachedHead; }
      else if !worktree.recoverable { concern := UnrecoverableCommits; }
      else if HasNonOfflineAdapter(evidence) { concern := OfflineRevalidation; }
      else if HasInsufficientTrust(evidence, settings.minimumTrustGrade) { concern := AdapterTrust; }
    }
  }

  // ---------------------------------------------------------------- monotone and order-free

  /** Everything shown by the first evidence is shown by the second. */
  ghost predicate Shows(less: EvidenceSet, more: EvidenceSet) {
    && (forall p <- less.processes :: p in more.processes)
    && (forall a <- less.agents :: a in more.agents)
    && (forall a <- less.adapters :: a in more.adapters)
    && (forall w <- less.warnings :: w in more.warnings)
  }

  function Caution(c: Classification): nat {
    match c case Safe => 0 case Review => 1 case _ => 2
  }

  lemma ShownWarnings(less: EvidenceSet, more: EvidenceSet)
    requires Shows(less, more)
    ensures less.warnings != [] ==> more.warnings != []
  {
    if less.warnings != [] {
      assert less.warnings[0] in less.warnings;
      assert less.warnings[0] in more.warnings;
    }
  }

  lemma ProtectionGrows(less: EvidenceSet, more: EvidenceSet, now: Time, threshold: int)
    requires Shows(less, more)
    ensures HasActiveProcess(less) ==> HasActiveProcess(more)
    ensures HasActiveAgent(less, now, threshold) ==> HasActiveAgent(more, now, threshold)
    ensures HasUnhealthyAdapter(less) ==> HasUnhealthyAdapter(more)
    ensures UnknownEvidence(less) ==> UnknownEvidence(more)
  {
    ShownWarnings(less, more);
    if HasContradiction(less.agents) {
      var a, b :| a in less.agents && b in less.agents && Contradict(a, b);
      assert a in more.agents && b in more.agents;
    }
  }

  lemma ReviewGrows(less: EvidenceSet, more: EvidenceSet, minimum: TrustGrade)
    requires Shows(less, more)
    ensures HasNonOfflineAdapter(less) ==> HasNonOfflineAdapter(more)
    ensures HasInsufficientTrust(less, minimum) ==> HasInsufficientTrust(more, minimum)
  {
  }

  /** Every single concern only ever comes up with more evidence. */
  lemma ConcernGrows(concern: Concern, worktree: Worktree, less: EvidenceSet, more: EvidenceSet, policy: Policy)
    requires Shows(less, more) && Applies(concern, worktree, less, policy)
    ensures Applies(concern, worktree, more, policy)
  {
    ProtectionGrows(less, more, policy.now, policy.settings.inactivityThreshold);
    ReviewGrows(less, more, policy.settings.minimumTrustGrade);
  }

  lemma GravityGrows(worktree: Worktree, less: EvidenceSet, more: EvidenceSet, policy: Policy)
    requires Shows(less, more)
    ensures FirstConcern(worktree, more, policy).Gravity() <= FirstConcern(worktree, less, policy).Gravity()
  {
    var concern := FirstConcern(worktree, less, policy);
    FirstApplies(worktree, less, policy);
    ConcernGrows(concern, worktree, less, more, policy);
    if concern.Gravity() < FirstConcern(worktree, more, policy).Gravity() {
      NoneGraver(concern, worktree, more, policy);
    }
  }

  /** More evidence never makes a decision less cautious. */
  lemma Monotone(worktree: Worktree, less: EvidenceSet, more: EvidenceSet, policy: Policy)
    requires Shows(less, more)
    ensures Caution(Decide(worktree, less, policy).classification)
            <= Caution(Decide(worktree, more, policy).classification)
  {
    GravityGrows(worktree, less, more, policy);
  }

  lemma GravityInjective(a: Concern, b: Concern)
    requires a.Gravity() == b.Gravity()
    ensures a == b
  {
  }

  /** Nothing of a decision depends on the order or the number of times that evidence is listed. */
  lemma OrderFree(worktree: Worktree, first: EvidenceSet, second: EvidenceSet, policy: Policy)
    requires Shows(first, second) && Shows(second, first)
    ensures Decide(worktree, first, policy) == Decide(worktree, second, policy)
  {
    GravityGrows(worktree, first, second, policy);
    GravityGrows(worktree, second, first, policy);
    GravityInjective(FirstConcern(worktree, first, policy), FirstConcern(worktree, second, policy));
  }

  lemma PermutationShows(first: EvidenceSet, second: EvidenceSet)
    requires multiset(first.processes) == multiset(second.processes)
             && multiset(first.agents) == multiset(second.agents)
    requires multiset(first.adapters) == multiset(second.adapters)
             && multiset(first.warnings) == multiset(second.warnings)
    ensures Shows(first, second)
  {
    forall p <- first.processes ensures p in second.processes { assert p in multiset(first.processes); }
    forall a <- first.agents ensures a in second.agents { assert a in multiset(first.agents); }
    forall a <- first.adapters ensures a in second.adapters { assert a in multiset(first.adapters); }
    forall w <- first.warnings ensures w in second.warnings { assert w in multiset(first.warnings); }
  }

  /** Permuting the evidence changes neither the classification nor the reason. */
  lemma PermutationFree(worktree: Worktree, first: EvidenceSet, second: EvidenceSet, policy: Policy)
    requires multiset(first.processes) == multiset(second.processes)
             && multiset(first.agents) == multiset(second.agents)
    requires multiset(first.adapters) == multiset(second.adapters)
             && multiset(first.warnings) == multiset(second.warnings)
    ensures Decide(worktree, first, policy) == Decide(worktree, second, policy)
  {
    PermutationShows(first, second);
    PermutationShows(second, first);
    OrderFree(worktree, first, second, policy);
  }

  /** What it takes to be called safe. */
  ghost predicate Harmless(worktree: Worktree, evidence: EvidenceSet, policy: Policy) {
    var settings := policy.settings;
    && !worktree.primary && !worktree.current && worktree.pathSafe && !worktree.locked && !worktree.prunable
    && worktree.gitStateKnown && !worktree.lastCommitAt.IsZero() && !worktree.metadataModifiedAt.IsZero()
    && worktree.status.Clean() && !policy.now.IsZero() && settings.inactivityThreshold > 0
    && settings.minimumTrustGrade in GRADES
    && evidence.warnings == []
    && (forall p <- evidence.processes :: p.error == "" && (p.state == Inactive || p.state == NotApplicable))
    && (forall a <- evidence.agents :: a.state != NotApplicable ==>
          && (a.state == Idle || a.state == Completed || a.state == Archived || a.state == Inactive)
          && a.warnings == [] && !(a.createdAt.IsZero() && a.updatedAt.IsZero())
          && (Latest(a).IsZero() || Sub(policy.now, Latest(a)) >= settings.inactivityThreshold)
          && TrustRank(a.supportGrade) <= TrustRank(settings.minimumTrustGrade))
    && (forall a <- evidence.agents, b <- evidence.agents :: !Contradict(a, b))
    && (forall a <- evidence.adapters :: a.applicable ==>
          a.healthy && a.error == "" && a.offlineRevalidatable && a.trusted
          && TrustRank(a.bestGrade) <= TrustRank(settings.minimumTrustGrade))
    && Sub(policy.now, worktree.lastCommitAt) >= settings.inactivityThreshold
    && Sub(policy.now, worktree.metadataModifiedAt) >= settings.inactivityThreshold
    && !worktree.detached && worktree.recoverable
  }

  lemma TrustRankKnown(grade: TrustGrade)
    ensures TrustRank(grade) < |GRADES| <==> grade in GRADES
  {
    if TrustRank(grade) < |GRADES| { assert GRADES[TrustRank(grade)] == grade; }
  }

  lemma LongInactive(worktree: Worktree, policy: Policy)
    requires policy.settings.inactivityThreshold > 0
    ensures InactiveFor(worktree, policy) >= policy.settings.inactivityThreshold <==>
      && Sub(policy.now, worktree.lastCommitAt) >= policy.settings.inactivityThreshold
      && Sub(policy.now, worktree.metadataModifiedAt) >= policy.settings.inactivityThreshold
  {
  }

  /** Safe means exactly this, and nothing less. */
  lemma SafeExactlyWhen(worktree: Worktree, evidence: EvidenceSet, policy: Policy)
    ensures Decide(worktree, evidence, policy).classification == Safe <==> Harmless(worktree, evidence, policy)
  {
    if Harmless(worktree, evidence, policy) {
      HarmlessIsSafe(worktree, evidence, policy);
    }
    if Decide(worktree, evidence, policy).classification == Safe {
      SafeIsHarmless(worktree, evidence, policy);
    }
  }

  lemma HarmlessIsSafe(worktree: Worktree, evidence: EvidenceSet, policy: Policy)
    requires Harmless(worktree, evidence, policy)
    ensures FirstConcern(worktree, evidence, policy) == NoConcern
  {
    TrustRankKnown(policy.settings.minimumTrustGrade);
    LongInactive(worktree, policy);
    assert !UnknownEvidence(evidence);
  }

  lemma SafeIsHarmless(worktree: Worktree, evidence: EvidenceSet, policy: Policy)
    requires FirstConcern(worktree, evidence, policy) == NoConcern
    ensures Harmless(worktree, evidence, policy)
  {
    TrustRankKnown(policy.settings.minimumTrustGrade);
    LongInactive(worktree, policy);
    assert !UnknownEvidence(evidence);
  }

  /** A warning alone is enough to protect. */
  lemma WarningProtects(worktree: Worktree, evidence: EvidenceSet, policy: Policy)
    requires evidence.warnings != []
    ensures Decide(worktree, evidence, policy).classification == Protected
  {
    assert UnknownEvidence(evidence);
  }
}
