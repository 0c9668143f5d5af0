/** The fingerprint of a candidate: what it is taken over is a canonical form of the candidate's preconditions.

    Encoding to JSON and hashing are arbitrary functions here; what is asked of the encoders is that different
    values have different encodings. */
module Fingerprint {
  import opened Domain
  import opened FileSystem
  import Sequences
  import opened Sorting

  datatype ProcessPrecondition = ProcessPrecondition(pid: int, createdAt: Time, executable: string, cwd: string,
                                                     state: EvidenceState, fingerprint: string, hasError: bool)

  datatype AgentPrecondition = AgentPrecondition(
    adapterId: string, adapterVersion: string, bundleDigest: string, provider: string, sourceId: string,
    sessionId: string,
    threadId: string, projectId: string, cwd: string, repositoryRoot: string, worktreePath: string,
    state: EvidenceState,
    createdAt: Time, updatedAt: Time, processRefs: seq<ProcessReference>, binding: Option<WorktreeBinding>,
    sourceKind: string,
    supportGrade: TrustGrade, confidence: string, schemaVersion: string, rawFingerprint: string,
    trustRecordDigest: string,
    executable: Option<ExecutableIdentity>, revalidationMode: string, hasWarnings: bool)

  datatype AdapterPrecondition = AdapterPrecondition(adapterId: string, applicable: bool, healthy: bool, trusted: bool,
                                                     bestGrade: TrustGrade, offlineRevalidatable: bool, hasError: bool)

  /** The preconditions that are not lists. */
  datatype Fixed = Fixed(
    path: string, repositoryRoot: string, commonGitDir: string, adminDir: string, head: string, branch: string,
    upstream: string,
    indexHash: string, adminHash: string, primary: bool, current: bool, pathSafe: bool, detached: bool, locked: bool,
    prunable: bool,
    gitStateKnown: bool, recoverable: bool, status: GitStatus, lastCommitAt: Time, metadataModifiedAt: Time,
    snapshot: SnapshotPlan, action: string, classification: Classification, hasWarnings: bool,
    selection: Option<CandidateSelection>)

  datatype Preconditions = Preconditions(
    fixed: Fixed, collectionErrors: seq<string>, reasonCodes: seq<string>,
    processes: seq<ProcessPrecondition>, agents: seq<AgentPrecondition>, adapters: seq<AdapterPrecondition>)

  datatype Encoders = Encoders(process: ProcessPrecondition -> string, reference: ProcessReference -> string,
                               agent: AgentPrecondition -> string, adapter: AdapterPrecondition -> string,
                               whole: Preconditions -> string, digest: string -> string) {
    ghost predicate Lawful() {
      Injective(process) && Injective(reference) && Injective(agent) && Injective(adapter) && Injective(whole)
    }
  }

  // ---------------------------------------------------------------- sorting by encoding

  function Pairs<T>(values: seq<T>, encode: T -> string): (pairs: seq<(T, string)>)
    ensures |pairs| == |values| && forall i :: 0 <= i < |pairs| ==> pairs[i] == (values[i], encode(values[i]))
  {
    seq(|values|, i requires 0 <= i < |values| => (values[i], encode(values[i])))
  }

  function Encoded<T>(pair: (T, string)): string { pair.1 }

  lemma PairsFirst<T>(x: T, values: seq<T>, encode: T -> string)
    ensures Pairs([x] + values, encode) == [(x, encode(x))] + Pairs(values, encode)
  {
  }

  lemma {:induction false} InsertPairs<T>(x: T, values: seq<T>, encode: T -> string)
    ensures Insert((x, encode(x)), Pairs(values, encode), Encoded) == Pairs(Insert(x, values, encode), encode)
  {
    PairsFirst(x, values, encode);
    if values != [] {
      var first, rest := values[0], values[1..];
      Sequences.FirstOf(values);
      PairsFirst(first, rest, encode);
      assert Pairs(values, encode)[1..] == Pairs(rest, encode);
      InsertPairs(x, rest, encode);
      PairsFirst(first, Insert(x, rest, encode), encode);
    }
  }

  lemma {:induction false} SortPairs<T>(values: seq<T>, encode: T -> string)
    ensures Sort(Pairs(values, encode), Encoded) == Pairs(Sort(values, encode), encode)
  {
    if values != [] {
      var first, rest := values[0], values[1..];
      Sequences.FirstOf(values);
      PairsFirst(first, rest, encode);
      assert Pairs(values, encode)[1..] == Pairs(rest, encode);
      SortPairs(rest, encode);
      InsertPairs(first, Sort(rest, encode), encode);
    }
  }

  /** `sortPreconditions`: encode everything, sort by the encodings, and take the values back out. */
  method SortPreconditions<T>(values: seq<T>, encode: T -> string) returns (sorted: seq<T>)
    ensures sorted == Sort(values, encode)
  {
    var encoded := [];
    for k := 0 to |values|
      invariant encoded == Pairs(values[..k], encode)
    {
      Sequences.TakeNext(values, k);
      encoded := encoded + [(values[k], encode(values[k]))];
    }
    Sequences.TakeAll(values);
    SortPairs(values, encode);
    encoded := Sort(encoded, Encoded);
    sorted := [];
    ghost var wanted := Sort(values, encode);
    for k := 0 to |encoded|
      invariant sorted == wanted[..k]
    {
      Sequences.TakeNext(wanted, k);
      sorted := sorted + [encoded[k].0];
    }
    Sequences.TakeAll(wanted);
  }

  // ---------------------------------------------------------------- single preconditions

  function ProcessPre(e: ProcessEvidence): ProcessPrecondition {
    ProcessPrecondition(e.pid, e.createdAt.Utc(), e.executable, e.cwd, e.state, e.fingerprint, e.error != "")
  }

  function AdapterPre(a: AdapterStatus): AdapterPrecondition {
    AdapterPrecondition(a.adapterId, a.applicable, a.healthy, a.trusted, a.bestGrade, a.offlineRevalidatable,
                        a.error != "")
  }

  function UtcReferences(references: seq<ProcessReference>): (r: seq<ProcessReference>)
    ensures |r| == |references| && forall i :: 0 <= i < |r| ==>
              r[i] == references[i].(createdAt := references[i].createdAt.Utc())
  {
    seq(|references|, i requires 0 <= i < |references| => references[i].(createdAt := references[i].createdAt.Utc()))
  }

  /** The part of an agent's precondition that is not its process references. */
  function AgentHeader(a: AgentEvidence): AgentPrecondition {
    AgentPrecondition(a.adapterId, a.adapterVersion, a.bundleDigest, a.provider, a.sourceId, a.sessionId, a.threadId,
                      a.projectId, a.cwd, a.repositoryRoot, a.worktreePath, a.state, a.createdAt.Utc(),
                      a.updatedAt.Utc(), [], a.binding, a.sourceKind, a.supportGrade, a.confidence, a.schemaVersion,
                      a.rawFingerprint, a.trustRecordDigest, a.executable, a.revalidationMode, a.warnings != [])
  }

  function AgentPre(encoders: Encoders, a: AgentEvidence): AgentPrecondition {
    AgentHeader(a).(processRefs := Sort(UtcReferences(a.processRefs), encoders.reference))
  }

  /** `offlineAgentPrecondition` */
  method OfflineAgentPrecondition(encoders: Encoders, a: AgentEvidence) returns (p: AgentPrecondition)
    ensures p == AgentPre(encoders, a)
  {
    var references := [];
    for k := 0 to |a.processRefs|
      invariant references == UtcReferences(a.processRefs)[..k]
    {
      references := references + [a.processRefs[k].(createdAt := a.processRefs[k].createdAt.Utc())];
    }
    assert UtcReferences(a.processRefs)[..|a.processRefs|] == UtcReferences(a.processRefs);
    references := SortPreconditions(references, encoders.reference);
    p := AgentHeader(a).(processRefs := references);
  }

  /** An agent's precondition forgets the order of its process references, and nothing else about them. */
  lemma AgentIsCanonical(encoders: Encoders, a: AgentEvidence, b: AgentEvidence)
    requires encoders.Lawful()
    ensures AgentPre(encoders, a) == AgentPre(encoders, b) <==>
      AgentHeader(a) == AgentHeader(b)
      && multiset(UtcReferences(a.processRefs)) == multiset(UtcReferences(b.processRefs))
  {
    SortIsCanonical(UtcReferences(a.processRefs), UtcReferences(b.processRefs), encoders.reference);
    if AgentPre(encoders, a) == AgentPre(encoders, b) {
      assert AgentPre(encoders, a).(processRefs := []) == AgentPre(encoders, b).(processRefs := []);
    }
  }

  const LOCAL := "local-readonly"
  const PLANNING := "planning-only"

  predicate ModesKnown(agents: seq<AgentEvidence>) {
    forall a <- agents :: a.revalidationMode == LOCAL || a.revalidationMode == PLANNING
  }

  function KeptAgent(encoders: Encoders, a: AgentEvidence): seq<AgentPrecondition> {
    if a.revalidationMode == LOCAL then [AgentPre(encoders, a)] else []
  }

  /** The preconditions of the agents that can be looked at again offline. */
  function AgentPres(encoders: Encoders, agents: seq<AgentEvidence>): seq<AgentPrecondition> {
    Sequences.FlatMap(a => KeptAgent(encoders, a), agents)
  }

  function ProcessPres(processes: seq<ProcessEvidence>): (r: seq<ProcessPrecondition>)
    ensures |r| == |processes| && forall i :: 0 <= i < |r| ==> r[i] == ProcessPre(processes[i])
  {
    seq(|processes|, i requires 0 <= i < |processes| => ProcessPre(processes[i]))
  }

  function AdapterPres(adapters: seq<AdapterStatus>): (r: seq<AdapterPrecondition>)
    ensures |r| == |adapters| && forall i :: 0 <= i < |r| ==> r[i] == AdapterPre(adapters[i])
  {
    seq(|adapters|, i requires 0 <= i < |adapters| => AdapterPre(adapters[i]))
  }

  function Codes(reasons: seq<Reason>): (r: seq<string>)
    ensures |r| == |reasons| && forall i :: 0 <= i < |r| ==> r[i] == reasons[i].code
  {
    seq(|reasons|, i requires 0 <= i < |reasons| => reasons[i].code)
  }

  function Itself(s: string): string { s }

  function FixedOf(c: Candidate): Fixed {
    var w := c.worktree;
    Fixed(w.path, w.repositoryRoot, w.commonGitDir, w.adminDir, w.head, w.branch, w.upstream, w.indexHash, w.adminHash,
          w.primary, w.current, w.pathSafe, w.detached, w.locked, w.prunable, w.gitStateKnown, w.recoverable, w.status,
          w.lastCommitAt.Utc(), w.metadataModifiedAt.Utc(), c.snapshot, c.action, c.decision.classification,
          c.evidence.warnings != [], c.selection)
  }

  /** The preconditions in the order of the evidence. */
  function Unsorted(encoders: Encoders, c: Candidate): Preconditions {
    Preconditions(FixedOf(c), c.worktree.collectionErrors, Codes(c.decision.reasons), ProcessPres(c.evidence.processes),
                  AgentPres(encoders, c.evidence.agents), AdapterPres(c.evidence.adapters))
  }

  function Sorted(encoders: Encoders, p: Preconditions): Preconditions {
    Preconditions(p.fixed, Sort(p.collectionErrors, Itself), Sort(p.reasonCodes, Itself),
                  Sort(p.processes, encoders.process), Sort(p.agents, encoders.agent),
                  Sort(p.adapters, encoders.adapter))
  }

  /** What the fingerprint is taken over. */
  function Payload(encoders: Encoders, c: Candidate): Preconditions {
    Sorted(encoders, Unsorted(encoders, c))
  }

  function FingerprintOf(encoders: Encoders, c: Candidate): Option<string> {
    if ModesKnown(c.evidence.agents) then Some("sha256:" + encoders.digest(encoders.whole(Payload(encoders, c))))
    else None
  }

  method AgentPreconditions(encoders: Encoders, agents: seq<AgentEvidence>) returns (r: Option<seq<AgentPrecondition>>)
    ensures r.Some? <==> ModesKnown(agents)
    ensures r.Some? ==> r.value == AgentPres(encoders, agents)
  {
    var list := [];
    for k := 0 to |agents|
      invariant ModesKnown(agents[..k]) && list == AgentPres(encoders, agents[..k])
    {
      var agent := agents[k];
      assert agent in agents;
      Sequences.TakeNext(agents, k);
      Sequences.Snoc(agents[..k], agent);
      if agent.revalidationMode == LOCAL {
        var precondition := OfflineAgentPrecondition(encoders, agent);
        list := list + [precondition];
      } else if agent.revalidationMode != PLANNING {
        return None;
      }
    }
    Sequences.TakeAll(agents);
    r := Some(list);
  }

  /** `CandidateFingerprint` */
  method CandidateFingerprint(encoders: Encoders, c: Candidate) returns (r: Option<string>)
    ensures r == FingerprintOf(encoders, c)
  {
    var processes, adapters := ProcessPres(c.evidence.processes), AdapterPres(c.evidence.adapters);
    var agents := AgentPreconditions(encoders, c.evidence.agents);
    if agents.None? { return None; }
    var sortedProcesses := SortPreconditions(processes, encoders.process);
    var sortedAgents := SortPreconditions(agents.value, encoders.agent);
    var sortedAdapters := SortPreconditions(adapters, encoders.adapter);
    var preconditions := Preconditions(FixedOf(c), Sort(c.worktree.collectionErrors, Itself),
                                       Sort(Codes(c.decision.reasons), Itself), sortedProcesses, sortedAgents,
                                       sortedAdapters);
    r := Some("sha256:" + encoders.digest(encoders.whole(preconditions)));
  }

  // ---------------------------------------------------------------- a canonical form

  /** The same preconditions, whatever their order. */
  ghost predicate SamePreconditions(p: Preconditions, q: Preconditions) {
    && p.fixed == q.fixed
    && multiset(p.collectionErrors) == multiset(q.collectionErrors)
    && multiset(p.reasonCodes) == multiset(q.reasonCodes)
    && multiset(p.processes) == multiset(q.processes)
    && multiset(p.agents) == multiset(q.agents)
    && multiset(p.adapters) == multiset(q.adapters)
  }

  lemma SortedIsCanonical(encoders: Encoders, p: Preconditions, q: Preconditions)
    requires encoders.Lawful()
    ensures Sorted(encoders, p) == Sorted(encoders, q) <==> SamePreconditions(p, q)
  {
    assert Injective(Itself);
    SortIsCanonical(p.collectionErrors, q.collectionErrors, Itself);
    SortIsCanonical(p.reasonCodes, q.reasonCodes, Itself);
    SortIsCanonical(p.processes, q.processes, encoders.process);
    SortIsCanonical(p.agents, q.agents, encoders.agent);
    SortIsCanonical(p.adapters, q.adapters, encoders.adapter);
  }

  /** Equal payloads, and so equal encodings, are exactly equal multisets of preconditions. */
  lemma PayloadIsCanonical(encoders: Encoders, c: Candidate, d: Candidate)
    requires encoders.Lawful()
    ensures Payload(encoders, c) == Payload(encoders, d) <==>
              SamePreconditions(Unsorted(encoders, c), Unsorted(encoders, d))
    ensures encoders.whole(Payload(encoders, c)) == encoders.whole(Payload(encoders, d)) <==>
              Payload(encoders, c) == Payload(encoders, d)
  {
    SortedIsCanonical(encoders, Unsorted(encoders, c), Unsorted(encoders, d));
  }

  lemma {:induction false} MapPermute<A, B>(f: A -> B, xs: seq<A>, ys: seq<A>, fxs: seq<B>, fys: seq<B>)
    requires multiset(xs) == multiset(ys)
    requires |fxs| == |xs| && forall i :: 0 <= i < |xs| ==> fxs[i] == f(xs[i])
    requires |fys| == |ys| && forall i :: 0 <= i < |ys| ==> fys[i] == f(ys[i])
    ensures multiset(fxs) == multiset(fys)
  {
    var single := (x: A) => [f(x)];
    Sequences.FlatMapPermute(single, xs, ys);
    MapIsFlatMap(f, xs, fxs);
    MapIsFlatMap(f, ys, fys);
  }

  lemma {:induction false} MapIsFlatMap<A, B>(f: A -> B, xs: seq<A>, fxs: seq<B>)
    requires |fxs| == |xs| && forall i :: 0 <= i < |xs| ==> fxs[i] == f(xs[i])
    ensures Sequences.FlatMap((x: A) => [f(x)], xs) == fxs
  {
    if xs != [] {
      MapIsFlatMap(f, xs[..|xs| - 1], fxs[..|xs| - 1]);
      Sequences.LastOf(fxs);
    }
  }

  /** The same agent, but for the order of its process references. */
  ghost predicate SameButReferences(a: AgentEvidence, b: AgentEvidence) {
    b == a.(processRefs := b.processRefs) && multiset(a.processRefs) == multiset(b.processRefs)
  }

  lemma ReferencesForgotten(encoders: Encoders, a: AgentEvidence, b: AgentEvidence)
    requires encoders.Lawful() && SameButReferences(a, b)
    ensures KeptAgent(encoders, a) == KeptAgent(encoders, b)
  {
    MapPermute((r: ProcessReference) => r.(createdAt := r.createdAt.Utc()), a.processRefs, b.processRefs,
               UtcReferences(a.processRefs), UtcReferences(b.processRefs));
    AgentIsCanonical(encoders, a, b);
  }

  lemma ModesForgotten(xs: seq<AgentEvidence>, ys: seq<AgentEvidence>)
    requires |xs| == |ys| && forall i :: 0 <= i < |xs| ==> xs[i].revalidationMode == ys[i].revalidationMode
    ensures ModesKnown(xs) ==> ModesKnown(ys)
  {
    forall a | a in ys && ModesKnown(xs) ensures a.revalidationMode == LOCAL || a.revalidationMode == PLANNING {
      var i :| 0 <= i < |ys| && ys[i] == a;
      assert xs[i] in xs;
    }
  }

  lemma {:induction false} AllReferencesForgotten(encoders: Encoders, xs: seq<AgentEvidence>, ys: seq<AgentEvidence>)
    requires encoders.Lawful() && |xs| == |ys| && forall i :: 0 <= i < |xs| ==> SameButReferences(xs[i], ys[i])
    ensures AgentPres(encoders, xs) == AgentPres(encoders, ys) && (ModesKnown(xs) <==> ModesKnown(ys))
  {
    if xs != [] {
      var last := |xs| - 1;
      AllReferencesForgotten(encoders, xs[..last], ys[..last]);
      ReferencesForgotten(encoders, xs[last], ys[last]);
    }
    ModesForgotten(xs, ys);
    ModesForgotten(ys, xs);
  }

  /** The same evidence, reasons and collection errors in another order; in the agents, listed as `agents` by the one
      and as d's by the other, the process references may be in another order as well. */
  ghost predicate Reordered(c: Candidate, d: Candidate, agents: seq<AgentEvidence>) {
    && d == c.(worktree := c.worktree.(collectionErrors := d.worktree.collectionErrors),
               decision := c.decision.(reasons := d.decision.reasons),
               evidence := EvidenceSet(d.evidence.processes, d.evidence.agents, d.evidence.adapters,
                                       c.evidence.warnings))
    && multiset(c.worktree.collectionErrors) == multiset(d.worktree.collectionErrors)
    && multiset(c.decision.reasons) == multiset(d.decision.reasons)
    && multiset(c.evidence.processes) == multiset(d.evidence.processes)
    && multiset(c.evidence.adapters) == multiset(d.evidence.adapters)
    && multiset(c.evidence.agents) == multiset(agents) && |agents| == |d.evidence.agents|
    && forall i :: 0 <= i < |agents| ==> SameButReferences(agents[i], d.evidence.agents[i])
  }

  lemma ReorderedAgents(encoders: Encoders, c: Candidate, d: Candidate, agents: seq<AgentEvidence>)
    requires encoders.Lawful() && Reordered(c, d, agents)
    ensures multiset(AgentPres(encoders, c.evidence.agents)) == multiset(AgentPres(encoders, d.evidence.agents))
    ensures ModesKnown(c.evidence.agents) <==> ModesKnown(d.evidence.agents)
  {
    Sequences.FlatMapPermute(a => KeptAgent(encoders, a), c.evidence.agents, agents);
    Sequences.PermuteMembers(c.evidence.agents, agents);
    AllReferencesForgotten(encoders, agents, d.evidence.agents);
  }

  lemma ReorderedLists(encoders: Encoders, c: Candidate, d: Candidate, agents: seq<AgentEvidence>)
    requires encoders.Lawful() && Reordered(c, d, agents)
    ensures multiset(Codes(c.decision.reasons)) == multiset(Codes(d.decision.reasons))
    ensures multiset(ProcessPres(c.evidence.processes)) == multiset(ProcessPres(d.evidence.processes))
    ensures multiset(AdapterPres(c.evidence.adapters)) == multiset(AdapterPres(d.evidence.adapters))
  {
    MapPermute((r: Reason) => r.code, c.decision.reasons, d.decision.reasons, Codes(c.decision.reasons),
               Codes(d.decision.reasons));
    MapPermute(ProcessPre, c.evidence.processes, d.evidence.processes, ProcessPres(c.evidence.processes),
               ProcessPres(d.evidence.processes));
    MapPermute(AdapterPre, c.evidence.adapters, d.evidence.adapters, AdapterPres(c.evidence.adapters),
               AdapterPres(d.evidence.adapters));
  }

  lemma ReorderedFixed(c: Candidate, d: Candidate, agents: seq<AgentEvidence>)
    requires Reordered(c, d, agents)
    ensures FixedOf(c) == FixedOf(d) && multiset(c.worktree.collectionErrors) == multiset(d.worktree.collectionErrors)
  {
  }

  /** The fingerprint does not depend on the order in which evidence, collection errors, reasons, or the process
      references of an agent are listed. */
  lemma OrderForgotten(encoders: Encoders, c: Candidate, d: Candidate, agents: seq<AgentEvidence>)
    requires encoders.Lawful() && Reordered(c, d, agents)
    ensures Payload(encoders, c) == Payload(encoders, d) && FingerprintOf(encoders, c) == FingerprintOf(encoders, d)
  {
    ReorderedFixed(c, d, agents);
    ReorderedLists(encoders, c, d, agents);
    ReorderedAgents(encoders, c, d, agents);
    SortedIsCanonical(encoders, Unsorted(encoders, c), Unsorted(encoders, d));
  }

  lemma {:induction false} OnlyPlanning(encoders: Encoders, planning: seq<AgentEvidence>)
    requires forall a <- planning :: a.revalidationMode == PLANNING
    ensures AgentPres(encoders, planning) == []
  {
    if planning != [] { OnlyPlanning(encoders, planning[..|planning| - 1]); }
  }

  /** Agents that are only for planning leave no trace, wherever they are listed. */
  lemma PlanningOnlyIgnored(encoders: Encoders, before: seq<AgentEvidence>, planning: seq<AgentEvidence>,
                            after: seq<AgentEvidence>)
    requires forall a <- planning :: a.revalidationMode == PLANNING
    ensures AgentPres(encoders, before + planning + after) == AgentPres(encoders, before + after)
  {
    var kept := a => KeptAgent(encoders, a);
    OnlyPlanning(encoders, planning);
    Sequences.FlatMapConcat(kept, before + planning, after);
    Sequences.FlatMapConcat(kept, before, planning);
    Sequences.FlatMapConcat(kept, before, after);
  }

  /** Adding agents that are only for planning changes neither the payload nor the fingerprint. */
  lemma PlanningOnlyUnseen(encoders: Encoders, c: Candidate, d: Candidate, before: seq<AgentEvidence>,
                           planning: seq<AgentEvidence>, after: seq<AgentEvidence>)
    requires forall a <- planning :: a.revalidationMode == PLANNING
    requires c.evidence.agents == before + after
    requires d == c.(evidence := EvidenceSet(c.evidence.processes, before + planning + after, c.evidence.adapters,
                                             c.evidence.warnings))
    ensures Payload(encoders, c) == Payload(encoders, d)
    ensures FingerprintOf(encoders, c) == FingerprintOf(encoders, d)
  {
    PlanningOnlyIgnored(encoders, before, planning, after);
    assert FixedOf(c) == FixedOf(d);
    assert Unsorted(encoders, c) == Unsorted(encoders, d);
    assert ModesKnown(c.evidence.agents) <==> ModesKnown(d.evidence.agents) by {
      assert forall a :: a in before + planning + after <==> a in before || a in planning || a in after;
      assert forall a :: a in before + after <==> a in before || a in after;
    }
  }
}
