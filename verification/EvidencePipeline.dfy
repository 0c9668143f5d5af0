/** From the process listing to the decision: nothing that could not be found out is lost on the way. */
module EvidencePipeline {
  import opened Domain
  import opened FileSystem
  import opened ProcessCollector
  import opened Correlate
  import Evaluate
  import Sequences

  function DirectoryOf(world: World, worktrees: seq<Worktree>, j: nat): Answer<string>
    requires j < |worktrees|
  {
    world.worktrees(j).CanonicalDirectory(worktrees[j].path)
  }

  predicate InsideWorktree(world: World, worktrees: seq<Worktree>, answers: Answers, hints: seq<string>, j: nat)
    requires j < |worktrees|
  {
    DirectoryOf(world, worktrees, j).Fine? && Inside(answers, DirectoryOf(world, worktrees, j).value, hints)
  }

  /** Containment in every worktree whose directory is known could be decided. */
  ghost predicate Decided(world: World, worktrees: seq<Worktree>, answers: Answers, hints: seq<string>) {
    forall j :: 0 <= j < |worktrees| && DirectoryOf(world, worktrees, j).Fine? ==>
      !Uncertain(answers, DirectoryOf(world, worktrees, j).value, hints)
  }

  /** A record of the listing says nothing against worktree i: containment was decided everywhere, the process is not
      inside the worktree, and if it could not be inspected it is inside another one. */
  ghost predicate RecordHarmless(world: World, worktrees: seq<Worktree>, answers: Answers, info: Info, i: nat)
    requires i < |worktrees|
  {
    var hints := Hints(answers, info, EvidenceFor(world, answers, info));
    && Decided(world, worktrees, answers, hints)
    && !InsideWorktree(world, worktrees, answers, hints, i)
    && (!Sound(answers, info) ==>
          exists j :: 0 <= j < |worktrees| && j != i && InsideWorktree(world, worktrees, answers, hints, j))
  }

  /** Everything that has to be known before worktree i can be anything but protected. */
  ghost predicate EverythingKnown(world: World, worktrees: seq<Worktree>, i: nat) {
    && i < |worktrees| && world.source.Some? && !world.source.value.failed
    && (forall info <- world.source.value.infos :: !BadPid(world.source.value.infos, info.pid))
    && DirectoryOf(world, worktrees, i).Fine?
    && (forall k :: 0 <= k < |world.source.value.infos| ==>
          RecordHarmless(world, worktrees, world.records(k), world.source.value.infos[k], i))
  }

  // ---------------------------------------------------------------- where the records went

  lemma {:induction false} EverywhereHas(marks: seq<Mark>, k: nat) returns (i: nat)
    requires k < |marks| && marks[k].Global()
    ensures i < |Everywhere(marks)| && Everywhere(marks)[i] == marks[k]
  {
    if k == |marks| - 1 {
      i := |Everywhere(marks[..|marks| - 1])|;
    } else {
      i := EverywhereHas(marks[..|marks| - 1], k);
    }
  }

  lemma {:induction false} RoutedHas(marks: seq<Mark>, k: nat, key: string)
    requires k < |marks| && !marks[k].broken && key in marks[k].matched
    ensures marks[k].evidence in RoutedTo(marks, key)
  {
    var fewer, last := marks[..|marks| - 1], marks[|marks| - 1];
    if k == |marks| - 1 {
      var added := Added(last, key);
      assert Occurrences(last.matched, key) > 0;
      assert added[0] == last.evidence && RoutedTo(marks, key)[|RoutedTo(fewer, key)|] == added[0];
    } else {
      RoutedHas(fewer, k, key);
      Sequences.InLonger(RoutedTo(fewer, key), RoutedTo(marks, key), marks[k].evidence);
    }
  }

  // ---------------------------------------------------------------- what a decision shows

  /** Evidence that leaves a worktree unprotected holds no active and no unknown process. */
  lemma UnprotectedHasNone(worktree: Worktree, evidence: EvidenceSet, policy: Policy, e: ProcessEvidence)
    requires Evaluate.Decide(worktree, evidence, policy).classification != Protected && e in evidence.processes
    ensures e.state != Active && e.state != Unknown && e.error == ""
  {
    assert !Evaluate.HasActiveProcess(evidence) && !Evaluate.UnknownEvidence(evidence);
    assert !Evaluate.UnknownProcess(e);
  }

  lemma GroupHolds(worktree: Worktree, c: Collection, global: seq<ProcessEvidence>, agents: seq<AgentEvidence>,
                   e: ProcessEvidence)
    requires e in OfWorktree(c, worktree.path) || e in global
    ensures e in EvidenceOf(worktree, c, global, agents).processes
  {
  }

  /** The state of things at the end of the pipeline, for worktree i and evidence that shows at least the group's. */
  ghost predicate Unprotected(worktrees: seq<Worktree>, c: Collection, global: seq<ProcessEvidence>,
                              agents: seq<AgentEvidence>,
                              more: EvidenceSet, policy: Policy, i: nat) {
    && i < |worktrees| && c.globalUnknown <= global
    && Evaluate.Shows(EvidenceOf(worktrees[i], c, global, agents), more)
    && Evaluate.Decide(worktrees[i], more, policy).classification != Protected
  }

  lemma NothingAgainst(worktrees: seq<Worktree>, c: Collection, global: seq<ProcessEvidence>,
                       agents: seq<AgentEvidence>, more: EvidenceSet, policy: Policy, i: nat, e: ProcessEvidence)
    requires Unprotected(worktrees, c, global, agents, more, policy, i)
    requires e in OfWorktree(c, worktrees[i].path) || e in global
    ensures e.state != Active && e.state != Unknown && e.error == ""
  {
    GroupHolds(worktrees[i], c, global, agents, e);
    assert e in more.processes;
    UnprotectedHasNone(worktrees[i], more, policy, e);
  }

  /** The enumeration was complete. */
  lemma MustBeComplete(worktrees: seq<Worktree>, c: Collection, global: seq<ProcessEvidence>,
                       agents: seq<AgentEvidence>, more: EvidenceSet, policy: Policy, i: nat)
    requires Unprotected(worktrees, c, global, agents, more, policy, i)
    requires !c.complete ==> Enumeration(c.globalUnknown)
    ensures c.complete
  {
    forall e <- c.globalUnknown ensures e.state != Unknown {
      Sequences.InLonger(c.globalUnknown, global, e);
      NothingAgainst(worktrees, c, global, agents, more, policy, i, e);
    }
  }

  /** No record concerns every worktree. */
  lemma NoneGlobal(worktrees: seq<Worktree>, c: Collection, global: seq<ProcessEvidence>, agents: seq<AgentEvidence>,
                   more: EvidenceSet, policy: Policy, i: nat, marks: seq<Mark>, k: nat)
    requires Unprotected(worktrees, c, global, agents, more, policy, i)
    requires GlobalAccounted(c.globalUnknown, marks) && k < |marks|
    ensures !marks[k].Global()
  {
    if marks[k].Global() {
      var at := EverywhereHas(marks, k);
      assert GlobalAt(c.globalUnknown, marks, at);
      var e := c.globalUnknown[at];
      Sequences.InLonger(c.globalUnknown, global, e);
      NothingAgainst(worktrees, c, global, agents, more, policy, i, e);
    }
  }

  /** No record that was placed went to worktree i. */
  lemma NoneHere(world: World, worktrees: seq<Worktree>, c: Collection, global: seq<ProcessEvidence>,
                 agents: seq<AgentEvidence>, more: EvidenceSet, policy: Policy, i: nat, scene: Scene,
                 initial: map<string, seq<ProcessEvidence>>, k: nat)
    requires Unprotected(worktrees, c, global, agents, more, policy, i)
    requires k < |scene.infos| && WorktreeAccounted(initial, c, scene.Marks(|scene.infos|), worktrees[i].path)
    requires !scene.MarkOf(k).broken
    ensures worktrees[i].path !in scene.MarkOf(k).matched
  {
    var mark, path, marks := scene.MarkOf(k), worktrees[i].path, scene.Marks(|scene.infos|);
    if path in mark.matched {
      RoutedHas(marks, k, path);
      assert mark.evidence in OfWorktree(c, path);
      ActiveExactlyWhenSound(scene.world, scene.world.records(k), scene.Record(k));
      NothingAgainst(worktrees, c, global, agents, more, policy, i, mark.evidence);
    }
  }

  /** The worktree's own directory could be resolved. */
  lemma MustBeResolved(world: World, worktrees: seq<Worktree>, c: Collection, global: seq<ProcessEvidence>,
                       agents: seq<AgentEvidence>, more: EvidenceSet, policy: Policy, i: nat, roots: seq<Root>,
                       initial: map<string, seq<ProcessEvidence>>, marks: seq<Mark>)
    requires Unprotected(worktrees, c, global, agents, more, policy, i)
    requires Resolved(world, worktrees, roots, initial) && WorktreeAccounted(initial, c, marks, worktrees[i].path)
    ensures DirectoryOf(world, worktrees, i).Fine?
            && Root(worktrees[i].path, DirectoryOf(world, worktrees, i).value) in roots
  {
    var path := worktrees[i].path;
    assert ResolvedAt(world, worktrees, roots, initial, i);
    if initial[path] != [] {
      var e := initial[path][0];
      assert OfWorktree(c, path)[0] == e;
      NothingAgainst(worktrees, c, global, agents, more, policy, i, e);
    }
  }

  lemma KnownDecided(world: World, worktrees: seq<Worktree>, roots: seq<Root>,
                     initial: map<string, seq<ProcessEvidence>>, answers: Answers, hints: seq<string>)
    requires Resolved(world, worktrees, roots, initial) && !SomeUncertain(answers, roots, hints)
    ensures Decided(world, worktrees, answers, hints)
  {
    forall j | 0 <= j < |worktrees| && DirectoryOf(world, worktrees, j).Fine?
      ensures !Uncertain(answers, DirectoryOf(world, worktrees, j).value, hints)
    {
      assert ResolvedAt(world, worktrees, roots, initial, j);
      assert Root(worktrees[j].path, DirectoryOf(world, worktrees, j).value) in roots;
    }
  }

  /** A matched worktree other than this one is another worktree the process is inside of. */
  lemma MatchedElsewhere(world: World, worktrees: seq<Worktree>, roots: seq<Root>,
                         initial: map<string, seq<ProcessEvidence>>, answers: Answers, hints: seq<string>, i: nat)
    requires i < |worktrees| && Resolved(world, worktrees, roots, initial)
    requires Matched(answers, roots, hints) != [] && worktrees[i].path !in Matched(answers, roots, hints)
    ensures exists j :: 0 <= j < |worktrees| && j != i && InsideWorktree(world, worktrees, answers, hints, j)
  {
    var key := Matched(answers, roots, hints)[0];
    assert key in Matched(answers, roots, hints);
    MatchedMeans(answers, roots, hints, key);
    var root :| root in roots && root.key == key && Inside(answers, root.canonical, hints);
    var j :| 0 <= j < |worktrees| && RootOf(world, worktrees[j].path, root, j);
    assert InsideWorktree(world, worktrees, answers, hints, j);
  }

  lemma MustBeHarmless(world: World, worktrees: seq<Worktree>, c: Collection, global: seq<ProcessEvidence>,
                       agents: seq<AgentEvidence>, more: EvidenceSet, policy: Policy, i: nat, scene: Scene,
                       initial: map<string, seq<ProcessEvidence>>, k: nat)
    requires Unprotected(worktrees, c, global, agents, more, policy, i)
    requires scene.world == world && k < |scene.infos| && scene.invalid == map[]
    requires Resolved(world, worktrees, scene.roots, initial) && Accounted(initial, c, scene.Marks(|scene.infos|))
    ensures RecordHarmless(world, worktrees, world.records(k), scene.infos[k], i)
  {
    var marks, mark, answers := scene.Marks(|scene.infos|), scene.MarkOf(k), world.records(k);
    var hints, path := scene.HintsOf(k), worktrees[i].path;
    assert WorktreeAccounted(initial, c, marks, path);
    MustBeResolved(world, worktrees, c, global, agents, more, policy, i, scene.roots, initial, marks);
    NoneGlobal(worktrees, c, global, agents, more, policy, i, marks, k);
    KnownDecided(world, worktrees, scene.roots, initial, answers, hints);
    NoneHere(world, worktrees, c, global, agents, more, policy, i, scene, initial, k);
    MatchedMeans(answers, scene.roots, hints, path);
    ActiveExactlyWhenSound(world, answers, scene.infos[k]);
    if !Sound(answers, scene.infos[k]) {
      MatchedElsewhere(world, worktrees, scene.roots, initial, answers, hints, i);
    }
  }

  /** What `Collect` promises about its result. */
  ghost predicate Collected(world: World, worktrees: seq<Worktree>, c: Collection, scene: Scene,
                            initial: map<string, seq<ProcessEvidence>>,
                            n: nat, stopped: bool) {
    && Pictures(world, worktrees, scene, initial, n, stopped) && Accounted(initial, Records(c), scene.Marks(n))
    && (c.complete <==> !stopped && world.source.Some? && !world.source.value.failed
                        && forall info <- world.source.value.infos :: !BadPid(world.source.value.infos, info.pid))
    && (!c.complete ==> Enumeration(c.globalUnknown))
  }

  /** Unknown evidence never disappears: whatever is not protected had everything known about it. */
  lemma UnknownNeverDisappears(world: World, worktrees: seq<Worktree>, c: Collection, global: seq<ProcessEvidence>,
                               agents: seq<AgentEvidence>, more: EvidenceSet, policy: Policy, i: nat, scene: Scene,
                               initial: map<string, seq<ProcessEvidence>>, n: nat, stopped: bool)
    requires DistinctPaths(worktrees) && Unprotected(worktrees, c, global, agents, more, policy, i)
    requires Collected(world, worktrees, c, scene, initial, n, stopped)
    ensures EverythingKnown(world, worktrees, i)
  {
    MustBeComplete(worktrees, c, global, agents, more, policy, i);
    assert Records(c) == c;
    NoBadPids(scene.infos, scene.invalid);
    assert WorktreeAccounted(initial, c, scene.Marks(n), worktrees[i].path);
    MustBeResolved(world, worktrees, c, global, agents, more, policy, i, scene.roots, initial, scene.Marks(n));
    forall k | 0 <= k < |scene.infos|
      ensures RecordHarmless(world, worktrees, world.records(k), scene.infos[k], i)
    {
      MustBeHarmless(world, worktrees, c, global, agents, more, policy, i, scene, initial, k);
    }
  }

  /** The decision about worktree k, with whatever warnings were reported about it. */
  method ClassifyOne(worktrees: seq<Worktree>, k: nat, grouped: map<string, EvidenceSet>, warnings: seq<string>,
                     policy: Policy, ghost world: World, ghost c: Collection, ghost global: seq<ProcessEvidence>,
                     ghost agents: seq<AgentEvidence>, ghost scene: Scene,
                     ghost initial: map<string, seq<ProcessEvidence>>, ghost n: nat, ghost stopped: bool)
      returns (decision: Decision)
    requires k < |worktrees| && c.globalUnknown <= global
    requires Collected(world, worktrees, c, scene, initial, n, stopped)
    requires LastUnderPath(worktrees, k) ==> GroupedAt(worktrees, c, global, agents, grouped, k)
    ensures DistinctPaths(worktrees) && decision.classification != Protected ==>
              EverythingKnown(world, worktrees, k) && AgentsPlaced(worktrees[k], agents, policy)
  {
    var path := worktrees[k].path;
    var evidence := (if path in grouped then grouped[path] else EvidenceSet([], [], [], [])).(warnings := warnings);
    decision := Evaluate.Evaluate(worktrees[k], evidence, policy);
    if DistinctPaths(worktrees) && decision.classification != Protected {
      assert LastUnderPath(worktrees, k);
      assert Evaluate.Shows(EvidenceOf(worktrees[k], c, global, agents), evidence);
      UnknownNeverDisappears(world, worktrees, c, global, agents, evidence, policy, k, scene, initial, n, stopped);
      AllAgentsPlaced(worktrees[k], c, global, agents, evidence, policy);
    }
  }

  /** Of every applicable agent it is known whether it belongs here, and those that do are at rest. */
  ghost predicate AgentsPlaced(worktree: Worktree, agents: seq<AgentEvidence>, policy: Policy) {
    forall agent <- agents :: agent.state != NotApplicable ==> AgentPlaced(worktree, agent, policy)
  }

  lemma AllAgentsPlaced(worktree: Worktree, c: Collection, global: seq<ProcessEvidence>, agents: seq<AgentEvidence>,
                        more: EvidenceSet, policy: Policy)
    requires Evaluate.Shows(EvidenceOf(worktree, c, global, agents), more)
    requires Evaluate.Decide(worktree, more, policy).classification != Protected
    ensures AgentsPlaced(worktree, agents, policy)
  {
    forall agent | agent in agents && agent.state != NotApplicable ensures AgentPlaced(worktree, agent, policy) {
      EveryAgentIsPlaced(worktree, c, global, agents, agent, policy, more);
    }
  }

  /** Whatever worktree i was called, it is protected or everything was known about it. */
  ghost predicate Justified(world: World, worktrees: seq<Worktree>, agents: seq<AgentEvidence>, policy: Policy,
                            decisions: seq<Decision>, i: nat) {
    && i < |decisions| && i < |worktrees|
    && (DistinctPaths(worktrees) && decisions[i].classification != Protected ==>
          EverythingKnown(world, worktrees, i) && AgentsPlaced(worktrees[i], agents, policy))
  }

  /** Collect, group, and decide for every worktree. */
  method Classify(world: World, worktrees: seq<Worktree>, agents: seq<AgentEvidence>, warnings: string -> seq<string>,
                  policy: Policy)
      returns (decisions: seq<Decision>)
    ensures |decisions| == |worktrees|
    ensures forall i: nat {:trigger Justified(world, worktrees, agents, policy, decisions, i)} :: i < |worktrees| ==>
              Justified(world, worktrees, agents, policy, decisions, i)
  {
    var c;
    ghost var scene, initial, n, stopped, global, keys;
    c, scene, initial, n, stopped := Collect(world, worktrees);
    var grouped;
    grouped, global, keys := Group(worktrees, c, agents);
    decisions := [];
    for k := 0 to |worktrees|
      invariant |decisions| == k
      invariant forall i: nat {:trigger Justified(world, worktrees, agents, policy, decisions, i)} :: i < k ==>
                  Justified(world, worktrees, agents, policy, decisions, i)
    {
      ghost var before := decisions;
      assert GroupedAt(worktrees, c, global, agents, grouped, k) || !LastUnderPath(worktrees, k);
      var decision := ClassifyOne(worktrees, k, grouped, warnings(worktrees[k].path), policy,
                                  world, c, global, agents, scene, initial, n, stopped);
      decisions := decisions + [decision];
      forall i: nat | i < k + 1 ensures Justified(world, worktrees, agents, policy, decisions, i) {
        if i < k { assert Justified(world, worktrees, agents, policy, before, i); }
      }
    }
  }
}
