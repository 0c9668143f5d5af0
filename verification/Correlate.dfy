/** Putting the evidence together per worktree: its own processes, those that concern everyone, and its agents. */
module Correlate {
  import opened Domain
  import opened FileSystem
  import opened Paths
  import opened ProcessCollector
  import Evaluate
  import Sequences

  // ---------------------------------------------------------------- paths

  predicate IsAbs(path: string) { path != "" && path[0] == '/' }

  /** The components that `filepath.Clean` leaves of an absolute path. */
  function Cleaned(parts: seq<string>): seq<string> {
    if parts == [] then []
    else
      var earlier, last := Cleaned(parts[..|parts| - 1]), parts[|parts| - 1];
      if last == "" || last == "." then earlier
      else if last == ".." then (if earlier == [] then [] else earlier[..|earlier| - 1])
      else earlier + [last]
  }

  function CleanParts(path: string): seq<string> { Cleaned(Split(path, '/')) }

  /** `contains`: the cleaned parent is the cleaned child or an ancestor of it. */
  predicate ContainsPath(parent: string, child: string) {
    IsAbs(parent) && IsAbs(child) && CleanParts(parent) <= CleanParts(child)
  }

  predicate SamePath(left: string, right: string) {
    ContainsPath(left, right) && ContainsPath(right, left)
  }

  // ---------------------------------------------------------------- agents

  datatype Binding = Binding(matches: bool, uncertain: bool)

  /** `binding`, once the three paths have been compared. */
  function BindBy(agent: AgentEvidence, pathMatch: bool, cwdMatch: bool, rootMatch: bool): Binding {
    if pathMatch || cwdMatch then
      Binding(true, || (agent.worktreePath != "" && !pathMatch) || (agent.cwd != "" && !cwdMatch)
                    || (agent.repositoryRoot != "" && !rootMatch))
    else if agent.worktreePath != "" || agent.cwd != "" then
      (if (agent.worktreePath != "" && !IsAbs(agent.worktreePath)) || (agent.cwd != "" && !IsAbs(agent.cwd))
       then Binding(true, true) else Binding(false, false))
    else if agent.repositoryRoot != "" then Binding(rootMatch, true)
    else Binding(agent.state != NotApplicable, true)
  }

  /** `binding` */
  function Bind(worktree: Worktree, agent: AgentEvidence): Binding {
    BindBy(agent, SamePath(worktree.path, agent.worktreePath), ContainsPath(worktree.path, agent.cwd),
           SamePath(worktree.repositoryRoot, agent.repositoryRoot))
  }

  /** What one of an agent's paths says about a worktree: nothing when it is missing, nothing clear when it is not
      absolute, and otherwise that the agent is in this worktree or that it is away from it. */
  datatype Says = Silent | Unclear | Here | Away {
    predicate Agrees() { this == Silent || this == Here }

    predicate Departs() { this == Silent || this == Away }
  }

  ghost function SaysOf(path: string, inside: bool): Says {
    if path == "" then Silent else if !IsAbs(path) then Unclear else if inside then Here else Away
  }

  /** The path of the agent's worktree, which is this one or another one. */
  ghost function WorktreeSays(worktree: Worktree, agent: AgentEvidence): Says {
    SaysOf(agent.worktreePath, SamePath(worktree.path, agent.worktreePath))
  }

  /** The agent's working directory, which is in this worktree or not. */
  ghost function DirectorySays(worktree: Worktree, agent: AgentEvidence): Says {
    SaysOf(agent.cwd, ContainsPath(worktree.path, agent.cwd))
  }

  /** The root of the agent's repository, which is this worktree's or another one. */
  ghost function RepositorySays(worktree: Worktree, agent: AgentEvidence): Says {
    SaysOf(agent.repositoryRoot, SamePath(worktree.repositoryRoot, agent.repositoryRoot))
  }

  /** The agent says itself that it belongs elsewhere: neither its worktree nor its directory is here or unclear, and
      one of them is away. If it gives neither, its repository must not be this one, where an unclear one counts as
      another; if it gives nothing at all, it must not be applicable. */
  ghost predicate ElsewhereBy(state: EvidenceState, at: Says, below: Says, root: Says) {
    if at != Silent || below != Silent then at.Departs() && below.Departs()
    else if root != Silent then root != Here
    else state == NotApplicable
  }

  /** Everything the agent gives says that it belongs here, and its worktree or its directory is given. */
  ghost predicate HereBy(at: Says, below: Says, root: Says) {
    at.Agrees() && below.Agrees() && root.Agrees() && (at == Here || below == Here)
  }

  ghost predicate Elsewhere(worktree: Worktree, agent: AgentEvidence) {
    ElsewhereBy(agent.state, WorktreeSays(worktree, agent), DirectorySays(worktree, agent),
                RepositorySays(worktree, agent))
  }

  ghost predicate CertainlyHere(worktree: Worktree, agent: AgentEvidence) {
    HereBy(WorktreeSays(worktree, agent), DirectorySays(worktree, agent), RepositorySays(worktree, agent))
  }

  /** Only an absolute path can be found to match. */
  lemma PathsSort(agent: AgentEvidence, path: bool, cwd: bool, root: bool)
    requires (path ==> IsAbs(agent.worktreePath)) && (cwd ==> IsAbs(agent.cwd))
             && (root ==> IsAbs(agent.repositoryRoot))
    ensures var at, below, above := SaysOf(agent.worktreePath, path), SaysOf(agent.cwd, cwd),
                                    SaysOf(agent.repositoryRoot, root);
            && (!BindBy(agent, path, cwd, root).matches <==> ElsewhereBy(agent.state, at, below, above))
            && (BindBy(agent, path, cwd, root) == Binding(true, false) <==> HereBy(at, below, above))
  {
  }

  /** The binding sorts agents into these two kinds, and the uncertain rest. */
  lemma BindingSorts(worktree: Worktree, agent: AgentEvidence)
    ensures !Bind(worktree, agent).matches <==> Elsewhere(worktree, agent)
    ensures Bind(worktree, agent) == Binding(true, false) <==> CertainlyHere(worktree, agent)
  {
    PathsSort(agent, SamePath(worktree.path, agent.worktreePath), ContainsPath(worktree.path, agent.cwd),
              SamePath(worktree.repositoryRoot, agent.repositoryRoot));
  }

  lemma PrefixesNest<T>(x: seq<T>, y: seq<T>, whole: seq<T>)
    requires x <= whole && y <= whole
    ensures x <= y || y <= x
  {
    if |x| <= |y| { assert x == whole[..|x|] == y[..|x|]; } else { assert y == whole[..|y|] == x[..|y|]; }
  }

  /** Two worktrees that both have an agent for certain are nested, or one and the same. */
  lemma CertainPlacesNest(v: Worktree, w: Worktree, agent: AgentEvidence)
    requires CertainlyHere(v, agent) && CertainlyHere(w, agent)
    ensures ContainsPath(v.path, w.path) || ContainsPath(w.path, v.path)
    ensures agent.worktreePath != "" ==> SamePath(v.path, w.path)
  {
    if agent.worktreePath == "" {
      var x, y := CleanParts(v.path), CleanParts(w.path);
      PrefixesNest(x, y, CleanParts(agent.cwd));
    }
  }

  /** What becomes of an agent that matches a worktree. */
  function Bound(worktree: Worktree, agent: AgentEvidence): AgentEvidence {
    if Bind(worktree, agent).uncertain && agent.state != NotApplicable
    then agent.(state := Unknown, warnings := agent.warnings + ["agent worktree binding is missing or conflicting"])
    else agent
  }

  function BoundAgents(worktree: Worktree, agents: seq<AgentEvidence>): seq<AgentEvidence> {
    if agents == [] then []
    else
      var last := agents[|agents| - 1];
      BoundAgents(worktree, agents[..|agents| - 1])
          + (if Bind(worktree, last).matches then [Bound(worktree, last)] else [])
  }

  function UnknownRecord(e: ProcessEvidence): ProcessEvidence { e.(state := Unknown) }

  /** The uninspectable processes that an agent refers to. */
  function Referred(c: Collection, references: seq<ProcessReference>): seq<ProcessEvidence> {
    if references == [] then []
    else
      var pid := references[|references| - 1].pid;
      Referred(c, references[..|references| - 1])
          + (if pid in c.uninspectable then [UnknownRecord(c.uninspectable[pid])] else [])
  }

  function ReferredByAgents(worktree: Worktree, c: Collection, agents: seq<AgentEvidence>): seq<ProcessEvidence> {
    if agents == [] then []
    else
      var last := agents[|agents| - 1];
      ReferredByAgents(worktree, c, agents[..|agents| - 1])
          + (if Bind(worktree, last).matches then Referred(c, last.processRefs) else [])
  }

  // ---------------------------------------------------------------- what concerns every worktree

  predicate Represented(c: Collection, pid: int) {
    || (exists e <- c.globalUnknown :: e.pid == pid)
    || (exists path <- c.byWorktree :: exists e <- c.byWorktree[path] :: e.pid == pid)
  }

  /** The uninspectable processes that are on no list, by number. */
  ghost predicate Unlisted(c: Collection, base: seq<ProcessEvidence>, keys: seq<int>) {
    && (forall i, j :: 0 <= i < j < |keys| ==> keys[i] < keys[j])
    && (forall i :: 0 <= i < |keys| ==> keys[i] in c.uninspectable)
    && (forall pid :: pid in keys <==> pid in c.uninspectable && !Represented(c.(globalUnknown := base), pid))
  }

  function RecordsOf(c: Collection, keys: seq<int>): (r: seq<ProcessEvidence>)
    requires forall i :: 0 <= i < |keys| ==> keys[i] in c.uninspectable
    ensures |r| == |keys| && forall i :: 0 <= i < |r| ==> r[i] == UnknownRecord(c.uninspectable[keys[i]])
  {
    seq(|keys|, i requires 0 <= i < |keys| => UnknownRecord(c.uninspectable[keys[i]]))
  }

  const INCOMPLETE := ProcessEvidence(0, NO_TIME, "", "", Unknown, "process enumeration is incomplete", "")

  predicate EnumerationFailure(e: ProcessEvidence) {
    e.pid == 0 && e.state == Unknown && e.error != ""
  }

  /** The global unknowns, with one for an incomplete enumeration that left no record of its own. */
  function Base(c: Collection): (base: seq<ProcessEvidence>)
    ensures c.globalUnknown <= base
    ensures !c.complete ==> exists e <- base :: EnumerationFailure(e)
  {
    if !c.complete && !(exists e <- c.globalUnknown :: EnumerationFailure(e)) then
      assert (c.globalUnknown + [INCOMPLETE])[|c.globalUnknown|] == INCOMPLETE && EnumerationFailure(INCOMPLETE);
      c.globalUnknown + [INCOMPLETE]
    else c.globalUnknown
  }

  function InsertInt(x: int, xs: seq<int>): (r: seq<int>)
    requires forall i, j :: 0 <= i < j < |xs| ==> xs[i] < xs[j]
    requires x !in xs
    ensures forall i, j :: 0 <= i < j < |r| ==> r[i] < r[j]
    ensures forall y :: y in r <==> y in xs || y == x
  {
    if xs == [] then [x]
    else if x < xs[0] then [x] + xs
    else
      assert xs[0] in xs;
      var rest := InsertInt(x, xs[1..]);
      assert forall y :: y in rest ==> y in xs[1..] || y == x;
      assert forall i :: 0 <= i < |rest| ==> rest[i] in rest;
      [xs[0]] + rest
  }

  /** The numbers in ascending order. */
  method Ascending(pids: set<int>) returns (keys: seq<int>)
    ensures forall i, j :: 0 <= i < j < |keys| ==> keys[i] < keys[j]
    ensures forall pid :: pid in keys <==> pid in pids
  {
    keys := [];
    var rest := pids;
    while rest != {}
      invariant rest <= pids
      invariant forall i, j :: 0 <= i < j < |keys| ==> keys[i] < keys[j]
      invariant forall pid :: pid in keys <==> pid in pids - rest
      decreases |rest|
    {
      ghost var some := Sequences.Element(rest);
      var pid :| pid in rest;
      keys := InsertInt(pid, keys);
      rest := rest - {pid};
    }
  }

  ghost predicate Represents(represented: set<int>, c: Collection, base: seq<ProcessEvidence>) {
    forall pid :: pid in represented <==> Represented(c.(globalUnknown := base), pid)
  }

  /** The numbers of the processes that are on some list. */
  method RepresentedPids(c: Collection, base: seq<ProcessEvidence>) returns (represented: set<int>)
    ensures Represents(represented, c, base)
  {
    var listed := set e <- base :: e.pid;
    var placed := set path <- c.byWorktree, e <- c.byWorktree[path] :: e.pid;
    represented := listed + placed;
  }

  /** What every worktree's evidence has: the global unknowns, and the uninspectable processes that are on no list. */
  ghost predicate IsGlobal(c: Collection, global: seq<ProcessEvidence>) {
    exists keys: seq<int> :: Unlisted(c, Base(c), keys) && global == Base(c) + RecordsOf(c, keys)
  }

  lemma RecordsOneMore(c: Collection, base: seq<ProcessEvidence>, keys: seq<int>, pid: int)
    requires pid in c.uninspectable && forall i :: 0 <= i < |keys| ==> keys[i] in c.uninspectable
    ensures base + RecordsOf(c, keys) + [UnknownRecord(c.uninspectable[pid])] == base + RecordsOf(c, keys + [pid])
  {
  }

  /** Of the first k numbers, those that are not represented, in their order. */
  ghost predicate Sifted(c: Collection, pids: seq<int>, represented: set<int>, keys: seq<int>, k: nat) {
    && k <= |pids|
    && (forall i, j :: 0 <= i < j < |pids| ==> pids[i] < pids[j])
    && (forall i :: 0 <= i < |pids| ==> pids[i] in c.uninspectable)
    && (forall i :: 0 <= i < |keys| ==> keys[i] in c.uninspectable)
    && (forall i, j :: 0 <= i < j < |keys| ==> keys[i] < keys[j])
    && (forall pid :: pid in keys <==> pid in pids[..k] && pid !in represented)
  }

  lemma OneMoreSifted(c: Collection, pids: seq<int>, represented: set<int>, keys: seq<int>, k: nat)
    requires Sifted(c, pids, represented, keys, k) && k < |pids|
    ensures Sifted(c, pids, represented, if pids[k] in represented then keys else keys + [pids[k]], k + 1)
  {
    Sequences.TakeNext(pids, k);
    forall i | 0 <= i < |keys| ensures keys[i] < pids[k] {
      assert keys[i] in keys;
      var j :| 0 <= j < k && pids[..k][j] == keys[i];
      assert pids[j] < pids[k];
    }
  }

  /** The global records with the uninspectable processes that are on no list. */
  method GlobalRecords(c: Collection) returns (global: seq<ProcessEvidence>, ghost keys: seq<int>)
    ensures IsGlobal(c, global)
    ensures Unlisted(c, Base(c), keys) && global == Base(c) + RecordsOf(c, keys)
  {
    global := c.globalUnknown;
    var failed := exists e <- global :: EnumerationFailure(e);
    if !c.complete && !failed { global := global + [INCOMPLETE]; }
    ghost var base := global;
    var represented := RepresentedPids(c, global);
    var pids := Ascending(c.uninspectable.Keys);
    keys := [];
    for k := 0 to |pids|
      invariant Sifted(c, pids, represented, keys, k)
      invariant global == base + RecordsOf(c, keys)
    {
      OneMoreSifted(c, pids, represented, keys, k);
      if pids[k] !in represented {
        RecordsOneMore(c, base, keys, pids[k]);
        global := global + [UnknownRecord(c.uninspectable[pids[k]])];
        keys := keys + [pids[k]];
      }
    }
    Sequences.TakeAll(pids);
  }

  /** The evidence of one worktree. */
  function EvidenceOf(worktree: Worktree, c: Collection, global: seq<ProcessEvidence>,
                      agents: seq<AgentEvidence>): EvidenceSet {
    EvidenceSet(OfWorktree(c, worktree.path) + global + ReferredByAgents(worktree, c, agents),
                BoundAgents(worktree, agents), [], [])
  }

  /** The loop over an agent's process references. */
  method AddReferred(c: Collection, references: seq<ProcessReference>, processes: seq<ProcessEvidence>)
      returns (r: seq<ProcessEvidence>)
    ensures r == processes + Referred(c, references)
  {
    r := processes;
    for k := 0 to |references|
      invariant r == processes + Referred(c, references[..k])
    {
      Sequences.TakeNext(references, k);
      Sequences.Snoc(references[..k], references[k]);
      var pid := references[k].pid;
      if pid in c.uninspectable { r := r + [UnknownRecord(c.uninspectable[pid])]; }
    }
    Sequences.TakeAll(references);
  }

  /** The loop over the agents for one worktree. */
  method Assemble(worktree: Worktree, c: Collection, global: seq<ProcessEvidence>, agents: seq<AgentEvidence>)
      returns (evidence: EvidenceSet)
    ensures evidence == EvidenceOf(worktree, c, global, agents)
  {
    var processes, bound := OfWorktree(c, worktree.path) + global, [];
    ghost var start := processes;
    for k := 0 to |agents|
      invariant processes == start + ReferredByAgents(worktree, c, agents[..k])
      invariant bound == BoundAgents(worktree, agents[..k])
    {
      Sequences.TakeNext(agents, k);
      Sequences.Snoc(agents[..k], agents[k]);
      var agent := agents[k];
      var binding := Bind(worktree, agent);
      if binding.matches {
        if binding.uncertain && agent.state != NotApplicable {
          agent := agent.(state := Unknown,
                          warnings := agent.warnings + ["agent worktree binding is missing or conflicting"]);
        }
        bound := bound + [agent];
        ghost var before := processes;
        processes := AddReferred(c, agent.processRefs, processes);
        Sequences.Associate(start, ReferredByAgents(worktree, c, agents[..k]), Referred(c, agent.processRefs));
      }
    }
    Sequences.TakeAll(agents);
    evidence := EvidenceSet(processes, bound, [], []);
  }

  /** Worktree i is the last one under its path. */
  ghost predicate LastUnderPath(worktrees: seq<Worktree>, i: nat) {
    i < |worktrees| && forall j :: i < j < |worktrees| ==> worktrees[j].path != worktrees[i].path
  }

  ghost predicate GroupedAt(worktrees: seq<Worktree>, c: Collection, global: seq<ProcessEvidence>,
                            agents: seq<AgentEvidence>,
                            grouped: map<string, EvidenceSet>, i: nat) {
    i < |worktrees| && worktrees[i].path in grouped
    && grouped[worktrees[i].path] == EvidenceOf(worktrees[i], c, global, agents)
  }

  ghost predicate EvidenceGrouped(worktrees: seq<Worktree>, c: Collection, agents: seq<AgentEvidence>,
                                  grouped: map<string, EvidenceSet>, i: nat) {
    exists global: seq<ProcessEvidence> :: IsGlobal(c, global) && GroupedAt(worktrees, c, global, agents, grouped, i)
  }

  /** `Group` */
  method Group(worktrees: seq<Worktree>, c: Collection, agents: seq<AgentEvidence>)
      returns (grouped: map<string, EvidenceSet>, ghost global: seq<ProcessEvidence>, ghost keys: seq<int>)
    ensures Unlisted(c, Base(c), keys) && global == Base(c) + RecordsOf(c, keys)
    ensures forall i: nat {:trigger GroupedAt(worktrees, c, global, agents, grouped, i)} ::
              LastUnderPath(worktrees, i) ==> GroupedAt(worktrees, c, global, agents, grouped, i)
    ensures forall i: nat {:trigger EvidenceGrouped(worktrees, c, agents, grouped, i)} ::
              LastUnderPath(worktrees, i) ==> EvidenceGrouped(worktrees, c, agents, grouped, i)
    ensures forall path :: path in grouped <==> exists w <- worktrees :: w.path == path
  {
    var all;
    all, keys := GlobalRecords(c);
    global, grouped := all, map[];
    for k := 0 to |worktrees|
      invariant forall i: nat {:trigger GroupedAt(worktrees, c, global, agents, grouped, i)} ::
                  i < k && (forall j :: i < j < k ==> worktrees[j].path != worktrees[i].path) ==>
                      GroupedAt(worktrees, c, global, agents, grouped, i)
      invariant forall path :: path in grouped <==> exists j :: 0 <= j < k && worktrees[j].path == path
    {
      ghost var before := grouped;
      var evidence := Assemble(worktrees[k], c, all, agents);
      grouped := grouped[worktrees[k].path := evidence];
      forall i: nat | i < k + 1 && (forall j :: i < j < k + 1 ==> worktrees[j].path != worktrees[i].path)
        ensures GroupedAt(worktrees, c, global, agents, grouped, i)
      {
        if i < k { assert GroupedAt(worktrees, c, global, agents, before, i); }
      }
    }
    forall i: nat | LastUnderPath(worktrees, i) ensures EvidenceGrouped(worktrees, c, agents, grouped, i) {
      assert GroupedAt(worktrees, c, global, agents, grouped, i);
    }
  }

  // ---------------------------------------------------------------- nothing unknown is lost

  lemma {:induction false} BoundKeeps(worktree: Worktree, agents: seq<AgentEvidence>, agent: AgentEvidence)
    requires agent in agents && Bind(worktree, agent).matches
    ensures Bound(worktree, agent) in BoundAgents(worktree, agents)
  {
    var fewer, last := agents[..|agents| - 1], agents[|agents| - 1];
    Sequences.LastOf(agents);
    Sequences.InMore(fewer, last, agent);
    if agent == last {
      Sequences.InMore(BoundAgents(worktree, fewer), Bound(worktree, last), Bound(worktree, last));
    } else {
      BoundKeeps(worktree, fewer, agent);
      if Bind(worktree, last).matches {
        Sequences.InMore(BoundAgents(worktree, fewer), Bound(worktree, last), Bound(worktree, agent));
      }
    }
  }

  /** An applicable agent that cannot be told to belong elsewhere, or not for sure to belong here, protects the
      worktree. */
  lemma UncertainAgentProtects(worktree: Worktree, c: Collection, global: seq<ProcessEvidence>,
                               agents: seq<AgentEvidence>, agent: AgentEvidence, policy: Policy, more: EvidenceSet)
    requires agent in agents && agent.state != NotApplicable
    requires Bind(worktree, agent) == Binding(true, true)
    requires Evaluate.Shows(EvidenceOf(worktree, c, global, agents), more)
    ensures Evaluate.Decide(worktree, more, policy).classification == Protected
  {
    BoundKeeps(worktree, agents, agent);
    assert Bound(worktree, agent) in more.agents;
    assert Evaluate.UnknownAgent(Bound(worktree, agent));
  }

  /** An applicable agent that matches two worktrees, of which neither contains the other, protects one of them. */
  lemma TwoPlacesProtect(v: Worktree, w: Worktree, c: Collection, global: seq<ProcessEvidence>,
                         agents: seq<AgentEvidence>, agent: AgentEvidence, policy: Policy, inV: EvidenceSet,
                         inW: EvidenceSet)
    requires agent in agents && agent.state != NotApplicable
    requires Bind(v, agent).matches && Bind(w, agent).matches
    requires !ContainsPath(v.path, w.path) && !ContainsPath(w.path, v.path)
    requires Evaluate.Shows(EvidenceOf(v, c, global, agents), inV)
    requires Evaluate.Shows(EvidenceOf(w, c, global, agents), inW)
    ensures Evaluate.Decide(v, inV, policy).classification == Protected
            || Evaluate.Decide(w, inW, policy).classification == Protected
  {
    BindingSorts(v, agent);
    BindingSorts(w, agent);
    if !Bind(v, agent).uncertain && !Bind(w, agent).uncertain {
      CertainPlacesNest(v, w, agent);
    } else if Bind(v, agent).uncertain {
      UncertainAgentProtects(v, c, global, agents, agent, policy, inV);
    } else {
      UncertainAgentProtects(w, c, global, agents, agent, policy, inW);
    }
  }

  /** Nothing unknown is lost between agents and decision: whatever is not protected, every applicable agent there is
      says for certain that it belongs elsewhere, or for certain that it belongs here, and then it is known to be at
      rest. */
  ghost predicate AgentPlaced(worktree: Worktree, agent: AgentEvidence, policy: Policy) {
    || Elsewhere(worktree, agent)
    || (&& CertainlyHere(worktree, agent) && !Evaluate.UnknownAgent(agent)
        && !Evaluate.ActiveOrRecent(agent, policy.now, policy.settings.inactivityThreshold))
  }

  /** An agent among the evidence that leaves a worktree unprotected is known to be at rest. */
  lemma AtRest(worktree: Worktree, evidence: EvidenceSet, policy: Policy, agent: AgentEvidence)
    requires agent in evidence.agents && Evaluate.Decide(worktree, evidence, policy).classification != Protected
    ensures !Evaluate.UnknownAgent(agent)
            && !Evaluate.ActiveOrRecent(agent, policy.now, policy.settings.inactivityThreshold)
  {
    assert !Evaluate.UnknownEvidence(evidence)
           && !Evaluate.HasActiveAgent(evidence, policy.now, policy.settings.inactivityThreshold);
  }

  lemma EveryAgentIsPlaced(worktree: Worktree, c: Collection, global: seq<ProcessEvidence>, agents: seq<AgentEvidence>,
                           agent: AgentEvidence, policy: Policy, more: EvidenceSet)
    requires agent in agents && agent.state != NotApplicable
    requires Evaluate.Shows(EvidenceOf(worktree, c, global, agents), more)
    requires Evaluate.Decide(worktree, more, policy).classification != Protected
    ensures AgentPlaced(worktree, agent, policy)
  {
    BindingSorts(worktree, agent);
    if Bind(worktree, agent).matches {
      if Bind(worktree, agent).uncertain { UncertainAgentProtects(worktree, c, global, agents, agent, policy, more); }
      BoundKeeps(worktree, agents, agent);
      AtRest(worktree, more, policy, Bound(worktree, agent));
    }
  }
}
