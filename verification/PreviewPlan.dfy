/** What a preview plan has to be like, and the validator that decides it. */
module PreviewPlan {
  import opened Domain
  import opened FileSystem
  import opened Preview
  import Fingerprint
  import Sequences
  import Sorting
  import Text

  /** What the plan code takes from outside: path keys, encodings, and identities of worktrees. */
  datatype Tools = Tools(key: char -> char, encoders: Fingerprint.Encoders,
                         identity: (string, string, string, string) -> string) {
    /** `buildCandidateID` */
    function CandidateId(w: Worktree): string {
      "candidate_" + identity(w.path, w.repositoryRoot, w.commonGitDir, w.adminDir)
    }
  }

  function WorktreesOf(candidates: seq<Candidate>): (worktrees: seq<Worktree>)
    ensures |worktrees| == |candidates| && forall i :: 0 <= i < |worktrees| ==> worktrees[i] == candidates[i].worktree
  {
    seq(|candidates|, i requires 0 <= i < |candidates| => candidates[i].worktree)
  }

  function Tallied(s: PlanSummary, classification: Classification): PlanSummary {
    match classification
    case Safe => s.(safe := s.safe + 1)
    case Review => s.(review := s.review + 1)
    case Protected => s.(protected := s.protected + 1)
    case OtherClass(_) => s
  }

  predicate KnownClass(classification: Classification) { !classification.OtherClass? }

  /** How many candidates there are of each known class. */
  function SummaryOf(candidates: seq<Candidate>): (summary: PlanSummary)
    ensures (forall c <- candidates :: KnownClass(c.decision.classification)) ==>
              summary.safe + summary.review + summary.protected == |candidates|
    ensures summary.reclaimableBytes == 0
  {
    if candidates == [] then PlanSummary(0, 0, 0, 0)
    else Tallied(SummaryOf(candidates[..|candidates| - 1]), candidates[|candidates| - 1].decision.classification)
  }

  /** A candidate whose identity, selection and fingerprint are what its own contents and the selection make them. */
  ghost predicate CandidateFits(tools: Tools, selected: seq<string>, skipDirty: bool, c: Candidate) {
    && c.id == tools.CandidateId(c.worktree)
    && c.selection == Some(PreviewSelection(c.worktree, c.worktree.path in selected, skipDirty))
    && c.action == "none" && c.snapshot == NO_SNAPSHOT
    && Fingerprint.FingerprintOf(tools.encoders, c) == Some(c.fingerprint)
    && KnownClass(c.decision.classification)
  }

  ghost predicate CandidatesFit(tools: Tools, selected: seq<string>, skipDirty: bool, candidates: seq<Candidate>) {
    forall c {:trigger CandidateFits(tools, selected, skipDirty, c)} ::
      c in candidates ==> CandidateFits(tools, selected, skipDirty, c)
  }

  lemma FitOneMore(tools: Tools, selected: seq<string>, skipDirty: bool, candidates: seq<Candidate>, c: Candidate)
    requires CandidatesFit(tools, selected, skipDirty, candidates)
    ensures CandidatesFit(tools, selected, skipDirty, candidates + [c]) <==>
              CandidateFits(tools, selected, skipDirty, c)
  {
    Sequences.InMore(candidates, c, c);
    forall x | x in candidates + [c] ensures x in candidates || x == c { Sequences.InMore(candidates, c, x); }
  }

  /** The selection record fits the candidates: every selected path is the registered path of one that may be
      selected. */
  ghost predicate SelectionRecorded(key: char -> char, worktrees: seq<Worktree>, paths: seq<string>) {
    && (forall i :: 0 <= i < |paths| ==> Selected(key, worktrees, paths[i]))
    && Sorting.Sort(RegisteredPaths(key, worktrees, paths), Itself) == paths
  }

  ghost predicate RemovalFits(removal: RemovalPlan) {
    && removal.contentDisposition == DISCARD_ALL && removal.backupMode == BACKUP_NONE
    && removal.execution == PREVIEW_ONLY
    && removal.intent == (if removal.selectedPaths == [] then INTENT_INVENTORY else INTENT_EXPLICIT)
    && Sorting.Sorted(removal.selectedPaths, Itself)
  }

  ghost predicate ModeKnown(mode: ApplyMode) { mode == Interactive || mode == Scheduled }

  /** The part of a valid plan that is not about its candidates one by one. */
  ghost predicate FrameFits(tools: Tools, plan: Plan, removal: RemovalPlan) {
    && RemovalFits(removal) && !plan.generatedAt.IsZero() && ModeKnown(plan.intendedApplyMode)
    && RequestFits(tools.key, plan.intendedApplyMode, removal.selectedPaths, removal.skipDirty)
    && Identified(tools.key, WorktreesOf(plan.candidates))
    && SelectionRecorded(tools.key, WorktreesOf(plan.candidates), removal.selectedPaths)
  }

  /** What `validatePreviewPlan` asks of a plan. */
  ghost predicate ValidPreview(tools: Tools, plan: Plan) {
    && plan.removal.Some? && FrameFits(tools, plan, plan.removal.value)
    && CandidatesFit(tools, plan.removal.value.selectedPaths, plan.removal.value.skipDirty, plan.candidates)
    && plan.summary == SummaryOf(plan.candidates)
  }

  // ---------------------------------------------------------------- the validator

  /** `slices.IsSorted` */
  method IsSorted(xs: seq<string>) returns (sorted: bool)
    ensures sorted <==> Sorting.Sorted(xs, Itself)
  {
    var k := 1;
    while k < |xs|
      invariant 1 <= k
      invariant forall i, j :: 0 <= i < j < k && j < |xs| ==> Text.AtMost(Itself(xs[i]), Itself(xs[j]))
    {
      if Text.Less(xs[k], xs[k - 1]) {
        Text.LessAsymmetric(xs[k], xs[k - 1]);
        assert !Text.AtMost(Itself(xs[k - 1]), Itself(xs[k]));
        return false;
      }
      Text.LessTotal(xs[k - 1], xs[k]);
      forall i | 0 <= i < k ensures Text.AtMost(Itself(xs[i]), Itself(xs[k])) {
        Text.AtMostTransitive(xs[i], xs[k - 1], xs[k]);
      }
      k := k + 1;
    }
    sorted := true;
  }

  /** The checks on the removal record. */
  method CheckRemoval(removal: RemovalPlan) returns (ok: bool)
    ensures ok <==> RemovalFits(removal)
  {
    if removal.contentDisposition != DISCARD_ALL || removal.backupMode != BACKUP_NONE
        || removal.execution != PREVIEW_ONLY {
      return false;
    }
    var want := if |removal.selectedPaths| == 0 then INTENT_INVENTORY else INTENT_EXPLICIT;
    if removal.intent != want { return false; }
    ok := IsSorted(removal.selectedPaths);
  }

  /** The checks on every candidate, and the summary they add up to. */
  method CheckCandidates(tools: Tools, candidates: seq<Candidate>, selectedPaths: seq<string>, skipDirty: bool)
      returns (ok: bool, summary: PlanSummary)
    ensures ok <==> CandidatesFit(tools, selectedPaths, skipDirty, candidates)
    ensures ok ==> summary == SummaryOf(candidates)
  {
    summary := PlanSummary(0, 0, 0, 0);
    for k := 0 to |candidates|
      invariant CandidatesFit(tools, selectedPaths, skipDirty, candidates[..k])
      invariant summary == SummaryOf(candidates[..k])
    {
      Sequences.TakeNext(candidates, k);
      Sequences.Snoc(candidates[..k], candidates[k]);
      FitOneMore(tools, selectedPaths, skipDirty, candidates[..k], candidates[k]);
      ok := CheckCandidate(tools, candidates[k], selectedPaths, skipDirty);
      if !ok {
        assert candidates[k] in candidates;
        return;
      }
      summary := Tallied(summary, candidates[k].decision.classification);
    }
    Sequences.TakeAll(candidates);
    ok := true;
  }

  method CheckCandidate(tools: Tools, c: Candidate, selectedPaths: seq<string>, skipDirty: bool) returns (ok: bool)
    ensures ok <==> CandidateFits(tools, selectedPaths, skipDirty, c)
  {
    if c.id != tools.CandidateId(c.worktree) { return false; }
    if c.selection != Some(PreviewSelection(c.worktree, c.worktree.path in selectedPaths, skipDirty)) { return false; }
    if c.action != "none" || c.snapshot != NO_SNAPSHOT { return false; }
    var fingerprint := Fingerprint.CandidateFingerprint(tools.encoders, c);
    if fingerprint != Some(c.fingerprint) { return false; }
    ok := KnownClass(c.decision.classification);
  }

  /** The checks before those of the single candidates. */
  method CheckFrame(tools: Tools, plan: Plan, removal: RemovalPlan) returns (ok: bool)
    requires LawfulKey(tools.key)
    ensures ok <==> FrameFits(tools, plan, removal)
  {
    ok := CheckRemoval(removal);
    if !ok { return; }
    if plan.generatedAt.IsZero() { return false; }
    if plan.intendedApplyMode != Interactive && plan.intendedApplyMode != Scheduled { return false; }
    ok := ValidatePreviewRequest(tools.key, plan.intendedApplyMode, removal.selectedPaths, removal.skipDirty, false);
    if !ok { return; }
    var worktrees := WorktreesOf(plan.candidates);
    ok := ValidateBuildIdentities(tools.key, worktrees);
    if !ok { return; }
    var matched := MatchSelectedPaths(tools.key, removal.selectedPaths, worktrees);
    ok := matched == Some(removal.selectedPaths);
  }

  /** `validatePreviewPlan` */
  method ValidatePreviewPlan(tools: Tools, plan: Plan) returns (ok: bool)
    requires LawfulKey(tools.key)
    ensures ok <==> ValidPreview(tools, plan)
  {
    if plan.removal == None { return false; }
    var removal := plan.removal.value;
    ok := CheckFrame(tools, plan, removal);
    if !ok { return; }
    var summary;
    ok, summary := CheckCandidates(tools, plan.candidates, removal.selectedPaths, removal.skipDirty);
    if !ok { return; }
    ok := plan.summary == summary;
  }
}
