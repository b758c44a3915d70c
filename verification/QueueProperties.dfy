/** What every run of the merge queue keeps, and how its two versions agree. */
module QueueProperties {
  import opened Wrappers
  import opened Ordering
  import opened Jobs
  import opened PrChecks
  import opened MergeQueue
  import SplitPlan
  import PlanProperties

  // ---- Reading a trace ----

  /** The job's own row after one more action. */
  function RowStep(row: JobRow, a: Action): JobRow {
    match a
    case SetStatus(u) => Updated(row, u)
    case TagStack(stackId, size) => row.(stackId := Some(stackId), size := size)
    case _ => row
  }

  function RowAfter(row: JobRow, t: seq<Action>): JobRow {
    if t == [] then row else RowStep(RowAfter(row, t[..|t| - 1]), t[|t| - 1])
  }

  /** The action takes a row in status `s` forward, and stamps it exactly when it becomes terminal. */
  predicate LegalStep(s: Status, a: Action) {
    a.SetStatus? ==> Follows(s, a.update.status) && (a.update.finished <==> Terminal(a.update.status))
  }

  predicate Legal(row: JobRow, t: seq<Action>) {
    t == [] ||
    (Legal(row, t[..|t| - 1]) && LegalStep(RowAfter(row, t[..|t| - 1]).status, t[|t| - 1]))
  }

  /** What the world sees of a run: everything but the status writes. */
  function External(t: seq<Action>): seq<Action> {
    if t == [] then []
    else External(t[..|t| - 1]) + if t[|t| - 1].SetStatus? then [] else [t[|t| - 1]]
  }

  predicate TriesMerge(a: Action) {
    a.FfMerge? || a.EnableAutoMerge? || a.MergePr?
  }

  predicate Merging(a: Action) {
    TriesMerge(a) && a.ok
  }

  /** How many merge actions succeeded. */
  function Merges(t: seq<Action>): nat {
    if t == [] then 0 else Merges(t[..|t| - 1]) + if Merging(t[|t| - 1]) then 1 else 0
  }

  /** The rows of the pull requests opened for the slices of a stack, oldest first. */
  function Children(t: seq<Action>): seq<JobRow> {
    if t == [] then []
    else Children(t[..|t| - 1]) + if t[|t| - 1].AddChild? then [t[|t| - 1].row] else []
  }

  lemma Snoc(row: JobRow, t: seq<Action>, a: Action)
    ensures RowAfter(row, t + [a]) == RowStep(RowAfter(row, t), a)
    ensures Legal(row, t + [a]) <==> Legal(row, t) && LegalStep(RowAfter(row, t).status, a)
    ensures External(t + [a]) == External(t) + if a.SetStatus? then [] else [a]
    ensures Merges(t + [a]) == Merges(t) + if Merging(a) then 1 else 0
    ensures Children(t + [a]) == Children(t) + if a.AddChild? then [a.row] else []
  {
    assert (t + [a])[..|t|] == t;
  }

  /** All readings of `a + b` from those of the parts. */
  lemma {:induction false} Concatenation(row: JobRow, a: seq<Action>, b: seq<Action>)
    ensures RowAfter(row, a + b) == RowAfter(RowAfter(row, a), b)
    ensures Legal(row, a + b) <==> Legal(row, a) && Legal(RowAfter(row, a), b)
    ensures External(a + b) == External(a) + External(b)
    ensures Merges(a + b) == Merges(a) + Merges(b)
    ensures Children(a + b) == Children(a) + Children(b)
  {
    hide RowAfter, Legal, External, Merges, Children, RowStep, LegalStep, Merging;
    if b == [] {
      NothingYet(RowAfter(row, a));
      assert a + b == a;
    } else {
      var init, last := b[..|b| - 1], b[|b| - 1];
      Concatenation(row, a, init);
      Snoc(row, a + init, last);
      Snoc(RowAfter(row, a), init, last);
      assert a + b == (a + init) + [last] && b == init + [last];
    }
  }

  lemma Single(row: JobRow, a: Action)
    ensures RowAfter(row, [a]) == RowStep(row, a)
    ensures Legal(row, [a]) <==> LegalStep(row.status, a)
    ensures External([a]) == if a.SetStatus? then [] else [a]
    ensures Merges([a]) == if Merging(a) then 1 else 0
    ensures Children([a]) == if a.AddChild? then [a.row] else []
  {
    assert [a][..0] == [];
  }

  lemma Prepend(row: JobRow, a: Action, t: seq<Action>)
    ensures RowAfter(row, [a] + t) == RowAfter(RowStep(row, a), t)
    ensures Legal(row, [a] + t) <==> LegalStep(row.status, a) && Legal(RowStep(row, a), t)
    ensures External([a] + t) == (if a.SetStatus? then [] else [a]) + External(t)
    ensures Merges([a] + t) == (if Merging(a) then 1 else 0) + Merges(t)
    ensures Children([a] + t) == (if a.AddChild? then [a.row] else []) + Children(t)
  {
    Concatenation(row, [a], t);
    Single(row, a);
  }

  lemma ReadTwo(row: JobRow, a: Action, b: Action)
    ensures RowAfter(row, [a, b]) == RowStep(RowStep(row, a), b)
    ensures Legal(row, [a, b]) <==> LegalStep(row.status, a) && LegalStep(RowStep(row, a).status, b)
    ensures External([a, b]) == (if a.SetStatus? then [] else [a]) + (if b.SetStatus? then [] else [b])
    ensures Merges([a, b]) == (if Merging(a) then 1 else 0) + (if Merging(b) then 1 else 0)
  {
    assert [a, b] == [a] + [b];
    Prepend(row, a, [b]);
    Single(RowStep(row, a), b);
  }

  lemma ReadThree(row: JobRow, a: Action, b: Action, c: Action)
    ensures var r1 := RowStep(row, a); var r2 := RowStep(r1, b);
            && RowAfter(row, [a, b, c]) == RowStep(r2, c)
            && (Legal(row, [a, b, c]) <==>
                LegalStep(row.status, a) && LegalStep(r1.status, b) && LegalStep(r2.status, c))
    ensures External([a, b, c]) ==
            (if a.SetStatus? then [] else [a]) + (if b.SetStatus? then [] else [b]) + (if c.SetStatus? then [] else [c])
    ensures Merges([a, b, c]) ==
            (if Merging(a) then 1 else 0) + (if Merging(b) then 1 else 0) + (if Merging(c) then 1 else 0)
  {
    assert [a, b, c] == [a] + [b, c];
    Prepend(row, a, [b, c]);
    ReadTwo(RowStep(row, a), b, c);
  }

  /** A moving row is in flight and unstamped, a landed one is terminal and stamped. */
  predicate Stamped(row: JobRow) {
    row.finished <==> Terminal(row.status)
  }

  lemma {:induction false} LegalKeepsStamp(row: JobRow, t: seq<Action>)
    requires Legal(row, t) && Stamped(row)
    ensures Stamped(RowAfter(row, t))
    ensures Follows(row.status, RowAfter(row, t).status)
  {
    if t != [] { LegalKeepsStamp(row, t[..|t| - 1]); }
  }

  // ---- The phases ----

  /** The pull request was merged by somebody else while the queue waited. */
  predicate OutOfBand(w: World) {
    && w.bodyOk && w.create.Opened?
    && WaitResult(w.polls).Ready?
    && var s := WaitResult(w.polls).status;
       s.review != ChangesRequested && s.checks != Failure && Landed(s)
  }

  /** What a pull request phase leaves behind, by what it reports. */
  ghost predicate PhaseEnds(row: JobRow, p: PrPhase, outOfBand: bool) {
    var last := RowAfter(row, p.actions);
    && Legal(row, p.actions)
    && (p.crashed ==> p.actions == [])
    && (p.merged && !outOfBand ==> Merges(p.actions) == 1 && InFlight(last.status))
    && (p.merged && outOfBand ==> Merges(p.actions) == 0 && last.status == Status.Merged)
    && (!p.merged ==> Merges(p.actions) == 0)
    && (!p.merged && !p.crashed ==> last.status == Failed)
  }

  lemma PhaseAfter(row: JobRow, prefix: seq<Action>, p: PrPhase, outOfBand: bool)
    requires Legal(row, prefix) && Merges(prefix) == 0
    requires PhaseEnds(RowAfter(row, prefix), p, outOfBand) && !p.crashed
    ensures PhaseEnds(row, p.After(prefix), outOfBand)
  {
    Concatenation(row, prefix, p.actions);
  }

  lemma FailureEnds(row: JobRow, cost: real, k: Option<nat>)
    requires InFlight(row.status)
    ensures PhaseEnds(row, PrFailure(cost, k), false) && PhaseEnds(row, PrFailure(cost, k), true)
  {
    Single(row, Finish(Failed, Some(cost), k));
  }

  lemma MergePhaseEnds(row: JobRow, job: Job, w: World, cost: real, k: nat)
    requires row.status in {PrWaitingChecks, PrWaitingReview}
    ensures PhaseEnds(row, MergePhase(job, w, cost, k), false) && !MergePhase(job, w, cost, k).crashed
  {
    hide Legal, RowAfter, Merges, External, Children;
    var enabled := SetStatus(Update(PrAutoMergeEnabled, false, Some(cost), Some(k)));
    ReadThree(row, Move(MergingPr), EnableAutoMerge(k, true), enabled);
    ReadThree(row, Move(MergingPr), EnableAutoMerge(k, false), MergePr(k, w.mergeOk));
    ReadTwo(row, Move(MergingPr), MergePr(k, w.mergeOk));
    var tried := [Move(MergingPr)] + (if job.autoMerge then [EnableAutoMerge(k, false)] else []) +
                 [MergePr(k, w.mergeOk)];
    assert tried == if job.autoMerge then [Move(MergingPr), EnableAutoMerge(k, false), MergePr(k, w.mergeOk)]
                    else [Move(MergingPr), MergePr(k, w.mergeOk)];
    if !(job.autoMerge && w.autoMergeOk) && !w.mergeOk {
      FailureEnds(RowAfter(row, tried), cost, Some(k));
      PhaseAfter(row, tried, PrFailure(cost, Some(k)), false);
    }
  }

  lemma WatchPhaseEnds(row: JobRow, job: Job, w: World, cost: real, k: nat)
    requires row.status == PrWaitingChecks && w.bodyOk && w.create == Opened(k)
    ensures PhaseEnds(row, WatchPhase(job, w, cost, k), OutOfBand(w)) && !WatchPhase(job, w, cost, k).crashed
  {
    hide Legal, RowAfter, Merges, External, Children, MergePhase, WaitResult;
    FailureEnds(row, cost, Some(k));
    if WaitResult(w.polls).Ready? {
      var s := WaitResult(w.polls).status;
      var waited := if s.review == ReviewRequired then [Move(PrWaitingReview)] else [];
      Single(row, Move(PrWaitingReview));
      NothingYet(row);
      var row' := RowAfter(row, waited);
      FailureEnds(row', cost, Some(k));
      if s.review == ChangesRequested || s.checks == Failure {
        PhaseAfter(row, waited, PrFailure(cost, Some(k)), OutOfBand(w));
      } else if Landed(s) {
        Single(row', Finish(Status.Merged, Some(cost), Some(k)));
        Concatenation(row, waited, [Finish(Status.Merged, Some(cost), Some(k))]);
      } else {
        MergePhaseEnds(row', job, w, cost, k);
        PhaseAfter(row, waited, MergePhase(job, w, cost, k), false);
      }
    }
  }

  lemma NothingYet(row: JobRow)
    ensures RowAfter(row, []) == row && Legal(row, []) && Merges([]) == 0 && External([]) == [] && Children([]) == []
  {
  }

  lemma PrPhaseEnds(row: JobRow, job: Job, w: World, cfg: Settings, repo: Path, cost: real)
    requires row.status == Verifying
    ensures PhaseEnds(row, RunPrPhase(job, w, cfg, repo, cost), OutOfBand(w))
  {
    hide Legal, RowAfter, Merges, External, Children, WatchPhase, WaitResult, Target;
    NothingYet(row);
    if w.bodyOk {
      match w.create {
        case GhMissing => WithoutGhEnds(row, job, w, cfg, repo, cost);
        case CreateFailed => WithoutPrEnds(row, job, w, cfg, cost);
        case Opened(k) => WithPrEnds(row, job, w, cfg, cost, k);
      }
    }
  }

  lemma WithPrEnds(row: JobRow, job: Job, w: World, cfg: Settings, cost: real, k: nat)
    requires row.status == Verifying && w.bodyOk && w.create == Opened(k)
    ensures var a, b := Move(PrCreating), CreatePr(w.branch, Target(job, cfg), Some(k));
            var c, d := SetStatus(Update(PrOpen, false, None, Some(k))), Move(PrWaitingChecks);
            PhaseEnds(row, WatchPhase(job, w, cost, k).After([a, b, c, d]), OutOfBand(w))
  {
    hide Legal, RowAfter, Merges, External, Children, WatchPhase, WaitResult, Target, OutOfBand;
    var a, b := Move(PrCreating), CreatePr(w.branch, Target(job, cfg), Some(k));
    var c, d := SetStatus(Update(PrOpen, false, None, Some(k))), Move(PrWaitingChecks);
    assert [a, b, c, d] == [a, b] + [c, d];
    ReadTwo(row, a, b);
    ReadTwo(RowAfter(row, [a, b]), c, d);
    Concatenation(row, [a, b], [c, d]);
    WatchPhaseEnds(RowAfter(row, [a, b, c, d]), job, w, cost, k);
    PhaseAfter(row, [a, b, c, d], WatchPhase(job, w, cost, k), OutOfBand(w));
  }

  lemma WithoutPrEnds(row: JobRow, job: Job, w: World, cfg: Settings, cost: real)
    requires row.status == Verifying
    ensures var tried := [Move(PrCreating), CreatePr(w.branch, Target(job, cfg), None)];
            PhaseEnds(row, PrFailure(cost, None).After(tried), false)
  {
    hide Legal, RowAfter, Merges, External, Children, Target;
    var tried := [Move(PrCreating), CreatePr(w.branch, Target(job, cfg), None)];
    ReadTwo(row, tried[0], tried[1]);
    FailureEnds(RowAfter(row, tried), cost, None);
    PhaseAfter(row, tried, PrFailure(cost, None), false);
  }

  lemma WithoutGhEnds(row: JobRow, job: Job, w: World, cfg: Settings, repo: Path, cost: real)
    requires row.status == Verifying && w.bodyOk && w.create == GhMissing
    ensures PhaseEnds(row, RunPrPhase(job, w, cfg, repo, cost), false)
  {
    hide Legal, RowAfter, Merges, External, Children, Target;
    WithoutPrEnds(row, job, w, cfg, cost);
    var a, b := Move(PrCreating), CreatePr(w.branch, Target(job, cfg), None);
    var merge := FfMerge(repo, w.ffMergeOk);
    assert [a, b] + [merge] == [a, b, merge];
    ReadThree(row, a, b, merge);
    if !w.ffMergeOk {
      FailureEnds(RowAfter(row, [a, b, merge]), cost, None);
      PhaseAfter(row, [a, b, merge], PrFailure(cost, None), false);
    }
  }

  // ---- Stacks ----

  predicate AllOpen(w: World, i: nat, n: nat) {
    forall j :: i <= j < n ==> w.slices(j).SliceOpened?
  }

  lemma SliceEnds(row: JobRow, job: Job, w: World, cfg: Settings, repo: Path, cost: real,
                  plan: seq<SplitPlan.SplitSlice>, i: nat, previous: Option<nat>)
    requires row.status == PrCreating && i < |plan|
    ensures var s := RunSlice(job, w, cfg, repo, cost, plan, i, previous);
            && Legal(row, s.actions) && Merges(s.actions) == 0
            && s.pr == (if w.slices(i).SliceOpened? then Some(w.slices(i).number) else None)
            && (s.pr.Some? || s.ending == Crashed ==> RowAfter(row, s.actions) == row)
            && (s.pr.None? && s.ending != Crashed ==> RowAfter(row, s.actions).status == Failed)
            && s.ending != Expired
            && Children(s.actions) ==
               match s.pr case None => [] case Some(k) => [ChildRow(job, w, cfg, repo, |plan|, i, k, previous)]
  {
    hide Legal, RowAfter, Merges, External, Children, Children, SliceBase, SliceRepo, ChildRow;
    var t := RunSlice(job, w, cfg, repo, cost, plan, i, previous).actions;
    var branch, at, base := plan[i].branchName, SliceRepo(job, repo, i), SliceBase(job, cfg, i);
    var commit, push := CommitSlice(at, branch, plan[i].files, true), PushBranch(at, branch, true);
    var stop := Finish(Failed, Some(cost), None);
    match w.slices(i) {
      case CommitRaised => Quiet(row, t);
      case CommitFailed => StopsAfter(row, [CommitSlice(at, branch, plan[i].files, false)], stop);
        assert t == [CommitSlice(at, branch, plan[i].files, false)] + [stop];
      case PushFailed => StopsAfter(row, [commit, PushBranch(at, branch, false)], stop);
        assert t == [commit, PushBranch(at, branch, false)] + [stop];
      case SliceOpened(k) =>
        var quiet, add := [commit, push, CreatePr(branch, base, Some(k))], t[3];
        Quiet(row, quiet);
        Quiet(row, [add]);
        Single(row, add);
        Concatenation(row, quiet, [add]);
        assert t == quiet + [add];
      case _ =>
        StopsTwice(row, [commit, push, CreatePr(branch, base, None)], stop);
        assert t == [commit, push, CreatePr(branch, base, None)] + [stop, stop];
    }
  }

  /** Actions that touch neither the job's row nor the target branch. */
  lemma {:induction false} Quiet(row: JobRow, t: seq<Action>)
    requires forall a :: a in t ==> !a.SetStatus? && !a.TagStack? && !TriesMerge(a)
    ensures RowAfter(row, t) == row && Legal(row, t) && Merges(t) == 0
    ensures (forall a :: a in t ==> !a.AddChild?) ==> Children(t) == []
  {
    if t != [] {
      assert t[|t| - 1] in t;
      Quiet(row, t[..|t| - 1]);
    }
  }

  lemma StopsAfter(row: JobRow, t: seq<Action>, stop: Action)
    requires InFlight(row.status) && stop.SetStatus? && stop.update.status == Failed && stop.update.finished
    requires forall a :: a in t ==> !a.SetStatus? && !a.TagStack? && !TriesMerge(a) && !a.AddChild?
    ensures Legal(row, t + [stop]) && Merges(t + [stop]) == 0 && Children(t + [stop]) == []
    ensures RowAfter(row, t + [stop]).status == Failed
  {
    hide Legal, RowAfter, Merges, External, Children, Children;
    Quiet(row, t);
    Concatenation(row, t, [stop]);
    Single(row, stop);
  }

  lemma StopsTwice(row: JobRow, t: seq<Action>, stop: Action)
    requires InFlight(row.status) && stop.SetStatus? && stop.update.status == Failed && stop.update.finished
    requires forall a :: a in t ==> !a.SetStatus? && !a.TagStack? && !TriesMerge(a) && !a.AddChild?
    ensures Legal(row, t + [stop, stop]) && Merges(t + [stop, stop]) == 0 && Children(t + [stop, stop]) == []
    ensures RowAfter(row, t + [stop, stop]).status == Failed
  {
    hide Legal, RowAfter, Merges, External, Children, Children;
    StopsAfter(row, t, stop);
    assert t + [stop, stop] == (t + [stop]) + [stop];
    Concatenation(row, t + [stop], [stop]);
    Single(RowAfter(row, t + [stop]), stop);
  }

  /** The rest of a stack from slice `i`: its children, one per opened slice, and how it ends. */
  lemma {:induction false} SlicesEnd(row: JobRow, job: Job, w: World, cfg: Settings, repo: Path, cost: real,
                                     plan: seq<SplitPlan.SplitSlice>, i: nat, previous: Option<nat>)
    requires row.status == PrCreating && i <= |plan|
    ensures var s := RunSlices(job, w, cfg, repo, cost, plan, i, previous);
            && Legal(row, s.actions) && Merges(s.actions) == 0 && s.ending != Expired
            && (s.ending == Crashed ==> RowAfter(row, s.actions) == row && !AllOpen(w, i, |plan|))
            && (s.ending == Completed ==>
                  RowAfter(row, s.actions).status == if AllOpen(w, i, |plan|) then PrOpen else Failed)
    decreases |plan| - i
  {
    hide Legal, RowAfter, Merges, External, Children, RunSlice;
    if i == |plan| {
      Single(row, SetStatus(Update(PrOpen, false, Some(cost), None)));
    } else {
      SliceEnds(row, job, w, cfg, repo, cost, plan, i, previous);
      var step := RunSlice(job, w, cfg, repo, cost, plan, i, previous);
      if step.pr.Some? {
        SlicesEnd(row, job, w, cfg, repo, cost, plan, i + 1, step.pr);
        Concatenation(row, step.actions, RunSlices(job, w, cfg, repo, cost, plan, i + 1, step.pr).actions);
      }
    }
  }

  /** The rows of slices `i`, `i + 1`, ..., `i + n - 1`, chained by pull request number. */
  function ChildRows(job: Job, w: World, cfg: Settings, repo: Path, size: nat, i: nat, n: nat,
                     previous: Option<nat>): seq<JobRow>
    requires AllOpen(w, i, i + n)
    decreases n
  {
    if n == 0 then []
    else
      var k := w.slices(i).number;
      [ChildRow(job, w, cfg, repo, size, i, k, previous)] + ChildRows(job, w, cfg, repo, size, i + 1, n - 1, Some(k))
  }

  /** How many slices from `i` on are opened before the first that is not. */
  function OpenedFrom(w: World, i: nat, size: nat): (n: nat)
    requires i <= size
    ensures i + n <= size && AllOpen(w, i, i + n)
    ensures i + n < size ==> !w.slices(i + n).SliceOpened?
    decreases size - i
  {
    if i < size && w.slices(i).SliceOpened? then 1 + OpenedFrom(w, i + 1, size) else 0
  }

  lemma {:induction false} SlicesChildren(job: Job, w: World, cfg: Settings, repo: Path, cost: real,
                                          plan: seq<SplitPlan.SplitSlice>, i: nat, previous: Option<nat>, row: JobRow)
    requires row.status == PrCreating && i <= |plan|
    ensures Children(RunSlices(job, w, cfg, repo, cost, plan, i, previous).actions) ==
            ChildRows(job, w, cfg, repo, |plan|, i, OpenedFrom(w, i, |plan|), previous)
    decreases |plan| - i
  {
    hide Children, RunSlice, ChildRow, RowAfter, Legal, Merges, External, SegmentEnds, PhaseEnds;
    if i == |plan| {
      Single(row, SetStatus(Update(PrOpen, false, Some(cost), None)));
    } else {
      SliceEnds(row, job, w, cfg, repo, cost, plan, i, previous);
      var step := RunSlice(job, w, cfg, repo, cost, plan, i, previous);
      if step.pr.Some? {
        SlicesChildren(job, w, cfg, repo, cost, plan, i + 1, step.pr, row);
        Concatenation(row, step.actions, RunSlices(job, w, cfg, repo, cost, plan, i + 1, step.pr).actions);
      }
    }
  }

  // ---- Whole runs ----

  predicate Stacked(job: Job) {
    Splits(job) && job.prMode != Off
  }

  /** The stack phase finds changed files and a valid plan for them. */
  predicate Planned(job: Job, w: World, cfg: Settings) {
    w.diff.Some? && w.diff.value != [] && SplitPlan.Plan(PlanRequest(job, cfg, w.diff.value)).Ok?
  }

  function PlanOf(job: Job, w: World, cfg: Settings): seq<SplitPlan.SplitSlice>
    requires Planned(job, w, cfg)
  {
    SplitPlan.Plan(PlanRequest(job, cfg, w.diff.value)).value
  }

  /** The accepted work goes through the single pull request phase. */
  predicate UsesPrPhase(job: Job, w: World, cfg: Settings) {
    if Stacked(job) then Planned(job, w, cfg) && |PlanOf(job, w, cfg)| <= 1
    else job.prMode == Draft || job.prMode == ReadyForReview
  }

  predicate OpensStack(job: Job, w: World, cfg: Settings) {
    && Stacked(job) && Planned(job, w, cfg) && |PlanOf(job, w, cfg)| > 1
    && (job.stackRepos == [] || |job.stackRepos| == |PlanOf(job, w, cfg)|)
  }

  /** What the pull request phase reports, read off the answers of the world. */
  predicate ReportsMerge(job: Job, w: World, cfg: Settings) {
    && w.bodyOk
    && match w.create
       case GhMissing => cfg.fallBackToLocal && w.ffMergeOk
       case CreateFailed => false
       case Opened(_) =>
         OutOfBand(w) ||
         (WaitResult(w.polls).Ready? && WaitResult(w.polls).status.review != ChangesRequested &&
          WaitResult(w.polls).status.checks != Failure && ((job.autoMerge && w.autoMergeOk) || w.mergeOk))
  }

  lemma PhaseReports(job: Job, w: World, cfg: Settings, repo: Path, cost: real)
    ensures RunPrPhase(job, w, cfg, repo, cost).merged <==> ReportsMerge(job, w, cfg)
    ensures RunPrPhase(job, w, cfg, repo, cost).crashed <==> !w.bodyOk
  {
    hide WaitResult, Target;
  }

  /** The run stops in flight: a stack waiting for its webhooks, or a collapsed stack whose merge nobody records. */
  predicate Parked(job: Job, w: World, cfg: Settings) {
    || (OpensStack(job, w, cfg) && AllOpen(w, 0, |PlanOf(job, w, cfg)|))
    || (Stacked(job) && UsesPrPhase(job, w, cfg) && ReportsMerge(job, w, cfg) && !OutOfBand(w))
  }

  /** Somebody else merged the pull request of this run. */
  predicate MergedElsewhere(job: Job, w: World, cfg: Settings) {
    UsesPrPhase(job, w, cfg) && OutOfBand(w)
  }

  /** A stack for which no changed file was listed: there is none, or git failed or was too slow. */
  predicate NothingListed(job: Job, w: World) {
    Stacked(job) && w.diff == Some([])
  }

  /** The run is recorded as merged although it merged nothing itself. */
  predicate Presumed(job: Job, w: World, cfg: Settings) {
    MergedElsewhere(job, w, cfg) || NothingListed(job, w)
  }

  ghost predicate SegmentEnds(row: JobRow, s: Segment, parked: bool, elsewhere: bool) {
    var last := RowAfter(row, s.actions);
    && Legal(row, s.actions) && Merges(s.actions) <= 1
    && (s.ending != Completed ==> InFlight(last.status) && Merges(s.actions) == 0 && !parked && !elsewhere)
    && (s.ending == Completed ==>
          && (Terminal(last.status) <==> !parked)
          && (parked ==> !elsewhere)
          && (last.status == Status.Merged <==> (Merges(s.actions) == 1 && !parked) || elsewhere))
  }

  lemma SegmentAfter(row: JobRow, prefix: seq<Action>, s: Segment, parked: bool, elsewhere: bool)
    requires Legal(row, prefix) && Merges(prefix) == 0
    requires SegmentEnds(RowAfter(row, prefix), s, parked, elsewhere)
    ensures SegmentEnds(row, s.After(prefix), parked, elsewhere)
  {
    Concatenation(row, prefix, s.actions);
  }

  lemma StackEnds(row: JobRow, job: Job, w: World, cfg: Settings, repo: Path, cost: real)
    requires row.status == Verifying && Stacked(job)
    ensures SegmentEnds(row, RunStackPhase(job, w, cfg, repo, cost), Parked(job, w, cfg), Presumed(job, w, cfg))
  {
    hide Legal, RowAfter, Merges, External, Children, RunPrPhase, RunSlices, OutOfBand, ReportsMerge, SplitPlan.Plan, PlanRequest, AllOpen;
    NothingYet(row);
    Single(row, Finish(Status.Merged, Some(cost), None));
    Single(row, Finish(Failed, Some(cost), None));
    if Planned(job, w, cfg) {
      var plan := PlanOf(job, w, cfg);
      if |plan| <= 1 {
        CollapsedStackEnds(row, job, w, cfg, repo, cost);
      } else if OpensStack(job, w, cfg) {
        var tag := TagStack(StackIdOf(job, w), |plan|);
        ReadTwo(row, tag, Move(PrCreating));
        var row' := RowAfter(row, [tag, Move(PrCreating)]);
        SlicesEnd(row', job, w, cfg, repo, cost, plan, 0, None);
        SegmentAfter(row, [tag, Move(PrCreating)], RunSlices(job, w, cfg, repo, cost, plan, 0, None),
                     Parked(job, w, cfg), false);
      }
    }
  }

  lemma CollapsedStackEnds(row: JobRow, job: Job, w: World, cfg: Settings, repo: Path, cost: real)
    requires row.status == Verifying && Stacked(job) && UsesPrPhase(job, w, cfg)
    ensures SegmentEnds(row, RunStackPhase(job, w, cfg, repo, cost), Parked(job, w, cfg), Presumed(job, w, cfg))
  {
    hide Legal, RowAfter, Merges, External, Children, RunPrPhase, RunSlices, ReportsMerge, SplitPlan.Plan, PlanRequest, WaitResult, AllOpen;
    NothingYet(row);
    PrPhaseEnds(row, job, w, cfg, repo, cost);
    PhaseReports(job, w, cfg, repo, cost);
    if OutOfBand(w) { OutOfBandReports(job, w, cfg); }
  }

  lemma OutOfBandReports(job: Job, w: World, cfg: Settings)
    requires OutOfBand(w)
    ensures ReportsMerge(job, w, cfg)
  {
  }

  lemma PrLandingEnds(row: JobRow, job: Job, w: World, cfg: Settings, cost: real)
    requires row.status == Verifying && !Stacked(job) && job.prMode in {Draft, ReadyForReview}
    ensures SegmentEnds(row, Landing(job, w, cfg, cost), false, OutOfBand(w))
  {
    hide Legal, RowAfter, Merges, External, Children, RunPrPhase, WaitResult, ReportsMerge, OutOfBand;
    var phase := RunPrPhase(job, w, cfg, JobRepo(job, cfg), cost);
    NothingYet(row);
    PrPhaseEnds(row, job, w, cfg, JobRepo(job, cfg), cost);
    PhaseReports(job, w, cfg, JobRepo(job, cfg), cost);
    if OutOfBand(w) { OutOfBandReports(job, w, cfg); }
    if phase.merged {
      var tail := [RemoveWorktree, DeleteBranch, Finish(Status.Merged, Some(cost), phase.number)];
      ReadThree(RowAfter(row, phase.actions), tail[0], tail[1], tail[2]);
      Concatenation(row, phase.actions, tail);
    }
  }

  lemma LocalLandingEnds(row: JobRow, job: Job, w: World, cfg: Settings, cost: real)
    requires row.status == Verifying && !Stacked(job) && job.prMode !in {Draft, ReadyForReview}
    ensures SegmentEnds(row, Landing(job, w, cfg, cost), false, false)
  {
    hide Legal, RowAfter, Merges, External, Children, JobRepo;
    hide RunPrPhase, RunStackPhase;
    var repo := JobRepo(job, cfg);
    var merge, end := FfMerge(repo, true), Finish(Status.Merged, Some(cost), None);
    ReadTwo(row, FfMerge(repo, false), Finish(Failed, Some(cost), None));
    assert [merge, RemoveWorktree, DeleteBranch, end] == [merge] + [RemoveWorktree, DeleteBranch, end];
    Prepend(row, merge, [RemoveWorktree, DeleteBranch, end]);
    ReadThree(row, RemoveWorktree, DeleteBranch, end);
  }

  lemma LandingEnds(row: JobRow, job: Job, w: World, cfg: Settings, cost: real)
    requires row.status == Verifying
    ensures SegmentEnds(row, Landing(job, w, cfg, cost), Parked(job, w, cfg), Presumed(job, w, cfg))
  {
    hide Legal, RowAfter, Merges, External, Children, RunPrPhase, RunStackPhase, OutOfBand, ReportsMerge, SegmentEnds;
    if Stacked(job) {
      StackEnds(row, job, w, cfg, JobRepo(job, cfg), cost);
    } else if job.prMode in {Draft, ReadyForReview} {
      PrLandingEnds(row, job, w, cfg, cost);
    } else {
      LocalLandingEnds(row, job, w, cfg, cost);
    }
  }

  /** The work was written, reviewed and accepted. */
  predicate WorkAccepted(w: World) {
    && w.worktreeOk
    && w.code.Answered? && (w.code.error ==> w.code.text)
    && w.review.Answered? && (w.review.error ==> w.review.text)
    && w.verdict == Accepted
  }

  lemma JudgingEnds(row: JobRow, job: Job, w: World, cfg: Settings, cost: real)
    requires row.status == RunningReview
    ensures SegmentEnds(row, Judging(job, w, cfg, cost),
                        w.verdict == Accepted && Parked(job, w, cfg), w.verdict == Accepted && Presumed(job, w, cfg))
  {
    hide Legal, RowAfter, Merges, External, Children, Landing, Parked, Presumed;
    var a, b, stop := Move(Verifying), Verify(w.verdict), Finish(Failed, Some(cost), None);
    ReadTwo(row, a, b);
    ReadThree(row, a, b, stop);
    assert [a, b] + [stop] == [a, b, stop];
    if w.verdict == Accepted {
      LandingEnds(RowAfter(row, [a, b]), job, w, cfg, cost);
      SegmentAfter(row, [a, b], Landing(job, w, cfg, cost), Parked(job, w, cfg), Presumed(job, w, cfg));
    }
  }

  lemma DiscardEnds(row: JobRow, cost: real)
    requires InFlight(row.status)
    ensures SegmentEnds(row, Discard(cost), false, false)
  {
    hide Legal, RowAfter, Merges, External, Children;
    ReadThree(row, RemoveWorktree, DeleteBranch, Finish(Failed, Some(cost), None));
  }

  lemma ReviewingEnds(row: JobRow, job: Job, w: World, cfg: Settings, codeCost: real)
    requires row.status == RunningCode && w.worktreeOk && w.code.Answered? && (w.code.error ==> w.code.text)
    ensures SegmentEnds(row, Reviewing(job, w, cfg, codeCost),
                        WorkAccepted(w) && Parked(job, w, cfg), WorkAccepted(w) && Presumed(job, w, cfg))
  {
    hide Legal, RowAfter, Merges, External, Children, Judging, Parked, Presumed;
    var a, b := Move(RunningReview), CallAgent(Reviewer);
    ReadTwo(row, a, b);
    if w.review.Answered? {
      var cost := codeCost + w.review.cost;
      if w.review.error && !w.review.text {
        DiscardEnds(RowAfter(row, [a, b]), cost);
        SegmentAfter(row, [a, b], Discard(cost), false, false);
      } else {
        JudgingEnds(RowAfter(row, [a, b]), job, w, cfg, cost);
        SegmentAfter(row, [a, b], Judging(job, w, cfg, cost),
                     WorkAccepted(w) && Parked(job, w, cfg), WorkAccepted(w) && Presumed(job, w, cfg));
      }
    }
  }

  lemma CodingEnds(row: JobRow, job: Job, w: World, cfg: Settings)
    requires row.status == Queued && w.worktreeOk
    ensures SegmentEnds(row, Coding(job, w, cfg),
                        WorkAccepted(w) && Parked(job, w, cfg), WorkAccepted(w) && Presumed(job, w, cfg))
  {
    hide Legal, RowAfter, Merges, External, Children, Reviewing, Parked, Presumed;
    var a, b := Move(RunningCode), CallAgent(Coder);
    ReadTwo(row, a, b);
    if w.code.Answered? {
      if w.code.error && !w.code.text {
        DiscardEnds(RowAfter(row, [a, b]), w.code.cost);
        SegmentAfter(row, [a, b], Discard(w.code.cost), false, false);
      } else {
        ReviewingEnds(RowAfter(row, [a, b]), job, w, cfg, w.code.cost);
        SegmentAfter(row, [a, b], Reviewing(job, w, cfg, w.code.cost),
                     WorkAccepted(w) && Parked(job, w, cfg), WorkAccepted(w) && Presumed(job, w, cfg));
      }
    }
  }

  /** Every run: statuses go forward, at most one merge succeeds, the run ends in a terminal status exactly when it
      is not parked, and it ends `merged` exactly when it succeeded in merging or asking for a merge, found the merge
      already done, or had no changed file listed. */
  lemma RunEnds(row: JobRow, job: Job, w: World, cfg: Settings)
    requires row.status == Queued
    ensures var t := BackgroundTrace(job, w, cfg);
            var status := RowAfter(row, t).status;
            && Legal(row, t)
            && Merges(t) <= 1
            && (Terminal(status) <==> !(WorkAccepted(w) && Parked(job, w, cfg)))
            && (status == Status.Merged <==>
                  || (Merges(t) == 1 && !Parked(job, w, cfg))
                  || (WorkAccepted(w) && MergedElsewhere(job, w, cfg))
                  || (WorkAccepted(w) && NothingListed(job, w)))
            && (Merges(t) == 1 ==> WorkAccepted(w))
  {
    hide Legal, RowAfter, Merges, External, Children, Coding, Parked, MergedElsewhere, NothingListed, SegmentEnds;
    if w.worktreeOk {
      BodyEnds(row, job, w, cfg);
      HandlersEnd(row, Coding(job, w, cfg).After([OpenWorktree(true)]),
                  WorkAccepted(w) && Parked(job, w, cfg), WorkAccepted(w) && Presumed(job, w, cfg));
    } else {
      ReadTwo(row, OpenWorktree(false), Finish(Failed, None, None));
    }
  }

  lemma BodyEnds(row: JobRow, job: Job, w: World, cfg: Settings)
    requires row.status == Queued && w.worktreeOk
    ensures var body := Coding(job, w, cfg).After([OpenWorktree(true)]);
            && SegmentEnds(row, body, WorkAccepted(w) && Parked(job, w, cfg), WorkAccepted(w) && Presumed(job, w, cfg))
            && (Merges(body.actions) == 1 ==> WorkAccepted(w))
  {
    hide Legal, RowAfter, Merges, External, Children, Coding, Parked, Presumed, SegmentEnds;
    CodingEnds(row, job, w, cfg);
    Single(row, OpenWorktree(true));
    SegmentAfter(row, [OpenWorktree(true)], Coding(job, w, cfg),
                 WorkAccepted(w) && Parked(job, w, cfg), WorkAccepted(w) && Presumed(job, w, cfg));
    NoMergeUnaccepted(job, w, cfg);
    Concatenation(row, [OpenWorktree(true)], Coding(job, w, cfg).actions);
  }

  /** The exception handlers of the background run. */
  function Handled(body: Segment): seq<Action> {
    match body.ending
    case Completed => body.actions
    case Expired => body.actions + [Finish(Timeout, None, None)]
    case Crashed => body.actions + [Finish(Failed, None, None)]
  }

  lemma HandlersEnd(row: JobRow, body: Segment, parked: bool, elsewhere: bool)
    requires SegmentEnds(row, body, parked, elsewhere)
    ensures var t, status := Handled(body), RowAfter(row, Handled(body)).status;
            && Legal(row, t) && Merges(t) == Merges(body.actions) <= 1
            && (Terminal(status) <==> !parked)
            && (status == Status.Merged <==> (Merges(t) == 1 && !parked) || elsewhere)
  {
    hide Legal, RowAfter, Merges, External, Children;
    if body.ending != Completed {
      var end := Finish(if body.ending == Expired then Timeout else Failed, None, None);
      Single(RowAfter(row, body.actions), end);
      Concatenation(row, body.actions, [end]);
    }
  }

  // ---- Verification comes first ----

  predicate Quietly(t: seq<Action>) {
    forall a :: a in t ==> !TriesMerge(a)
  }

  lemma {:induction false} QuietMergesNothing(t: seq<Action>)
    requires Quietly(t)
    ensures Merges(t) == 0
  {
    if t != [] {
      assert t[|t| - 1] in t;
      QuietMergesNothing(t[..|t| - 1]);
    }
  }

  lemma NoMergeUnaccepted(job: Job, w: World, cfg: Settings)
    ensures w.worktreeOk && !WorkAccepted(w) ==> Quietly(Coding(job, w, cfg).actions)
    ensures w.worktreeOk && !WorkAccepted(w) ==> Merges(Coding(job, w, cfg).actions) == 0
  {
    hide Landing, Merges;
    if w.worktreeOk && !WorkAccepted(w) { QuietMergesNothing(Coding(job, w, cfg).actions); }
  }

  /** The actions of a run up to and including the verdict. */
  function UntilVerdict(w: World): seq<Action> {
    [OpenWorktree(true), Move(RunningCode), CallAgent(Coder), Move(RunningReview), CallAgent(Reviewer),
     Move(Verifying), Verify(w.verdict)]
  }

  lemma AcceptedTrace(job: Job, w: World, cfg: Settings)
    requires WorkAccepted(w)
    ensures BackgroundTrace(job, w, cfg) ==
            UntilVerdict(w) + Handled(Landing(job, w, cfg, w.code.cost + w.review.cost))
  {
    hide Landing;
    var cost := w.code.cost + w.review.cost;
    var landing := Landing(job, w, cfg, cost);
    var reviewed := Reviewing(job, w, cfg, w.code.cost);
    assert reviewed.actions == [Move(RunningReview), CallAgent(Reviewer), Move(Verifying), Verify(w.verdict)] + landing.actions;
    var coded := Coding(job, w, cfg);
    assert coded.actions == [Move(RunningCode), CallAgent(Coder)] + reviewed.actions;
    assert [OpenWorktree(true)] + coded.actions == UntilVerdict(w) + landing.actions;
  }

  lemma UnacceptedTrace(job: Job, w: World, cfg: Settings)
    requires !WorkAccepted(w)
    ensures Quietly(BackgroundTrace(job, w, cfg))
  {
    hide Coding;
    NoMergeUnaccepted(job, w, cfg);
  }

  /** Every attempt to merge, in any run, comes after the verifier accepted. */
  lemma NoMergeBeforeAcceptance(job: Job, w: World, cfg: Settings, i: nat)
    requires i < |BackgroundTrace(job, w, cfg)| && TriesMerge(BackgroundTrace(job, w, cfg)[i])
    ensures Verify(Accepted) in BackgroundTrace(job, w, cfg)[..i]
  {
    hide BackgroundTrace, Landing;
    var t := BackgroundTrace(job, w, cfg);
    assert t[i] in t;
    if !WorkAccepted(w) {
      UnacceptedTrace(job, w, cfg);
    }
    AcceptedTrace(job, w, cfg);
    assert forall j :: 0 <= j < 7 ==> t[j] == UntilVerdict(w)[j] && !TriesMerge(t[j]);
    assert t[..i][6] == Verify(Accepted);
  }

  // ---- Requests to merge ----

  predicate AsksGitHub(a: Action) {
    a.MergePr? || a.EnableAutoMerge?
  }

  /** The wait ended without objection, failure or merge. */
  predicate Justified(w: World) {
    && WaitResult(w.polls).Ready?
    && var s := WaitResult(w.polls).status;
       s.review != ChangesRequested && s.checks != Failure && !Landed(s)
  }

  lemma SliceAsksNothing(job: Job, w: World, cfg: Settings, repo: Path, cost: real,
                         plan: seq<SplitPlan.SplitSlice>, i: nat, previous: Option<nat>)
    requires i < |plan|
    ensures Quietly(RunSlice(job, w, cfg, repo, cost, plan, i, previous).actions)
  {
    hide SliceBase, SliceRepo, ChildRow;
  }

  lemma {:induction false} SlicesAskNothing(job: Job, w: World, cfg: Settings, repo: Path, cost: real,
                                            plan: seq<SplitPlan.SplitSlice>, i: nat, previous: Option<nat>)
    requires i <= |plan|
    ensures Quietly(RunSlices(job, w, cfg, repo, cost, plan, i, previous).actions)
    decreases |plan| - i
  {
    hide RunSlice;
    if i < |plan| {
      var step := RunSlice(job, w, cfg, repo, cost, plan, i, previous);
      SliceAsksNothing(job, w, cfg, repo, cost, plan, i, previous);
      if step.pr.Some? { SlicesAskNothing(job, w, cfg, repo, cost, plan, i + 1, step.pr); }
    }
  }
}
