/** What a stack delivers: the files of every slice, to which repository and branch, and in which order. */
module StackCommits {
  import opened Wrappers
  import opened Jobs
  import opened MergeQueue
  import opened QueueProperties
  import opened StackShape
  import SplitPlan
  import PlanProperties

  /** The steps that bring a slice to GitHub and into the job table. */
  predicate Delivers(a: Action) {
    a.CommitSlice? || a.PushBranch? || a.CreatePr? || a.AddChild?
  }

  function Deliveries(t: seq<Action>): seq<Action> {
    if t == [] then [] else Deliveries(t[..|t| - 1]) + if Delivers(t[|t| - 1]) then [t[|t| - 1]] else []
  }

  /** The file lists of the commits that succeeded, in order. */
  function Commits(t: seq<Action>): seq<seq<string>> {
    if t == [] then []
    else
      var last := t[|t| - 1];
      Commits(t[..|t| - 1]) + if last.CommitSlice? && last.ok then [last.files] else []
  }

  lemma {:induction false} CommitsAdd(a: seq<Action>, b: seq<Action>)
    ensures Commits(a + b) == Commits(a) + Commits(b)
  {
    if b == [] {
      assert a + b == a;
    } else {
      CommitsAdd(a, b[..|b| - 1]);
      assert (a + b)[..|a + b| - 1] == a + b[..|b| - 1];
    }
  }

  lemma {:induction false} DeliveriesAdd(a: seq<Action>, b: seq<Action>)
    ensures Deliveries(a + b) == Deliveries(a) + Deliveries(b)
    ensures Commits(a + b) == Commits(a) + Commits(b)
  {
    hide Commits;
    CommitsAdd(a, b);
    if b == [] {
      assert a + b == a;
    } else {
      DeliveriesAdd(a, b[..|b| - 1]);
      assert (a + b)[..|a + b| - 1] == a + b[..|b| - 1];
    }
  }

  lemma DeliveryOfOne(a: Action)
    ensures Deliveries([a]) == if Delivers(a) then [a] else []
    ensures Commits([a]) == if a.CommitSlice? && a.ok then [a.files] else []
  {
    assert [a][..0] == [];
  }

  lemma {:induction false} NothingDelivered(t: seq<Action>)
    requires forall a :: a in t ==> !Delivers(a)
    ensures Deliveries(t) == [] && Commits(t) == []
  {
    if t != [] {
      assert t[|t| - 1] in t;
      NothingDelivered(t[..|t| - 1]);
    }
  }

  lemma DeliveriesOfThree(a: Action, b: Action, c: Action)
    requires Delivers(a) && Delivers(b) && Delivers(c) && !b.CommitSlice? && !c.CommitSlice?
    ensures Deliveries([a, b, c]) == [a, b, c]
    ensures Commits([a, b, c]) == if a.CommitSlice? && a.ok then [a.files] else []
  {
    DeliveryOfOne(a);
    DeliveryOfOne(b);
    DeliveryOfOne(c);
    DeliveriesAdd([a], [b]);
    DeliveriesAdd([a] + [b], [c]);
    assert [a] + [b] + [c] == [a, b, c];
  }

  // ---- One slice ----

  /** What a slice that opened delivers, in this order. */
  function Delivery(job: Job, w: World, cfg: Settings, repo: Path, plan: seq<SplitPlan.SplitSlice>, i: nat,
                    previous: Option<nat>): seq<Action>
    requires i < |plan| && w.slices(i).SliceOpened?
  {
    var branch, at, k := plan[i].branchName, SliceRepo(job, repo, i), w.slices(i).number;
    [CommitSlice(at, branch, plan[i].files, true), PushBranch(at, branch, true),
     CreatePr(branch, SliceBase(job, cfg, i), Some(k)),
     AddChild(ChildRow(job, w, cfg, repo, |plan|, i, k, previous))]
  }

  /** A slice that did not open: how far it came. */
  predicate CommittedOnly(o: SliceOutcome) {
    o.PushFailed? || o.SliceGhMissing? || o.SliceCreateFailed?
  }

  lemma OpenedSlice(job: Job, w: World, cfg: Settings, repo: Path, cost: real,
                    plan: seq<SplitPlan.SplitSlice>, i: nat, previous: Option<nat>)
    requires i < |plan| && w.slices(i).SliceOpened?
    ensures var s := RunSlice(job, w, cfg, repo, cost, plan, i, previous);
            && Deliveries(s.actions) == Delivery(job, w, cfg, repo, plan, i, previous)
            && Commits(s.actions) == [plan[i].files]
            && s.pr == Some(w.slices(i).number)
  {
    hide Deliveries, Commits, ChildRow, SliceBase, SliceRepo;
    var d := Delivery(job, w, cfg, repo, plan, i, previous);
    DeliveriesOfThree(d[0], d[1], d[2]);
    DeliveryOfOne(d[3]);
    DeliveriesAdd([d[0], d[1], d[2]], [d[3]]);
    assert [d[0], d[1], d[2]] + [d[3]] == d;
  }

  lemma FailedSlice(job: Job, w: World, cfg: Settings, repo: Path, cost: real,
                    plan: seq<SplitPlan.SplitSlice>, i: nat, previous: Option<nat>)
    requires i < |plan| && !w.slices(i).SliceOpened?
    ensures var s := RunSlice(job, w, cfg, repo, cost, plan, i, previous);
            && |Deliveries(s.actions)| <= 3
            && (forall a :: a in Deliveries(s.actions) ==> !a.AddChild?)
            && Commits(s.actions) == (if CommittedOnly(w.slices(i)) then [plan[i].files] else [])
            && s.pr == None
  {
    hide Deliveries, Commits, ChildRow, SliceBase, SliceRepo;
    var branch, at, base := plan[i].branchName, SliceRepo(job, repo, i), SliceBase(job, cfg, i);
    var stop := Finish(Failed, Some(cost), None);
    NothingDelivered([]);
    if w.slices(i).CommitFailed? {
      UncommittedSlice(CommitSlice(at, branch, plan[i].files, false), stop);
    } else if w.slices(i).PushFailed? {
      UnpushedSlice(CommitSlice(at, branch, plan[i].files, true), PushBranch(at, branch, false), stop);
    } else {
      UnrequestedSlice(CommitSlice(at, branch, plan[i].files, true), PushBranch(at, branch, true), CreatePr(branch, base, None), stop);
    }
  }

  lemma UncommittedSlice(commit: Action, stop: Action)
    requires commit.CommitSlice? && !commit.ok && stop.SetStatus?
    ensures Deliveries([commit, stop]) == [commit] && Commits([commit, stop]) == []
  {
    hide Deliveries, Commits;
    DeliveryOfOne(commit);
    NothingDelivered([stop]);
    DeliveriesAdd([commit], [stop]);
    assert [commit] + [stop] == [commit, stop];
  }

  lemma UnpushedSlice(commit: Action, push: Action, stop: Action)
    requires commit.CommitSlice? && commit.ok && push.PushBranch? && stop.SetStatus?
    ensures Deliveries([commit, push, stop]) == [commit, push] && Commits([commit, push, stop]) == [commit.files]
  {
    hide Deliveries, Commits;
    DeliveryOfOne(commit);
    DeliveryOfOne(push);
    NothingDelivered([stop]);
    DeliveriesAdd([commit], [push]);
    DeliveriesAdd([commit] + [push], [stop]);
    assert [commit] + [push] + [stop] == [commit, push, stop];
  }

  lemma UnrequestedSlice(commit: Action, push: Action, create: Action, stop: Action)
    requires commit.CommitSlice? && commit.ok && push.PushBranch? && create.CreatePr? && stop.SetStatus?
    ensures Deliveries([commit, push, create, stop, stop]) == [commit, push, create]
    ensures Commits([commit, push, create, stop, stop]) == [commit.files]
  {
    hide Deliveries, Commits;
    DeliveriesOfThree(commit, push, create);
    NothingDelivered([stop, stop]);
    DeliveriesAdd([commit, push, create], [stop, stop]);
    assert [commit, push, create] + [stop, stop] == [commit, push, create, stop, stop];
  }

  // ---- The loop ----

  /** The file lists of slices `i`, `i + 1`, ..., `i + n - 1`. */
  function FilesOf(plan: seq<SplitPlan.SplitSlice>, i: nat, n: nat): seq<seq<string>>
    requires i + n <= |plan|
  {
    seq(n, j requires 0 <= j < n => plan[i + j].files)
  }

  /** Steps 4j, ..., 4j + 3 of the deliveries are those of slice `i + j`. */
  ghost predicate InTurn(job: Job, w: World, cfg: Settings, repo: Path, plan: seq<SplitPlan.SplitSlice>, i: nat, n: nat,
                         previous: Option<nat>, d: seq<Action>)
    requires i + n <= |plan| && AllOpen(w, i, i + n)
  {
    && 4 * n <= |d|
    && forall j :: 0 <= j < n ==>
         d[4 * j..4 * j + 4] ==
         Delivery(job, w, cfg, repo, plan, i + j, if j == 0 then previous else Some(w.slices(i + j - 1).number))
  }

  lemma InTurnMore(job: Job, w: World, cfg: Settings, repo: Path, plan: seq<SplitPlan.SplitSlice>, i: nat, n: nat,
                   previous: Option<nat>, rest: seq<Action>)
    requires i + n + 1 <= |plan| && AllOpen(w, i, i + n + 1)
    requires InTurn(job, w, cfg, repo, plan, i + 1, n, Some(w.slices(i).number), rest)
    ensures InTurn(job, w, cfg, repo, plan, i, n + 1, previous, Delivery(job, w, cfg, repo, plan, i, previous) + rest)
  {
    hide ChildRow, SliceBase, SliceRepo;
    var first := Delivery(job, w, cfg, repo, plan, i, previous);
    assert |first| == 4;
    hide Delivery;
    var d := first + rest;
    forall j | 0 <= j < n + 1
      ensures d[4 * j..4 * j + 4] ==
              Delivery(job, w, cfg, repo, plan, i + j, if j == 0 then previous else Some(w.slices(i + j - 1).number))
    {
      if j == 0 { assert d[0..4] == first; } else { assert d[4 * j..4 * j + 4] == rest[4 * (j - 1)..4 * (j - 1) + 4]; }
    }
  }

  lemma {:induction false} SlicesDeliver(job: Job, w: World, cfg: Settings, repo: Path, cost: real,
                                         plan: seq<SplitPlan.SplitSlice>, i: nat, previous: Option<nat>)
    requires i <= |plan|
    ensures var d, n := Deliveries(RunSlices(job, w, cfg, repo, cost, plan, i, previous).actions), OpenedFrom(w, i, |plan|);
            InTurn(job, w, cfg, repo, plan, i, n, previous, d) && 4 * n <= |d| <= 4 * n + 3
    decreases |plan| - i
  {
    hide Deliveries, Commits, RunSlice, InTurn, Delivery;
    var t := RunSlices(job, w, cfg, repo, cost, plan, i, previous).actions;
    if i == |plan| {
      NothingDelivered([SetStatus(Update(PrOpen, false, Some(cost), None))]);
      NoTurn(job, w, cfg, repo, plan, i, previous, Deliveries(t));
    } else if !w.slices(i).SliceOpened? {
      FailedSlice(job, w, cfg, repo, cost, plan, i, previous);
      NoTurn(job, w, cfg, repo, plan, i, previous, Deliveries(t));
    } else {
      var step := RunSlice(job, w, cfg, repo, cost, plan, i, previous);
      OpenedSlice(job, w, cfg, repo, cost, plan, i, previous);
      var rest := RunSlices(job, w, cfg, repo, cost, plan, i + 1, step.pr).actions;
      SlicesDeliver(job, w, cfg, repo, cost, plan, i + 1, step.pr);
      DeliveriesAdd(step.actions, rest);
      InTurnMore(job, w, cfg, repo, plan, i, OpenedFrom(w, i + 1, |plan|), previous, Deliveries(rest));
      DeliverySize(job, w, cfg, repo, plan, i, previous);
    }
  }

  lemma {:induction false} SlicesCommit(job: Job, w: World, cfg: Settings, repo: Path, cost: real,
                                        plan: seq<SplitPlan.SplitSlice>, i: nat, previous: Option<nat>)
    requires i <= |plan|
    ensures var n := OpenedFrom(w, i, |plan|);
            Commits(RunSlices(job, w, cfg, repo, cost, plan, i, previous).actions) ==
            FilesOf(plan, i, n) + if i + n < |plan| && CommittedOnly(w.slices(i + n)) then [plan[i + n].files] else []
    decreases |plan| - i
  {
    hide Deliveries, Commits, RunSlice, Delivery, FilesOf, CommittedOnly;
    NoFiles(plan, i);
    if i == |plan| {
      NothingDelivered([SetStatus(Update(PrOpen, false, Some(cost), None))]);
    } else if !w.slices(i).SliceOpened? {
      FailedSlice(job, w, cfg, repo, cost, plan, i, previous);
    } else {
      var step := RunSlice(job, w, cfg, repo, cost, plan, i, previous);
      OpenedSlice(job, w, cfg, repo, cost, plan, i, previous);
      SlicesCommit(job, w, cfg, repo, cost, plan, i + 1, step.pr);
      DeliveriesAdd(step.actions, RunSlices(job, w, cfg, repo, cost, plan, i + 1, step.pr).actions);
      var n := OpenedFrom(w, i + 1, |plan|);
      FilesMore(plan, i, n);
    }
  }

  lemma FilesMore(plan: seq<SplitPlan.SplitSlice>, i: nat, n: nat)
    requires i + 1 + n <= |plan|
    ensures FilesOf(plan, i, n + 1) == [plan[i].files] + FilesOf(plan, i + 1, n)
  {
  }

  lemma NoFiles(plan: seq<SplitPlan.SplitSlice>, i: nat)
    requires i <= |plan|
    ensures FilesOf(plan, i, 0) == []
  {
  }

  lemma DeliverySize(job: Job, w: World, cfg: Settings, repo: Path, plan: seq<SplitPlan.SplitSlice>, i: nat,
                     previous: Option<nat>)
    requires i < |plan| && w.slices(i).SliceOpened?
    ensures |Delivery(job, w, cfg, repo, plan, i, previous)| == 4
  {
  }

  lemma NoTurn(job: Job, w: World, cfg: Settings, repo: Path, plan: seq<SplitPlan.SplitSlice>, i: nat,
               previous: Option<nat>, d: seq<Action>)
    requires i <= |plan|
    ensures InTurn(job, w, cfg, repo, plan, i, 0, previous, d)
  {
  }

  // ---- The run ----

  lemma RunDelivers(job: Job, w: World, cfg: Settings)
    requires WorkAccepted(w) && OpensStack(job, w, cfg)
    ensures Deliveries(BackgroundTrace(job, w, cfg)) == Deliveries(SlicesRun(job, w, cfg).actions)
    ensures Commits(BackgroundTrace(job, w, cfg)) == Commits(SlicesRun(job, w, cfg).actions)
  {
    hide *;
    PlannedStack(job, w, cfg);
    var s := SlicesRun(job, w, cfg);
    var tag := [TagStack(StackIdOf(job, w), |PlanOf(job, w, cfg)|), Move(PrCreating)];
    StackTrace(job, w, cfg);
    VerdictDelivers(w);
    TagDelivers(StackIdOf(job, w), |PlanOf(job, w, cfg)|);
    AfterIsPrefix(s, tag);
    DeliveriesAdd(UntilVerdict(w), Handled(s.After(tag)));
    HandledDelivers(s.After(tag));
    DeliveriesAdd(tag, s.actions);
  }

  lemma VerdictDelivers(w: World)
    ensures Deliveries(UntilVerdict(w)) == [] && Commits(UntilVerdict(w)) == []
  {
    hide Deliveries, Commits;
    NothingDelivered(UntilVerdict(w));
  }

  lemma TagDelivers(stackId: string, size: nat)
    ensures Deliveries([TagStack(stackId, size), Move(PrCreating)]) == []
    ensures Commits([TagStack(stackId, size), Move(PrCreating)]) == []
  {
    hide Deliveries, Commits;
    NothingDelivered([TagStack(stackId, size), Move(PrCreating)]);
  }

  lemma HandledDelivers(body: Segment)
    ensures Deliveries(Handled(body)) == Deliveries(body.actions) && Commits(Handled(body)) == Commits(body.actions)
  {
    hide Deliveries, Commits;
    if body.ending != Completed {
      var end := Finish(if body.ending == Expired then Timeout else Failed, None, None);
      DeliveryOfOne(end);
      DeliveriesAdd(body.actions, [end]);
    }
  }

  lemma AnswersAreIn(w: World)
    requires WorkAccepted(w)
    ensures w.code.Answered? && w.review.Answered?
  {
  }

  lemma SlicesRunIs(job: Job, w: World, cfg: Settings)
    requires WorkAccepted(w) && OpensStack(job, w, cfg)
    ensures SlicesRun(job, w, cfg) ==
            RunSlices(job, w, cfg, JobRepo(job, cfg), w.code.cost + w.review.cost, PlanOf(job, w, cfg), 0, None)
    ensures StackHeight(job, w, cfg) == OpenedFrom(w, 0, |PlanOf(job, w, cfg)|)
  {
    hide RunSlices, JobRepo, SplitPlan.Plan;
  }

  /** The run of an accepted stack: its deliveries, its commits, its children. */
  lemma StackRun(row: JobRow, job: Job, w: World, cfg: Settings)
    requires row.status == Queued && WorkAccepted(w) && OpensStack(job, w, cfg)
    ensures var t, plan, n := BackgroundTrace(job, w, cfg), PlanOf(job, w, cfg), StackHeight(job, w, cfg);
            var repo := JobRepo(job, cfg);
            && AllOpen(w, 0, n) && n <= |plan|
            && InTurn(job, w, cfg, repo, plan, 0, n, None, Deliveries(t)) && 4 * n <= |Deliveries(t)| <= 4 * n + 3
            && Commits(t) ==
               FilesOf(plan, 0, n) + (if n < |plan| && CommittedOnly(w.slices(n)) then [plan[n].files] else [])
            && Children(t) == ChildRows(job, w, cfg, repo, |plan|, 0, n, None) && |Children(t)| == n
  {
    hide *;
    PlannedStack(job, w, cfg);
    AnswersAreIn(w);
    var plan, repo, cost := PlanOf(job, w, cfg), JobRepo(job, cfg), w.code.cost + w.review.cost;
    SlicesRunIs(job, w, cfg);
    RunDelivers(job, w, cfg);
    SlicesDeliver(job, w, cfg, repo, cost, plan, 0, None);
    SlicesCommit(job, w, cfg, repo, cost, plan, 0, None);
    StackReadings(row, job, w, cfg);
    ChildRowsLength(job, w, cfg, repo, |plan|, 0, StackHeight(job, w, cfg), None);
  }

  /** The repository of slice `j`: one listed for it, else the job's own, else the runner's. */
  function RepoOf(job: Job, cfg: Settings, j: nat): Path {
    if j < |job.stackRepos| then job.stackRepos[j]
    else match job.repoOverride
      case Some(p) => p
      case None => cfg.runnerRepo
  }

  /** What the pull request of slice `j` is based on. */
  function BaseOf(job: Job, cfg: Settings, j: nat): string {
    if j > 0 then "harness/" + job.worktreeId + "/step-" + SplitPlan.Decimal(j - 1)
    else if job.targetBranch == "" then cfg.defaultBranch
    else job.targetBranch
  }

  /** The row of slice `j` of a stack of `size`. */
  ghost predicate IsRowOf(job: Job, w: World, cfg: Settings, size: nat, kid: JobRow, j: nat) {
    && kid.id == w.childIds(j) && kid.worktreeId == job.worktreeId + "-step-" + SplitPlan.Decimal(j)
    && kid.status == PrOpen && !kid.finished && kid.cost == 0.0
    && kid.repo == RepoOf(job, cfg, j) && kid.targetBranch == BaseOf(job, cfg, j)
    && kid.stackId == Some(if job.stackId == "" then w.freshStackId else job.stackId)
    && kid.position == j + 1 && kid.size == size
  }

  /** The four steps of slice `j`, told by its row: its files are committed on its own branch in the repository of the
      row, that branch is pushed there, and the pull request goes from it to the row's base. */
  ghost predicate SliceDelivered(job: Job, files: seq<string>, kid: JobRow, j: nat, d: seq<Action>) {
    var head := "harness/" + job.worktreeId + "/step-" + SplitPlan.Decimal(j);
    d == [CommitSlice(kid.repo, head, files, true), PushBranch(kid.repo, head, true),
          CreatePr(head, kid.targetBranch, kid.prNumber), AddChild(kid)]
  }

  lemma DeliveryIs(job: Job, w: World, cfg: Settings, plan: seq<SplitPlan.SplitSlice>, j: nat, previous: Option<nat>)
    requires j < |plan| && w.slices(j).SliceOpened? && plan[j].branchName == SplitPlan.Branch(job.worktreeId, j)
    ensures var kid := ChildRow(job, w, cfg, JobRepo(job, cfg), |plan|, j, w.slices(j).number, previous);
            && IsRowOf(job, w, cfg, |plan|, kid, j)
            && SliceDelivered(job, plan[j].files, kid, j, Delivery(job, w, cfg, JobRepo(job, cfg), plan, j, previous))
  {
  }

  /** An accepted run that opens its stack delivers its slices one after the other, as far as they open: each commits
      the files planned for it. */
  lemma StackDeliversSlices(row: JobRow, job: Job, w: World, cfg: Settings, j: nat)
    requires row.status == Queued && WorkAccepted(w) && OpensStack(job, w, cfg)
    ensures var t, plan := BackgroundTrace(job, w, cfg), PlanOf(job, w, cfg);
            var d, kids := Deliveries(t), Children(t);
            && 4 * |kids| <= |d| <= 4 * |kids| + 3 && |kids| <= |plan|
            && (j < |kids| ==> IsRowOf(job, w, cfg, |plan|, kids[j], j)
                               && SliceDelivered(job, plan[j].files, kids[j], j, d[4 * j..4 * j + 4]))
  {
    hide *;
    PlannedStack(job, w, cfg);
    StackRun(row, job, w, cfg);
    var plan, n := PlanOf(job, w, cfg), StackHeight(job, w, cfg);
    if j < n {
      BranchesOfPlan(job, w, cfg);
      DeliveredInTurn(job, w, cfg, plan, n, Deliveries(BackgroundTrace(job, w, cfg)), j);
    }
  }

  lemma PlannedStack(job: Job, w: World, cfg: Settings)
    requires OpensStack(job, w, cfg)
    ensures Planned(job, w, cfg)
  {
  }

  lemma DeliveredInTurn(job: Job, w: World, cfg: Settings, plan: seq<SplitPlan.SplitSlice>, n: nat, d: seq<Action>, j: nat)
    requires j < n <= |plan| && AllOpen(w, 0, n) && InTurn(job, w, cfg, JobRepo(job, cfg), plan, 0, n, None, d)
    requires forall i :: 0 <= i < |plan| ==> plan[i].branchName == SplitPlan.Branch(job.worktreeId, i)
    ensures 4 * n <= |d| && |ChildRows(job, w, cfg, JobRepo(job, cfg), |plan|, 0, n, None)| == n
    ensures var kid := ChildRows(job, w, cfg, JobRepo(job, cfg), |plan|, 0, n, None)[j];
            IsRowOf(job, w, cfg, |plan|, kid, j) && SliceDelivered(job, plan[j].files, kid, j, d[4 * j..4 * j + 4])
  {
    hide JobRepo, ChildRow, ChildRows, Delivery, SliceDelivered, IsRowOf, AllOpen, SplitPlan.Branch;
    ChildRowsAt(job, w, cfg, JobRepo(job, cfg), |plan|, 0, n, None, j);
    OpenAt(w, n, j);
    DeliveryIs(job, w, cfg, plan, j, if j == 0 then None else Some(w.slices(j - 1).number));
  }

  lemma OpenAt(w: World, n: nat, j: nat)
    requires AllOpen(w, 0, n) && j < n
    ensures w.slices(j).SliceOpened?
    ensures j > 0 ==> w.slices(j - 1).SliceOpened?
  {
  }

  // ---- Files ----

  /** Every file of `diff` is in exactly one of the lists, once, and nothing else is in any. */
  ghost predicate Once(lists: seq<seq<string>>, diff: seq<string>) {
    && (forall i, k, l :: 0 <= i < |lists| && 0 <= k < l < |lists[i]| ==> lists[i][k] != lists[i][l])
    && (forall i, f :: 0 <= i < |lists| && f in lists[i] ==> f in diff)
    && (forall f :: f in diff ==> exists i :: 0 <= i < |lists| && f in lists[i])
    && (forall i, j, f :: 0 <= i < j < |lists| && f in lists[i] ==> f !in lists[j])
  }

  /** The files a job wants split: those it names, else all that changed. */
  function Wanted(job: Job, w: World): seq<string>
    requires w.diff.Some?
  {
    if job.sliceFiles == [] then w.diff.value else job.sliceFiles
  }

  lemma PartitionIsOnce(plan: seq<SplitPlan.SplitSlice>, diff: seq<string>)
    requires SplitPlan.Partitions(plan, diff)
    ensures Once(FilesOf(plan, 0, |plan|), diff)
  {
    var lists := FilesOf(plan, 0, |plan|);
    forall f | f in diff ensures exists i :: 0 <= i < |lists| && f in lists[i] {
      var i :| 0 <= i < |plan| && f in plan[i].files;
      assert f in lists[i];
    }
  }

  /** When every slice of a stack opens, the commits made are the file lists of the plan. */
  lemma StackCommitsPlan(row: JobRow, job: Job, w: World, cfg: Settings)
    requires row.status == Queued && WorkAccepted(w) && OpensStack(job, w, cfg)
    requires |Children(BackgroundTrace(job, w, cfg))| == |PlanOf(job, w, cfg)|
    ensures var plan := PlanOf(job, w, cfg); Commits(BackgroundTrace(job, w, cfg)) == FilesOf(plan, 0, |plan|)
  {
    hide *;
    PlannedStack(job, w, cfg);
    StackRun(row, job, w, cfg);
    var n := StackHeight(job, w, cfg);
    assert FilesOf(PlanOf(job, w, cfg), 0, n) + [] == FilesOf(PlanOf(job, w, cfg), 0, n);
  }

  /** Split by files or by size, a stack whose slices all open commits every wanted file exactly once, and nothing else. */
  lemma EveryFileIsCommittedOnce(row: JobRow, job: Job, w: World, cfg: Settings)
    requires row.status == Queued && WorkAccepted(w) && OpensStack(job, w, cfg)
    requires |Children(BackgroundTrace(job, w, cfg))| == |PlanOf(job, w, cfg)|
    requires cfg.splitStrategy in {"files", "size"} ||
             (cfg.splitStrategy == "auto" && PlanProperties.FileCount(Wanted(job, w)) <= cfg.maxFilesPerSlice)
    ensures Once(Commits(BackgroundTrace(job, w, cfg)), Wanted(job, w))
  {
    StackCommitsPlan(row, job, w, cfg);
    PlanIsOfWanted(job, w, cfg);
    hide BackgroundTrace, Children, Commits, PlanOf, SplitPlan.Plan, SplitPlan.Partitions, Once, PlanProperties.FileCount;
    PlanProperties.CountedPlanPartitions(PlanRequest(job, cfg, w.diff.value));
    PartitionIsOnce(PlanOf(job, w, cfg), Wanted(job, w));
  }

  /** By directory it does exactly when the wanted files have no more first components than slices are allowed. */
  lemma DirectoryStackCommits(row: JobRow, job: Job, w: World, cfg: Settings)
    requires row.status == Queued && WorkAccepted(w) && OpensStack(job, w, cfg)
    requires |Children(BackgroundTrace(job, w, cfg))| == |PlanOf(job, w, cfg)|
    requires cfg.splitStrategy == "directory" ||
             (cfg.splitStrategy == "auto" && PlanProperties.FileCount(Wanted(job, w)) > cfg.maxFilesPerSlice)
    ensures Once(Commits(BackgroundTrace(job, w, cfg)), Wanted(job, w)) <==>
            |set f | f in Wanted(job, w) :: SplitPlan.Top(f)| <= SplitPlan.Max(1, cfg.maxSlices)
  {
    PlanIsOfWanted(job, w, cfg);
    var r := PlanRequest(job, cfg, w.diff.value);
    assert PlanProperties.ByDirectory(r);
    hide *;
    StackCommitsPlan(row, job, w, cfg);
    DirectoryOnce(r, PlanOf(job, w, cfg));
  }

  lemma DirectoryOnce(r: SplitPlan.Request, plan: seq<SplitPlan.SplitSlice>)
    requires PlanProperties.ByDirectory(r) && SplitPlan.Plan(r) == Ok(plan)
    ensures Once(FilesOf(plan, 0, |plan|), r.diffFiles) <==>
            |set f | f in r.diffFiles :: SplitPlan.Top(f)| <= SplitPlan.Max(1, r.maxSlices)
  {
    hide SplitPlan.Plan, SplitPlan.Partitions, Once, SplitPlan.Top, SplitPlan.TopKeys, SplitPlan.SortedSet,
         PlanProperties.ByDirectory;
    PlanProperties.DirectoryPlanPartitions(r);
    PlanProperties.ComponentCount(r.diffFiles);
    NoSliceIsEmpty(r, plan);
    OnceIsPartition(plan, r.diffFiles);
  }

  lemma NoSliceIsEmpty(r: SplitPlan.Request, plan: seq<SplitPlan.SplitSlice>)
    requires PlanProperties.ByDirectory(r) && SplitPlan.Plan(r) == Ok(plan)
    ensures forall i :: 0 <= i < |plan| ==> plan[i].files != []
  {
    hide SplitPlan.Plan, SplitPlan.Top, SplitPlan.TopKeys, SplitPlan.SortedSet, PlanProperties.ByDirectory,
         PlanProperties.KeptGroups;
    PlanProperties.DirectoryPlanGroups(r);
    var keys := SplitPlan.TopKeys(SplitPlan.SortedSet(r.diffFiles));
    forall i | 0 <= i < |plan| ensures plan[i].files != [] {
      assert keys[i] in keys;
      var f :| f in r.diffFiles && SplitPlan.Top(f) == keys[i];
      assert f in plan[i].files;
    }
  }

  lemma OnceIsPartition(plan: seq<SplitPlan.SplitSlice>, diff: seq<string>)
    requires forall i :: 0 <= i < |plan| ==> plan[i].files != []
    ensures Once(FilesOf(plan, 0, |plan|), diff) <==> SplitPlan.Partitions(plan, diff)
  {
    if SplitPlan.Partitions(plan, diff) { PartitionIsOnce(plan, diff); }
    if Once(FilesOf(plan, 0, |plan|), diff) {
      var lists := FilesOf(plan, 0, |plan|);
      assert forall i :: 0 <= i < |plan| ==> plan[i].files == lists[i];
      forall f | f in diff ensures exists i :: 0 <= i < |plan| && f in plan[i].files {
        var i :| 0 <= i < |lists| && f in lists[i];
        assert f in plan[i].files;
      }
    }
  }

  lemma PlanIsOfWanted(job: Job, w: World, cfg: Settings)
    requires OpensStack(job, w, cfg)
    ensures var r := PlanRequest(job, cfg, w.diff.value);
            && r.diffFiles == Wanted(job, w) && r.diffFiles != [] && r.strategy == cfg.splitStrategy
            && r.maxFilesPerSlice == cfg.maxFilesPerSlice && r.maxSlices == cfg.maxSlices
            && SplitPlan.Plan(r) == Ok(PlanOf(job, w, cfg))
  {
    hide SplitPlan.Plan;
  }

  /** By files, a stack has as many slices as the job asked for, within the limits and the number of wanted files. */
  lemma StackSizeIsAsked(job: Job, w: World, cfg: Settings, n: int)
    requires OpensStack(job, w, cfg) && cfg.splitStrategy == "files" && job.splitInto == Some(n)
    ensures var files := PlanProperties.FileCount(Wanted(job, w));
            |PlanOf(job, w, cfg)| ==
            SplitPlan.Max(SplitPlan.Min(SplitPlan.Min(n, cfg.maxSlices), files), SplitPlan.Min(cfg.minSlices, files))
  {
    PlanIsOfWanted(job, w, cfg);
    var r := PlanRequest(job, cfg, w.diff.value);
    assert r.nSlices == Some(n) && n > 1 && r.minSlices == cfg.minSlices;
    assert |PlanOf(job, w, cfg)| > 1;
    hide SplitPlan.Plan, PlanOf, OpensStack, Wanted, PlanRequest;
    PlanProperties.FileCountIs(r.diffFiles);
    PlanProperties.ExplicitCountIsKept(r, n);
  }
}
