/** Which merges a run attempts, and what a row that says `merged` is worth. */
module MergeAttempts {
  import opened Wrappers
  import opened Jobs
  import opened PrChecks
  import opened MergeQueue
  import opened QueueProperties
  import SplitPlan

  /** The attempts to merge in a run, in order. */
  function Attempts(t: seq<Action>): seq<Action> {
    if t == [] then []
    else Attempts(t[..|t| - 1]) + if TriesMerge(t[|t| - 1]) then [t[|t| - 1]] else []
  }

  lemma {:induction false} AttemptsAdd(a: seq<Action>, b: seq<Action>)
    ensures Attempts(a + b) == Attempts(a) + Attempts(b)
  {
    if b == [] {
      assert a + b == a;
    } else {
      AttemptsAdd(a, b[..|b| - 1]);
      assert (a + b)[..|a + b| - 1] == a + b[..|b| - 1];
    }
  }

  lemma {:induction false} AttemptsOfQuiet(t: seq<Action>)
    requires Quietly(t)
    ensures Attempts(t) == []
  {
    if t != [] {
      assert t[|t| - 1] in t;
      AttemptsOfQuiet(t[..|t| - 1]);
    }
  }

  lemma {:induction false} AttemptsMember(t: seq<Action>, a: Action)
    ensures a in Attempts(t) <==> a in t && TriesMerge(a)
  {
    if t != [] {
      AttemptsMember(t[..|t| - 1], a);
      assert t == t[..|t| - 1] + [t[|t| - 1]];
    }
  }

  lemma {:induction false} MergesAreAttempts(t: seq<Action>)
    ensures Merges(Attempts(t)) == Merges(t)
  {
    if t != [] {
      var init, last := t[..|t| - 1], t[|t| - 1];
      MergesAreAttempts(init);
      assert (Attempts(init) + [last])[..|Attempts(init)|] == Attempts(init);
      assert Attempts(init) + [] == Attempts(init);
    }
  }

  // ---- What a run attempts ----

  /** In the pull request phase: nothing, one local merge, or one merge of the pull request, asked for at most twice. */
  function PrAttempts(job: Job, w: World, cfg: Settings, repo: Path): seq<Action> {
    if !w.bodyOk then []
    else match w.create
      case GhMissing => if cfg.fallBackToLocal then [FfMerge(repo, w.ffMergeOk)] else []
      case CreateFailed => []
      case Opened(k) => if Justified(w) then Requests(job, w, k) else []
  }

  function Requests(job: Job, w: World, k: nat): seq<Action> {
    if job.autoMerge && w.autoMergeOk then [EnableAutoMerge(k, true)]
    else (if job.autoMerge then [EnableAutoMerge(k, false)] else []) + [MergePr(k, w.mergeOk)]
  }

  function RunAttempts(job: Job, w: World, cfg: Settings): seq<Action> {
    if !WorkAccepted(w) then []
    else if UsesPrPhase(job, w, cfg) then PrAttempts(job, w, cfg, JobRepo(job, cfg))
    else if Stacked(job) then []
    else [FfMerge(JobRepo(job, cfg), w.ffMergeOk)]
  }

  lemma AttemptsOfOne(a: Action)
    ensures Attempts([a]) == if TriesMerge(a) then [a] else []
  {
    assert [a][..0] == [];
  }

  lemma MergePhaseAttempts(job: Job, w: World, cost: real, k: nat)
    ensures Attempts(MergePhase(job, w, cost, k).actions) == Requests(job, w, k)
  {
    hide Attempts;
    var start, fail := Move(MergingPr), Finish(Failed, Some(cost), Some(k));
    var auto, direct := EnableAutoMerge(k, job.autoMerge && w.autoMergeOk), MergePr(k, w.mergeOk);
    var done := SetStatus(Update(PrAutoMergeEnabled, false, Some(cost), Some(k)));
    AttemptsOfOne(start);
    AttemptsOfOne(fail);
    AttemptsOfOne(auto);
    AttemptsOfOne(direct);
    AttemptsOfOne(done);
    AttemptsAdd([start], [auto]);
    AttemptsAdd([start] + [auto], [done]);
    AttemptsAdd([start] + [auto], [direct]);
    AttemptsAdd([start], [direct]);
    AttemptsAdd([start] + [auto] + [direct], [fail]);
    AttemptsAdd([start] + [direct], [fail]);
    assert [start] + [auto] + [done] == [start, auto, done];
    assert [start] + [] + [direct] == [start] + [direct];
  }

  lemma WatchPhaseAttempts(job: Job, w: World, cost: real, k: nat)
    ensures Attempts(WatchPhase(job, w, cost, k).actions) == if Justified(w) then Requests(job, w, k) else []
  {
    hide Attempts, MergePhase, Requests, WaitResult;
    var waited, fail := Move(PrWaitingReview), Finish(Failed, Some(cost), Some(k));
    AttemptsOfQuiet([]);
    AttemptsOfQuiet([waited]);
    AttemptsOfQuiet([fail]);
    if Justified(w) {
      var phase := MergePhase(job, w, cost, k).actions;
      MergePhaseAttempts(job, w, cost, k);
      AttemptsAdd([waited], phase);
      AttemptsAdd([], phase);
      assert [] + phase == phase;
    } else {
      AttemptsOfQuiet(WatchPhase(job, w, cost, k).actions);
    }
  }

  lemma PrPhaseAttempts(job: Job, w: World, cfg: Settings, repo: Path, cost: real)
    ensures Attempts(RunPrPhase(job, w, cfg, repo, cost).actions) == PrAttempts(job, w, cfg, repo)
  {
    hide Attempts, WatchPhase, Requests, Target, Justified;
    var t := RunPrPhase(job, w, cfg, repo, cost).actions;
    AttemptsOfQuiet([]);
    if w.bodyOk && w.create.Opened? {
      var k := w.create.number;
      var start := [Move(PrCreating), CreatePr(w.branch, Target(job, cfg), Some(k)),
                    SetStatus(Update(PrOpen, false, None, Some(k))), Move(PrWaitingChecks)];
      AttemptsOfQuiet(start);
      WatchPhaseAttempts(job, w, cost, k);
      AttemptsAdd(start, WatchPhase(job, w, cost, k).actions);
    } else if w.bodyOk && w.create.GhMissing? && cfg.fallBackToLocal {
      LocalFallback(w, repo, [Move(PrCreating), CreatePr(w.branch, Target(job, cfg), None)],
                    Finish(Failed, Some(cost), None));
    } else {
      AttemptsOfQuiet(t);
    }
  }

  lemma LocalFallback(w: World, repo: Path, start: seq<Action>, fail: Action)
    requires Quietly(start) && fail.SetStatus?
    ensures Attempts(start + [FfMerge(repo, w.ffMergeOk)]) == [FfMerge(repo, w.ffMergeOk)]
    ensures Attempts((start + [FfMerge(repo, w.ffMergeOk)]) + [fail]) == [FfMerge(repo, w.ffMergeOk)]
  {
    hide Attempts;
    var merge := FfMerge(repo, w.ffMergeOk);
    AttemptsOfQuiet(start);
    AttemptsOfOne(merge);
    AttemptsOfOne(fail);
    AttemptsAdd(start, [merge]);
    AttemptsAdd(start + [merge], [fail]);
  }

  lemma StackPhaseAttempts(job: Job, w: World, cfg: Settings, repo: Path, cost: real)
    requires Stacked(job)
    ensures Attempts(RunStackPhase(job, w, cfg, repo, cost).actions) ==
            if UsesPrPhase(job, w, cfg) then PrAttempts(job, w, cfg, repo) else []
  {
    hide Attempts, RunPrPhase, PrAttempts, RunSlices, SplitPlan.Plan, PlanRequest, StackIdOf;
    var t := RunStackPhase(job, w, cfg, repo, cost).actions;
    if UsesPrPhase(job, w, cfg) {
      PrPhaseAttempts(job, w, cfg, repo, cost);
    } else {
      if Planned(job, w, cfg) { SlicesAskNothing(job, w, cfg, repo, cost, PlanOf(job, w, cfg), 0, None); }
      AttemptsOfQuiet(t);
    }
  }

  lemma LandingAttempts(job: Job, w: World, cfg: Settings, cost: real)
    requires WorkAccepted(w)
    ensures Attempts(Landing(job, w, cfg, cost).actions) == RunAttempts(job, w, cfg)
  {
    hide Attempts, RunPrPhase, PrAttempts, RunStackPhase, Planned, PlanOf, JobRepo;
    var repo := JobRepo(job, cfg);
    if Stacked(job) {
      StackPhaseAttempts(job, w, cfg, repo, cost);
    } else if UsesPrPhase(job, w, cfg) {
      var phase := RunPrPhase(job, w, cfg, repo, cost);
      var tail := [RemoveWorktree, DeleteBranch, Finish(Status.Merged, Some(cost), phase.number)];
      PrPhaseAttempts(job, w, cfg, repo, cost);
      AttemptsOfQuiet(tail);
      AttemptsAdd(phase.actions, tail);
    } else {
      LocalAttempts(repo, w.ffMergeOk, cost);
    }
  }

  lemma LocalAttempts(repo: Path, ok: bool, cost: real)
    ensures Attempts([FfMerge(repo, ok), RemoveWorktree, DeleteBranch, Finish(Status.Merged, Some(cost), None)]) == [FfMerge(repo, ok)]
    ensures Attempts([FfMerge(repo, ok), Finish(Failed, Some(cost), None)]) == [FfMerge(repo, ok)]
  {
    hide Attempts;
    var merge := FfMerge(repo, ok);
    var tail := [RemoveWorktree, DeleteBranch, Finish(Status.Merged, Some(cost), None)];
    var fail := [Finish(Failed, Some(cost), None)];
    AttemptsOfOne(merge);
    AttemptsOfQuiet(tail);
    AttemptsOfQuiet(fail);
    AttemptsAdd([merge], tail);
    AttemptsAdd([merge], fail);
    assert [merge] + tail == [FfMerge(repo, ok), RemoveWorktree, DeleteBranch, Finish(Status.Merged, Some(cost), None)];
    assert [merge] + fail == [FfMerge(repo, ok), Finish(Failed, Some(cost), None)];
  }

  /** The merges a run attempts are exactly these, in this order, whatever the world answers. */
  lemma AttemptsAreExact(job: Job, w: World, cfg: Settings)
    ensures Attempts(BackgroundTrace(job, w, cfg)) == RunAttempts(job, w, cfg)
  {
    hide Attempts, BackgroundTrace, Landing, UsesPrPhase, PrAttempts;
    if WorkAccepted(w) {
      var landing := Landing(job, w, cfg, w.code.cost + w.review.cost);
      AcceptedTrace(job, w, cfg);
      LandingAttempts(job, w, cfg, w.code.cost + w.review.cost);
      AttemptsOfQuiet(UntilVerdict(w));
      AttemptsAdd(UntilVerdict(w), Handled(landing));
      HandledAttempts(landing);
    } else {
      UnacceptedTrace(job, w, cfg);
      AttemptsOfQuiet(BackgroundTrace(job, w, cfg));
    }
  }

  lemma HandledAttempts(body: Segment)
    ensures Attempts(Handled(body)) == Attempts(body.actions)
  {
    hide Attempts;
    if body.ending != Completed {
      var end := Finish(if body.ending == Expired then Timeout else Failed, None, None);
      AttemptsOfOne(end);
      AttemptsAdd(body.actions, [end]);
    }
  }

  // ---- Requests ----

  /** The queue asks GitHub for a merge exactly when accepted work has an open pull request and the wait ended on green
      checks with review approved or absent, or on a pull request closed without objection or failure. */
  lemma MergeRequestsAreJustified(job: Job, w: World, cfg: Settings)
    ensures (exists a :: a in BackgroundTrace(job, w, cfg) && AsksGitHub(a)) <==>
            WorkAccepted(w) && UsesPrPhase(job, w, cfg) && w.bodyOk && w.create.Opened? && Justified(w)
    ensures Justified(w) <==>
            && WaitResult(w.polls).Ready?
            && var s := WaitResult(w.polls).status;
               && !Landed(s)
               && ((s.checks == Success && (s.review == Approved || s.review == NoReview))
                   || (s.state == Closed && s.review != ChangesRequested && s.checks != Failure))
  {
    hide BackgroundTrace, UsesPrPhase, WaitResult, Attempts;
    var t := BackgroundTrace(job, w, cfg);
    AttemptsAreExact(job, w, cfg);
    if WaitResult(w.polls).Ready? { OnlyGreenOrClosedRemains(w.polls); }
    forall a ensures AsksGitHub(a) ==> (a in t <==> a in Attempts(t)) { AttemptsMember(t, a); }
    if WorkAccepted(w) && UsesPrPhase(job, w, cfg) && w.bodyOk && w.create.Opened? && Justified(w) {
      var requests := Requests(job, w, w.create.number);
      assert requests[|requests| - 1] in Attempts(t);
    }
  }

  /** The same in terms of what GitHub last showed. */
  lemma MergeRequestsReadView(job: Job, w: World, cfg: Settings, raw: RawView)
    requires WaitResult(w.polls) == Ready(Parsed(raw))
    ensures var checks, review := Entries(Checks(raw.rollup)), Text(raw.reviewDecision);
            (exists a :: a in BackgroundTrace(job, w, cfg) && AsksGitHub(a)) <==>
            && WorkAccepted(w) && UsesPrPhase(job, w, cfg) && w.bodyOk && w.create.Opened?
            && !raw.merged && Text(raw.state) != "MERGED" && review != "CHANGES_REQUESTED"
            && (forall c :: c in checks ==> !Fails(c))
            && (Text(raw.state) == "CLOSED"
                || (checks != [] && (forall c :: c in checks ==> !Unsettled(c)) && review != "REVIEW_REQUIRED"))
  {
    hide BackgroundTrace, UsesPrPhase, WaitResult, Text, Unsettled, Fails;
    MergeRequestsAreJustified(job, w, cfg);
  }

  // ---- Merged, or said to be ----

  /** A merge took place in this run, as far as git or GitHub said. */
  ghost predicate MergedSomething(t: seq<Action>) {
    exists a :: a in t && (a.FfMerge? || a.MergePr?) && a.ok
  }

  /** The pull request is only queued for automatic merging. */
  predicate OnlyRequested(job: Job, w: World, cfg: Settings) {
    && !Stacked(job) && UsesPrPhase(job, w, cfg) && w.bodyOk && w.create.Opened? && Justified(w)
    && job.autoMerge && w.autoMergeOk
  }

  lemma MergedIffAttempted(job: Job, w: World, cfg: Settings)
    ensures MergedSomething(BackgroundTrace(job, w, cfg)) <==> MergedSomething(RunAttempts(job, w, cfg))
  {
    hide BackgroundTrace, RunAttempts, Attempts;
    var t := BackgroundTrace(job, w, cfg);
    AttemptsAreExact(job, w, cfg);
    forall a ensures a in Attempts(t) <==> a in t && TriesMerge(a) { AttemptsMember(t, a); }
  }

  lemma AttemptedMerges(job: Job, w: World, k: nat)
    ensures Merges(Requests(job, w, k)) == 1 && !MergedSomething(Requests(job, w, k)) <==> job.autoMerge && w.autoMergeOk
    ensures job.autoMerge && w.autoMergeOk ==> Merges(Requests(job, w, k)) == 1
  {
    hide Merges;
    var auto, direct := EnableAutoMerge(k, job.autoMerge && w.autoMergeOk), MergePr(k, w.mergeOk);
    MergesOfOne(auto);
    MergesOfOne(direct);
    MergesOfTwo(auto, direct);
    assert [auto] + [direct] == [auto, direct] && [] + [direct] == [direct];
    if !(job.autoMerge && w.autoMergeOk) && w.mergeOk { assert direct in Requests(job, w, k); }
  }

  lemma MergesOfOne(a: Action)
    ensures Merges([a]) == if Merging(a) then 1 else 0
  {
    assert [a][..0] == [];
  }

  lemma MergesOfTwo(a: Action, b: Action)
    ensures Merges([a, b]) == (if Merging(a) then 1 else 0) + if Merging(b) then 1 else 0
  {
    assert [a, b][..1] == [a];
    MergesOfOne(a);
  }

  lemma UnmergedSuccess(job: Job, w: World, cfg: Settings)
    ensures Merges(RunAttempts(job, w, cfg)) == 1 && !MergedSomething(RunAttempts(job, w, cfg)) <==>
            WorkAccepted(w) && UsesPrPhase(job, w, cfg) && w.bodyOk && w.create.Opened? && Justified(w)
            && job.autoMerge && w.autoMergeOk
  {
    hide Merges, Requests, UsesPrPhase, Justified, WorkAccepted;
    var merge := FfMerge(JobRepo(job, cfg), w.ffMergeOk);
    MergesOfOne(merge);
    assert Merges([]) == 0 by { NoMerges(); }
    if w.create.Opened? { AttemptedMerges(job, w, w.create.number); }
    if w.ffMergeOk { assert merge in [merge]; }
  }

  lemma NoMerges()
    ensures Merges([]) == 0
  {
  }

  /** When a row says `merged` although neither git nor GitHub merged anything, for this run or before it: exactly when
      accepted work was split and no changed file was listed, or a merge was only asked for. */
  lemma MergedWithoutMerge(row: JobRow, job: Job, w: World, cfg: Settings)
    requires row.status == Queued
    ensures var t := BackgroundTrace(job, w, cfg);
            && RowAfter(row, t).status == Status.Merged && !MergedSomething(t)
            && !(WorkAccepted(w) && MergedElsewhere(job, w, cfg))
            <==> WorkAccepted(w) && (NothingListed(job, w) || OnlyRequested(job, w, cfg))
  {
    hide BackgroundTrace, RowAfter, Legal, Merges, MergedSomething, RunAttempts, Attempts, WorkAccepted, AllOpen, WaitResult;
    var t := BackgroundTrace(job, w, cfg);
    RunEnds(row, job, w, cfg);
    AttemptsAreExact(job, w, cfg);
    MergesAreAttempts(t);
    MergedIffAttempted(job, w, cfg);
    UnmergedSuccess(job, w, cfg);
    if NothingListed(job, w) { ListedNothingAttempts(job, w, cfg); }
  }

  lemma ListedNothingAttempts(job: Job, w: World, cfg: Settings)
    requires NothingListed(job, w)
    ensures RunAttempts(job, w, cfg) == [] && !UsesPrPhase(job, w, cfg) && !MergedSomething([])
  {
  }

  /** A run that listed no changed file is recorded as merged: it attempts no merge and leaves its worktree behind. */
  lemma EmptyDiffIsReportedMerged(row: JobRow, job: Job, w: World, cfg: Settings)
    requires row.status == Queued && WorkAccepted(w) && NothingListed(job, w)
    ensures var t := BackgroundTrace(job, w, cfg);
            RowAfter(row, t).status == Status.Merged && Quietly(t) && RemoveWorktree !in t
  {
    hide BackgroundTrace, RowAfter, Legal, Merges, Parked, SplitPlan.Plan, RunPrPhase;
    RunEnds(row, job, w, cfg);
    AcceptedTrace(job, w, cfg);
    assert Landing(job, w, cfg, w.code.cost + w.review.cost) ==
           Segment([Finish(Status.Merged, Some(w.code.cost + w.review.cost), None)], Completed);
  }

  /** A job whose pull request was only queued for automatic merging is recorded as merged all the same, exactly when
      the request was granted outside a stack. */
  lemma AutoMergeIsReportedMerged(row: JobRow, job: Job, w: World, cfg: Settings, k: nat)
    requires row.status == Queued && !Stacked(job)
    ensures var t := BackgroundTrace(job, w, cfg);
            && (EnableAutoMerge(k, true) in t <==>
                WorkAccepted(w) && OnlyRequested(job, w, cfg) && w.create == Opened(k))
            && (EnableAutoMerge(k, true) in t ==> RowAfter(row, t).status == Status.Merged && !MergedSomething(t))
  {
    hide BackgroundTrace, RowAfter, MergedSomething, Attempts, WorkAccepted, UsesPrPhase, Justified, MergedElsewhere;
    var t := BackgroundTrace(job, w, cfg);
    MergedWithoutMerge(row, job, w, cfg);
    AttemptsAreExact(job, w, cfg);
    AttemptsMember(t, EnableAutoMerge(k, true));
  }

  // ---- Such runs exist ----

  const Defaults: Settings := Settings("/repo", "main", false, "auto", 10, 1, 8)

  function Simple(mode: PrMode, auto: bool, split: Option<int>): Job {
    Job(mode, "main", None, auto, split, "w", "t", [], "", [])
  }

  /** Agents and verifier are content, no changed file is listed, and the pull request shows `s` at the first poll. */
  function Content(s: PrStatus): World {
    World(true, "b", Answered(false, true, 0.0), Answered(false, true, 0.0), Accepted,
          true, Some([]), true, Opened(7), [Seen(s)], true, true, "s", (i: nat) => CommitRaised, (i: nat) => "c")
  }

  lemma ContentIs(s: PrStatus)
    requires Stops(s)
    ensures WorkAccepted(Content(s)) && WaitResult(Content(s).polls) == Ready(s)
  {
  }

  /** Both kinds of unmerged `merged` rows occur. */
  lemma UnmergedRowsExist()
    ensures var w := Content(PrStatus(Open, false, Success, Approved));
            && WorkAccepted(w)
            && NothingListed(Simple(Draft, false, Some(2)), w)
            && OnlyRequested(Simple(Draft, true, None), w, Defaults)
  {
    ContentIs(PrStatus(Open, false, Success, Approved));
  }

  /** A pull request that somebody closed, its checks still running, is asked to be merged. */
  lemma ClosedIsStillMerged()
    ensures var w := Content(PrStatus(Closed, false, Pending, NoReview));
            MergePr(7, true) in BackgroundTrace(Simple(Draft, false, None), w, Defaults)
  {
    hide BackgroundTrace, Attempts;
    var job, w := Simple(Draft, false, None), Content(PrStatus(Closed, false, Pending, NoReview));
    ContentIs(PrStatus(Closed, false, Pending, NoReview));
    AttemptsAreExact(job, w, Defaults);
    assert RunAttempts(job, w, Defaults) == [MergePr(7, true)];
    AttemptsMember(BackgroundTrace(job, w, Defaults), MergePr(7, true));
  }
}
