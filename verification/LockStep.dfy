/** The background run refines the synchronous one. */
module LockStep {
  import opened Wrappers
  import opened Jobs
  import opened MergeQueue
  import opened QueueProperties

  /** A stretch of the background run and the matching stretch of the synchronous one. */
  ghost predicate Agrees(row: JobRow, body: Segment, s: SyncRun, sameRepo: bool) {
    var last := RowAfter(row, body.actions);
    && (sameRepo ==> External(body.actions) == s.actions)
    && match body.ending
       case Crashed => s.result == None && last.cost == row.cost
       case Expired =>
         s.result == Some(MergeResult(false, true, 0.0, true)) && last.cost == row.cost &&
         RemoveWorktree !in body.actions
       case Completed =>
         && s.result.Some? && !s.result.value.timeout
         && (last.status == Merged || last.status == Failed)
         && (s.result.value.merged <==> last.status == Merged)
         && s.result.value.cost == last.cost
         && (s.result.value.preserved <==> RemoveWorktree !in body.actions)
  }

  lemma AgreesAfter(row: JobRow, prefix: seq<Action>, seen: seq<Action>, body: Segment, s: SyncRun, sameRepo: bool)
    requires External(prefix) == seen && RemoveWorktree !in prefix && RowAfter(row, prefix).cost == row.cost
    requires Agrees(RowAfter(row, prefix), body, s, sameRepo)
    ensures Agrees(row, body.After(prefix), s.After(seen), sameRepo)
  {
    Concatenation(row, prefix, body.actions);
  }

  /** Both runs merge in the same repository. */
  ghost predicate SameRepo(job: Job, cfg: Settings) {
    JobRepo(job, cfg) == cfg.runnerRepo
  }

  lemma DiscardAgrees(row: JobRow, cost: real, sameRepo: bool)
    ensures Agrees(row, Discard(cost), SyncDiscard(cost), sameRepo)
  {
    hide External, RowAfter;
    ReadThree(row, RemoveWorktree, DeleteBranch, Finish(Failed, Some(cost), None));
  }

  lemma LandingAgrees(row: JobRow, job: Job, w: World, cfg: Settings, cost: real, same: bool)
    requires job.prMode == Off && (same ==> SameRepo(job, cfg))
    ensures Agrees(row, Landing(job, w, cfg, cost), SyncLanding(w, cfg, cost), same)
  {
    hide External, RowAfter, JobRepo;
    var repo := JobRepo(job, cfg);
    var merge, end := FfMerge(repo, true), Finish(Merged, Some(cost), None);
    ReadTwo(row, FfMerge(repo, false), Finish(Failed, Some(cost), None));
    assert [merge, RemoveWorktree, DeleteBranch, end] == [merge] + [RemoveWorktree, DeleteBranch, end];
    Prepend(row, merge, [RemoveWorktree, DeleteBranch, end]);
    ReadThree(row, RemoveWorktree, DeleteBranch, end);
  }

  lemma JudgingAgrees(row: JobRow, job: Job, w: World, cfg: Settings, cost: real, same: bool)
    requires job.prMode == Off && (same && w.verdict == Accepted ==> SameRepo(job, cfg))
    ensures Agrees(row, Judging(job, w, cfg, cost), SyncJudge(w, cfg, cost), same)
  {
    hide External, RowAfter, Landing, SyncLanding, JobRepo;
    var a, b, stop := Move(Verifying), Verify(w.verdict), Finish(Failed, Some(cost), None);
    ReadTwo(row, a, b);
    ReadThree(row, a, b, stop);
    assert [a, b] + [stop] == [a, b, stop];
    if w.verdict == Accepted {
      LandingAgrees(RowAfter(row, [a, b]), job, w, cfg, cost, same);
      AgreesAfter(row, [a, b], [b], Landing(job, w, cfg, cost), SyncLanding(w, cfg, cost), same);
    }
  }

  lemma ReviewingAgrees(row: JobRow, job: Job, w: World, cfg: Settings, codeCost: real, same: bool)
    requires job.prMode == Off
    requires same && w.review.Answered? && (w.review.error ==> w.review.text) && w.verdict == Accepted ==> SameRepo(job, cfg)
    ensures Agrees(row, Reviewing(job, w, cfg, codeCost), SyncReview(w, cfg, codeCost), same)
  {
    hide External, RowAfter, Judging, SyncJudge, JobRepo;
    var a, b := Move(RunningReview), CallAgent(Reviewer);
    ReadTwo(row, a, b);
    if w.review.Answered? {
      var cost := codeCost + w.review.cost;
      if w.review.error && !w.review.text {
        DiscardAgrees(RowAfter(row, [a, b]), cost, same);
        AgreesAfter(row, [a, b], [b], Discard(cost), SyncDiscard(cost), same);
      } else {
        JudgingAgrees(RowAfter(row, [a, b]), job, w, cfg, cost, same);
        AgreesAfter(row, [a, b], [b], Judging(job, w, cfg, cost), SyncJudge(w, cfg, cost), same);
      }
    }
  }

  /** The synchronous run once its worktree is open. */
  function SyncCoding(w: World, cfg: Settings): SyncRun {
    var start := [CallAgent(Coder)];
    match w.code
    case OutOfTime => SyncRun(start, Some(MergeResult(false, true, 0.0, true)))
    case AgentRaised => SyncRun(start, None)
    case Answered(error, text, cost) =>
      (if error && !text then SyncDiscard(cost) else SyncReview(w, cfg, cost)).After(start)
  }

  lemma CodingAgrees(row: JobRow, job: Job, w: World, cfg: Settings, same: bool)
    requires job.prMode == Off && w.worktreeOk && (same && WorkAccepted(w) ==> SameRepo(job, cfg))
    ensures Agrees(row, Coding(job, w, cfg), SyncCoding(w, cfg), same)
  {
    hide External, RowAfter, Reviewing, SyncReview, JobRepo;
    var a, b := Move(RunningCode), CallAgent(Coder);
    ReadTwo(row, a, b);
    if w.code.Answered? {
      if w.code.error && !w.code.text {
        DiscardAgrees(RowAfter(row, [a, b]), w.code.cost, same);
        AgreesAfter(row, [a, b], [b], Discard(w.code.cost), SyncDiscard(w.code.cost), same);
      } else {
        ReviewingAgrees(RowAfter(row, [a, b]), job, w, cfg, w.code.cost, same);
        AgreesAfter(row, [a, b], [b], Reviewing(job, w, cfg, w.code.cost), SyncReview(w, cfg, w.code.cost), same);
      }
    }
  }

  lemma SyncTraceIs(job: Job, w: World, cfg: Settings)
    requires job.prMode == Off && !Splits(job) && w.worktreeOk
    ensures SyncTrace(job, w, cfg) == SyncCoding(w, cfg).After([OpenWorktree(true)])
  {
    hide SyncReview;
    var s := SyncTrace(job, w, cfg).actions;
    assert [OpenWorktree(true)] + [CallAgent(Coder)] == [OpenWorktree(true), CallAgent(Coder)];
    if w.code.Answered? {
      var rest := if w.code.error && !w.code.text then SyncDiscard(w.code.cost) else SyncReview(w, cfg, w.code.cost);
      assert [OpenWorktree(true), CallAgent(Coder)] + rest.actions == [OpenWorktree(true)] + ([CallAgent(Coder)] + rest.actions);
    }
  }

  /** The worktree was opened and left for a human. */
  predicate WorktreeLeft(t: seq<Action>) {
    OpenWorktree(true) in t && RemoveWorktree !in t
  }

  /** The result of the synchronous call and the row of the background run tell the same story. */
  ghost predicate SameOutcome(result: Option<MergeResult>, row: JobRow, t: seq<Action>) {
    match result
    case None => row.status == Failed && row.cost == 0.0
    case Some(r) =>
      && (r.merged <==> row.status == Merged)
      && (r.timeout <==> row.status == Timeout)
      && (!r.merged && !r.timeout ==> row.status == Failed)
      && r.cost == row.cost
      && (r.preserved <==> WorktreeLeft(t))
  }

  /** With local merging and no split, both versions ask the same of the world and end alike. */
  lemma BackgroundRefinesSync(row: JobRow, job: Job, w: World, cfg: Settings)
    requires row.status == Queued && row.cost == 0.0
    requires job.prMode == Off && !Splits(job)
    ensures var t, s := BackgroundTrace(job, w, cfg), SyncTrace(job, w, cfg);
            && SameOutcome(s.result, RowAfter(row, t), t)
            && (SameRepo(job, cfg) || !WorkAccepted(w) ==> External(t) == s.actions)
  {
    hide External, RowAfter, Coding, SyncCoding, JobRepo, SyncReview;
    var same := SameRepo(job, cfg) || !WorkAccepted(w);
    if w.worktreeOk {
      SyncTraceIs(job, w, cfg);
      Single(row, OpenWorktree(true));
      CodingAgrees(RowAfter(row, [OpenWorktree(true)]), job, w, cfg, same);
      var body := Coding(job, w, cfg).After([OpenWorktree(true)]);
      AgreesAfter(row, [OpenWorktree(true)], [OpenWorktree(true)], Coding(job, w, cfg), SyncCoding(w, cfg), same);
      assert body.actions[0] == OpenWorktree(true);
      OutcomeOfBody(row, body, SyncTrace(job, w, cfg), same);
    } else {
      ReadTwo(row, OpenWorktree(false), Finish(Failed, None, None));
    }
  }

  lemma OutcomeOfBody(row: JobRow, body: Segment, s: SyncRun, sameRepo: bool)
    requires row.cost == 0.0 && OpenWorktree(true) in body.actions && Agrees(row, body, s, sameRepo)
    ensures SameOutcome(s.result, RowAfter(row, Handled(body)), Handled(body))
    ensures sameRepo ==> External(Handled(body)) == s.actions
  {
    hide External, RowAfter;
    if body.ending != Completed {
      var end := Finish(if body.ending == Expired then Timeout else Failed, None, None);
      Single(RowAfter(row, body.actions), end);
      Concatenation(row, body.actions, [end]);
    }
  }

  lemma {:induction false} ExternalKeeps(t: seq<Action>, a: Action)
    requires !a.SetStatus?
    ensures a in External(t) <==> a in t
  {
    if t != [] {
      ExternalKeeps(t[..|t| - 1], a);
      assert t == t[..|t| - 1] + [t[|t| - 1]];
    }
  }

  /** For local merging, the two versions are in lock-step exactly when nothing is split and no merge is
      redirected to another repository. */
  lemma LockStepExactly(row: JobRow, job: Job, w: World, cfg: Settings)
    requires row.status == Queued && row.cost == 0.0 && job.prMode == Off
    ensures External(BackgroundTrace(job, w, cfg)) == SyncTrace(job, w, cfg).actions
            <==> !Splits(job) && (SameRepo(job, cfg) || !WorkAccepted(w))
  {
    hide External, BackgroundTrace, SyncTrace, JobRepo;
    var t := BackgroundTrace(job, w, cfg);
    if Splits(job) {
      WorktreeIsAsked(job, w, cfg);
      ExternalKeeps(t, OpenWorktree(w.worktreeOk));
    } else if SameRepo(job, cfg) || !WorkAccepted(w) {
      BackgroundRefinesSync(row, job, w, cfg);
    } else {
      MergesGoApart(job, w, cfg);
      ExternalKeeps(t, FfMerge(JobRepo(job, cfg), w.ffMergeOk));
    }
  }

  lemma WorktreeIsAsked(job: Job, w: World, cfg: Settings)
    ensures OpenWorktree(w.worktreeOk) in BackgroundTrace(job, w, cfg)
    ensures Splits(job) ==> SyncTrace(job, w, cfg).actions == []
  {
    hide Coding;
  }

  lemma MergesGoApart(job: Job, w: World, cfg: Settings)
    requires job.prMode == Off && !Splits(job) && WorkAccepted(w) && !SameRepo(job, cfg)
    ensures FfMerge(JobRepo(job, cfg), w.ffMergeOk) in BackgroundTrace(job, w, cfg)
    ensures FfMerge(JobRepo(job, cfg), w.ffMergeOk) !in SyncTrace(job, w, cfg).actions
  {
    hide BackgroundTrace, JobRepo, RunPrPhase, RunStackPhase;
    AcceptedTrace(job, w, cfg);
    var landing := Landing(job, w, cfg, w.code.cost + w.review.cost).actions;
    assert landing[0] == FfMerge(JobRepo(job, cfg), w.ffMergeOk);
  }
}
