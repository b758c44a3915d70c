/** What a run leaves on record and on disk: its cost, its pull request, a timeout, and its worktree. */
module RunRecord {
  import opened Wrappers
  import opened Jobs
  import opened PrChecks
  import opened MergeQueue
  import opened QueueProperties
  import opened MergeAttempts
  import SplitPlan

  // ---- The last word of a trace ----

  /** What a trace writes last as cost, as pull request and as status, if anything. */
  datatype Words = Words(cost: Option<real>, pr: Option<nat>, status: Option<Status>)

  function Or<T>(a: Option<T>, b: Option<T>): Option<T> {
    if b.Some? then b else a
  }

  function Later(a: Words, b: Words): Words {
    Words(Or(a.cost, b.cost), Or(a.pr, b.pr), Or(a.status, b.status))
  }

  function WordOf(a: Action): Words {
    if a.SetStatus? then Words(a.update.cost, a.update.prNumber, Some(a.update.status)) else Words(None, None, None)
  }

  function LastWords(t: seq<Action>): Words {
    if t == [] then Words(None, None, None) else Later(LastWords(t[..|t| - 1]), WordOf(t[|t| - 1]))
  }

  lemma {:induction false} WordsAdd(a: seq<Action>, b: seq<Action>)
    ensures LastWords(a + b) == Later(LastWords(a), LastWords(b))
  {
    if b == [] {
      assert a + b == a;
    } else {
      WordsAdd(a, b[..|b| - 1]);
      assert (a + b)[..|a + b| - 1] == a + b[..|b| - 1];
    }
  }

  lemma WordsOfOne(a: Action)
    ensures LastWords([a]) == WordOf(a)
  {
    assert [a][..0] == [];
  }

  lemma WordsMore(t: seq<Action>, a: Action)
    ensures LastWords(t + [a]) == Later(LastWords(t), WordOf(a))
  {
    WordsAdd(t, [a]);
    WordsOfOne(a);
  }

  /** The row shows the last words. */
  lemma {:induction false} RowShowsWords(row: JobRow, t: seq<Action>)
    ensures var last, after := LastWords(t), RowAfter(row, t);
            && after.cost == (if last.cost.Some? then last.cost.value else row.cost)
            && after.prNumber == Or(row.prNumber, last.pr)
            && after.status == (if last.status.Some? then last.status.value else row.status)
  {
    if t != [] { RowShowsWords(row, t[..|t| - 1]); }
  }

  /** Actions that write nothing into the row. */
  lemma {:induction false} SilentWords(t: seq<Action>)
    requires forall a :: a in t ==> !a.SetStatus?
    ensures LastWords(t) == Words(None, None, None)
  {
    if t != [] {
      assert t[|t| - 1] in t;
      SilentWords(t[..|t| - 1]);
    }
  }

  /** Moves write a status and nothing else. */
  lemma {:induction false} MovingWords(t: seq<Action>)
    requires forall a :: a in t && a.SetStatus? ==> a.update.cost == None && a.update.prNumber == None && a.update.status != Timeout
    ensures LastWords(t).cost == None && LastWords(t).pr == None && LastWords(t).status != Some(Timeout)
  {
    if t != [] {
      assert t[|t| - 1] in t;
      MovingWords(t[..|t| - 1]);
    }
  }

  // ---- The pull request phase ----

  /** The phase merged by its own hand, not through a request. */
  predicate MergedItself(job: Job, w: World, cfg: Settings) {
    && w.bodyOk
    && match w.create
       case GhMissing => cfg.fallBackToLocal && w.ffMergeOk
       case CreateFailed => false
       case Opened(_) => Justified(w) && !(job.autoMerge && w.autoMergeOk) && w.mergeOk
  }

  function PhaseCost(job: Job, w: World, cfg: Settings, cost: real): Option<real> {
    if !w.bodyOk || MergedItself(job, w, cfg) then None else Some(cost)
  }

  function PhaseNumber(w: World): Option<nat> {
    if w.bodyOk && w.create.Opened? then Some(w.create.number) else None
  }

  ghost predicate PhaseSays(t: seq<Action>, cost: Option<real>, pr: Option<nat>) {
    LastWords(t).cost == cost && LastWords(t).pr == pr && LastWords(t).status != Some(Timeout)
  }

  lemma MergePhaseSays(job: Job, w: World, cost: real, k: nat)
    ensures var words := LastWords(MergePhase(job, w, cost, k).actions);
            && words.cost == (if !(job.autoMerge && w.autoMergeOk) && w.mergeOk then None else Some(cost))
            && words.pr == (if !(job.autoMerge && w.autoMergeOk) && w.mergeOk then None else Some(k))
            && words.status != Some(Timeout)
  {
    hide LastWords;
    var fail := Finish(Failed, Some(cost), Some(k));
    if job.autoMerge && w.autoMergeOk {
      var asked := SetStatus(Update(PrAutoMergeEnabled, false, Some(cost), Some(k)));
      MovingWords([Move(MergingPr), EnableAutoMerge(k, true)]);
      WordsMore([Move(MergingPr), EnableAutoMerge(k, true)], asked);
      assert [Move(MergingPr), EnableAutoMerge(k, true)] + [asked] == [Move(MergingPr), EnableAutoMerge(k, true), asked];
    } else {
      var tried := [Move(MergingPr)] + (if job.autoMerge then [EnableAutoMerge(k, false)] else []) + [MergePr(k, w.mergeOk)];
      MovingWords(tried);
      WordsMore(tried, fail);
    }
  }

  lemma FailureSays(prefix: seq<Action>, cost: real, k: Option<nat>)
    requires LastWords(prefix).pr.Some? ==> LastWords(prefix).pr == k
    ensures PhaseSays(prefix + [Finish(Failed, Some(cost), k)], Some(cost), k)
  {
    hide LastWords;
    WordsMore(prefix, Finish(Failed, Some(cost), k));
  }

  lemma WatchPhaseSays(job: Job, w: World, cost: real, k: nat)
    ensures var words := LastWords(WatchPhase(job, w, cost, k).actions);
            && words.cost == (if Justified(w) && !(job.autoMerge && w.autoMergeOk) && w.mergeOk then None else Some(cost))
            && (words.pr.Some? ==> words.pr == Some(k))
            && words.status != Some(Timeout)
  {
    hide LastWords, MergePhase, WaitResult;
    var fail, landed := Finish(Failed, Some(cost), Some(k)), Finish(Status.Merged, Some(cost), Some(k));
    var waits := [Move(PrWaitingReview)];
    MovingWords([]);
    MovingWords(waits);
    WordsOfOne(fail);
    WordsMore([], landed);
    WordsMore(waits, fail);
    WordsMore(waits, landed);
    WordsAdd([], [fail]);
    assert [] + [fail] == [fail];
    if Justified(w) {
      var phase := MergePhase(job, w, cost, k).actions;
      MergePhaseSays(job, w, cost, k);
      WordsAdd(waits, phase);
      WordsAdd([], phase);
    }
  }

  lemma OpenedPhaseSays(job: Job, w: World, cfg: Settings, repo: Path, cost: real, k: nat)
    requires w.bodyOk && w.create == Opened(k)
    ensures PhaseSays(RunPrPhase(job, w, cfg, repo, cost).actions, PhaseCost(job, w, cfg, cost), Some(k))
  {
    hide LastWords, WatchPhase, Justified, Target;
    var first := [Move(PrCreating), CreatePr(w.branch, Target(job, cfg), Some(k))];
    var shown, waits := SetStatus(Update(PrOpen, false, None, Some(k))), [Move(PrWaitingChecks)];
    var watched := WatchPhase(job, w, cost, k).actions;
    MovingWords(first);
    MovingWords(waits);
    WordsMore(first, shown);
    WordsAdd(first + [shown], waits);
    WatchPhaseSays(job, w, cost, k);
    WordsAdd(first + [shown] + waits, watched);
    assert first + [shown] + waits == [Move(PrCreating), CreatePr(w.branch, Target(job, cfg), Some(k)), shown, Move(PrWaitingChecks)];
  }

  lemma PrPhaseSays(job: Job, w: World, cfg: Settings, repo: Path, cost: real)
    ensures PhaseSays(RunPrPhase(job, w, cfg, repo, cost).actions, PhaseCost(job, w, cfg, cost), PhaseNumber(w))
  {
    hide LastWords, WatchPhase, Justified, Target;
    MovingWords([]);
    if w.bodyOk {
      var tried := [Move(PrCreating), CreatePr(w.branch, Target(job, cfg), None)];
      var merge := [FfMerge(repo, w.ffMergeOk)];
      match w.create {
        case Opened(k) => OpenedPhaseSays(job, w, cfg, repo, cost, k);
        case CreateFailed =>
          MovingWords(tried);
          FailureSays(tried, cost, None);
        case GhMissing =>
          MovingWords(tried);
          MovingWords(tried + merge);
          FailureSays(tried, cost, None);
          FailureSays(tried + merge, cost, None);
      }
    }
  }

  // ---- Slices ----

  /** The first slice that does not open raises when its files are committed. */
  predicate SliceRaises(w: World, i: nat, n: nat)
    requires i <= n
  {
    var k := i + OpenedFrom(w, i, n);
    k < n && w.slices(k).CommitRaised?
  }

  lemma SliceSays(job: Job, w: World, cfg: Settings, repo: Path, cost: real,
                  plan: seq<SplitPlan.SplitSlice>, i: nat, previous: Option<nat>)
    requires i < |plan|
    ensures var s := RunSlice(job, w, cfg, repo, cost, plan, i, previous);
            && PhaseSays(s.actions, if s.pr.Some? || w.slices(i).CommitRaised? then None else Some(cost), None)
            && (s.pr.Some? <==> w.slices(i).SliceOpened?)
  {
    hide LastWords, ChildRow, SliceBase, SliceRepo;
    var t := RunSlice(job, w, cfg, repo, cost, plan, i, previous).actions;
    var stop := Finish(Failed, Some(cost), None);
    if w.slices(i).SliceOpened? || w.slices(i).CommitRaised? {
      SilentWords(t);
    } else {
      var front := if w.slices(i).CommitFailed? then t[..1] else if w.slices(i).PushFailed? then t[..2] else t[..3];
      SilentWords(front);
      WordsMore(front, stop);
      WordsMore(front + [stop], stop);
      assert t == front + [stop] || t == (front + [stop]) + [stop];
    }
  }

  lemma {:induction false} SlicesSay(job: Job, w: World, cfg: Settings, repo: Path, cost: real,
                                     plan: seq<SplitPlan.SplitSlice>, i: nat, previous: Option<nat>)
    requires i <= |plan|
    ensures PhaseSays(RunSlices(job, w, cfg, repo, cost, plan, i, previous).actions,
                      if SliceRaises(w, i, |plan|) then None else Some(cost), None)
    decreases |plan| - i
  {
    hide LastWords, RunSlice;
    if i == |plan| {
      WordsOfOne(SetStatus(Update(PrOpen, false, Some(cost), None)));
    } else {
      var step := RunSlice(job, w, cfg, repo, cost, plan, i, previous);
      SliceSays(job, w, cfg, repo, cost, plan, i, previous);
      if step.pr.Some? {
        SlicesSay(job, w, cfg, repo, cost, plan, i + 1, step.pr);
        WordsAdd(step.actions, RunSlices(job, w, cfg, repo, cost, plan, i + 1, step.pr).actions);
      }
    }
  }

  // ---- Accepted work ----

  /** The landing writes down what the run cost: not when it breaks off with an exception, and not when a stack that
      collapsed to one slice was merged directly. */
  predicate Charged(job: Job, w: World, cfg: Settings) {
    if !Stacked(job) then UsesPrPhase(job, w, cfg) ==> w.bodyOk
    else if NothingListed(job, w) then true
    else if !Planned(job, w, cfg) then false
    else if UsesPrPhase(job, w, cfg) then w.bodyOk && !MergedItself(job, w, cfg)
    else OpensStack(job, w, cfg) ==> !SliceRaises(w, 0, |PlanOf(job, w, cfg)|)
  }

  lemma StackSays(job: Job, w: World, cfg: Settings, repo: Path, cost: real)
    requires Stacked(job)
    ensures PhaseSays(RunStackPhase(job, w, cfg, repo, cost).actions,
                      if Charged(job, w, cfg) then Some(cost) else None,
                      if UsesPrPhase(job, w, cfg) then PhaseNumber(w) else None)
  {
    hide LastWords, RunPrPhase, RunSlices, SplitPlan.Plan, PlanRequest, MergedItself, StackIdOf, SliceRaises;
    MovingWords([]);
    WordsOfOne(Finish(Status.Merged, Some(cost), None));
    WordsOfOne(Finish(Failed, Some(cost), None));
    if Planned(job, w, cfg) {
      var plan := PlanOf(job, w, cfg);
      if |plan| <= 1 {
        PrPhaseSays(job, w, cfg, repo, cost);
      } else {
        var tag := [TagStack(StackIdOf(job, w), |plan|), Move(PrCreating)];
        MovingWords(tag);
        SlicesSay(job, w, cfg, repo, cost, plan, 0, None);
        WordsAdd(tag, RunSlices(job, w, cfg, repo, cost, plan, 0, None).actions);
      }
    }
  }

  lemma LandingSays(job: Job, w: World, cfg: Settings, cost: real)
    ensures PhaseSays(Landing(job, w, cfg, cost).actions,
                      if Charged(job, w, cfg) then Some(cost) else None,
                      if UsesPrPhase(job, w, cfg) then PhaseNumber(w) else None)
  {
    hide LastWords, RunPrPhase, RunStackPhase, Planned, PlanOf, MergedItself, JobRepo, SliceRaises, OpensStack;
    var repo := JobRepo(job, cfg);
    if Stacked(job) {
      StackSays(job, w, cfg, repo, cost);
    } else if UsesPrPhase(job, w, cfg) {
      SinglePrSays(job, w, cfg, repo, cost);
    } else {
      LocalSays(repo, w.ffMergeOk, cost);
    }
  }

  lemma SinglePrSays(job: Job, w: World, cfg: Settings, repo: Path, cost: real)
    ensures var phase := RunPrPhase(job, w, cfg, repo, cost);
            && (phase.crashed <==> !w.bodyOk) && (phase.merged ==> w.bodyOk)
            && PhaseSays(if phase.merged
                         then phase.actions + [RemoveWorktree, DeleteBranch, Finish(Status.Merged, Some(cost), phase.number)]
                         else phase.actions,
                         if w.bodyOk then Some(cost) else None, PhaseNumber(w))
  {
    hide LastWords, RunPrPhase, ReportsMerge, WaitResult;
    var phase := RunPrPhase(job, w, cfg, repo, cost);
    PrPhaseSays(job, w, cfg, repo, cost);
    PhaseReports(job, w, cfg, repo, cost);
    PhaseNumberIs(job, w, cfg, repo, cost);
    MergedItselfReports(job, w, cfg);
    if phase.merged {
      var removes, end := [RemoveWorktree, DeleteBranch], Finish(Status.Merged, Some(cost), phase.number);
      SilentWords(removes);
      WordsMore(removes, end);
      WordsAdd(phase.actions, removes + [end]);
      assert removes + [end] == [RemoveWorktree, DeleteBranch, end];
    }
  }

  lemma MergedItselfReports(job: Job, w: World, cfg: Settings)
    ensures MergedItself(job, w, cfg) ==> ReportsMerge(job, w, cfg)
    ensures ReportsMerge(job, w, cfg) ==> w.bodyOk
  {
  }

  lemma PhaseNumberIs(job: Job, w: World, cfg: Settings, repo: Path, cost: real)
    ensures RunPrPhase(job, w, cfg, repo, cost).number == PhaseNumber(w)
  {
    hide WaitResult, Target;
  }

  lemma LocalSays(repo: Path, ok: bool, cost: real)
    ensures PhaseSays([FfMerge(repo, ok), RemoveWorktree, DeleteBranch, Finish(Status.Merged, Some(cost), None)], Some(cost), None)
    ensures PhaseSays([FfMerge(repo, ok), Finish(Failed, Some(cost), None)], Some(cost), None)
  {
    hide LastWords;
    var three, one := [FfMerge(repo, ok), RemoveWorktree, DeleteBranch], [FfMerge(repo, ok)];
    var merged, failed := Finish(Status.Merged, Some(cost), None), Finish(Failed, Some(cost), None);
    SilentWords(three);
    SilentWords(one);
    WordsMore(three, merged);
    WordsMore(one, failed);
    assert three + [merged] == [FfMerge(repo, ok), RemoveWorktree, DeleteBranch, merged];
    assert one + [failed] == [FfMerge(repo, ok), failed];
  }

  // ---- Whole runs ----

  /** The coder produced something, the reviewer did. */
  predicate Coded(w: World) {
    w.worktreeOk && w.code.Answered? && (w.code.error ==> w.code.text)
  }

  predicate Reviewed(w: World) {
    Coded(w) && w.review.Answered? && (w.review.error ==> w.review.text)
  }

  /** What the run is known to have cost when it ends, if it says. */
  function Bill(job: Job, w: World, cfg: Settings): Option<real> {
    if !w.worktreeOk || !w.code.Answered? then None
    else if !Coded(w) then Some(w.code.cost)
    else if !w.review.Answered? then None
    else if !Reviewed(w) || w.verdict == Rejected then Some(w.code.cost + w.review.cost)
    else if w.verdict == VerifierRaised || !Charged(job, w, cfg) then None
    else Some(w.code.cost + w.review.cost)
  }

  /** An agent ran out of time. */
  predicate OutOfTimeRun(w: World) {
    w.worktreeOk && (w.code == OutOfTime || (Coded(w) && w.review == OutOfTime))
  }

  ghost predicate RunSays(job: Job, w: World, cfg: Settings, t: seq<Action>) {
    && LastWords(t).cost == Bill(job, w, cfg)
    && LastWords(t).pr == (if WorkAccepted(w) && UsesPrPhase(job, w, cfg) then PhaseNumber(w) else None)
    && (LastWords(t).status == Some(Timeout) <==> OutOfTimeRun(w))
  }

  lemma AcceptedSays(job: Job, w: World, cfg: Settings)
    requires WorkAccepted(w)
    ensures RunSays(job, w, cfg, BackgroundTrace(job, w, cfg))
  {
    hide LastWords, BackgroundTrace, Landing, Charged, UsesPrPhase;
    var cost := w.code.cost + w.review.cost;
    var landing := Landing(job, w, cfg, cost);
    AcceptedTrace(job, w, cfg);
    LandingSays(job, w, cfg, cost);
    MovingWords(UntilVerdict(w));
    WordsAdd(UntilVerdict(w), Handled(landing));
    LandingNeverExpires(job, w, cfg, cost);
    if landing.ending == Crashed { WordsMore(landing.actions, Finish(Failed, None, None)); }
  }

  lemma LandingNeverExpires(job: Job, w: World, cfg: Settings, cost: real)
    ensures Landing(job, w, cfg, cost).ending != Expired
  {
    hide RunPrPhase, RunSlices, SplitPlan.Plan, JobRepo;
    if Stacked(job) && Planned(job, w, cfg) {
      SlicesNeverExpire(job, w, cfg, JobRepo(job, cfg), cost, PlanOf(job, w, cfg), 0, None);
    }
  }

  lemma {:induction false} SlicesNeverExpire(job: Job, w: World, cfg: Settings, repo: Path, cost: real,
                                             plan: seq<SplitPlan.SplitSlice>, i: nat, previous: Option<nat>)
    ensures RunSlices(job, w, cfg, repo, cost, plan, i, previous).ending != Expired
    decreases |plan| - i
  {
    hide ChildRow, SliceBase, SliceRepo;
    if i < |plan| {
      var step := RunSlice(job, w, cfg, repo, cost, plan, i, previous);
      if step.pr.Some? { SlicesNeverExpire(job, w, cfg, repo, cost, plan, i + 1, step.pr); }
    }
  }

  /** The traces of work that was not accepted, in full. */
  function UnacceptedRun(w: World): seq<Action>
    requires !WorkAccepted(w)
  {
    if !w.worktreeOk then [OpenWorktree(false), Finish(Failed, None, None)]
    else
      var coding := [OpenWorktree(true), Move(RunningCode), CallAgent(Coder)];
      if !w.code.Answered? then coding + [Finish(if w.code == OutOfTime then Timeout else Failed, None, None)]
      else if !Coded(w) then coding + [RemoveWorktree, DeleteBranch, Finish(Failed, Some(w.code.cost), None)]
      else
        var reviewing := coding + [Move(RunningReview), CallAgent(Reviewer)];
        if !w.review.Answered? then reviewing + [Finish(if w.review == OutOfTime then Timeout else Failed, None, None)]
        else
          var cost := w.code.cost + w.review.cost;
          if !Reviewed(w) then reviewing + [RemoveWorktree, DeleteBranch, Finish(Failed, Some(cost), None)]
          else
            reviewing + [Move(Verifying), Verify(w.verdict)] +
            [Finish(Failed, if w.verdict == Rejected then Some(cost) else None, None)]
  }

  lemma UnreviewedRunIs(job: Job, w: World, cfg: Settings)
    requires !Coded(w)
    ensures !WorkAccepted(w) && BackgroundTrace(job, w, cfg) == UnacceptedRun(w)
  {
    hide Reviewing;
  }

  lemma ReviewingIs(job: Job, w: World, cfg: Settings, cost: real)
    requires !WorkAccepted(w) && Coded(w) && cost == w.code.cost
    ensures var body := Reviewing(job, w, cfg, cost);
            && body.ending == (if w.review == OutOfTime then Expired
                               else if w.review == AgentRaised || (Reviewed(w) && w.verdict == VerifierRaised) then Crashed
                               else Completed)
            && body.actions == [Move(RunningReview), CallAgent(Reviewer)] +
               (if !w.review.Answered? then []
                else if !Reviewed(w) then [RemoveWorktree, DeleteBranch, Finish(Failed, Some(cost + w.review.cost), None)]
                else [Move(Verifying), Verify(w.verdict)] +
                     if w.verdict == Rejected then [Finish(Failed, Some(cost + w.review.cost), None)] else [])
  {
    hide Landing;
    assert [Move(RunningReview), CallAgent(Reviewer)] + [] == [Move(RunningReview), CallAgent(Reviewer)];
  }

  lemma UnacceptedRunIs(job: Job, w: World, cfg: Settings)
    requires !WorkAccepted(w)
    ensures BackgroundTrace(job, w, cfg) == UnacceptedRun(w)
  {
    if !Coded(w) {
      UnreviewedRunIs(job, w, cfg);
    } else {
      hide Reviewing;
      ReviewingIs(job, w, cfg, w.code.cost);
    }
  }

  lemma UnacceptedSays(job: Job, w: World, cfg: Settings)
    requires !WorkAccepted(w)
    ensures RunSays(job, w, cfg, BackgroundTrace(job, w, cfg))
  {
    hide LastWords, BackgroundTrace, Charged, UsesPrPhase;
    UnacceptedRunIs(job, w, cfg);
    var t := UnacceptedRun(w);
    var front, end := t[..|t| - 1], t[|t| - 1];
    assert t == front + [end];
    MovingWords(front);
    WordsMore(front, end);
  }

  /** What the row shows after a run: the cost known, if it is, the number of its pull request, if it opened one, and a
      timeout exactly when an agent ran out of time. */
  lemma RunIsRecorded(row: JobRow, job: Job, w: World, cfg: Settings)
    ensures var after := RowAfter(row, BackgroundTrace(job, w, cfg));
            && after.cost == (if Bill(job, w, cfg).Some? then Bill(job, w, cfg).value else row.cost)
            && after.prNumber == (if WorkAccepted(w) && UsesPrPhase(job, w, cfg) && w.bodyOk && w.create.Opened?
                                  then Some(w.create.number) else row.prNumber)
            && (row.status != Timeout ==> (after.status == Timeout <==> OutOfTimeRun(w)))
  {
    hide BackgroundTrace, LastWords, RowAfter, Bill, WorkAccepted, UsesPrPhase, OutOfTimeRun;
    var t := BackgroundTrace(job, w, cfg);
    RowShowsWords(row, t);
    if WorkAccepted(w) { AcceptedSays(job, w, cfg); } else { UnacceptedSays(job, w, cfg); }
    TimeoutIsWritten(row, w, t);
  }

  lemma TimeoutIsWritten(row: JobRow, w: World, t: seq<Action>)
    requires LastWords(t).status == Some(Timeout) <==> OutOfTimeRun(w)
    ensures row.status != Timeout ==> (RowAfter(row, t).status == Timeout <==> OutOfTimeRun(w))
  {
    hide RowAfter, LastWords, OutOfTimeRun;
    RowShowsWords(row, t);
  }

  // ---- The worktree ----

  /** The actions that clear the worktree away. */
  predicate Clears(a: Action) {
    a == RemoveWorktree || a == DeleteBranch
  }

  predicate Leaves(t: seq<Action>) {
    forall a :: a in t ==> !Clears(a)
  }

  lemma PhaseLeaves(job: Job, w: World, cfg: Settings, repo: Path, cost: real)
    ensures Leaves(RunPrPhase(job, w, cfg, repo, cost).actions)
  {
    hide WaitResult, Target, MergePhase;
    if w.create.Opened? { MergeLeaves(job, w, cost, w.create.number); }
  }

  lemma MergeLeaves(job: Job, w: World, cost: real, k: nat)
    ensures Leaves(MergePhase(job, w, cost, k).actions)
  {
  }

  lemma {:induction false} SlicesLeave(job: Job, w: World, cfg: Settings, repo: Path, cost: real,
                                       plan: seq<SplitPlan.SplitSlice>, i: nat, previous: Option<nat>)
    ensures Leaves(RunSlices(job, w, cfg, repo, cost, plan, i, previous).actions)
    decreases |plan| - i
  {
    hide RunSlice;
    if i < |plan| {
      var step := RunSlice(job, w, cfg, repo, cost, plan, i, previous);
      SliceLeaves(job, w, cfg, repo, cost, plan, i, previous);
      if step.pr.Some? { SlicesLeave(job, w, cfg, repo, cost, plan, i + 1, step.pr); }
    }
  }

  lemma SliceLeaves(job: Job, w: World, cfg: Settings, repo: Path, cost: real,
                    plan: seq<SplitPlan.SplitSlice>, i: nat, previous: Option<nat>)
    requires i < |plan|
    ensures Leaves(RunSlice(job, w, cfg, repo, cost, plan, i, previous).actions)
  {
    hide ChildRow, SliceBase, SliceRepo;
  }

  /** A worktree is cleared away after accepted work when the work landed and was not split. */
  predicate ClearedLanding(job: Job, w: World, cfg: Settings) {
    !Stacked(job) && if UsesPrPhase(job, w, cfg) then ReportsMerge(job, w, cfg) else w.ffMergeOk
  }

  lemma LandingClears(job: Job, w: World, cfg: Settings, cost: real)
    ensures var t := Landing(job, w, cfg, cost).actions;
            && (RemoveWorktree in t <==> ClearedLanding(job, w, cfg))
            && (DeleteBranch in t <==> ClearedLanding(job, w, cfg))
  {
    hide RunPrPhase, RunSlices, SplitPlan.Plan, JobRepo, ReportsMerge, WaitResult;
    var repo := JobRepo(job, cfg);
    PhaseLeaves(job, w, cfg, repo, cost);
    PhaseReports(job, w, cfg, repo, cost);
    MergedItselfReports(job, w, cfg);
    if Stacked(job) && Planned(job, w, cfg) {
      SlicesLeave(job, w, cfg, repo, cost, PlanOf(job, w, cfg), 0, None);
    }
  }

  /** The worktree is opened first of all. It is removed, and its branch deleted, exactly when an agent failed without
      producing anything, or when accepted work landed without being split; else it stays for a human. */
  lemma WorktreeFate(job: Job, w: World, cfg: Settings)
    ensures var t := BackgroundTrace(job, w, cfg);
            var cleared := || (w.worktreeOk && w.code.Answered? && !Coded(w))
                           || (Coded(w) && w.review.Answered? && !Reviewed(w))
                           || (WorkAccepted(w) && ClearedLanding(job, w, cfg));
            && t != [] && t[0] == OpenWorktree(w.worktreeOk)
            && (RemoveWorktree in t <==> cleared) && (DeleteBranch in t <==> cleared)
  {
    hide BackgroundTrace, Landing, ClearedLanding;
    if WorkAccepted(w) {
      AcceptedTrace(job, w, cfg);
      LandingClears(job, w, cfg, w.code.cost + w.review.cost);
      assert Leaves(UntilVerdict(w));
      assert UntilVerdict(w)[0] == OpenWorktree(true);
    } else {
      UnacceptedRunIs(job, w, cfg);
    }
  }

  /** Landed work is cleared away last, the worktree before its branch, and then the row is closed. */
  lemma ClearsLast(job: Job, w: World, cfg: Settings)
    requires WorkAccepted(w) && ClearedLanding(job, w, cfg)
    ensures var t, cost := BackgroundTrace(job, w, cfg), w.code.cost + w.review.cost;
            && |t| >= 3 && t[|t| - 3..] ==
               [RemoveWorktree, DeleteBranch,
                Finish(Status.Merged, Some(cost), if UsesPrPhase(job, w, cfg) then PhaseNumber(w) else None)]
  {
    hide BackgroundTrace, RunPrPhase, RunStackPhase, JobRepo, ReportsMerge, WaitResult, UntilVerdict;
    var cost := w.code.cost + w.review.cost;
    var phase, landing := RunPrPhase(job, w, cfg, JobRepo(job, cfg), cost), Landing(job, w, cfg, cost);
    AcceptedTrace(job, w, cfg);
    PhaseReports(job, w, cfg, JobRepo(job, cfg), cost);
    PhaseNumberIs(job, w, cfg, JobRepo(job, cfg), cost);
    MergedItselfReports(job, w, cfg);
    assert landing.ending == Completed;
    assert landing.actions[|landing.actions| - 3..] ==
           [RemoveWorktree, DeleteBranch, Finish(Status.Merged, Some(cost), if UsesPrPhase(job, w, cfg) then PhaseNumber(w) else None)];
  }

  // ---- The request for the pull request ----

  /** Outside a stack the pull request is asked for once at most, from the worktree's branch onto the job's target, or
      onto the default where the job names none. */
  lemma PrIsRequested(job: Job, w: World, cfg: Settings, head: string, base: string, pr: Option<nat>)
    requires !Stacked(job)
    ensures CreatePr(head, base, pr) in BackgroundTrace(job, w, cfg) <==>
            && WorkAccepted(w) && job.prMode in {Draft, ReadyForReview} && w.bodyOk
            && head == w.branch && base == (if job.targetBranch == "" then cfg.defaultBranch else job.targetBranch)
            && pr == (if w.create.Opened? then Some(w.create.number) else None)
  {
    hide BackgroundTrace, Landing;
    if WorkAccepted(w) {
      AcceptedTrace(job, w, cfg);
      LandingRequests(job, w, cfg, w.code.cost + w.review.cost, CreatePr(head, base, pr));
    } else {
      UnacceptedRunIs(job, w, cfg);
    }
  }

  lemma LandingRequests(job: Job, w: World, cfg: Settings, cost: real, a: Action)
    requires !Stacked(job) && a.CreatePr?
    ensures a in Landing(job, w, cfg, cost).actions <==>
            && job.prMode in {Draft, ReadyForReview} && w.bodyOk
            && a == CreatePr(w.branch, if job.targetBranch == "" then cfg.defaultBranch else job.targetBranch,
                             if w.create.Opened? then Some(w.create.number) else None)
  {
    hide WatchPhase, JobRepo, RunStackPhase;
    if w.create.Opened? { WatchRequestsNone(job, w, cost, w.create.number); }
  }

  lemma WatchRequestsNone(job: Job, w: World, cost: real, k: nat)
    ensures forall a :: a in WatchPhase(job, w, cost, k).actions ==> !a.CreatePr?
  {
    hide WaitResult;
  }

  // ---- The statuses of a pull request ----

  /** The statuses written at some time. */
  function Shown(t: seq<Action>): set<Status> {
    set a | a in t && a.SetStatus? :: a.update.status
  }

  lemma ShownAdd(a: seq<Action>, b: seq<Action>)
    ensures Shown(a + b) == Shown(a) + Shown(b)
  {
  }

  lemma ShownOne(a: Action)
    ensures Shown([a]) == if a.SetStatus? then {a.update.status} else {}
    ensures Shown([]) == {}
  {
    assert a in [a];
  }

  function If(b: bool, s: Status): set<Status> {
    if b then {s} else {}
  }

  lemma MergeShows(job: Job, w: World, cost: real, k: nat)
    ensures var granted := job.autoMerge && w.autoMergeOk;
            Shown(MergePhase(job, w, cost, k).actions) ==
            {MergingPr} + If(granted, PrAutoMergeEnabled) + If(!granted && !w.mergeOk, Failed)
  {
    hide Shown;
    var move, fail := Move(MergingPr), Finish(Failed, Some(cost), Some(k));
    var ask, direct := EnableAutoMerge(k, job.autoMerge && w.autoMergeOk), MergePr(k, w.mergeOk);
    var done := SetStatus(Update(PrAutoMergeEnabled, false, Some(cost), Some(k)));
    ShownOne(move);
    ShownOne(fail);
    ShownOne(ask);
    ShownOne(direct);
    ShownOne(done);
    ShownAdd([move], [ask]);
    ShownAdd([move] + [ask], [done]);
    ShownAdd([move] + [ask], [direct]);
    ShownAdd([move] + [ask] + [direct], [fail]);
    ShownAdd([move], [direct]);
    ShownAdd([move] + [direct], [fail]);
    assert [move] + [ask] + [done] == [move, ask, done];
    assert [move] + [] + [direct] == [move] + [direct];
  }

  lemma WatchShows(job: Job, w: World, cost: real, k: nat)
    ensures var shown := Shown(WatchPhase(job, w, cost, k).actions);
            var asked := WaitResult(w.polls).Ready? && WaitResult(w.polls).status.review == ReviewRequired;
            && shown <= {PrWaitingReview, MergingPr, PrAutoMergeEnabled, Failed, Status.Merged}
            && (PrWaitingReview in shown <==> asked) && (MergingPr in shown <==> Justified(w))
            && (PrAutoMergeEnabled in shown <==> Justified(w) && job.autoMerge && w.autoMergeOk)
  {
    hide Shown, MergePhase, WaitResult;
    var review, fail := Move(PrWaitingReview), Finish(Failed, Some(cost), Some(k));
    var landed, phase := Finish(Status.Merged, Some(cost), Some(k)), MergePhase(job, w, cost, k).actions;
    ShownOne(review);
    ShownOne(fail);
    ShownOne(landed);
    MergeShows(job, w, cost, k);
    ShownAdd([review], [fail]);
    ShownAdd([review], [landed]);
    ShownAdd([review], phase);
    ShownAdd([], [fail]);
    ShownAdd([], [landed]);
    ShownAdd([], phase);
  }

  /** What a pull request phase shows of its progress. */
  ghost predicate ShowsProgress(job: Job, w: World, shown: set<Status>) {
    var opens := w.bodyOk && w.create.Opened?;
    && (PrCreating in shown <==> w.bodyOk) && (PrOpen in shown <==> opens) && (PrWaitingChecks in shown <==> opens)
    && (PrWaitingReview in shown <==>
        opens && WaitResult(w.polls).Ready? && WaitResult(w.polls).status.review == ReviewRequired)
    && (MergingPr in shown <==> opens && Justified(w))
    && (PrAutoMergeEnabled in shown <==> opens && Justified(w) && job.autoMerge && w.autoMergeOk)
  }

  lemma PhaseShows(job: Job, w: World, cfg: Settings, repo: Path, cost: real)
    ensures ShowsProgress(job, w, Shown(RunPrPhase(job, w, cfg, repo, cost).actions))
  {
    hide Shown, WatchPhase, Justified, WaitResult, Target;
    var t := RunPrPhase(job, w, cfg, repo, cost).actions;
    var creating, fail := Move(PrCreating), Finish(Failed, Some(cost), None);
    ShownOne(creating);
    if w.bodyOk {
      match w.create {
        case Opened(k) =>
          var create, done, waits := CreatePr(w.branch, Target(job, cfg), Some(k)),
                                     SetStatus(Update(PrOpen, false, None, Some(k))), Move(PrWaitingChecks);
          WatchShows(job, w, cost, k);
          OpeningShows(creating, create, done, waits);
          ShownAdd([creating, create, done, waits], WatchPhase(job, w, cost, k).actions);
        case _ =>
          var create, merge := CreatePr(w.branch, Target(job, cfg), None), FfMerge(repo, w.ffMergeOk);
          FallingBackShows(creating, create, merge, fail);
      }
    }
  }

  lemma OpeningShows(creating: Action, create: Action, done: Action, waits: Action)
    requires creating.SetStatus? && create.CreatePr? && done.SetStatus? && waits.SetStatus?
    ensures Shown([creating, create, done, waits]) == {creating.update.status, done.update.status, waits.update.status}
  {
    hide Shown;
    ShownOne(creating);
    ShownOne(create);
    ShownOne(done);
    ShownOne(waits);
    ShownAdd([creating], [create]);
    ShownAdd([creating] + [create], [done]);
    ShownAdd([creating] + [create] + [done], [waits]);
    assert [creating] + [create] + [done] + [waits] == [creating, create, done, waits];
  }

  lemma FallingBackShows(creating: Action, create: Action, merge: Action, fail: Action)
    requires creating.SetStatus? && create.CreatePr? && merge.FfMerge? && fail.SetStatus?
    ensures Shown([creating, create] + [merge]) == {creating.update.status}
    ensures Shown([creating, create] + [merge] + [fail]) == {creating.update.status, fail.update.status}
    ensures Shown([creating, create] + [fail]) == {creating.update.status, fail.update.status}
  {
    hide Shown;
    ShownOne(creating);
    ShownOne(create);
    ShownOne(merge);
    ShownOne(fail);
    ShownAdd([creating], [create]);
    assert [creating] + [create] == [creating, create];
    ShownAdd([creating, create], [merge]);
    ShownAdd([creating, create], [fail]);
    ShownAdd([creating, create] + [merge], [fail]);
  }

  /** A single pull request passes through its statuses exactly as far as it gets: the body composed, the request opened,
      a review missing when the wait ends, the merge attempted, automatic merging granted. */
  lemma PrStatuses(job: Job, w: World, cfg: Settings)
    requires WorkAccepted(w) && !Stacked(job) && job.prMode in {Draft, ReadyForReview}
    ensures ShowsProgress(job, w, Shown(BackgroundTrace(job, w, cfg)))
  {
    hide Shown, BackgroundTrace, RunPrPhase, RunStackPhase, Justified, WaitResult, JobRepo;
    var cost := w.code.cost + w.review.cost;
    var phase := RunPrPhase(job, w, cfg, JobRepo(job, cfg), cost);
    var landing := Landing(job, w, cfg, cost);
    AcceptedTrace(job, w, cfg);
    PhaseShows(job, w, cfg, JobRepo(job, cfg), cost);
    VerdictShows(w);
    TailShows(phase.actions, cost, phase.number);
    HandledShows(landing);
    ShownAdd(UntilVerdict(w), Handled(landing));
  }

  lemma VerdictShows(w: World)
    ensures Shown(UntilVerdict(w)) <= {RunningCode, RunningReview, Verifying}
  {
  }

  lemma TailShows(t: seq<Action>, cost: real, k: Option<nat>)
    ensures Shown(t + [RemoveWorktree, DeleteBranch, Finish(Status.Merged, Some(cost), k)]) == Shown(t) + {Status.Merged}
  {
    hide Shown;
    var a, b, c := RemoveWorktree, DeleteBranch, Finish(Status.Merged, Some(cost), k);
    ShownOne(a);
    ShownOne(b);
    ShownOne(c);
    ShownAdd([a], [b]);
    ShownAdd([a] + [b], [c]);
    assert [a] + [b] + [c] == [a, b, c];
    ShownAdd(t, [a, b, c]);
  }

  lemma HandledShows(body: Segment)
    ensures Shown(Handled(body)) <= Shown(body.actions) + {Timeout, Failed}
    ensures Shown(body.actions) <= Shown(Handled(body))
  {
    hide Shown;
    if body.ending != Completed {
      var end := Finish(if body.ending == Expired then Timeout else Failed, None, None);
      ShownOne(end);
      ShownAdd(body.actions, [end]);
    }
  }
}
