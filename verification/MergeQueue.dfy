/** One job of the merge queue: code, review, verify, then a local merge, a pull request or a stack of them. */
module MergeQueue {
  import opened Wrappers
  import opened Jobs
  import opened PrChecks
  import SplitPlan

  type Path = string

  // ---- What a job is, and what the world answers ----

  datatype PrMode = Off | Draft | ReadyForReview | OtherMode

  /** An empty string or list stands for an absent option, as the source's `or` treats them alike. */
  datatype Job = Job(
    prMode: PrMode, targetBranch: string, repoOverride: Option<Path>, autoMerge: bool,
    splitInto: Option<int>, worktreeId: string, task: string,
    sliceFiles: seq<string>, stackId: string, stackRepos: seq<Path>)

  datatype Settings = Settings(
    runnerRepo: Path, defaultBranch: string, fallBackToLocal: bool,
    splitStrategy: string, maxFilesPerSlice: int, minSlices: int, maxSlices: int)

  datatype AgentOutcome = OutOfTime | AgentRaised | Answered(error: bool, text: bool, cost: real)

  datatype Verdict = Accepted | Rejected | VerifierRaised

  datatype PrOutcome = Opened(number: nat) | GhMissing | CreateFailed

  datatype SliceOutcome =
    | CommitRaised | CommitFailed | PushFailed | SliceGhMissing | SliceCreateFailed | SliceOpened(number: nat)

  /** Everything the outside decides in one run. */
  datatype World = World(
    worktreeOk: bool, branch: string, code: AgentOutcome, review: AgentOutcome, verdict: Verdict,
    ffMergeOk: bool, diff: Option<seq<string>>, bodyOk: bool,
    create: PrOutcome, polls: seq<Poll>, autoMergeOk: bool, mergeOk: bool,
    freshStackId: string, slices: nat -> SliceOutcome, childIds: nat -> string)

  datatype Role = Coder | Reviewer

  datatype Action =
    | SetStatus(update: Update)
    | OpenWorktree(ok: bool)
    | CallAgent(role: Role)
    | Verify(verdict: Verdict)
    | FfMerge(repo: Path, ok: bool)
    | RemoveWorktree
    | DeleteBranch
    | CreatePr(head: string, base: string, pr: Option<nat>)
    | EnableAutoMerge(number: nat, ok: bool)
    | MergePr(number: nat, ok: bool)
    | CommitSlice(repo: Path, branch: string, files: seq<string>, ok: bool)
    | PushBranch(repo: Path, branch: string, ok: bool)
    | TagStack(stackId: string, size: nat)
    | AddChild(row: JobRow)

  datatype Ending = Completed | Expired | Crashed

  /** A stretch of a run and how control leaves it. */
  datatype Segment = Segment(actions: seq<Action>, ending: Ending) {
    function After(prefix: seq<Action>): Segment {
      Segment(prefix + actions, ending)
    }
  }

  // ---- The run as a function of the world ----

  function Move(s: Status): Action {
    SetStatus(Update(s, false, None, None))
  }

  function Finish(s: Status, cost: Option<real>, pr: Option<nat>): Action {
    SetStatus(Update(s, true, cost, pr))
  }

  function Target(job: Job, cfg: Settings): string {
    if job.targetBranch != "" then job.targetBranch else cfg.defaultBranch
  }

  function JobRepo(job: Job, cfg: Settings): Path {
    match job.repoOverride
    case Some(p) => p
    case None => cfg.runnerRepo
  }

  predicate Splits(job: Job) {
    job.splitInto.Some? && job.splitInto.value > 1
  }

  /** The pull request phase: its actions, and whether it reports a merge and for which number. */
  datatype PrPhase = PrPhase(actions: seq<Action>, crashed: bool, merged: bool, number: Option<nat>) {
    function After(prefix: seq<Action>): PrPhase {
      this.(actions := prefix + actions)
    }
  }

  function PrFailure(cost: real, number: Option<nat>): PrPhase {
    PrPhase([Finish(Failed, Some(cost), number)], false, false, number)
  }

  function RunPrPhase(job: Job, w: World, cfg: Settings, repo: Path, cost: real): PrPhase {
    if !w.bodyOk then PrPhase([], true, false, None)
    else
      var target := Target(job, cfg);
      match w.create
      case GhMissing =>
        var tried := [Move(PrCreating), CreatePr(w.branch, target, None)];
        if !cfg.fallBackToLocal then PrFailure(cost, None).After(tried)
        else if w.ffMergeOk then PrPhase(tried + [FfMerge(repo, true)], false, true, None)
        else PrFailure(cost, None).After(tried + [FfMerge(repo, false)])
      case CreateFailed =>
        PrFailure(cost, None).After([Move(PrCreating), CreatePr(w.branch, target, None)])
      case Opened(k) =>
        WatchPhase(job, w, cost, k).After(
          [Move(PrCreating), CreatePr(w.branch, target, Some(k)),
           SetStatus(Update(PrOpen, false, None, Some(k))), Move(PrWaitingChecks)])
  }

  function WatchPhase(job: Job, w: World, cost: real, k: nat): PrPhase {
    match WaitResult(w.polls)
    case TimedOut => PrFailure(cost, Some(k))
    case Raised => PrFailure(cost, Some(k))
    case Ready(s) =>
      var waited := if s.review == ReviewRequired then [Move(PrWaitingReview)] else [];
      if s.review == ChangesRequested || s.checks == Failure then PrFailure(cost, Some(k)).After(waited)
      else if Landed(s) then
        PrPhase(waited + [Finish(Status.Merged, Some(cost), Some(k))], false, true, Some(k))
      else MergePhase(job, w, cost, k).After(waited)
  }

  function MergePhase(job: Job, w: World, cost: real, k: nat): PrPhase {
    if job.autoMerge && w.autoMergeOk then
      PrPhase([Move(MergingPr), EnableAutoMerge(k, true),
               SetStatus(Update(PrAutoMergeEnabled, false, Some(cost), Some(k)))], false, true, Some(k))
    else
      var tried := [Move(MergingPr)] + (if job.autoMerge then [EnableAutoMerge(k, false)] else []) +
                   [MergePr(k, w.mergeOk)];
      if w.mergeOk then PrPhase(tried, false, true, Some(k)) else PrFailure(cost, Some(k)).After(tried)
  }

  function PlanRequest(job: Job, cfg: Settings, diff: seq<string>): SplitPlan.Request {
    SplitPlan.Request(
      if job.sliceFiles != [] then job.sliceFiles else diff, cfg.splitStrategy, job.worktreeId, job.task,
      job.splitInto, cfg.maxFilesPerSlice, cfg.minSlices, cfg.maxSlices, map[])
  }

  function StackIdOf(job: Job, w: World): string {
    if job.stackId != "" then job.stackId else w.freshStackId
  }

  function SliceRepo(job: Job, repo: Path, i: nat): Path {
    if i < |job.stackRepos| then job.stackRepos[i] else repo
  }

  function SliceBase(job: Job, cfg: Settings, i: nat): string {
    if i == 0 then Target(job, cfg) else SplitPlan.Branch(job.worktreeId, i - 1)
  }

  function ChildRow(job: Job, w: World, cfg: Settings, repo: Path, size: nat, i: nat, number: nat,
                    previous: Option<nat>): JobRow {
    JobRow(w.childIds(i), job.worktreeId + "-step-" + SplitPlan.Decimal(i), PrOpen, false, 0.0,
           SliceRepo(job, repo, i), Some(number), SliceBase(job, cfg, i),
           Some(StackIdOf(job, w)), i + 1, size, previous)
  }

  /** One slice: its actions, the number of its pull request, or how the phase ends without one. */
  datatype SliceStep = SliceStep(actions: seq<Action>, pr: Option<nat>, ending: Ending)

  function RunSlice(job: Job, w: World, cfg: Settings, repo: Path, cost: real,
                    plan: seq<SplitPlan.SplitSlice>, i: nat, previous: Option<nat>): SliceStep
    requires i < |plan|
  {
    var branch, at, base := plan[i].branchName, SliceRepo(job, repo, i), SliceBase(job, cfg, i);
    var commit, push := CommitSlice(at, branch, plan[i].files, true), PushBranch(at, branch, true);
    var stop := Finish(Failed, Some(cost), None);
    match w.slices(i)
    case CommitRaised => SliceStep([], None, Crashed)
    case CommitFailed => SliceStep([CommitSlice(at, branch, plan[i].files, false), stop], None, Completed)
    case PushFailed => SliceStep([commit, PushBranch(at, branch, false), stop], None, Completed)
    case SliceGhMissing => SliceStep([commit, push, CreatePr(branch, base, None), stop, stop], None, Completed)
    case SliceCreateFailed => SliceStep([commit, push, CreatePr(branch, base, None), stop, stop], None, Completed)
    case SliceOpened(k) =>
      SliceStep([commit, push, CreatePr(branch, base, Some(k)),
                 AddChild(ChildRow(job, w, cfg, repo, |plan|, i, k, previous))], Some(k), Completed)
  }

  /** Slices `i`, `i + 1`, ... of the stack, each pull request on top of the one before. */
  function RunSlices(job: Job, w: World, cfg: Settings, repo: Path, cost: real,
                     plan: seq<SplitPlan.SplitSlice>, i: nat, previous: Option<nat>): Segment
    decreases |plan| - i
  {
    if i >= |plan| then Segment([SetStatus(Update(PrOpen, false, Some(cost), None))], Completed)
    else
      var step := RunSlice(job, w, cfg, repo, cost, plan, i, previous);
      if step.pr.None? then Segment(step.actions, step.ending)
      else RunSlices(job, w, cfg, repo, cost, plan, i + 1, step.pr).After(step.actions)
  }

  function RunStackPhase(job: Job, w: World, cfg: Settings, repo: Path, cost: real): Segment {
    if w.diff.None? then Segment([], Crashed)
    else if w.diff.value == [] then Segment([Finish(Status.Merged, Some(cost), None)], Completed)
    else match SplitPlan.Plan(PlanRequest(job, cfg, w.diff.value))
      case Err(_) => Segment([], Crashed)
      case Ok(plan) =>
        if |plan| <= 1 then
          var phase := RunPrPhase(job, w, cfg, repo, cost);
          Segment(phase.actions, if phase.crashed then Crashed else Completed)
        else if job.stackRepos != [] && |job.stackRepos| != |plan| then
          Segment([Finish(Failed, Some(cost), None)], Completed)
        else
          RunSlices(job, w, cfg, repo, cost, plan, 0, None).After(
            [TagStack(StackIdOf(job, w), |plan|), Move(PrCreating)])
  }

  function Landing(job: Job, w: World, cfg: Settings, cost: real): Segment {
    var repo := JobRepo(job, cfg);
    if Splits(job) && job.prMode != Off then RunStackPhase(job, w, cfg, repo, cost)
    else if job.prMode == Draft || job.prMode == ReadyForReview then
      var phase := RunPrPhase(job, w, cfg, repo, cost);
      if phase.crashed then Segment(phase.actions, Crashed)
      else if !phase.merged then Segment(phase.actions, Completed)
      else Segment(phase.actions +
                   [RemoveWorktree, DeleteBranch, Finish(Status.Merged, Some(cost), phase.number)], Completed)
    else if w.ffMergeOk then
      Segment([FfMerge(repo, true), RemoveWorktree, DeleteBranch, Finish(Status.Merged, Some(cost), None)], Completed)
    else Segment([FfMerge(repo, false), Finish(Failed, Some(cost), None)], Completed)
  }

  function Judging(job: Job, w: World, cfg: Settings, cost: real): Segment {
    var start := [Move(Verifying), Verify(w.verdict)];
    match w.verdict
    case VerifierRaised => Segment(start, Crashed)
    case Rejected => Segment(start + [Finish(Failed, Some(cost), None)], Completed)
    case Accepted => Landing(job, w, cfg, cost).After(start)
  }

  /** An agent that produced nothing: the worktree is of no use to anybody. */
  function Discard(cost: real): Segment {
    Segment([RemoveWorktree, DeleteBranch, Finish(Failed, Some(cost), None)], Completed)
  }

  function Reviewing(job: Job, w: World, cfg: Settings, codeCost: real): Segment {
    var start := [Move(RunningReview), CallAgent(Reviewer)];
    match w.review
    case OutOfTime => Segment(start, Expired)
    case AgentRaised => Segment(start, Crashed)
    case Answered(error, text, reviewCost) =>
      var cost := codeCost + reviewCost;
      (if error && !text then Discard(cost) else Judging(job, w, cfg, cost)).After(start)
  }

  function Coding(job: Job, w: World, cfg: Settings): Segment {
    var start := [Move(RunningCode), CallAgent(Coder)];
    match w.code
    case OutOfTime => Segment(start, Expired)
    case AgentRaised => Segment(start, Crashed)
    case Answered(error, text, cost) =>
      (if error && !text then Discard(cost) else Reviewing(job, w, cfg, cost)).After(start)
  }

  /** The background run, with its handlers for a timeout and for any other exception. */
  function BackgroundTrace(job: Job, w: World, cfg: Settings): seq<Action> {
    if !w.worktreeOk then [OpenWorktree(false), Finish(Failed, None, None)]
    else
      var body := Coding(job, w, cfg).After([OpenWorktree(true)]);
      match body.ending
      case Completed => body.actions
      case Expired => body.actions + [Finish(Timeout, None, None)]
      case Crashed => body.actions + [Finish(Failed, None, None)]
  }

  // ---- The synchronous run ----

  datatype MergeResult = MergeResult(merged: bool, preserved: bool, cost: real, timeout: bool)

  /** `result` is absent when an exception leaves the call. */
  datatype SyncRun = SyncRun(actions: seq<Action>, result: Option<MergeResult>) {
    function After(prefix: seq<Action>): SyncRun {
      this.(actions := prefix + actions)
    }
  }

  function SyncTrace(job: Job, w: World, cfg: Settings): SyncRun {
    if job.prMode != Off || Splits(job) then SyncRun([], Some(MergeResult(false, false, 0.0, false)))
    else if !w.worktreeOk then SyncRun([OpenWorktree(false)], Some(MergeResult(false, false, 0.0, false)))
    else
      var start := [OpenWorktree(true), CallAgent(Coder)];
      match w.code
      case OutOfTime => SyncRun(start, Some(MergeResult(false, true, 0.0, true)))
      case AgentRaised => SyncRun(start, None)
      case Answered(error, text, cost) =>
        (if error && !text then SyncDiscard(cost) else SyncReview(w, cfg, cost)).After(start)
  }

  function SyncDiscard(cost: real): SyncRun {
    SyncRun([RemoveWorktree, DeleteBranch], Some(MergeResult(false, false, cost, false)))
  }

  function SyncReview(w: World, cfg: Settings, codeCost: real): SyncRun {
    var start := [CallAgent(Reviewer)];
    match w.review
    case OutOfTime => SyncRun(start, Some(MergeResult(false, true, 0.0, true)))
    case AgentRaised => SyncRun(start, None)
    case Answered(error, text, reviewCost) =>
      var cost := codeCost + reviewCost;
      (if error && !text then SyncDiscard(cost) else SyncJudge(w, cfg, cost)).After(start)
  }

  function SyncJudge(w: World, cfg: Settings, cost: real): SyncRun {
    var start := [Verify(w.verdict)];
    match w.verdict
    case VerifierRaised => SyncRun(start, None)
    case Rejected => SyncRun(start, Some(MergeResult(false, true, cost, false)))
    case Accepted => SyncLanding(w, cfg, cost).After(start)
  }

  function SyncLanding(w: World, cfg: Settings, cost: real): SyncRun {
    if w.ffMergeOk then
      SyncRun([FfMerge(cfg.runnerRepo, true), RemoveWorktree, DeleteBranch], Some(MergeResult(true, false, cost, false)))
    else
      SyncRun([FfMerge(cfg.runnerRepo, false)], Some(MergeResult(false, true, cost, false)))
  }

  // ---- Effect on the job table ----

  function Apply(table: seq<JobRow>, id: string, a: Action): seq<JobRow> {
    match a
    case SetStatus(u) => UpdateRows(table, id, u)
    case TagStack(stackId, size) => TagRows(table, id, stackId, size)
    case AddChild(row) => table + [row]
    case _ => table
  }

  function Replay(table: seq<JobRow>, id: string, trace: seq<Action>): seq<JobRow> {
    if trace == [] then table
    else Apply(Replay(table, id, trace[..|trace| - 1]), id, trace[|trace| - 1])
  }

  lemma ReplayMore(table: seq<JobRow>, id: string, trace: seq<Action>, a: Action)
    ensures Replay(table, id, trace + [a]) == Apply(Replay(table, id, trace), id, a)
  {
    assert (trace + [a])[..|trace|] == trace;
  }

  // ---- The code ----

  /** The task of one job. `log` is everything it has asked of the world and of the store. */
  class JobRun {
    const jobId: string
    const cfg: Settings
    const store: JobStore
    ghost const initial: seq<JobRow>
    var log: seq<Action>

    ghost predicate Valid()
      reads this, store
    {
      store.table == Replay(initial, jobId, log)
    }

    constructor (jobId: string, cfg: Settings, store: JobStore)
      ensures Valid() && log == [] && this.jobId == jobId && this.cfg == cfg && this.store == store
      ensures initial == store.table
    {
      this.jobId, this.cfg, this.store, this.initial, log := jobId, cfg, store, store.table, [];
    }

    method Do(a: Action)
      requires Valid()
      modifies this, store
      ensures Valid() && log == old(log) + [a]
    {
      hide UniqueIds, IsNew, UpdateRows, TagRows, Replay;
      ReplayMore(initial, jobId, log, a);
      match a {
        case SetStatus(u) => store.UpdateStatus(jobId, u);
        case TagStack(stackId, size) => store.table := TagRows(store.table, jobId, stackId, size);
        case AddChild(row) => store.Create(row);
        case _ =>
      }
      log := log + [a];
    }

    method Fail(cost: Option<real>, number: Option<nat>)
      requires Valid()
      modifies this, store
      ensures Valid() && log == old(log) + [Finish(Failed, cost, number)]
    {
      Do(Finish(Failed, cost, number));
    }

    method PrPhaseOf(job: Job, w: World, repo: Path, cost: real)
      returns (crashed: bool, merged: bool, number: Option<nat>)
      requires Valid()
      modifies this, store
      ensures Valid()
      ensures var p := RunPrPhase(job, w, cfg, repo, cost);
              log == old(log) + p.actions && crashed == p.crashed && merged == p.merged && number == p.number
    {
      hide Replay, Apply, JobRun.Valid, WatchPhase;
      if !w.bodyOk { return true, false, None; }
      Do(Move(PrCreating));
      var target := Target(job, cfg);
      match w.create {
        case GhMissing =>
          Do(CreatePr(w.branch, target, None));
          if cfg.fallBackToLocal {
            Do(FfMerge(repo, w.ffMergeOk));
            if w.ffMergeOk { return false, true, None; }
          }
          Fail(Some(cost), None);
          return false, false, None;
        case CreateFailed =>
          Do(CreatePr(w.branch, target, None));
          Fail(Some(cost), None);
          return false, false, None;
        case Opened(k) =>
          Do(CreatePr(w.branch, target, Some(k)));
          Do(SetStatus(Update(PrOpen, false, None, Some(k))));
          Do(Move(PrWaitingChecks));
          merged := WatchPr(job, w, cost, k);
          return false, merged, Some(k);
      }
    }

    method WatchPr(job: Job, w: World, cost: real, k: nat) returns (merged: bool)
      requires Valid()
      modifies this, store
      ensures Valid()
      ensures var p := WatchPhase(job, w, cost, k);
              log == old(log) + p.actions && merged == p.merged && !p.crashed && p.number == Some(k)
    {
      hide Replay, Apply, JobRun.Valid, MergePhase, WaitResult;
      var outcome := WaitForChecks(w.polls);
      if !outcome.Ready? {
        Fail(Some(cost), Some(k));
        return false;
      }
      var status := outcome.status;
      if status.review == ReviewRequired { Do(Move(PrWaitingReview)); }
      if status.review == ChangesRequested {
        Fail(Some(cost), Some(k));
        return false;
      }
      if status.checks == Failure {
        Fail(Some(cost), Some(k));
        return false;
      }
      if Landed(status) {
        Do(Finish(Status.Merged, Some(cost), Some(k)));
        return true;
      }
      merged := MergeThePr(job, w, cost, k);
    }

    method MergeThePr(job: Job, w: World, cost: real, k: nat) returns (merged: bool)
      requires Valid()
      modifies this, store
      ensures Valid()
      ensures var p := MergePhase(job, w, cost, k);
              log == old(log) + p.actions && merged == p.merged && !p.crashed && p.number == Some(k)
    {
      hide Replay, Apply, JobRun.Valid;
      Do(Move(MergingPr));
      if job.autoMerge {
        Do(EnableAutoMerge(k, w.autoMergeOk));
        if w.autoMergeOk {
          Do(SetStatus(Update(PrAutoMergeEnabled, false, Some(cost), Some(k))));
          return true;
        }
      }
      Do(MergePr(k, w.mergeOk));
      if !w.mergeOk { Fail(Some(cost), Some(k)); }
      return w.mergeOk;
    }

    method OpenSlice(job: Job, w: World, repo: Path, cost: real,
                     plan: seq<SplitPlan.SplitSlice>, i: nat, previous: Option<nat>)
      returns (pr: Option<nat>, ending: Ending)
      requires Valid() && i < |plan|
      modifies this, store
      ensures Valid()
      ensures var s := RunSlice(job, w, cfg, repo, cost, plan, i, previous);
              log == old(log) + s.actions && pr == s.pr && ending == s.ending
    {
      hide Replay, Apply, JobRun.Valid, ChildRow, SliceBase, SliceRepo;
      var branch, at, base := plan[i].branchName, SliceRepo(job, repo, i), SliceBase(job, cfg, i);
      var outcome := w.slices(i);
      if outcome == CommitRaised { return None, Crashed; }
      Do(CommitSlice(at, branch, plan[i].files, outcome != CommitFailed));
      if outcome == CommitFailed {
        Fail(Some(cost), None);
        return None, Completed;
      }
      Do(PushBranch(at, branch, outcome != PushFailed));
      if outcome == PushFailed {
        Fail(Some(cost), None);
        return None, Completed;
      }
      if !outcome.SliceOpened? {
        Do(CreatePr(branch, base, None));
        Fail(Some(cost), None);
        Fail(Some(cost), None);
        return None, Completed;
      }
      Do(CreatePr(branch, base, Some(outcome.number)));
      Do(AddChild(ChildRow(job, w, cfg, repo, |plan|, i, outcome.number, previous)));
      return Some(outcome.number), Completed;
    }

    /** Opens the slices one on top of the other. */
    method SlicesOf(job: Job, w: World, repo: Path, cost: real, plan: seq<SplitPlan.SplitSlice>)
      returns (ending: Ending)
      requires Valid()
      modifies this, store
      ensures Valid()
      ensures var s := RunSlices(job, w, cfg, repo, cost, plan, 0, None);
              log == old(log) + s.actions && ending == s.ending
    {
      hide Replay, Apply, JobRun.Valid, RunSlice;
      ghost var whole := RunSlices(job, w, cfg, repo, cost, plan, 0, None);
      var previous: Option<nat> := None;
      for i := 0 to |plan|
        invariant Valid()
        invariant var rest := RunSlices(job, w, cfg, repo, cost, plan, i, previous);
                  old(log) + whole.actions == log + rest.actions && whole.ending == rest.ending
      {
        previous, ending := OpenSlice(job, w, repo, cost, plan, i, previous);
        if previous == None { return; }
      }
      Do(SetStatus(Update(PrOpen, false, Some(cost), None)));
      return Completed;
    }

    method StackPhaseOf(job: Job, w: World, repo: Path, cost: real) returns (ending: Ending)
      requires Valid()
      modifies this, store
      ensures Valid()
      ensures var s := RunStackPhase(job, w, cfg, repo, cost);
              log == old(log) + s.actions && ending == s.ending
    {
      hide Replay, Apply, JobRun.Valid, RunSlices, RunPrPhase, SplitPlan.Plan;
      if w.diff.None? { return Crashed; }
      if w.diff.value == [] {
        Do(Finish(Status.Merged, Some(cost), None));
        return Completed;
      }
      var plan := SplitPlan.PlanSplits(PlanRequest(job, cfg, w.diff.value));
      if plan.Err? { return Crashed; }
      if |plan.value| <= 1 {
        var crashed, _, _ := PrPhaseOf(job, w, repo, cost);
        return if crashed then Crashed else Completed;
      }
      if job.stackRepos != [] && |job.stackRepos| != |plan.value| {
        Fail(Some(cost), None);
        return Completed;
      }
      Do(TagStack(StackIdOf(job, w), |plan.value|));
      Do(Move(PrCreating));
      ending := SlicesOf(job, w, repo, cost, plan.value);
    }

    method Land(job: Job, w: World, cost: real) returns (ending: Ending)
      requires Valid()
      modifies this, store
      ensures Valid()
      ensures var s := Landing(job, w, cfg, cost); log == old(log) + s.actions && ending == s.ending
    {
      hide Replay, Apply, JobRun.Valid, RunStackPhase, RunPrPhase, JobRepo;
      var repo := JobRepo(job, cfg);
      if Splits(job) && job.prMode != Off {
        ending := StackPhaseOf(job, w, repo, cost);
        return;
      }
      if job.prMode == Draft || job.prMode == ReadyForReview {
        var crashed, merged, number := PrPhaseOf(job, w, repo, cost);
        if crashed { return Crashed; }
        if merged {
          Do(RemoveWorktree);
          Do(DeleteBranch);
          Do(Finish(Status.Merged, Some(cost), number));
        }
        return Completed;
      }
      Do(FfMerge(repo, w.ffMergeOk));
      if !w.ffMergeOk {
        Fail(Some(cost), None);
        return Completed;
      }
      Do(RemoveWorktree);
      Do(DeleteBranch);
      Do(Finish(Status.Merged, Some(cost), None));
      return Completed;
    }

    method Review(job: Job, w: World, codeCost: real) returns (ending: Ending)
      requires Valid()
      modifies this, store
      ensures Valid()
      ensures var s := Reviewing(job, w, cfg, codeCost); log == old(log) + s.actions && ending == s.ending
    {
      hide Replay, Apply, JobRun.Valid, Judging;
      Do(Move(RunningReview));
      Do(CallAgent(Reviewer));
      match w.review {
        case OutOfTime => return Expired;
        case AgentRaised => return Crashed;
        case Answered(error, text, reviewCost) =>
          if error && !text {
            Do(RemoveWorktree);
            Do(DeleteBranch);
            Fail(Some(codeCost + reviewCost), None);
            return Completed;
          }
          ending := Judge(job, w, codeCost + reviewCost);
      }
    }

    method Judge(job: Job, w: World, cost: real) returns (ending: Ending)
      requires Valid()
      modifies this, store
      ensures Valid()
      ensures var s := Judging(job, w, cfg, cost); log == old(log) + s.actions && ending == s.ending
    {
      hide Replay, Apply, JobRun.Valid, Landing;
      Do(Move(Verifying));
      Do(Verify(w.verdict));
      match w.verdict {
        case VerifierRaised => return Crashed;
        case Rejected =>
          Fail(Some(cost), None);
          return Completed;
        case Accepted =>
          ending := Land(job, w, cost);
      }
    }

    method Code(job: Job, w: World) returns (ending: Ending)
      requires Valid()
      modifies this, store
      ensures Valid()
      ensures var s := Coding(job, w, cfg); log == old(log) + s.actions && ending == s.ending
    {
      hide Replay, Apply, JobRun.Valid, Reviewing;
      Do(Move(RunningCode));
      Do(CallAgent(Coder));
      match w.code {
        case OutOfTime => return Expired;
        case AgentRaised => return Crashed;
        case Answered(error, text, cost) =>
          if error && !text {
            Do(RemoveWorktree);
            Do(DeleteBranch);
            Fail(Some(cost), None);
            return Completed;
          }
          ending := Review(job, w, cost);
      }
    }

    /** The background task. */
    method RunJobAsync(job: Job, w: World)
      requires Valid()
      modifies this, store
      ensures Valid()
      ensures log == old(log) + BackgroundTrace(job, w, cfg)
    {
      hide Replay, Apply, JobRun.Valid, Coding;
      Do(OpenWorktree(w.worktreeOk));
      if !w.worktreeOk {
        Fail(None, None);
        return;
      }
      var ending := Code(job, w);
      match ending {
        case Completed =>
        case Expired => Do(Finish(Timeout, None, None));
        case Crashed => Fail(None, None);
      }
    }

    /** The synchronous call; no result when an exception leaves it. */
    method RunJob(job: Job, w: World) returns (r: Option<MergeResult>)
      requires Valid()
      modifies this, store
      ensures Valid()
      ensures var s := SyncTrace(job, w, cfg); log == old(log) + s.actions && r == s.result
    {
      hide Replay, Apply, JobRun.Valid, SyncReview;
      if job.prMode != Off { return Some(MergeResult(false, false, 0.0, false)); }
      if Splits(job) { return Some(MergeResult(false, false, 0.0, false)); }
      Do(OpenWorktree(w.worktreeOk));
      if !w.worktreeOk { return Some(MergeResult(false, false, 0.0, false)); }
      Do(CallAgent(Coder));
      match w.code {
        case OutOfTime => return Some(MergeResult(false, true, 0.0, true));
        case AgentRaised => return None;
        case Answered(error, text, cost) =>
          if error && !text {
            Do(RemoveWorktree);
            Do(DeleteBranch);
            return Some(MergeResult(false, false, cost, false));
          }
          r := ReviewSync(w, cost);
      }
    }

    method ReviewSync(w: World, codeCost: real) returns (r: Option<MergeResult>)
      requires Valid()
      modifies this, store
      ensures Valid()
      ensures var s := SyncReview(w, cfg, codeCost); log == old(log) + s.actions && r == s.result
    {
      hide Replay, Apply, JobRun.Valid;
      Do(CallAgent(Reviewer));
      match w.review {
        case OutOfTime => return Some(MergeResult(false, true, 0.0, true));
        case AgentRaised => return None;
        case Answered(error, text, reviewCost) =>
          var cost := codeCost + reviewCost;
          if error && !text {
            Do(RemoveWorktree);
            Do(DeleteBranch);
            return Some(MergeResult(false, false, cost, false));
          }
          Do(Verify(w.verdict));
          match w.verdict {
            case VerifierRaised => return None;
            case Rejected => return Some(MergeResult(false, true, cost, false));
            case Accepted =>
              Do(FfMerge(cfg.runnerRepo, w.ffMergeOk));
              if !w.ffMergeOk { return Some(MergeResult(false, true, cost, false)); }
              Do(RemoveWorktree);
              Do(DeleteBranch);
              return Some(MergeResult(true, false, cost, false));
          }
      }
    }
  }
}
