/** What the locks of the queue protect: the repository of the job, which is not always the one being worked on. */
module RepoExclusion {
  import opened Wrappers
  import opened Jobs
  import opened PrChecks
  import opened MergeQueue
  import opened QueueProperties
  import opened MergeAttempts
  import opened QueueSystem

  /** The repository an action works in. Worktrees and their branches belong to the runner's. */
  function WorksIn(t: Task, a: Action): Option<Path> {
    match a
    case FfMerge(repo, _) => Some(repo)
    case CommitSlice(repo, _, _, _) => Some(repo)
    case PushBranch(repo, _, _) => Some(repo)
    case OpenWorktree(_) => Some(t.cfg.runnerRepo)
    case RemoveWorktree => Some(t.cfg.runnerRepo)
    case DeleteBranch => Some(t.cfg.runnerRepo)
    case _ => None
  }

  function MergesInto(t: Task): Path {
    if t.background then JobRepo(t.job, t.cfg) else t.cfg.runnerRepo
  }

  ghost predicate KeyedAll(resolve: Path -> string, s: Sys) {
    forall id :: id in s.tasks ==> s.tasks[id].key == resolve(JobRepo(s.tasks[id].job, s.tasks[id].cfg))
  }

  /** Every local merge ahead of a task is into the repository it merges into. */
  ghost predicate AtHome(t: Task) {
    forall a :: a in t.todo && a.FfMerge? ==> a.repo == MergesInto(t)
  }

  ghost predicate AllAtHome(s: Sys) {
    forall id :: id in s.tasks ==> AtHome(s.tasks[id])
  }

  /** A background run merges into the job's repository and nowhere else. */
  lemma BackgroundMergesAtHome(job: Job, w: World, cfg: Settings, a: Action)
    requires a in BackgroundTrace(job, w, cfg) && a.FfMerge?
    ensures a.repo == JobRepo(job, cfg)
  {
    hide BackgroundTrace, Attempts, UsesPrPhase, WorkAccepted, JobRepo;
    AttemptsAreExact(job, w, cfg);
    AttemptsMember(BackgroundTrace(job, w, cfg), a);
  }

  lemma SyncMergesInRunner(job: Job, w: World, cfg: Settings, a: Action)
    requires a in SyncTrace(job, w, cfg).actions && a.FfMerge?
    ensures a.repo == cfg.runnerRepo
  {
  }

  lemma NewTasksAreAtHome(key: string, job: Job, cfg: Settings, background: bool, trace: seq<Action>)
    requires Runs(job, cfg, background, trace)
    ensures AtHome(Task(key, New, trace, job, cfg, background))
  {
    hide BackgroundTrace, SyncTrace, JobRepo;
    var w :| trace == if background then BackgroundTrace(job, w, cfg) else SyncTrace(job, w, cfg).actions;
    forall a | a in trace && a.FfMerge? ensures a.repo == if background then JobRepo(job, cfg) else cfg.runnerRepo {
      if background { BackgroundMergesAtHome(job, w, cfg, a); } else { SyncMergesInRunner(job, w, cfg, a); }
    }
  }

  lemma StepKeepsHome(s: Sys, step: Step)
    requires AllAtHome(s) && Genuine(step) && Enabled(s, step)
    ensures AllAtHome(After(s, step))
  {
    hide Runs, Apply, JobRepo, FreshId;
    if step.Enqueue? || step.Call? {
      NewTasksAreAtHome(step.key, step.job, step.cfg, step.Enqueue?, step.trace);
    }
  }

  lemma {:induction false} RunKeepsHome(resolve: Path -> string, states: seq<Sys>, steps: seq<Step>, n: nat)
    requires IsRun(resolve, states, steps) && AllGenuine(steps) && n < |states|
    ensures AllAtHome(states[n])
  {
    hide After, Enabled, Keyed, AtHome, Genuine;
    if n > 0 {
      RunKeepsHome(resolve, states, steps, n - 1);
      StepKeepsHome(states[n - 1], steps[n - 1]);
    }
  }

  lemma NobodyYet(resolve: Path -> string)
    ensures KeyedAll(resolve, INITIAL)
  {
  }

  lemma StepKeepsKeys(resolve: Path -> string, s: Sys, step: Step)
    requires KeyedAll(resolve, s) && Keyed(resolve, step) && Enabled(s, step)
    ensures KeyedAll(resolve, After(s, step))
  {
    hide Apply, JobRepo, FreshId;
  }

  lemma {:induction false} RunKeepsKeys(resolve: Path -> string, states: seq<Sys>, steps: seq<Step>, n: nat)
    requires IsRun(resolve, states, steps) && n < |states|
    ensures KeyedAll(resolve, states[n])
  {
    hide After, Enabled, Keyed, KeyedAll;
    if n == 0 {
      NobodyYet(resolve);
    } else {
      RunKeepsKeys(resolve, states, steps, n - 1);
      StepKeepsKeys(resolve, states[n - 1], steps[n - 1]);
    }
  }

  /** The lock of `key` is held by the task. */
  predicate Holds(s: Sys, id: string, key: string) {
    key in s.locks && s.locks[key] in s.holder && s.holder[s.locks[key]] == id
  }

  /** A task inside its critical section holds the lock of its job's repository and no other. */
  lemma HoldsOnlyItsLock(resolve: Path -> string, states: seq<Sys>, steps: seq<Step>, n: nat, id: string, p: Path)
    requires IsRun(resolve, states, steps) && n < |states|
    requires id in states[n].tasks && states[n].tasks[id].phase.Inside?
    ensures var t := states[n].tasks[id];
            Holds(states[n], id, resolve(p)) <==> resolve(p) == resolve(JobRepo(t.job, t.cfg))
  {
    hide After, Enabled, IsRun, JobRepo;
    RunKeepsLocks(resolve, states, steps, n);
    RunKeepsKeys(resolve, states, steps, n);
  }

  /** Every step on a repository is taken under that repository's lock exactly when it is the job's own. */
  lemma StepsUnderLock(resolve: Path -> string, states: seq<Sys>, steps: seq<Step>, n: nat, id: string, p: Path)
    requires IsRun(resolve, states, steps) && n < |steps| && steps[n] == Act(id)
    requires id in states[n].tasks && states[n].tasks[id].todo != []
    requires WorksIn(states[n].tasks[id], states[n].tasks[id].todo[0]) == Some(p)
    ensures var t := states[n].tasks[id];
            Holds(states[n], id, resolve(p)) <==> resolve(p) == resolve(JobRepo(t.job, t.cfg))
  {
    hide After, WorksIn, JobRepo;
    HoldsOnlyItsLock(resolve, states, steps, n, id, p);
  }

  /** A local merge is made under the lock of the repository merged into: always in the background, and in a
      synchronous run exactly when the job's repository is the runner's. */
  lemma MergesUnderLock(resolve: Path -> string, states: seq<Sys>, steps: seq<Step>, n: nat, id: string)
    requires IsRun(resolve, states, steps) && AllGenuine(steps) && n < |steps| && steps[n] == Act(id)
    requires id in states[n].tasks && states[n].tasks[id].todo != [] && states[n].tasks[id].todo[0].FfMerge?
    ensures var t := states[n].tasks[id];
            Holds(states[n], id, resolve(t.todo[0].repo)) <==>
            t.background || resolve(JobRepo(t.job, t.cfg)) == resolve(t.cfg.runnerRepo)
  {
    hide After, JobRepo, Genuine;
    var t := states[n].tasks[id];
    RunKeepsHome(resolve, states, steps, n);
    assert t.todo[0] in t.todo;
    assert WorksIn(t, t.todo[0]) == Some(t.todo[0].repo);
    StepsUnderLock(resolve, states, steps, n, id, t.todo[0].repo);
  }

  /** At no time are two jobs for one repository inside. */
  lemma MutualExclusion(resolve: Path -> string, states: seq<Sys>, steps: seq<Step>, n: nat, a: string, b: string)
    requires IsRun(resolve, states, steps) && n < |states|
    requires a in states[n].tasks && b in states[n].tasks
    requires states[n].tasks[a].phase.Inside? && states[n].tasks[b].phase.Inside?
    requires resolve(JobRepo(states[n].tasks[a].job, states[n].tasks[a].cfg)) ==
             resolve(JobRepo(states[n].tasks[b].job, states[n].tasks[b].cfg))
    ensures a == b
  {
    hide After, Enabled, IsRun, JobRepo;
    RunKeepsKeys(resolve, states, steps, n);
    OneInsidePerKey(resolve, states, steps, n, a, b);
  }

  /** Nor are two background jobs with a local merge into one repository ahead of them. */
  lemma BackgroundMergesTakeTurns(resolve: Path -> string, states: seq<Sys>, steps: seq<Step>, n: nat,
                                  a: string, b: string, m: Action, k: Action)
    requires IsRun(resolve, states, steps) && AllGenuine(steps) && n < |states|
    requires a in states[n].tasks && b in states[n].tasks
    requires states[n].tasks[a].phase.Inside? && states[n].tasks[a].background && m in states[n].tasks[a].todo
    requires states[n].tasks[b].phase.Inside? && states[n].tasks[b].background && k in states[n].tasks[b].todo
    requires m.FfMerge? && k.FfMerge? && resolve(m.repo) == resolve(k.repo)
    ensures a == b
  {
    hide After, Enabled, IsRun, JobRepo, AllGenuine;
    RunKeepsHome(resolve, states, steps, n);
    MutualExclusion(resolve, states, steps, n, a, b);
  }

  // ---- A synchronous job with a repository of its own ----

  /** A synchronous job for `other`, beside one for the repository of the runner, ... */
  function Override(other: Path): Job {
    Simple(Off, false, None).(repoOverride := Some(other))
  }

  const Green: World := Content(PrStatus(Open, false, Success, Approved))

  const SyncActions: seq<Action> := [
    OpenWorktree(true), CallAgent(Coder), CallAgent(Reviewer), Verify(Accepted), FfMerge("/repo", true),
    RemoveWorktree, DeleteBranch]

  lemma SyncTraceOf(job: Job)
    requires job.prMode == Off && job.splitInto == None
    ensures SyncTrace(job, Green, Defaults).actions == SyncActions
  {
  }

  function TaskFor(resolve: Path -> string, job: Job, phase: Phase): Task {
    Task(resolve(JobRepo(job, Defaults)), phase, SyncActions, job, Defaults, false)
  }

  function TwoTasks(resolve: Path -> string, other: Path, p: Phase, q: Phase): map<string, Task> {
    map["a" := TaskFor(resolve, Override(other), p), "b" := TaskFor(resolve, Simple(Off, false, None), q)]
  }

  lemma Extend(resolve: Path -> string, states: seq<Sys>, steps: seq<Step>, step: Step)
    returns (longer: seq<Sys>, more: seq<Step>)
    requires |states| == |steps| + 1 && IsRun(resolve, states, steps)
    requires Keyed(resolve, step) && Enabled(states[|steps|], step)
    requires AllGenuine(steps) && Genuine(step)
    ensures |longer| == |more| + 1 && IsRun(resolve, longer, more) && AllGenuine(more)
    ensures longer[|more|] == After(states[|steps|], step)
  {
    hide After, Enabled, Keyed, Genuine;
    longer, more := states + [After(states[|steps|], step)], steps + [step];
  }

  lemma BothCalled(resolve: Path -> string, other: Path) returns (states: seq<Sys>, steps: seq<Step>)
    ensures |states| == |steps| + 1 && IsRun(resolve, states, steps) && AllGenuine(steps)
    ensures states[|steps|] == INITIAL.(tasks := TwoTasks(resolve, other, New, New))
  {
    hide SyncTrace, BackgroundTrace, Apply;
    var x, y := Override(other), Simple(Off, false, None);
    SyncTraceOf(x);
    SyncTraceOf(y);
    assert SyncTrace(x, Green, Defaults).actions == SyncTrace(y, Green, Defaults).actions == SyncActions;
    hide SyncActions;
    steps := [Call("a", resolve(other), SyncActions, x, Defaults), Call("b", resolve("/repo"), SyncActions, y, Defaults)];
    var first := After(INITIAL, steps[0]);
    states := [INITIAL, first, After(first, steps[1])];
  }

  lemma BothWaiting(resolve: Path -> string, other: Path) returns (states: seq<Sys>, steps: seq<Step>)
    requires resolve(other) != resolve("/repo")
    ensures |states| == |steps| + 1 && IsRun(resolve, states, steps) && AllGenuine(steps)
    ensures states[|steps|] ==
            Sys(map[resolve(other) := 0, resolve("/repo") := 1], 2, map[], TwoTasks(resolve, other, Waiting(0), Waiting(1)),
                None, map[], [])
  {
    hide Runs, AllGenuine, Apply, IsRun, SyncActions;
    states, steps := BothCalled(resolve, other);
    states, steps := Extend(resolve, states, steps, Start("a"));
    states, steps := Extend(resolve, states, steps, Start("b"));
  }

  /** ... may both be inside, with the same worktree repository and the same merge ahead of them. */
  lemma OverrideIsNotExcluded(resolve: Path -> string, other: Path) returns (states: seq<Sys>, steps: seq<Step>)
    requires resolve(other) != resolve("/repo")
    ensures |states| == |steps| + 1 && IsRun(resolve, states, steps) && AllGenuine(steps)
    ensures var s := states[|steps|];
            && "a" in s.tasks && "b" in s.tasks
            && s.tasks["a"].phase.Inside? && s.tasks["b"].phase.Inside?
            && s.tasks["a"].todo == s.tasks["b"].todo == SyncActions
            && !Holds(s, "a", resolve("/repo")) && Holds(s, "b", resolve("/repo"))
  {
    hide Runs, AllGenuine, Apply, IsRun, SyncActions;
    states, steps := BothWaiting(resolve, other);
    states, steps := Extend(resolve, states, steps, Enter("a"));
    states, steps := Extend(resolve, states, steps, Enter("b"));
  }
}
