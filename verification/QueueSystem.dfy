/** All jobs together: interleaved runs, the lock registry, the shared job table and process restarts. */
module QueueSystem {
  import opened Wrappers
  import opened Jobs
  import opened MergeQueue
  import opened PrChecks
  import opened QueueProperties
  import SplitPlan

  /** `New` tasks have not looked their lock up yet. */
  datatype Phase = New | Waiting(lock: nat) | Inside(lock: nat) | Done

  /** One run under way; `todo` is what is left of its trace. */
  datatype Task = Task(key: string, phase: Phase, todo: seq<Action>, job: Job, cfg: Settings, background: bool)

  /** A caller of `get`: suspended before the guard, holding it, or served. */
  datatype Getter = AtGuard(key: string) | InGuard(key: string) | Served(key: string, lock: nat)

  datatype Sys = Sys(
    locks: map<string, nat>, nextLock: nat, holder: map<nat, string>,
    tasks: map<string, Task>, guard: Option<string>, getters: map<string, Getter>,
    table: seq<JobRow>)

  datatype Step =
    | Enqueue(id: string, row: JobRow, key: string, trace: seq<Action>, job: Job, cfg: Settings)
    | Call(id: string, key: string, trace: seq<Action>, job: Job, cfg: Settings)
    | Start(id: string)
    | Enter(id: string)
    | Act(id: string)
    | Leave(id: string)
    | Get(caller: string, key: string)
    | TakeGuard(caller: string)
    | FinishGet(caller: string)
    | Restart

  const INITIAL := Sys(map[], 0, map[], map[], None, map[], [])

  ghost predicate FreshId(s: Sys, id: string) {
    id !in s.tasks && forall i :: 0 <= i < |s.table| ==> s.table[i].id != id
  }

  ghost predicate Enabled(s: Sys, step: Step) {
    match step
    case Enqueue(id, row, _, _, _, _) =>
      FreshId(s, id) && row.id == id && row.status == Queued && !row.finished
    case Call(id, _, _, _, _) => FreshId(s, id)
    case Start(id) => id in s.tasks && s.tasks[id].phase == New
    case Enter(id) =>
      id in s.tasks && s.tasks[id].phase.Waiting? && s.tasks[id].phase.lock !in s.holder
    case Act(id) =>
      && id in s.tasks && s.tasks[id].phase.Inside? && s.tasks[id].todo != []
      && (s.tasks[id].todo[0].AddChild? ==> FreshId(s, s.tasks[id].todo[0].row.id))
    case Leave(id) => id in s.tasks && s.tasks[id].phase.Inside? && s.tasks[id].todo == []
    case Get(caller, _) => caller !in s.getters
    case TakeGuard(caller) => caller in s.getters && s.getters[caller].AtGuard? && s.guard == None
    case FinishGet(caller) => caller in s.getters && s.getters[caller].InGuard? && s.guard == Some(caller)
    case Restart => true
  }

  /** The registry after a look-up that creates what is missing. */
  function Bound(s: Sys, key: string): Sys {
    if key in s.locks then s else s.(locks := s.locks[key := s.nextLock], nextLock := s.nextLock + 1)
  }

  function WithTask(s: Sys, id: string, t: Task): Sys {
    s.(tasks := s.tasks[id := t])
  }

  ghost function After(s: Sys, step: Step): Sys
    requires Enabled(s, step)
  {
    match step
    case Enqueue(id, row, key, trace, job, cfg) =>
      WithTask(s, id, Task(key, New, trace, job, cfg, true)).(table := s.table + [row])
    case Call(id, key, trace, job, cfg) => WithTask(s, id, Task(key, New, trace, job, cfg, false))
    case Start(id) =>
      var s' := Bound(s, s.tasks[id].key);
      WithTask(s', id, s.tasks[id].(phase := Waiting(s'.locks[s.tasks[id].key])))
    case Enter(id) =>
      var lock := s.tasks[id].phase.lock;
      WithTask(s, id, s.tasks[id].(phase := Inside(lock))).(holder := s.holder[lock := id])
    case Act(id) =>
      var t := s.tasks[id];
      WithTask(s, id, t.(todo := t.todo[1..])).(table := Apply(s.table, id, t.todo[0]))
    case Leave(id) =>
      WithTask(s, id, s.tasks[id].(phase := Done)).(holder := s.holder - {s.tasks[id].phase.lock})
    case Get(caller, key) =>
      s.(getters := s.getters[caller := if key in s.locks then Served(key, s.locks[key]) else AtGuard(key)])
    case TakeGuard(caller) =>
      s.(guard := Some(caller), getters := s.getters[caller := InGuard(s.getters[caller].key)])
    case FinishGet(caller) =>
      var key := s.getters[caller].key;
      var s' := Bound(s, key);
      s'.(guard := None, getters := s.getters[caller := Served(key, s'.locks[key])])
    case Restart => INITIAL.(table := RecoverRows(s.table))
  }

  /** The job does what some world makes of it. */
  ghost predicate Runs(job: Job, cfg: Settings, background: bool, trace: seq<Action>) {
    exists w :: trace == if background then BackgroundTrace(job, w, cfg) else SyncTrace(job, w, cfg).actions
  }

  /** A job asks for the lock of its own repository; `resolve` brings a path into canonical form. */
  predicate Keyed(resolve: Path -> string, step: Step) {
    (step.Enqueue? || step.Call?) ==> step.key == resolve(JobRepo(step.job, step.cfg))
  }

  ghost predicate Genuine(step: Step) {
    (step.Enqueue? || step.Call?) ==> Runs(step.job, step.cfg, step.Enqueue?, step.trace)
  }

  ghost predicate AllGenuine(steps: seq<Step>) {
    forall i :: 0 <= i < |steps| ==> Genuine(steps[i])
  }

  // ---- The invariant ----

  ghost predicate OneLockEach(locks: map<string, nat>, next: nat) {
    && (forall k :: k in locks ==> locks[k] < next)
    && (forall j, k :: j in locks && k in locks && locks[j] == locks[k] ==> j == k)
  }

  /** A key has one lock, a lock one key, and every lock anybody got is the one its key is bound to. */
  ghost predicate LocksBound(s: Sys) {
    && OneLockEach(s.locks, s.nextLock)
    && (forall id :: id in s.tasks && (s.tasks[id].phase.Waiting? || s.tasks[id].phase.Inside?) ==>
          s.tasks[id].key in s.locks && s.locks[s.tasks[id].key] == s.tasks[id].phase.lock)
    && (forall c :: c in s.getters && s.getters[c].Served? ==>
          s.getters[c].key in s.locks && s.locks[s.getters[c].key] == s.getters[c].lock)
  }

  /** Whoever is inside holds its lock, and a held lock has its holder inside. */
  ghost predicate HoldersInside(s: Sys) {
    && (forall id :: id in s.tasks && s.tasks[id].phase.Inside? ==>
          s.tasks[id].phase.lock in s.holder && s.holder[s.tasks[id].phase.lock] == id)
    && (forall l :: l in s.holder ==>
          s.holder[l] in s.tasks && s.tasks[s.holder[l]].phase == Inside(l))
  }

  /** What is left of every run is legal for its row. */
  ghost predicate RowsLegal(s: Sys) {
    && UniqueIds(s.table) && StampsAgree(s.table)
    && (forall i, id :: 0 <= i < |s.table| && id in s.tasks && s.table[i].id == id ==> Legal(s.table[i], s.tasks[id].todo))
    && (forall id, a :: id in s.tasks && a in s.tasks[id].todo && a.AddChild? ==> Stamped(a.row))
  }

  ghost predicate Inv(s: Sys) {
    LocksBound(s) && HoldersInside(s) && RowsLegal(s)
  }

  lemma NewLock(locks: map<string, nat>, next: nat, key: string)
    requires OneLockEach(locks, next) && key !in locks
    ensures OneLockEach(locks[key := next], next + 1)
  {
  }

  lemma BoundKeepsLocks(s: Sys, key: string)
    requires LocksBound(s)
    ensures LocksBound(Bound(s, key)) && key in Bound(s, key).locks
    ensures forall k :: k in s.locks ==> k in Bound(s, key).locks && Bound(s, key).locks[k] == s.locks[k]
  {
    hide OneLockEach;
    if key !in s.locks { NewLock(s.locks, s.nextLock, key); }
  }

  lemma StartKeepsLocks(s: Sys, id: string)
    requires LocksBound(s) && Enabled(s, Start(id))
    ensures LocksBound(After(s, Start(id)))
  {
    BoundKeepsLocks(s, s.tasks[id].key);
  }

  lemma FinishGetKeepsLocks(s: Sys, caller: string)
    requires LocksBound(s) && Enabled(s, FinishGet(caller))
    ensures LocksBound(After(s, FinishGet(caller)))
  {
    BoundKeepsLocks(s, s.getters[caller].key);
  }

  lemma RunStepKeepsLocks(s: Sys, step: Step)
    requires LocksBound(s) && Enabled(s, step) && (step.Enter? || step.Act? || step.Leave?)
    ensures LocksBound(After(s, step))
  {
    hide Apply, FreshId;
  }

  lemma StepKeepsLocks(s: Sys, step: Step)
    requires LocksBound(s) && Enabled(s, step)
    ensures LocksBound(After(s, step))
  {
    hide Apply, FreshId;
    if step.Enter? || step.Act? || step.Leave? {
      hide *;
      RunStepKeepsLocks(s, step);
    } else if step.Start? {
      hide *;
      StartKeepsLocks(s, step.id);
    } else if step.FinishGet? {
      hide *;
      FinishGetKeepsLocks(s, step.caller);
    }
  }

  lemma EnterKeepsHolders(s: Sys, id: string)
    requires LocksBound(s) && HoldersInside(s) && Enabled(s, Enter(id))
    ensures HoldersInside(After(s, Enter(id)))
  {
  }

  lemma LeaveKeepsHolders(s: Sys, id: string)
    requires LocksBound(s) && HoldersInside(s) && Enabled(s, Leave(id))
    ensures HoldersInside(After(s, Leave(id)))
  {
  }

  lemma StepKeepsHolders(s: Sys, step: Step)
    requires LocksBound(s) && HoldersInside(s) && Enabled(s, step)
    ensures HoldersInside(After(s, step))
  {
    hide Apply, LocksBound;
    if step.Enter? {
      hide *;
      EnterKeepsHolders(s, step.id);
    } else if step.Leave? {
      hide *;
      LeaveKeepsHolders(s, step.id);
    }
  }

  /** The rows one step can reach, seen by index. */
  ghost predicate Advanced(was: seq<JobRow>, now: seq<JobRow>) {
    && |was| <= |now|
    && forall i :: 0 <= i < |was| ==> was[i].id == now[i].id && Follows(was[i].status, now[i].status)
  }

  lemma {:induction false} SliceChildrenOpen(job: Job, w: World, cfg: Settings, repo: Path, cost: real,
                                             plan: seq<SplitPlan.SplitSlice>, i: nat, previous: Option<nat>)
    requires i <= |plan|
    ensures forall a :: a in RunSlices(job, w, cfg, repo, cost, plan, i, previous).actions && a.AddChild? ==> Stamped(a.row)
    decreases |plan| - i
  {
    hide SliceBase, SliceRepo, StackIdOf;
    if i < |plan| {
      var step := RunSlice(job, w, cfg, repo, cost, plan, i, previous);
      if step.pr.Some? { SliceChildrenOpen(job, w, cfg, repo, cost, plan, i + 1, step.pr); }
    }
  }

  lemma LandingChildrenOpen(job: Job, w: World, cfg: Settings, cost: real)
    ensures forall a :: a in Landing(job, w, cfg, cost).actions && a.AddChild? ==> Stamped(a.row)
  {
    hide RunPrPhase, RunSlices, SplitPlan.Plan, Stamped;
    PhaseHasNoChildren(job, w, cfg, JobRepo(job, cfg), cost);
    if Stacked(job) && Planned(job, w, cfg) {
      SliceChildrenOpen(job, w, cfg, JobRepo(job, cfg), cost, PlanOf(job, w, cfg), 0, None);
    }
  }

  ghost predicate Childless(t: seq<Action>) {
    forall i :: 0 <= i < |t| ==> !t[i].AddChild?
  }

  lemma MergeHasNoChildren(job: Job, w: World, cost: real, k: nat)
    ensures Childless(MergePhase(job, w, cost, k).actions)
  {
  }

  lemma WatchHasNoChildren(job: Job, w: World, cost: real, k: nat)
    ensures Childless(WatchPhase(job, w, cost, k).actions)
  {
    hide WaitResult, MergePhase;
    MergeHasNoChildren(job, w, cost, k);
  }

  lemma PhaseHasNoChildren(job: Job, w: World, cfg: Settings, repo: Path, cost: real)
    ensures Childless(RunPrPhase(job, w, cfg, repo, cost).actions)
  {
    hide WatchPhase, Target;
    if w.create.Opened? { WatchHasNoChildren(job, w, cost, w.create.number); }
  }

  lemma JudgingHasNoChildren(job: Job, w: World, cfg: Settings, cost: real)
    requires w.verdict != Accepted
    ensures Childless(Judging(job, w, cfg, cost).actions)
  {
    hide Landing;
  }

  lemma ReviewingHasNoChildren(job: Job, w: World, cfg: Settings, cost: real)
    requires !(w.review.Answered? && (w.review.error ==> w.review.text) && w.verdict == Accepted)
    ensures Childless(Reviewing(job, w, cfg, cost).actions)
  {
    hide Judging;
    if w.review.Answered? && w.verdict != Accepted { JudgingHasNoChildren(job, w, cfg, cost + w.review.cost); }
  }

  lemma UnacceptedHasNoChildren(job: Job, w: World, cfg: Settings)
    requires !WorkAccepted(w)
    ensures Childless(BackgroundTrace(job, w, cfg))
  {
    hide Reviewing;
    if w.code.Answered? && (w.code.error ==> w.code.text) && w.worktreeOk {
      ReviewingHasNoChildren(job, w, cfg, w.code.cost);
    }
  }

  /** The rows a run adds start open and unstamped. */
  lemma TraceChildrenOpen(job: Job, w: World, cfg: Settings)
    ensures forall a :: a in BackgroundTrace(job, w, cfg) && a.AddChild? ==> Stamped(a.row)
  {
    hide Landing, Stamped, BackgroundTrace;
    if WorkAccepted(w) {
      AcceptedTrace(job, w, cfg);
      LandingChildrenOpen(job, w, cfg, w.code.cost + w.review.cost);
      assert Childless(UntilVerdict(w));
    } else {
      UnacceptedHasNoChildren(job, w, cfg);
    }
  }

  lemma SyncHasNoChildren(job: Job, w: World, cfg: Settings)
    ensures forall a :: a in SyncTrace(job, w, cfg).actions ==> !a.AddChild?
  {
  }

  lemma ActKeepsRows(s: Sys, id: string)
    requires RowsLegal(s) && Enabled(s, Act(id))
    ensures RowsLegal(After(s, Act(id)))
    ensures Advanced(s.table, After(s, Act(id)).table)
  {
    hide Legal;
    var t, s' := s.tasks[id], After(s, Act(id));
    var a, rest := t.todo[0], t.todo[1..];
    assert t.todo == [a] + rest;
    forall i | 0 <= i < |s.table| && s.table[i].id == id
      ensures LegalStep(s.table[i].status, a) && Legal(RowStep(s.table[i], a), rest)
    {
      Prepend(s.table[i], a, rest);
    }
    forall i | 0 <= i < |s.table|
      ensures s'.table[i] == (if s.table[i].id == id then RowStep(s.table[i], a) else s.table[i])
    {
    }
  }

  lemma RestartKeepsRows(s: Sys)
    requires RowsLegal(s)
    ensures RowsLegal(After(s, Restart)) && Advanced(s.table, After(s, Restart).table)
  {
    hide Legal, Follows;
    RecoveryMovesForward(s.table);
  }

  lemma EnqueueKeepsRows(s: Sys, step: Step)
    requires RowsLegal(s) && step.Enqueue? && Enabled(s, step) && Runs(step.job, step.cfg, true, step.trace)
    ensures RowsLegal(After(s, step)) && Advanced(s.table, After(s, step).table)
  {
    hide BackgroundTrace, SyncTrace, Legal, Follows;
    var w :| step.trace == BackgroundTrace(step.job, w, step.cfg);
    RunEnds(step.row, step.job, w, step.cfg);
    TraceChildrenOpen(step.job, w, step.cfg);
    AdvancedSelf(s.table);
  }

  lemma CallKeepsRows(s: Sys, step: Step)
    requires RowsLegal(s) && step.Call? && Enabled(s, step) && Runs(step.job, step.cfg, false, step.trace)
    ensures RowsLegal(After(s, step)) && Advanced(s.table, After(s, step).table)
  {
    hide BackgroundTrace, SyncTrace, Legal, Follows;
    var w :| step.trace == SyncTrace(step.job, w, step.cfg).actions;
    SyncHasNoChildren(step.job, w, step.cfg);
    AdvancedSelf(s.table);
  }

  lemma OtherStepsKeepRows(s: Sys, step: Step)
    requires RowsLegal(s) && !step.Act? && !step.Enqueue? && !step.Call? && !step.Restart? && Enabled(s, step)
    ensures RowsLegal(After(s, step)) && Advanced(s.table, After(s, step).table)
  {
    hide Legal, Follows;
    AdvancedSelf(s.table);
  }

  lemma StepKeepsRows(s: Sys, step: Step)
    requires RowsLegal(s) && Enabled(s, step) && Genuine(step)
    ensures RowsLegal(After(s, step))
    ensures Advanced(s.table, After(s, step).table)
  {
    hide Runs, RowsLegal, After, Enabled, Advanced;
    match step {
      case Act(id) => ActKeepsRows(s, id);
      case Enqueue(_, _, _, _, _, _) => EnqueueKeepsRows(s, step);
      case Call(_, _, _, _, _) => CallKeepsRows(s, step);
      case Restart => RestartKeepsRows(s);
      case _ => OtherStepsKeepRows(s, step);
    }
  }

  // ---- Every run of the system ----

  ghost predicate IsRun(resolve: Path -> string, states: seq<Sys>, steps: seq<Step>) {
    && |states| == |steps| + 1 && states[0] == INITIAL
    && forall i :: 0 <= i < |steps| ==>
         Keyed(resolve, steps[i]) && Enabled(states[i], steps[i]) && states[i + 1] == After(states[i], steps[i])
  }

  lemma {:induction false} RunKeepsLocks(resolve: Path -> string, states: seq<Sys>, steps: seq<Step>, n: nat)
    requires IsRun(resolve, states, steps) && n < |states|
    ensures LocksBound(states[n]) && HoldersInside(states[n])
  {
    hide LocksBound, HoldersInside, RowsLegal, After, Enabled, Keyed;
    if n == 0 {
      InitialInv();
    } else {
      RunKeepsLocks(resolve, states, steps, n - 1);
      StepKeepsLocks(states[n - 1], steps[n - 1]);
      StepKeepsHolders(states[n - 1], steps[n - 1]);
    }
  }

  lemma {:induction false} RunKeepsRows(resolve: Path -> string, states: seq<Sys>, steps: seq<Step>, n: nat)
    requires IsRun(resolve, states, steps) && AllGenuine(steps) && n < |states|
    ensures RowsLegal(states[n])
  {
    hide LocksBound, HoldersInside, RowsLegal, After, Enabled, Keyed, Genuine;
    if n == 0 {
      InitialInv();
    } else {
      RunKeepsRows(resolve, states, steps, n - 1);
      StepKeepsRows(states[n - 1], steps[n - 1]);
    }
  }

  /** In every reachable state locks and holders are consistent, and what is left of every run is legal for its row. */
  lemma RunKeepsInv(resolve: Path -> string, states: seq<Sys>, steps: seq<Step>, n: nat)
    requires IsRun(resolve, states, steps) && AllGenuine(steps) && n < |states|
    ensures Inv(states[n])
  {
    hide IsRun, AllGenuine, LocksBound, HoldersInside, RowsLegal;
    RunKeepsLocks(resolve, states, steps, n);
    RunKeepsRows(resolve, states, steps, n);
  }

  lemma InitialInv()
    ensures Inv(INITIAL)
  {
  }

  /** At no time are two jobs inside under one key. */
  lemma OneInsidePerKey(resolve: Path -> string, states: seq<Sys>, steps: seq<Step>, n: nat, a: string, b: string)
    requires IsRun(resolve, states, steps) && n < |states|
    requires a in states[n].tasks && b in states[n].tasks
    requires states[n].tasks[a].phase.Inside? && states[n].tasks[b].phase.Inside?
    requires states[n].tasks[a].key == states[n].tasks[b].key
    ensures a == b
  {
    hide After, Enabled, RowsLegal, IsRun;
    RunKeepsLocks(resolve, states, steps, n);
  }

  /** Until the process restarts, a key keeps the lock it got first, whoever asked for it. */
  lemma {:induction false} LocksAreForever(resolve: Path -> string, states: seq<Sys>, steps: seq<Step>, m: nat, n: nat, key: string)
    requires IsRun(resolve, states, steps) && m <= n < |states| && key in states[m].locks
    requires forall i :: m <= i < n ==> steps[i] != Restart
    ensures key in states[n].locks && states[n].locks[key] == states[m].locks[key]
    decreases n - m
  {
    hide Apply, JobRepo;
    if m < n {
      assert states[m + 1] == After(states[m], steps[m]);
      LocksAreForever(resolve, states, steps, m + 1, n, key);
    }
  }

  lemma FollowsChains(a: Status, b: Status, c: Status)
    requires Follows(a, b) && Follows(b, c)
    ensures Follows(a, c)
  {
  }

  /** Over any stretch of any run, restarts included, no row moves backwards or leaves a terminal status, and
      every row is stamped exactly when it is terminal. */
  lemma {:induction false} StatusesGoForward(resolve: Path -> string, states: seq<Sys>, steps: seq<Step>, m: nat, n: nat)
    requires IsRun(resolve, states, steps) && AllGenuine(steps) && m <= n < |states|
    ensures Advanced(states[m].table, states[n].table)
    ensures StampsAgree(states[n].table)
    decreases n - m
  {
    hide After, Enabled, Follows, LocksBound, HoldersInside, Genuine, Keyed;
    RunKeepsRows(resolve, states, steps, n);
    if m < n {
      RunKeepsRows(resolve, states, steps, m);
      assert states[m + 1] == After(states[m], steps[m]);
      StepKeepsRows(states[m], steps[m]);
      StatusesGoForward(resolve, states, steps, m + 1, n);
      AdvancedChains(states[m].table, states[m + 1].table, states[n].table);
    } else {
      AdvancedSelf(states[n].table);
    }
  }

  lemma AdvancedSelf(t: seq<JobRow>)
    ensures Advanced(t, t)
  {
  }

  lemma AdvancedChains(a: seq<JobRow>, b: seq<JobRow>, c: seq<JobRow>)
    requires Advanced(a, b) && Advanced(b, c)
    ensures Advanced(a, c)
  {
    forall i | 0 <= i < |a| ensures a[i].id == c[i].id && Follows(a[i].status, c[i].status) {
      FollowsChains(a[i].status, b[i].status, c[i].status);
    }
  }

  /** Jobs on different repositories do not wait for each other: both may be inside. */
  lemma DifferentReposTogether(s: Sys, a: string, b: string)
    requires Inv(s) && a in s.tasks && b in s.tasks && s.tasks[a].key != s.tasks[b].key
    requires Enabled(s, Enter(a)) && Enabled(s, Enter(b))
    ensures Enabled(After(s, Enter(a)), Enter(b))
    ensures var s' := After(After(s, Enter(a)), Enter(b));
            s'.tasks[a].phase.Inside? && s'.tasks[b].phase.Inside?
  {
    hide RowsLegal, HoldersInside;
  }

  /** A waiting job can always enter, or the job it waits for can move on. */
  lemma NobodyWaitsForNothing(s: Sys, id: string)
    requires Inv(s) && id in s.tasks && s.tasks[id].phase.Waiting?
    ensures Enabled(s, Enter(id)) ||
            (s.tasks[id].phase.lock in s.holder &&
             var h := s.holder[s.tasks[id].phase.lock];
             h in s.tasks && s.tasks[h].key == s.tasks[id].key && s.tasks[h].phase.Inside? &&
             (Enabled(s, Leave(h)) || s.tasks[h].todo != []))
  {
    hide RowsLegal;
  }
}
