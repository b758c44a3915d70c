/** The rows a stack leaves behind, and what a run does to the job table. */
module StackShape {
  import opened Wrappers
  import opened Ordering
  import opened Jobs
  import opened MergeQueue
  import opened QueueProperties
  import SplitPlan
  import PlanProperties

  // ---- The table after a run ----

  function OwnRows(table: seq<JobRow>, id: string, t: seq<Action>): seq<JobRow> {
    seq(|table|, i requires 0 <= i < |table| => if table[i].id == id then RowAfter(table[i], t) else table[i])
  }

  lemma {:induction false} RowKeepsId(row: JobRow, t: seq<Action>)
    ensures RowAfter(row, t).id == row.id && RowAfter(row, t).position == row.position
  {
    if t != [] { RowKeepsId(row, t[..|t| - 1]); }
  }

  /** A run changes its own row, appends the rows of its stack, and leaves every other job alone. */
  lemma {:induction false} RunTouchesOnlyItsRows(table: seq<JobRow>, id: string, t: seq<Action>)
    requires forall c :: c in Children(t) ==> c.id != id
    ensures Replay(table, id, t) == OwnRows(table, id, t) + Children(t)
  {
    if t == [] {
      assert OwnRows(table, id, t) == table;
    } else {
      var init, a := t[..|t| - 1], t[|t| - 1];
      RunTouchesOnlyItsRows(table, id, init);
      ApplyToOwn(table, id, init, a);
    }
  }

  lemma ApplyStepsRows(table: seq<JobRow>, id: string, a: Action)
    requires !a.AddChild?
    ensures |Apply(table, id, a)| == |table|
    ensures forall i :: 0 <= i < |table| ==>
              Apply(table, id, a)[i] == if table[i].id == id then RowStep(table[i], a) else table[i]
  {
  }

  lemma OwnRowsStep(table: seq<JobRow>, id: string, init: seq<Action>, a: Action, i: nat)
    requires i < |table|
    ensures OwnRows(table, id, init)[i].id == table[i].id
    ensures OwnRows(table, id, init + [a])[i] ==
            if table[i].id == id then RowStep(OwnRows(table, id, init)[i], a) else OwnRows(table, id, init)[i]
  {
    hide RowStep;
    RowKeepsId(table[i], init);
    assert (init + [a])[..|init|] == init;
  }

  lemma ApplyToOwn(table: seq<JobRow>, id: string, init: seq<Action>, a: Action)
    requires forall c :: c in Children(init) ==> c.id != id
    ensures Apply(OwnRows(table, id, init) + Children(init), id, a) ==
            OwnRows(table, id, init + [a]) + (Children(init) + if a.AddChild? then [a.row] else [])
  {
    hide RowAfter, Children, RowStep;
    var own, kids, next := OwnRows(table, id, init), Children(init), OwnRows(table, id, init + [a]);
    assert |next| == |own| == |table|;
    if a.AddChild? {
      forall i | 0 <= i < |table| ensures next[i] == own[i] { ChildLeavesRow(table, id, init, a, i); }
      assert (own + kids) + [a.row] == next + (kids + [a.row]);
    } else {
      hide OwnRows, Apply;
      ApplyStepsRows(own + kids, id, a);
      assert kids + [] == kids;
      forall i | 0 <= i < |own + kids| ensures Apply(own + kids, id, a)[i] == (next + kids)[i] {
        if i < |own| {
          OwnRowsStep(table, id, init, a, i);
        } else {
          assert (own + kids)[i] == kids[i - |own|] && kids[i - |own|] in kids;
        }
      }
    }
  }

  lemma ChildLeavesRow(table: seq<JobRow>, id: string, init: seq<Action>, a: Action, i: nat)
    requires a.AddChild? && i < |table|
    ensures OwnRows(table, id, init + [a])[i] == OwnRows(table, id, init)[i]
  {
    OwnRowsStep(table, id, init, a, i);
  }

  // ---- The chain ----

  lemma {:induction false} ChildRowsAt(job: Job, w: World, cfg: Settings, repo: Path, size: nat, i: nat, n: nat,
                                       previous: Option<nat>, j: nat)
    requires AllOpen(w, i, i + n) && j < n
    ensures |ChildRows(job, w, cfg, repo, size, i, n, previous)| == n
    ensures ChildRows(job, w, cfg, repo, size, i, n, previous)[j] ==
            ChildRow(job, w, cfg, repo, size, i + j, w.slices(i + j).number,
                     if j == 0 then previous else Some(w.slices(i + j - 1).number))
    decreases n
  {
    hide ChildRow;
    var k := w.slices(i).number;
    if n > 1 {
      ChildRowsAt(job, w, cfg, repo, size, i + 1, n - 1, Some(k), if j == 0 then 0 else j - 1);
    }
  }

  lemma ChildRowsLength(job: Job, w: World, cfg: Settings, repo: Path, size: nat, i: nat, n: nat, previous: Option<nat>)
    requires AllOpen(w, i, i + n)
    ensures |ChildRows(job, w, cfg, repo, size, i, n, previous)| == n
  {
    if n > 0 { ChildRowsAt(job, w, cfg, repo, size, i, n, previous, 0); }
  }

  lemma {:induction false} SlicesRequest(job: Job, w: World, cfg: Settings, repo: Path, cost: real,
                                         plan: seq<SplitPlan.SplitSlice>, i: nat, previous: Option<nat>, j: nat)
    requires i <= |plan| && i <= j < i + OpenedFrom(w, i, |plan|)
    ensures CreatePr(plan[j].branchName, SliceBase(job, cfg, j), Some(w.slices(j).number))
            in RunSlices(job, w, cfg, repo, cost, plan, i, previous).actions
    decreases |plan| - i
  {
    hide SliceBase, SliceRepo, ChildRow;
    var step := RunSlice(job, w, cfg, repo, cost, plan, i, previous);
    if j == i {
      assert step.actions[2] == CreatePr(plan[j].branchName, SliceBase(job, cfg, j), Some(w.slices(j).number));
    } else {
      SlicesRequest(job, w, cfg, repo, cost, plan, i + 1, step.pr, j);
    }
  }

  /** The stack's own slice of the run. */
  function SlicesRun(job: Job, w: World, cfg: Settings): Segment
    requires WorkAccepted(w) && OpensStack(job, w, cfg)
  {
    RunSlices(job, w, cfg, JobRepo(job, cfg), w.code.cost + w.review.cost, PlanOf(job, w, cfg), 0, None)
  }

  lemma StackTrace(job: Job, w: World, cfg: Settings)
    requires WorkAccepted(w) && OpensStack(job, w, cfg)
    ensures BackgroundTrace(job, w, cfg) ==
            UntilVerdict(w) +
            Handled(SlicesRun(job, w, cfg).After(
                      [TagStack(StackIdOf(job, w), |PlanOf(job, w, cfg)|), Move(PrCreating)]))
  {
    hide BackgroundTrace, RunSlices, SplitPlan.Plan, PlanRequest, JobRepo, RunPrPhase;
    AcceptedTrace(job, w, cfg);
  }

  /** How many slices of the stack were opened. */
  function StackHeight(job: Job, w: World, cfg: Settings): nat
    requires OpensStack(job, w, cfg)
  {
    OpenedFrom(w, 0, |PlanOf(job, w, cfg)|)
  }

  lemma StackReadings(row: JobRow, job: Job, w: World, cfg: Settings)
    requires row.status == Queued && WorkAccepted(w) && OpensStack(job, w, cfg)
    ensures var plan, t := PlanOf(job, w, cfg), BackgroundTrace(job, w, cfg);
            && Children(t) == ChildRows(job, w, cfg, JobRepo(job, cfg), |plan|, 0, StackHeight(job, w, cfg), None)
            && RowAfter(row, t).status == (if StackHeight(job, w, cfg) == |plan| then PrOpen else Failed)
            && RowAfter(row, t).stackId == Some(StackIdOf(job, w)) && RowAfter(row, t).size == |plan|
            && RowAfter(row, t).position == row.position
  {
    var plan := PlanOf(job, w, cfg);
    var tag := [TagStack(StackIdOf(job, w), |plan|), Move(PrCreating)];
    var s := SlicesRun(job, w, cfg);
    hide *;
    StackTrace(job, w, cfg);
    TagReads(row, job, w, |plan|);
    var row1 := RowAfter(row, UntilVerdict(w));
    SlicesRead(RowAfter(row1, tag), job, w, cfg);
    Concatenation(row1, tag, s.actions);
    HandledReads(row1, s.After(tag));
    Concatenation(row, UntilVerdict(w), Handled(s.After(tag)));
    RowKeepsId(row, BackgroundTrace(job, w, cfg));
    AfterIsPrefix(s, tag);
    assert [] + Children(s.actions) == Children(s.actions);
  }

  lemma AfterIsPrefix(s: Segment, prefix: seq<Action>)
    ensures s.After(prefix).actions == prefix + s.actions && s.After(prefix).ending == s.ending
  {
  }

  /** The row of the whole run when the first slice is opened. */
  lemma TagReads(row: JobRow, job: Job, w: World, size: nat)
    requires row.status == Queued
    ensures var tag, row1 := [TagStack(StackIdOf(job, w), size), Move(PrCreating)], RowAfter(row, UntilVerdict(w));
            && Children(UntilVerdict(w)) == [] && Children(tag) == []
            && RowAfter(row1, tag).status == PrCreating
            && RowAfter(row1, tag).stackId == Some(StackIdOf(job, w)) && RowAfter(row1, tag).size == size
  {
    hide StackIdOf, Children, RowAfter;
    UntilVerdictReads(row, w);
    var tag, row1 := [TagStack(StackIdOf(job, w), size), Move(PrCreating)], RowAfter(row, UntilVerdict(w));
    ReadTwo(row1, tag[0], tag[1]);
    TagReadsNoChild(row1, tag[0], tag[1]);
  }

  lemma SlicesRead(row: JobRow, job: Job, w: World, cfg: Settings)
    requires row.status == PrCreating && WorkAccepted(w) && OpensStack(job, w, cfg)
    ensures var s, plan := SlicesRun(job, w, cfg), PlanOf(job, w, cfg);
            && Children(s.actions) == ChildRows(job, w, cfg, JobRepo(job, cfg), |plan|, 0, StackHeight(job, w, cfg), None)
            && RowAfter(row, s.actions).stackId == row.stackId && RowAfter(row, s.actions).size == row.size
            && s.ending != Expired
            && (s.ending == Crashed ==> StackHeight(job, w, cfg) != |plan|)
            && (s.ending == Completed ==>
                  RowAfter(row, s.actions).status == if StackHeight(job, w, cfg) == |plan| then PrOpen else Failed)
  {
    hide RunSlices, ChildRows, PlanOf, JobRepo, Planned, Children, RowAfter, AllOpen, Legal, Merges, OpenedFrom;
    var plan, repo, cost := PlanOf(job, w, cfg), JobRepo(job, cfg), w.code.cost + w.review.cost;
    SlicesEnd(row, job, w, cfg, repo, cost, plan, 0, None);
    SlicesChildren(job, w, cfg, repo, cost, plan, 0, None, row);
    SlicesKeepStack(row, job, w, cfg, repo, cost, plan, 0, None);
    AllOpenIffHeight(w, |plan|);
  }

  lemma AllOpenIffHeight(w: World, n: nat)
    ensures AllOpen(w, 0, n) <==> OpenedFrom(w, 0, n) == n
  {
  }

  lemma UntilVerdictReads(row: JobRow, w: World)
    requires row.status == Queued
    ensures Children(UntilVerdict(w)) == [] && RowAfter(row, UntilVerdict(w)) == row.(status := Verifying)
  {
    hide Children, RowAfter;
    var t := UntilVerdict(w);
    assert t == [t[0]] + ([t[1], t[2]] + ([t[3], t[4]] + [t[5], t[6]]));
    var r1 := RowStep(row, t[0]);
    var r2 := RowStep(RowStep(r1, t[1]), t[2]);
    var r3 := RowStep(RowStep(r2, t[3]), t[4]);
    ReadTwo(r1, t[1], t[2]);
    TagReadsNoChild(r1, t[1], t[2]);
    ReadTwo(r2, t[3], t[4]);
    TagReadsNoChild(r2, t[3], t[4]);
    ReadTwo(r3, t[5], t[6]);
    TagReadsNoChild(r3, t[5], t[6]);
    Concatenation(r2, [t[3], t[4]], [t[5], t[6]]);
    Concatenation(r1, [t[1], t[2]], [t[3], t[4]] + [t[5], t[6]]);
    Prepend(row, t[0], [t[1], t[2]] + ([t[3], t[4]] + [t[5], t[6]]));
  }

  lemma TagReadsNoChild(row: JobRow, a: Action, b: Action)
    requires !a.AddChild? && !b.AddChild?
    ensures Children([a, b]) == []
  {
    assert [a, b] == [a] + [b];
    Prepend(row, a, [b]);
    Single(row, b);
  }

  lemma HandledReads(row: JobRow, body: Segment)
    ensures Children(Handled(body)) == Children(body.actions)
    ensures body.ending == Completed ==> RowAfter(row, Handled(body)) == RowAfter(row, body.actions)
    ensures body.ending == Crashed ==> RowAfter(row, Handled(body)).status == Failed
    ensures RowAfter(row, Handled(body)).stackId == RowAfter(row, body.actions).stackId
    ensures RowAfter(row, Handled(body)).size == RowAfter(row, body.actions).size
  {
    hide Children, RowAfter;
    if body.ending != Completed {
      var end := Finish(if body.ending == Expired then Timeout else Failed, None, None);
      Single(RowAfter(row, body.actions), end);
      Concatenation(row, body.actions, [end]);
    }
  }

  lemma {:induction false} SlicesKeepStack(row: JobRow, job: Job, w: World, cfg: Settings, repo: Path, cost: real,
                                           plan: seq<SplitPlan.SplitSlice>, i: nat, previous: Option<nat>)
    requires i <= |plan|
    ensures var after := RowAfter(row, RunSlices(job, w, cfg, repo, cost, plan, i, previous).actions);
            after.stackId == row.stackId && after.size == row.size
  {
    NoTagKeepsStack(row, RunSlices(job, w, cfg, repo, cost, plan, i, previous).actions) by {
      SlicesNeverTag(job, w, cfg, repo, cost, plan, i, previous);
    }
  }

  lemma {:induction false} NoTagKeepsStack(row: JobRow, t: seq<Action>)
    requires forall a :: a in t ==> !a.TagStack?
    ensures RowAfter(row, t).stackId == row.stackId && RowAfter(row, t).size == row.size
  {
    if t != [] {
      assert t[|t| - 1] in t;
      NoTagKeepsStack(row, t[..|t| - 1]);
    }
  }

  lemma {:induction false} SlicesNeverTag(job: Job, w: World, cfg: Settings, repo: Path, cost: real,
                                          plan: seq<SplitPlan.SplitSlice>, i: nat, previous: Option<nat>)
    requires i <= |plan|
    ensures forall a :: a in RunSlices(job, w, cfg, repo, cost, plan, i, previous).actions ==> !a.TagStack?
    decreases |plan| - i
  {
    hide SliceBase, SliceRepo, ChildRow;
    if i < |plan| {
      var step := RunSlice(job, w, cfg, repo, cost, plan, i, previous);
      if step.pr.Some? { SlicesNeverTag(job, w, cfg, repo, cost, plan, i + 1, step.pr); }
    }
  }

  /** Row `j` of the children: where it sits, what it is based on and what it waits for. */
  ghost predicate IsLink(job: Job, w: World, cfg: Settings, plan: seq<SplitPlan.SplitSlice>, kids: seq<JobRow>, j: nat)
    requires j < |kids| <= |plan|
  {
    && kids[j].position == j + 1 && kids[j].size == |plan| && kids[j].status == PrOpen
    && kids[j].stackId == Some(StackIdOf(job, w))
    && w.slices(j).SliceOpened? && kids[j].prNumber == Some(w.slices(j).number)
    && kids[j].targetBranch == (if j == 0 then Target(job, cfg) else plan[j - 1].branchName)
    && kids[j].dependsOn == (if j == 0 then None else kids[j - 1].prNumber)
  }

  lemma ChildRowsLink(job: Job, w: World, cfg: Settings, repo: Path, plan: seq<SplitPlan.SplitSlice>, n: nat, j: nat)
    requires AllOpen(w, 0, n) && j < n <= |plan|
    requires forall i :: 0 <= i < |plan| ==> plan[i].branchName == SplitPlan.Branch(job.worktreeId, i)
    ensures var kids := ChildRows(job, w, cfg, repo, |plan|, 0, n, None);
            |kids| == n && IsLink(job, w, cfg, plan, kids, j)
  {
    hide ChildRows, Target, StackIdOf, SliceRepo;
    ChildRowsAt(job, w, cfg, repo, |plan|, 0, n, None, j);
    if j > 0 { ChildRowsAt(job, w, cfg, repo, |plan|, 0, n, None, j - 1); }
  }

  /** A stack is a chain: positions 1, 2, ... up to the first slice that fails, the first pull request on the target
      branch, each later one on the head of the one before; the orchestrator is open if all are, and failed otherwise. */
  lemma StackIsAChain(row: JobRow, job: Job, w: World, cfg: Settings)
    requires row.status == Queued && WorkAccepted(w) && OpensStack(job, w, cfg)
    ensures var plan, t := PlanOf(job, w, cfg), BackgroundTrace(job, w, cfg);
            var kids := Children(t);
            && |kids| == StackHeight(job, w, cfg) <= |plan|
            && (|kids| < |plan| ==> !w.slices(|kids|).SliceOpened?)
            && RowAfter(row, t).status == (if |kids| == |plan| then PrOpen else Failed)
            && RowAfter(row, t).stackId == Some(StackIdOf(job, w)) && RowAfter(row, t).size == |plan|
            && forall j :: 0 <= j < |kids| ==> IsLink(job, w, cfg, plan, kids, j)
  {
    hide BackgroundTrace, Children, RowAfter, PlanOf, ChildRows, IsLink, JobRepo, Planned, AllOpen, WorkAccepted;
    StackReadings(row, job, w, cfg);
    var plan, n := PlanOf(job, w, cfg), StackHeight(job, w, cfg);
    ChildRowsLength(job, w, cfg, JobRepo(job, cfg), |plan|, 0, n, None);
    BranchesOfPlan(job, w, cfg);
    forall j | 0 <= j < n ensures IsLink(job, w, cfg, plan, Children(BackgroundTrace(job, w, cfg)), j) {
      ChildRowsLink(job, w, cfg, JobRepo(job, cfg), plan, n, j);
    }
  }

  lemma BranchesOfPlan(job: Job, w: World, cfg: Settings)
    requires Planned(job, w, cfg)
    ensures forall j :: 0 <= j < |PlanOf(job, w, cfg)| ==>
              PlanOf(job, w, cfg)[j].branchName == SplitPlan.Branch(job.worktreeId, j)
  {
    PlanProperties.PlanIsAStack(PlanRequest(job, cfg, w.diff.value));
  }

  /** The head of every pull request of the stack is its own slice's branch. */
  lemma StackHeads(job: Job, w: World, cfg: Settings, j: nat)
    requires WorkAccepted(w) && OpensStack(job, w, cfg) && j < StackHeight(job, w, cfg)
    ensures CreatePr(PlanOf(job, w, cfg)[j].branchName, SliceBase(job, cfg, j), Some(w.slices(j).number))
            in BackgroundTrace(job, w, cfg)
  {
    hide BackgroundTrace, RunSlices, SplitPlan.Plan, PlanRequest, SliceBase;
    StackTrace(job, w, cfg);
    SlicesRequest(job, w, cfg, JobRepo(job, cfg), w.code.cost + w.review.cost, PlanOf(job, w, cfg), 0, None, j);
  }

  // ---- Looking the stack up ----

  lemma {:induction false} OfStackSplits(a: seq<JobRow>, b: seq<JobRow>, stackId: string)
    ensures OfStack(a + b, stackId) == OfStack(a, stackId) + OfStack(b, stackId)
  {
    if b == [] {
      assert a + b == a;
    } else {
      OfStackSplits(a, b[..|b| - 1], stackId);
      assert (a + b)[..|a + b| - 1] == a + b[..|b| - 1];
    }
  }

  lemma {:induction false} OfStackNone(rows: seq<JobRow>, stackId: string)
    requires forall r :: r in rows ==> r.stackId != Some(stackId)
    ensures OfStack(rows, stackId) == []
  {
    if rows != [] {
      assert rows[|rows| - 1] in rows;
      OfStackNone(rows[..|rows| - 1], stackId);
    }
  }

  lemma {:induction false} OfStackAll(rows: seq<JobRow>, stackId: string)
    requires forall r :: r in rows ==> r.stackId == Some(stackId)
    ensures OfStack(rows, stackId) == rows
  {
    if rows != [] {
      assert rows[|rows| - 1] in rows;
      OfStackAll(rows[..|rows| - 1], stackId);
    }
  }

  lemma OfStackOne(rows: seq<JobRow>, q: nat, stackId: string)
    requires q < |rows| && rows[q].stackId == Some(stackId)
    requires forall i :: 0 <= i < |rows| && i != q ==> rows[i].stackId != Some(stackId)
    ensures OfStack(rows, stackId) == [rows[q]]
  {
    var left, right := rows[..q], rows[q + 1..];
    assert rows == left + ([rows[q]] + right);
    OfStackSplits(left, [rows[q]] + right, stackId);
    OfStackSplits([rows[q]], right, stackId);
    OfStackNone(left, stackId);
    OfStackNone(right, stackId);
    OfStackAll([rows[q]], stackId);
  }

  lemma ChildRowId(job: Job, w: World, cfg: Settings, repo: Path, size: nat, i: nat, k: nat, previous: Option<nat>)
    ensures ChildRow(job, w, cfg, repo, size, i, k, previous).id == w.childIds(i)
  {
  }

  lemma {:induction false} ChildRowIds(job: Job, w: World, cfg: Settings, repo: Path, size: nat, i: nat, n: nat,
                                       previous: Option<nat>, id: string)
    requires AllOpen(w, i, i + n) && forall j :: i <= j < i + n ==> w.childIds(j) != id
    ensures forall c :: c in ChildRows(job, w, cfg, repo, size, i, n, previous) ==> c.id != id
    decreases n
  {
    hide ChildRow;
    if n > 0 {
      ChildRowIds(job, w, cfg, repo, size, i + 1, n - 1, Some(w.slices(i).number), id);
      ChildRowId(job, w, cfg, repo, size, i, w.slices(i).number, previous);
    }
  }

  /** After a stack run, looking its id up lists the orchestrator and then the children in order. */
  lemma StackIsListed(table: seq<JobRow>, q: nat, job: Job, w: World, cfg: Settings)
    requires UniqueIds(table) && q < |table| && table[q].status == Queued && table[q].position == 0
    requires WorkAccepted(w) && OpensStack(job, w, cfg)
    requires forall r :: r in table ==> r.stackId != Some(StackIdOf(job, w))
    requires forall i :: w.childIds(i) != table[q].id
    ensures var t := BackgroundTrace(job, w, cfg);
            StackRows(Replay(table, table[q].id, t), StackIdOf(job, w)) == [RowAfter(table[q], t)] + Children(t)
  {
    hide *;
    StackReadings(table[q], job, w, cfg);
    KidsOfStack(table[q], job, w, cfg);
    KidsAreOthers(table[q], job, w, cfg);
    ListingOf(table, q, BackgroundTrace(job, w, cfg), StackIdOf(job, w));
  }

  lemma KidsAreOthers(row: JobRow, job: Job, w: World, cfg: Settings)
    requires row.status == Queued && WorkAccepted(w) && OpensStack(job, w, cfg)
    requires forall i :: w.childIds(i) != row.id
    ensures forall c :: c in Children(BackgroundTrace(job, w, cfg)) ==> c.id != row.id
  {
    hide BackgroundTrace, Children, RowAfter, PlanOf, ChildRows, JobRepo, Planned, WorkAccepted, StackIdOf;
    StackReadings(row, job, w, cfg);
    ChildRowIds(job, w, cfg, JobRepo(job, cfg), |PlanOf(job, w, cfg)|, 0, StackHeight(job, w, cfg), None, row.id);
  }

  lemma KidsOfStack(row: JobRow, job: Job, w: World, cfg: Settings)
    requires row.status == Queued && WorkAccepted(w) && OpensStack(job, w, cfg)
    ensures var kids := Children(BackgroundTrace(job, w, cfg));
            forall j :: 0 <= j < |kids| ==> kids[j].position == j + 1 && kids[j].stackId == Some(StackIdOf(job, w))
  {
    hide BackgroundTrace, Children, RowAfter, PlanOf, Planned, WorkAccepted, StackIdOf, StackHeight, Target;
    StackIsAChain(row, job, w, cfg);
    var kids := Children(BackgroundTrace(job, w, cfg));
    forall j | 0 <= j < |kids| ensures kids[j].position == j + 1 && kids[j].stackId == Some(StackIdOf(job, w)) {
      assert IsLink(job, w, cfg, PlanOf(job, w, cfg), kids, j);
    }
  }

  lemma NumberedIsSorted(head: JobRow, kids: seq<JobRow>)
    requires head.position == 0 && forall j :: 0 <= j < |kids| ==> kids[j].position == j + 1
    ensures Sort([head] + kids, ByPosition) == [head] + kids
  {
    var listed := [head] + kids;
    assert forall j :: 0 <= j < |listed| ==> listed[j].position == j;
    SortOfSorted(listed, ByPosition);
  }

  lemma ListingOf(table: seq<JobRow>, q: nat, t: seq<Action>, sid: string)
    requires UniqueIds(table) && q < |table|
    requires RowAfter(table[q], t).stackId == Some(sid) && RowAfter(table[q], t).position == 0
    requires forall r :: r in table ==> r.stackId != Some(sid)
    requires forall j :: 0 <= j < |Children(t)| ==> Children(t)[j].position == j + 1 && Children(t)[j].stackId == Some(sid)
    requires forall c :: c in Children(t) ==> c.id != table[q].id
    ensures StackRows(Replay(table, table[q].id, t), sid) == [RowAfter(table[q], t)] + Children(t)
  {
    hide Children, RowAfter, Replay, OfStack, Sort;
    var kids, own := Children(t), OwnRows(table, table[q].id, t);
    RunTouchesOnlyItsRows(table, table[q].id, t);
    OfStackSplits(own, kids, sid);
    OwnRowsOfStack(table, q, t, sid);
    OfStackAll(kids, sid);
    NumberedIsSorted(RowAfter(table[q], t), kids);
  }

  lemma OwnRowsOfStack(table: seq<JobRow>, q: nat, t: seq<Action>, sid: string)
    requires UniqueIds(table) && q < |table| && RowAfter(table[q], t).stackId == Some(sid)
    requires forall r :: r in table ==> r.stackId != Some(sid)
    ensures OfStack(OwnRows(table, table[q].id, t), sid) == [RowAfter(table[q], t)]
  {
    hide OfStack, RowAfter;
    OfStackOne(OwnRows(table, table[q].id, t), q, sid);
  }
}
