/** The persistent job table of the merge queue. */
module Jobs {
  import opened Wrappers
  import opened Ordering

  /** In the order of the source's status table. */
  datatype Status =
    | Queued | RunningCode | RunningReview | Verifying
    | PrCreating | PrOpen | PrWaitingChecks | PrWaitingReview | MergingPr | PrAutoMergeEnabled
    | Merged | Failed | Timeout | Cancelled

  function Rank(s: Status): nat {
    match s
    case Queued => 0 case RunningCode => 1 case RunningReview => 2 case Verifying => 3
    case PrCreating => 4 case PrOpen => 5 case PrWaitingChecks => 6 case PrWaitingReview => 7
    case MergingPr => 8 case PrAutoMergeEnabled => 9
    case Merged => 10 case Failed => 11 case Timeout => 12 case Cancelled => 13
  }

  predicate InFlight(s: Status) {
    s in {Queued, RunningCode, RunningReview, Verifying, PrCreating, PrOpen, PrWaitingChecks, PrWaitingReview,
          MergingPr, PrAutoMergeEnabled}
  }

  predicate Terminal(s: Status) {
    !InFlight(s)
  }

  /** A job may move from `a` to `b`: never backwards, and never out of a terminal status. */
  predicate Follows(a: Status, b: Status) {
    Rank(a) <= Rank(b) && (Terminal(a) ==> a == b)
  }

  datatype Update = Update(status: Status, finished: bool, cost: Option<real>, prNumber: Option<nat>)

  datatype JobRow = JobRow(
    id: string, worktreeId: string, status: Status, finished: bool, cost: real, repo: string,
    prNumber: Option<nat>, targetBranch: string,
    stackId: Option<string>, position: nat, size: nat, dependsOn: Option<nat>)

  function Updated(row: JobRow, u: Update): JobRow {
    row.(status := u.status,
         finished := row.finished || u.finished,
         cost := if u.cost.Some? then u.cost.value else row.cost,
         prNumber := if u.prNumber.Some? then u.prNumber else row.prNumber)
  }

  function UpdateRows(table: seq<JobRow>, id: string, u: Update): seq<JobRow> {
    seq(|table|, i requires 0 <= i < |table| => if table[i].id == id then Updated(table[i], u) else table[i])
  }

  function TagRows(table: seq<JobRow>, id: string, stackId: string, size: nat): seq<JobRow> {
    seq(|table|, i requires 0 <= i < |table| =>
      if table[i].id == id then table[i].(stackId := Some(stackId), size := size) else table[i])
  }

  function Recovered(row: JobRow): JobRow {
    if InFlight(row.status) then row.(status := Cancelled, finished := true) else row
  }

  function RecoverRows(table: seq<JobRow>): seq<JobRow> {
    seq(|table|, i requires 0 <= i < |table| => Recovered(table[i]))
  }

  function InFlightIds(table: seq<JobRow>): seq<string> {
    if table == [] then []
    else
      var last := table[|table| - 1];
      InFlightIds(table[..|table| - 1]) + if InFlight(last.status) then [last.id] else []
  }

  function OfStack(table: seq<JobRow>, stackId: string): seq<JobRow> {
    if table == [] then []
    else
      var last := table[|table| - 1];
      OfStack(table[..|table| - 1], stackId) + if last.stackId == Some(stackId) then [last] else []
  }

  predicate ByPosition(a: JobRow, b: JobRow) {
    a.position <= b.position
  }

  function StackRows(table: seq<JobRow>, stackId: string): seq<JobRow> {
    Sort(OfStack(table, stackId), ByPosition)
  }

  ghost predicate UniqueIds(table: seq<JobRow>) {
    forall i, j :: 0 <= i < j < |table| ==> table[i].id != table[j].id
  }

  ghost predicate IsNew(table: seq<JobRow>, id: string) {
    forall i :: 0 <= i < |table| ==> table[i].id != id
  }

  /** `finished_at` is set exactly on terminal rows. */
  ghost predicate StampsAgree(table: seq<JobRow>) {
    forall i :: 0 <= i < |table| ==> (table[i].finished <==> Terminal(table[i].status))
  }

  class JobStore {
    var table: seq<JobRow>

    constructor ()
      ensures table == []
    {
      table := [];
    }

    /** Ids are random; a fresh one keeps them unique. */
    method Create(row: JobRow)
      modifies this
      ensures table == old(table) + [row]
      ensures UniqueIds(old(table)) && IsNew(old(table), row.id) ==> UniqueIds(table)
    {
      table := table + [row];
    }

    method UpdateStatus(id: string, u: Update)
      modifies this
      ensures table == UpdateRows(old(table), id, u)
    {
      var next := [];
      for i := 0 to |table|
        invariant table == old(table)
        invariant next == UpdateRows(table, id, u)[..i]
      {
        next := next + [if table[i].id == id then Updated(table[i], u) else table[i]];
      }
      assert next == UpdateRows(table, id, u);
      table := next;
    }

    /** Called at start-up: whatever was in flight is cancelled. */
    method RecoverRunning() returns (cancelled: seq<string>)
      modifies this
      ensures table == RecoverRows(old(table))
      ensures cancelled == InFlightIds(old(table))
    {
      cancelled := [];
      var next := [];
      for i := 0 to |table|
        invariant table == old(table)
        invariant next == RecoverRows(table)[..i]
        invariant cancelled == InFlightIds(table[..i])
      {
        assert table[..i + 1][..i] == table[..i];
        if InFlight(table[i].status) {
          next := next + [table[i].(status := Cancelled, finished := true)];
          cancelled := cancelled + [table[i].id];
        } else {
          next := next + [table[i]];
        }
      }
      assert table[..|table|] == table;
      assert next == RecoverRows(table);
      table := next;
    }

    method FindJobsByStackId(stackId: string) returns (rows: seq<JobRow>)
      ensures rows == StackRows(table, stackId)
    {
      var found := [];
      for i := 0 to |table|
        invariant found == OfStack(table[..i], stackId)
      {
        assert table[..i + 1][..i] == table[..i];
        if table[i].stackId == Some(stackId) { found := found + [table[i]]; }
      }
      assert table[..|table|] == table;
      rows := Sort(found, ByPosition);
    }
  }

  /** Recovery moves every row forward and leaves none in flight. */
  lemma RecoveryMovesForward(table: seq<JobRow>)
    ensures forall i :: 0 <= i < |table| ==>
              Follows(table[i].status, RecoverRows(table)[i].status) && Terminal(RecoverRows(table)[i].status)
    ensures StampsAgree(table) ==> StampsAgree(RecoverRows(table))
    ensures UniqueIds(table) ==> UniqueIds(RecoverRows(table))
  {
  }

  /** A job is under way in every status but the last four. */
  lemma UnderWay(s: Status)
    ensures InFlight(s) <==> s != Merged && s != Failed && s != Timeout && s != Cancelled
  {
    match s
    case Queued => case RunningCode => case RunningReview => case Verifying => case PrCreating => case PrOpen =>
    case PrWaitingChecks => case PrWaitingReview => case MergingPr => case PrAutoMergeEnabled =>
    case Merged => case Failed => case Timeout => case Cancelled =>
  }

  /** Recovery cancels and stamps exactly the rows in one of the ten statuses of a job under way, and changes nothing
      else in them; every other row stays as it is. */
  lemma RecoveryCancels(table: seq<JobRow>, i: nat)
    requires i < |table|
    ensures |RecoverRows(table)| == |table|
    ensures RecoverRows(table)[i] ==
            if table[i].status in {Merged, Failed, Timeout, Cancelled} then table[i]
            else table[i].(status := Cancelled, finished := true)
  {
    UnderWay(table[i].status);
  }

  /** The ids it reports are those of the rows it cancels, in table order. */
  lemma {:induction false} RecoveryReports(table: seq<JobRow>, i: nat, j: nat)
    requires i < j < |table|
    ensures table[i].status !in {Merged, Failed, Timeout, Cancelled} && table[j].status !in {Merged, Failed, Timeout, Cancelled} ==>
              Before(InFlightIds(table), table[i].id, table[j].id)
    ensures forall id :: id in InFlightIds(table) <==>
              exists r :: r in table && r.id == id && r.status !in {Merged, Failed, Timeout, Cancelled}
  {
    hide InFlight, InFlightIds, Before;
    ReportedIds(table);
    forall r: JobRow ensures InFlight(r.status) <==> r.status !in {Merged, Failed, Timeout, Cancelled} {
      UnderWay(r.status);
    }
    if InFlight(table[i].status) && InFlight(table[j].status) { ReportedInOrder(table, i, j); }
  }

  lemma {:induction false} ReportedIds(table: seq<JobRow>)
    ensures forall id :: id in InFlightIds(table) <==> exists r :: r in table && r.id == id && InFlight(r.status)
  {
    if table != [] {
      var init, last := table[..|table| - 1], table[|table| - 1];
      ReportedIds(init);
      assert table == init + [last];
    }
  }

  lemma {:induction false} ReportedInOrder(table: seq<JobRow>, i: nat, j: nat)
    requires i < j < |table| && InFlight(table[i].status) && InFlight(table[j].status)
    ensures Before(InFlightIds(table), table[i].id, table[j].id)
  {
    hide InFlight;
    var init := table[..|table| - 1];
    var ids, all := InFlightIds(init), InFlightIds(table);
    if j < |init| {
      ReportedInOrder(init, i, j);
      var p, q :| 0 <= p < q < |ids| && ids[p] == table[i].id && ids[q] == table[j].id;
      assert all[p] == table[i].id && all[q] == table[j].id;
    } else {
      ReportedIds(init);
      assert init[i] == table[i] && init[i] in init && InFlight(init[i].status);
      assert table[i].id in ids;
      var p :| 0 <= p < |ids| && ids[p] == table[i].id;
      assert all[p] == table[i].id && all[|ids|] == table[j].id;
    }
  }
}
