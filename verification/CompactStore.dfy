/** The compaction cache: versions numbered by reading the greatest one and then inserting, with nothing locked between. */
module CompactStore {
  import opened Wrappers

  datatype Record = Record(session: string, version: int, sourceHash: string, summary: string)

  datatype Error = UniqueViolation

  /** An insert that has read its version and not yet written its row. */
  datatype State = State(rows: seq<Record>, underway: map<nat, Record>)

  /** Steps of inserts running side by side: each reads, and then inserts or gives up. */
  datatype Step =
    | Read(task: nat, record: Record)
    | Insert(task: nat)
    | GiveUp(task: nat)

  function Max(a: int, b: int): int {
    if a < b then b else a
  }

  /** MAX(version) of a session, 0 if it has no row. */
  function MaxVersion(rows: seq<Record>, session: string): int {
    if rows == [] then 0
    else
      var last := rows[|rows| - 1];
      var rest := MaxVersion(rows[..|rows| - 1], session);
      if last.session == session then Max(rest, last.version) else rest
  }

  predicate Clashes(rows: seq<Record>, r: Record) {
    exists i :: 0 <= i < |rows| && rows[i].session == r.session && rows[i].version == r.version
  }

  predicate Enabled(s: State, step: Step) {
    if step.Read? then step.task !in s.underway else step.task in s.underway
  }

  function Next(s: State, step: Step): State
    requires Enabled(s, step)
  {
    match step
    case Read(task, r) =>
      s.(underway := s.underway[task := r.(version := MaxVersion(s.rows, r.session) + 1)])
    case Insert(task) =>
      var r := s.underway[task];
      State(if Clashes(s.rows, r) then s.rows else s.rows + [r], s.underway - {task})
    case GiveUp(task) => s.(underway := s.underway - {task})
  }

  // ---- The code ----

  class Store {
    var rows: seq<Record>
    var underway: map<nat, Record>

    function Contents(): State
      reads this
    {
      State(rows, underway)
    }

    constructor ()
      ensures Contents() == State([], map[])
    {
      rows, underway := [], map[];
    }

    /** The first half of `insert`: overwrites the record's version with the next one. */
    method ReadNext(task: nat, record: Record) returns (next: int)
      requires task !in underway
      modifies this
      ensures Contents() == Next(old(Contents()), Read(task, record))
      ensures next == MaxVersion(old(rows), record.session) + 1
    {
      var top := 0;
      for i := 0 to |rows|
        invariant Contents() == old(Contents())
        invariant top == MaxVersion(rows[..i], record.session)
      {
        assert rows[..i + 1][..i] == rows[..i];
        if rows[i].session == record.session { top := Max(top, rows[i].version); }
      }
      assert rows[..|rows|] == rows;
      next := top + 1;
      underway := underway[task := record.(version := next)];
    }

    /** The second half: the table refuses a second row with the same session and version. */
    method Commit(task: nat) returns (r: Result<int, Error>)
      requires task in underway
      modifies this
      ensures Contents() == Next(old(Contents()), Insert(task))
      ensures r == if Clashes(old(rows), old(underway[task])) then Err(UniqueViolation)
                   else Ok(old(underway[task]).version)
    {
      var record := underway[task];
      underway := underway - {task};
      for i := 0 to |rows|
        invariant rows == old(rows) && underway == old(underway) - {task}
        invariant !Clashes(rows[..i], record)
      {
        if rows[i].session == record.session && rows[i].version == record.version {
          return Err(UniqueViolation);
        }
      }
      assert rows[..|rows|] == rows;
      rows := rows + [record];
      return Ok(record.version);
    }

    /** The greatest version of the session made from the same source, if there is one. */
    method LookupCached(session: string, sourceHash: string) returns (r: Option<Record>)
      ensures r.Some? <==> exists m :: m in rows && m.session == session && m.sourceHash == sourceHash
      ensures r.Some? ==> r.value in rows && r.value.session == session && r.value.sourceHash == sourceHash
      ensures r.Some? ==> forall m :: m in rows && m.session == session && m.sourceHash == sourceHash ==>
                            m.version <= r.value.version
    {
      r := None;
      for i := 0 to |rows|
        invariant r.Some? <==> exists m :: m in rows[..i] && m.session == session && m.sourceHash == sourceHash
        invariant r.Some? ==> r.value in rows && r.value.session == session && r.value.sourceHash == sourceHash
        invariant r.Some? ==> forall m :: m in rows[..i] && m.session == session && m.sourceHash == sourceHash ==>
                                m.version <= r.value.version
      {
        assert rows[..i + 1] == rows[..i] + [rows[i]];
        if rows[i].session == session && rows[i].sourceHash == sourceHash
           && (r.None? || r.value.version <= rows[i].version) {
          r := Some(rows[i]);
        }
      }
      assert rows[..|rows|] == rows;
    }
  }

  // ---- Versions ----

  /** The versions of a session, in the order their rows were written. */
  function Versions(rows: seq<Record>, session: string): seq<int> {
    if rows == [] then []
    else
      var last := rows[|rows| - 1];
      Versions(rows[..|rows| - 1], session) + if last.session == session then [last.version] else []
  }

  ghost predicate IsRun(states: seq<State>, steps: seq<Step>) {
    && |states| == |steps| + 1 && states[0] == State([], map[])
    && forall i :: 0 <= i < |steps| ==> Enabled(states[i], steps[i]) && states[i + 1] == Next(states[i], steps[i])
  }

  /** Numbered 1, 2, 3 and so on, with no gap and no repetition. */
  ghost predicate Counted(versions: seq<int>) {
    forall k :: 0 <= k < |versions| ==> versions[k] == k + 1
  }

  ghost predicate Inv(s: State) {
    && (forall x :: Counted(Versions(s.rows, x)))
    && (forall t :: t in s.underway ==> 1 <= s.underway[t].version <= |Versions(s.rows, s.underway[t].session)| + 1)
  }

  lemma {:induction false} MaxIsLast(rows: seq<Record>, x: string)
    requires Counted(Versions(rows, x))
    ensures MaxVersion(rows, x) == |Versions(rows, x)|
  {
    if rows != [] {
      var init := rows[..|rows| - 1];
      assert forall k :: 0 <= k < |Versions(init, x)| ==> Versions(init, x)[k] == Versions(rows, x)[k];
      MaxIsLast(init, x);
      if rows[|rows| - 1].session == x {
        assert Versions(rows, x)[|Versions(init, x)|] == rows[|rows| - 1].version;
      }
    }
  }

  lemma {:induction false} ClashMeansListed(rows: seq<Record>, r: Record)
    ensures Clashes(rows, r) <==> r.version in Versions(rows, r.session)
  {
    if rows != [] {
      var init := rows[..|rows| - 1];
      ClashMeansListed(init, r);
      assert rows == init + [rows[|rows| - 1]];
    }
  }

  lemma VersionsOfAppend(rows: seq<Record>, r: Record, x: string)
    ensures Versions(rows + [r], x) == Versions(rows, x) + if r.session == x then [r.version] else []
  {
    assert (rows + [r])[..|rows|] == rows;
  }

  /** With gap-free versions, an insert goes through exactly when it read the number that is still next. */
  lemma AcceptedIffNext(s: State, task: nat)
    requires Inv(s) && task in s.underway
    ensures var r := s.underway[task];
            !Clashes(s.rows, r) <==> r.version == |Versions(s.rows, r.session)| + 1
  {
    var r := s.underway[task];
    ClashMeansListed(s.rows, r);
    if r.version <= |Versions(s.rows, r.session)| {
      assert Versions(s.rows, r.session)[r.version - 1] == r.version;
    }
  }

  lemma InsertKeepsInv(s: State, task: nat)
    requires Inv(s) && task in s.underway
    ensures Inv(Next(s, Insert(task)))
  {
    hide Versions;
    var r, next := s.underway[task], Next(s, Insert(task));
    AcceptedIffNext(s, task);
    if !Clashes(s.rows, r) {
      forall x ensures Counted(Versions(next.rows, x)) { VersionsOfAppend(s.rows, r, x); }
      forall t | t in next.underway
        ensures 1 <= next.underway[t].version <= |Versions(next.rows, next.underway[t].session)| + 1
      {
        VersionsOfAppend(s.rows, r, next.underway[t].session);
      }
    }
  }

  lemma StepKeepsInv(s: State, step: Step)
    requires Inv(s) && Enabled(s, step)
    ensures Inv(Next(s, step))
  {
    match step {
      case Read(task, r) => MaxIsLast(s.rows, r.session);
      case Insert(task) => InsertKeepsInv(s, task);
      case GiveUp(_) =>
    }
  }

  /** However inserts interleave, the versions of every session are 1, 2, ... in the order the rows were written. */
  lemma {:induction false} VersionsAreGapFree(states: seq<State>, steps: seq<Step>, i: nat)
    requires IsRun(states, steps) && i < |states|
    ensures Inv(states[i])
  {
    hide Next, Enabled;
    if i > 0 {
      VersionsAreGapFree(states, steps, i - 1);
      StepKeepsInv(states[i - 1], steps[i - 1]);
    }
  }

  // ---- Races ----

  ghost predicate Writes(s: State, step: Step, session: string) {
    && step.Insert? && step.task in s.underway
    && s.underway[step.task].session == session && !Clashes(s.rows, s.underway[step.task])
  }

  lemma StepGrows(s: State, step: Step, x: string)
    requires Enabled(s, step)
    ensures |Versions(Next(s, step).rows, x)| == |Versions(s.rows, x)| + if Writes(s, step, x) then 1 else 0
  {
    if step.Insert? { VersionsOfAppend(s.rows, s.underway[step.task], x); }
  }

  lemma {:induction false} Waits(states: seq<State>, steps: seq<Step>, i: nat, j: nat)
    requires IsRun(states, steps) && i < j <= |steps| && steps[i].Read?
    requires forall k :: i < k < j ==> steps[k].task != steps[i].task
    ensures var x := steps[i].record.session;
            && steps[i].task in states[j].underway
            && states[j].underway[steps[i].task] == steps[i].record.(version := |Versions(states[i].rows, x)| + 1)
            && |Versions(states[j].rows, x)| >= |Versions(states[i].rows, x)|
            && (|Versions(states[j].rows, x)| == |Versions(states[i].rows, x)| <==>
                forall k :: i < k < j ==> !Writes(states[k], steps[k], x))
    decreases j
  {
    hide Versions, Clashes;
    var x := steps[i].record.session;
    if j == i + 1 {
      VersionsAreGapFree(states, steps, i);
      MaxIsLast(states[i].rows, x);
      assert states[i + 1] == Next(states[i], steps[i]);
    } else {
      Waits(states, steps, i, j - 1);
      assert states[j] == Next(states[j - 1], steps[j - 1]);
      StepGrows(states[j - 1], steps[j - 1], x);
    }
  }

  /** An insert fails if and only if another insert for the session got its row in between. */
  lemma InsertFailsIffOvertaken(states: seq<State>, steps: seq<Step>, i: nat, j: nat)
    requires IsRun(states, steps) && i < j < |steps| && steps[i].Read? && steps[j] == Insert(steps[i].task)
    requires forall k :: i < k < j ==> steps[k].task != steps[i].task
    ensures Writes(states[j], steps[j], steps[i].record.session) <==>
            forall k :: i < k < j ==> !Writes(states[k], steps[k], steps[i].record.session)
  {
    hide Versions, Clashes;
    Waits(states, steps, i, j);
    VersionsAreGapFree(states, steps, j);
    AcceptedIffNext(states[j], steps[i].task);
  }

  /** Two inserts that both read before either writes: the second is refused, one connection each or not. */
  lemma ReadingIsNotReserving(a: Record, b: Record) returns (states: seq<State>)
    requires a.session == b.session
    ensures IsRun(states, [Read(0, a), Read(1, b), Insert(0), Insert(1)])
    ensures states[3].rows == states[4].rows == [a.(version := 1)]
  {
    var s0 := State([], map[]);
    var s1 := Next(s0, Read(0, a));
    var s2 := Next(s1, Read(1, b));
    var s3 := Next(s2, Insert(0));
    assert s3.rows == [a.(version := 1)];
    states := [s0, s1, s2, s3, Next(s3, Insert(1))];
    assert s3.rows[0].session == b.session;
  }

  /** The greatest version is the latest row: no later row of the session has the hash that `LookupCached` answers. */
  lemma {:induction false} LaterIsGreater(rows: seq<Record>, i: nat, j: nat)
    requires forall x :: Counted(Versions(rows, x))
    requires i < j < |rows| && rows[i].session == rows[j].session
    ensures rows[i].version < rows[j].version <= |Versions(rows, rows[j].session)|
  {
    var init, last := rows[..|rows| - 1], rows[|rows| - 1];
    var x := rows[j].session;
    assert rows == init + [last];
    assert forall y, k :: 0 <= k < |Versions(init, y)| ==> Versions(init, y)[k] == Versions(rows, y)[k];
    if j < |init| {
      LaterIsGreater(init, i, j);
    } else {
      assert Versions(rows, x)[|Versions(init, x)|] == last.version;
      Listed(init, i);
    }
  }

  lemma {:induction false} Listed(rows: seq<Record>, i: nat)
    requires i < |rows| && Counted(Versions(rows, rows[i].session))
    ensures 1 <= rows[i].version <= |Versions(rows, rows[i].session)|
  {
    ClashMeansListed(rows, rows[i]);
  }
}
