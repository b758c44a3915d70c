/** The byte budget of the hot level, and who pays for it. */
module ScratchpadProperties {
  import opened Wrappers
  import opened Utf8
  import opened Scratchpad

  // ---- Sizes under change ----

  lemma {:induction false} BytesOfSubview(rows: seq<Note>, part: View, whole: View)
    requires forall n :: Sees(part, n) ==> Sees(whole, n)
    ensures L0Bytes(rows, part) <= L0Bytes(rows, whole)
  {
    if rows != [] { BytesOfSubview(rows[..|rows| - 1], part, whole); }
  }

  lemma {:induction false} DeleteFrees(rows: seq<Note>, id: nat, v: View)
    ensures L0Bytes(DeleteId(rows, id), v) <= L0Bytes(rows, v)
  {
    if rows != [] {
      var kept, last := DeleteId(rows[..|rows| - 1], id), rows[|rows| - 1];
      DeleteFrees(rows[..|rows| - 1], id, v);
      assert (kept + [last])[..|kept|] == kept;
      assert kept + [] == kept;
    }
  }

  lemma {:induction false} DeleteSeenFrees(rows: seq<Note>, w: View, id: nat, v: View)
    ensures L0Bytes(DeleteSeen(rows, w, id), v) <= L0Bytes(rows, v)
  {
    if rows != [] {
      var kept, last := DeleteSeen(rows[..|rows| - 1], w, id), rows[|rows| - 1];
      DeleteSeenFrees(rows[..|rows| - 1], w, id, v);
      assert (kept + [last])[..|kept|] == kept;
      assert kept + [] == kept;
    }
  }

  lemma {:induction false} PruneFrees(rows: seq<Note>, w: View, incoming: nat, cap: nat, v: View)
    ensures L0Bytes(Prune(rows, w, incoming, cap), v) <= L0Bytes(rows, v)
    decreases |rows|
  {
    if L0Bytes(rows, w) + incoming > cap && OldestL0(rows, w).Some? {
      var n := OldestL0(rows, w).value;
      DeleteShrinks(rows, n.id);
      DeleteFrees(rows, n.id, v);
      PruneFrees(DeleteId(rows, n.id), w, incoming, cap, v);
    }
  }

  lemma {:induction false} NothingHot(rows: seq<Note>, v: View)
    requires forall n :: n in rows ==> !Hot(v, n)
    ensures L0Bytes(rows, v) == 0
  {
    if rows != [] {
      assert rows[|rows| - 1] in rows;
      NothingHot(rows[..|rows| - 1], v);
    }
  }

  /** Pruning ends, and makes room for whatever could ever fit. */
  lemma {:induction false} PruneMakesRoom(rows: seq<Note>, v: View, incoming: nat, cap: nat)
    requires incoming <= cap
    ensures L0Bytes(Prune(rows, v, incoming, cap), v) + incoming <= cap
    decreases |rows|
  {
    if L0Bytes(rows, v) + incoming > cap {
      if OldestL0(rows, v).None? { NothingHot(rows, v); }
      var n := OldestL0(rows, v).value;
      DeleteShrinks(rows, n.id);
      PruneMakesRoom(DeleteId(rows, n.id), v, incoming, cap);
    }
  }

  lemma AppendAdds(rows: seq<Note>, n: Note, v: View)
    ensures L0Bytes(rows + [n], v) == L0Bytes(rows, v) + Weight(v, n)
  {
    assert (rows + [n])[..|rows|] == rows;
  }

  ghost predicate UniqueIds(rows: seq<Note>) {
    forall i, j :: 0 <= i < j < |rows| ==> rows[i].id != rows[j].id
  }

  /** Changing the level of one row adds at most that row's size, and only for views that see it. */
  lemma {:induction false} SetLevelAdds(rows: seq<Note>, w: View, id: nat, to: Level, n: Note, v: View)
    requires UniqueIds(rows)
    requires forall m :: m in rows && m.id == id ==> m.content == n.content && (Sees(v, m) <==> Sees(v, n))
    ensures L0Bytes(SetLevel(rows, w, id, to), v) <=
            L0Bytes(rows, v) + (if to == L0 && Sees(v, n) then Utf8Length(n.content) else 0)
    ensures (forall m :: m in rows ==> m.id != id) ==> L0Bytes(SetLevel(rows, w, id, to), v) == L0Bytes(rows, v)
  {
    if rows != [] {
      var init, last := rows[..|rows| - 1], rows[|rows| - 1];
      assert rows == init + [last];
      assert last in rows;
      SetLevelAdds(init, w, id, to, n, v);
      assert SetLevel(rows, w, id, to)[..|init|] == SetLevel(init, w, id, to);
    }
  }

  // ---- The budget ----

  /** Every owner of every session is within the cap. */
  ghost predicate Capped(rows: seq<Note>, cap: nat) {
    forall s, a :: L0Bytes(rows, Owner(s, a)) <= cap
  }

  ghost predicate Sound(t: Table, cap: nat) {
    && Capped(t.rows, cap) && UniqueIds(t.rows)
    && forall n :: n in t.rows ==> n.id < t.nextId
  }

  datatype Op =
    | WriteOp(view: View, level: Level, content: string, now: real)
    | PromoteOp(view: View, id: nat, to: Level)
    | DeleteOp(view: View, id: nat)

  /** The table after one operation of any store; a refused operation changes nothing. */
  function After(t: Table, op: Op, cap: nat): Table {
    match op
    case WriteOp(v, level, content, now) =>
      (match Write(t, v, cap, level, content, now) case Ok(t') => t' case Err(_) => t)
    case PromoteOp(v, id, to) => (match Promote(t, v, cap, id, to) case Ok(t') => t' case Err(_) => t)
    case DeleteOp(v, id) => t.(rows := DeleteSeen(t.rows, v, id))
  }

  lemma {:induction false} PruneKeepsOrder(rows: seq<Note>, v: View, incoming: nat, cap: nat)
    requires UniqueIds(rows)
    ensures UniqueIds(Prune(rows, v, incoming, cap))
    ensures forall n :: n in Prune(rows, v, incoming, cap) ==> n in rows
    decreases |rows|
  {
    if L0Bytes(rows, v) + incoming > cap && OldestL0(rows, v).Some? {
      var n := OldestL0(rows, v).value;
      DeleteShrinks(rows, n.id);
      DeleteKeepsUnique(rows, n.id);
      PruneKeepsOrder(DeleteId(rows, n.id), v, incoming, cap);
    }
  }

  lemma {:induction false} DeleteKeepsUnique(rows: seq<Note>, id: nat)
    requires UniqueIds(rows)
    ensures UniqueIds(DeleteId(rows, id))
  {
    if rows != [] {
      var init, last := rows[..|rows| - 1], rows[|rows| - 1];
      DeleteKeepsUnique(init, id);
      DeleteShrinks(init, id);
      forall i | 0 <= i < |DeleteId(init, id)| ensures DeleteId(init, id)[i].id != last.id {
        assert DeleteId(init, id)[i] in init;
      }
    }
  }

  lemma {:induction false} DeleteSeenKeeps(rows: seq<Note>, v: View, id: nat)
    requires UniqueIds(rows)
    ensures UniqueIds(DeleteSeen(rows, v, id))
    ensures forall n :: n in DeleteSeen(rows, v, id) <==> n in rows && !(n.id == id && Sees(v, n))
  {
    if rows != [] {
      var init, last := rows[..|rows| - 1], rows[|rows| - 1];
      assert rows == init + [last];
      DeleteSeenKeeps(init, v, id);
      forall i | 0 <= i < |DeleteSeen(init, v, id)| ensures DeleteSeen(init, v, id)[i].id != last.id {
        assert DeleteSeen(init, v, id)[i] in init;
      }
    }
  }

  lemma PrunedRoom(rows: seq<Note>, v: View, size: nat, cap: nat, s: string, a: Option<string>)
    requires Capped(rows, cap) && size <= cap && !v.exact
    ensures L0Bytes(Prune(rows, v, size, cap), Owner(s, a)) <= cap
    ensures s == v.session && (v.agent == a || v.agent.None?) ==>
              L0Bytes(Prune(rows, v, size, cap), Owner(s, a)) + size <= cap
  {
    PruneFrees(rows, v, size, cap, Owner(s, a));
    PruneMakesRoom(rows, v, size, cap);
    if s == v.session && (v.agent == a || v.agent.None?) {
      BytesOfSubview(Prune(rows, v, size, cap), Owner(s, a), v);
    }
  }

  lemma WriteKeepsSound(t: Table, v: View, cap: nat, level: Level, content: string, now: real)
    requires Sound(t, cap) && !v.exact
    ensures Sound(After(t, WriteOp(v, level, content, now), cap), cap)
  {
    hide L0Bytes, Prune, Utf8Length;
    var size, t' := Utf8Length(content), After(t, WriteOp(v, level, content, now), cap);
    if !(level == L0 && size > cap) {
      var rows := if level == L0 then Prune(t.rows, v, size, cap) else t.rows;
      var n := Note(t.nextId, v.session, v.agent, level, content, now);
      PruneKeepsOrder(t.rows, v, size, cap);
      forall s, a ensures L0Bytes(t'.rows, Owner(s, a)) <= cap {
        AppendAdds(rows, n, Owner(s, a));
        if level == L0 { PrunedRoom(t.rows, v, size, cap, s, a); }
      }
    }
  }

  lemma PromoteKeepsSound(t: Table, v: View, cap: nat, id: nat, to: Level)
    requires Sound(t, cap) && !v.exact
    ensures Sound(After(t, PromoteOp(v, id, to), cap), cap)
  {
    hide L0Bytes, Prune, Utf8Length;
    var t' := After(t, PromoteOp(v, id, to), cap);
    if Find(t.rows, v, id).Some? {
      var n := Find(t.rows, v, id).value;
      var size := Utf8Length(n.content);
      var rows := if to == L0 then Prune(t.rows, v, size, cap) else t.rows;
      PruneKeepsOrder(t.rows, v, size, cap);
      if !(to == L0 && (n.level == L0 || size > cap)) {
        forall s, a ensures L0Bytes(t'.rows, Owner(s, a)) <= cap {
          SetLevelAdds(rows, v, id, to, n, Owner(s, a));
          if to == L0 { PrunedRoom(t.rows, v, size, cap, s, a); }
        }
        forall m | m in t'.rows ensures m.id < t'.nextId {
          var i :| 0 <= i < |t'.rows| && t'.rows[i] == m;
          assert rows[i] in rows;
        }
      }
    }
  }

  lemma OpKeepsSound(t: Table, op: Op, cap: nat)
    requires Sound(t, cap) && !op.view.exact
    ensures Sound(After(t, op, cap), cap)
  {
    hide L0Bytes, Prune, Write, Promote, DeleteSeen;
    match op {
      case WriteOp(v, level, content, now) => WriteKeepsSound(t, v, cap, level, content, now);
      case PromoteOp(v, id, to) => PromoteKeepsSound(t, v, cap, id, to);
      case DeleteOp(v, id) =>
        DeleteSeenKeeps(t.rows, v, id);
        forall s, a ensures L0Bytes(DeleteSeen(t.rows, v, id), Owner(s, a)) <= cap {
          DeleteSeenFrees(t.rows, v, id, Owner(s, a));
        }
    }
  }

  function Run(t: Table, ops: seq<Op>, cap: nat): Table {
    if ops == [] then t else After(Run(t, ops[..|ops| - 1], cap), ops[|ops| - 1], cap)
  }

  /** Through any operations of any mix of stores, no owner ever holds more hot bytes than the cap. */
  lemma {:induction false} BudgetIsKept(ops: seq<Op>, cap: nat)
    requires forall op :: op in ops ==> !op.view.exact
    ensures Sound(Run(Table([], 0), ops, cap), cap)
  {
    if ops != [] {
      assert ops[|ops| - 1] in ops;
      BudgetIsKept(ops[..|ops| - 1], cap);
      OpKeepsSound(Run(Table([], 0), ops[..|ops| - 1], cap), ops[|ops| - 1], cap);
    }
  }
}
