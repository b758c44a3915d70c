/** Which hot notes are given up, and whose. */
module ScratchpadEviction {
  import opened Wrappers
  import opened Utf8
  import opened Scratchpad
  import opened ScratchpadProperties

  function Without(rows: seq<Note>, ids: set<nat>): seq<Note> {
    if rows == [] then []
    else Without(rows[..|rows| - 1], ids) + if rows[|rows| - 1].id in ids then [] else [rows[|rows| - 1]]
  }

  function Ids(rows: seq<Note>): set<nat> {
    set n | n in rows :: n.id
  }

  /** The hot rows the view sees that are older than `n`. */
  function OlderHot(rows: seq<Note>, v: View, n: Note): set<nat> {
    set m | m in rows && Hot(v, m) && Older(m, n) :: m.id
  }

  /** Whom a store sees: the notes of its session, with an agent those of that agent only. An owner is one agent, or
      the absence of one, in one session. */
  lemma ViewsSee(n: Note, session: string, agent: Option<string>)
    ensures Sees(View(session, agent, false), n) <==> n.session == session && (agent == None || n.agent == agent)
    ensures Sees(Owner(session, agent), n) <==> n.session == session && n.agent == agent
  {
  }

  lemma {:induction false} WithoutOne(rows: seq<Note>, id: nat)
    ensures DeleteId(rows, id) == Without(rows, {id})
  {
    if rows != [] { WithoutOne(rows[..|rows| - 1], id); }
  }

  lemma {:induction false} WithoutTwice(rows: seq<Note>, a: set<nat>, b: set<nat>)
    ensures Without(Without(rows, a), b) == Without(rows, a + b)
  {
    if rows != [] {
      var init, last := rows[..|rows| - 1], rows[|rows| - 1];
      WithoutTwice(init, a, b);
      var kept := Without(init, a);
      assert (kept + [last])[..|kept|] == kept;
      assert kept + [] == kept;
    }
  }

  lemma {:induction false} WithoutNone(rows: seq<Note>, ids: set<nat>)
    requires forall n :: n in rows ==> n.id !in ids
    ensures Without(rows, ids) == rows
  {
    if rows != [] {
      var init, last := rows[..|rows| - 1], rows[|rows| - 1];
      assert last in rows;
      forall n | n in init ensures n in rows {}
      WithoutNone(init, ids);
      assert init + [last] == rows;
    }
  }

  lemma SameIdSameNote(rows: seq<Note>, a: Note, b: Note)
    requires UniqueIds(rows) && a in rows && b in rows && a.id == b.id
    ensures a == b
  {
    var i :| 0 <= i < |rows| && rows[i] == a;
    var j :| 0 <= j < |rows| && rows[j] == b;
  }

  /** The row chosen for eviction is older than every other hot row the view sees. */
  lemma {:induction false} OldestIsOldest(rows: seq<Note>, v: View, m: Note)
    requires UniqueIds(rows) && m in rows && Hot(v, m)
    ensures OldestL0(rows, v).Some?
    ensures m == OldestL0(rows, v).value || Older(OldestL0(rows, v).value, m)
  {
    var init, last := rows[..|rows| - 1], rows[|rows| - 1];
    assert rows == init + [last];
    if m in init { OldestIsOldest(init, v, m); }
    if OldestL0(init, v).Some? && Hot(v, last) {
      var i :| 0 <= i < |init| && init[i] == OldestL0(init, v).value;
      assert rows[i].id != last.id;
    }
  }

  /** Eviction is first in, first out: what goes is hot and visible, and older than every visible hot row that stays;
      the rows that stay keep their order. */
  lemma {:induction false} EvictionIsFifo(rows: seq<Note>, v: View, incoming: nat, cap: nat)
    requires UniqueIds(rows)
    ensures var kept := Prune(rows, v, incoming, cap);
            && kept == Without(rows, Ids(rows) - Ids(kept))
            && (forall n :: n in rows && n !in kept ==> n.level == L0 && Sees(v, n))
            && (forall n, m :: n in rows && n !in kept && m in kept && m.level == L0 && Sees(v, m) ==>
                  n.createdAt < m.createdAt || (n.createdAt == m.createdAt && n.id < m.id))
    decreases |rows|
  {
    var kept := Prune(rows, v, incoming, cap);
    if L0Bytes(rows, v) + incoming > cap && OldestL0(rows, v).Some? {
      var o := OldestL0(rows, v).value;
      var rest := DeleteId(rows, o.id);
      DeleteShrinks(rows, o.id);
      DeleteKeepsUnique(rows, o.id);
      EvictionIsFifo(rest, v, incoming, cap);
      PruneKeepsOrder(rest, v, incoming, cap);
      EvictedTogether(rows, o, rest, kept);
      forall n | n in rows && n !in kept
        ensures Hot(v, n) && forall m :: m in kept && Hot(v, m) ==> Older(n, m)
      {
        if n.id == o.id { SameIdSameNote(rows, n, o); }
        forall m | m in kept && Hot(v, m) ensures Older(n, m) {
          OldestIsOldest(rows, v, m);
        }
      }
    } else {
      WithoutNone(rows, Ids(rows) - Ids(rows));
    }
  }

  lemma EvictedTogether(rows: seq<Note>, o: Note, rest: seq<Note>, kept: seq<Note>)
    requires UniqueIds(rows) && o in rows && rest == DeleteId(rows, o.id)
    requires kept == Without(rest, Ids(rest) - Ids(kept))
    requires forall n :: n in kept ==> n in rest
    requires forall n :: n in rest <==> n in rows && n.id != o.id
    ensures kept == Without(rows, Ids(rows) - Ids(kept))
  {
    hide DeleteId, Without;
    var gone := Ids(rest) - Ids(kept);
    WithoutOne(rows, o.id);
    WithoutTwice(rows, {o.id}, gone);
    assert o.id !in Ids(kept);
    forall id ensures id in Ids(rows) <==> id in Ids(rest) || id == o.id {
      if id in Ids(rows) {
        var n :| n in rows && n.id == id;
      }
    }
    assert {o.id} + gone == Ids(rows) - Ids(kept);
  }

  /** Nothing goes that need not: had only the rows older than an evicted one gone, the note would not have fitted. */
  lemma {:induction false} EvictionIsMinimal(rows: seq<Note>, v: View, incoming: nat, cap: nat, n: Note)
    requires UniqueIds(rows) && n in rows && n !in Prune(rows, v, incoming, cap)
    ensures L0Bytes(Without(rows, OlderHot(rows, v, n)), v) + incoming > cap
    decreases |rows|
  {
    var o := OldestL0(rows, v).value;
    DeleteShrinks(rows, o.id);
    DeleteKeepsUnique(rows, o.id);
    if n == o {
      OldestHasNoOlder(rows, v);
      WithoutNone(rows, OlderHot(rows, v, o));
    } else {
      var rest := DeleteId(rows, o.id);
      if n.id == o.id { SameIdSameNote(rows, n, o); }
      EvictionIsMinimal(rest, v, incoming, cap, n);
      EvictionIsFifo(rows, v, incoming, cap);
      OldestIsOldest(rows, v, n);
      OldestFirst(rows, v, o, rest, n);
      WithoutOne(rows, o.id);
      WithoutTwice(rows, {o.id}, OlderHot(rest, v, n));
    }
  }

  lemma OldestHasNoOlder(rows: seq<Note>, v: View)
    requires UniqueIds(rows) && OldestL0(rows, v).Some?
    ensures OlderHot(rows, v, OldestL0(rows, v).value) == {}
  {
    forall m | m in rows && Hot(v, m) ensures !Older(m, OldestL0(rows, v).value) {
      OldestIsOldest(rows, v, m);
    }
  }

  lemma OldestFirst(rows: seq<Note>, v: View, o: Note, rest: seq<Note>, n: Note)
    requires UniqueIds(rows) && o in rows && Hot(v, o) && Older(o, n)
    requires forall m :: m in rest <==> m in rows && m.id != o.id
    ensures OlderHot(rows, v, n) == {o.id} + OlderHot(rest, v, n)
  {
    forall m | m in rows && m.id == o.id ensures m == o { SameIdSameNote(rows, m, o); }
  }

  // ---- Other owners ----

  /** The rows a view does not see, in order. */
  function Others(rows: seq<Note>, v: View): seq<Note> {
    if rows == [] then []
    else Others(rows[..|rows| - 1], v) + if Sees(v, rows[|rows| - 1]) then [] else [rows[|rows| - 1]]
  }

  lemma {:induction false} DeleteLeavesOthers(rows: seq<Note>, v: View, id: nat)
    requires forall m :: m in rows && m.id == id ==> Sees(v, m)
    ensures Others(DeleteId(rows, id), v) == Others(rows, v)
  {
    if rows != [] {
      var kept, last := DeleteId(rows[..|rows| - 1], id), rows[|rows| - 1];
      assert last in rows;
      DeleteLeavesOthers(rows[..|rows| - 1], v, id);
      assert (kept + [last])[..|kept|] == kept;
      assert kept + [] == kept;
    }
  }

  lemma {:induction false} DeleteSeenLeavesOthers(rows: seq<Note>, v: View, id: nat)
    ensures Others(DeleteSeen(rows, v, id), v) == Others(rows, v)
  {
    if rows != [] {
      var kept, last := DeleteSeen(rows[..|rows| - 1], v, id), rows[|rows| - 1];
      DeleteSeenLeavesOthers(rows[..|rows| - 1], v, id);
      assert (kept + [last])[..|kept|] == kept;
      assert kept + [] == kept;
    }
  }

  lemma {:induction false} PruneLeavesOthers(rows: seq<Note>, v: View, incoming: nat, cap: nat)
    requires UniqueIds(rows)
    ensures Others(Prune(rows, v, incoming, cap), v) == Others(rows, v)
    decreases |rows|
  {
    if L0Bytes(rows, v) + incoming > cap && OldestL0(rows, v).Some? {
      var o := OldestL0(rows, v).value;
      DeleteShrinks(rows, o.id);
      DeleteKeepsUnique(rows, o.id);
      forall m | m in rows && m.id == o.id ensures Sees(v, m) { SameIdSameNote(rows, m, o); }
      DeleteLeavesOthers(rows, v, o.id);
      PruneLeavesOthers(DeleteId(rows, o.id), v, incoming, cap);
    }
  }

  lemma {:induction false} SetLevelLeavesOthers(rows: seq<Note>, v: View, id: nat, to: Level)
    ensures Others(SetLevel(rows, v, id, to), v) == Others(rows, v)
  {
    if rows != [] {
      var init := rows[..|rows| - 1];
      SetLevelLeavesOthers(init, v, id, to);
      assert SetLevel(rows, v, id, to)[..|init|] == SetLevel(init, v, id, to);
    }
  }

  /** No operation of a store touches, moves or reorders a row the store does not see: with an agent, the rows of other
      agents; in any case, those of other sessions. */
  lemma OthersAreUntouched(t: Table, op: Op, cap: nat)
    requires UniqueIds(t.rows)
    ensures Others(After(t, op, cap).rows, op.view) == Others(t.rows, op.view)
  {
    hide Others, Prune, SetLevel, DeleteSeen, Utf8Length;
    match op {
      case WriteOp(v, level, content, now) =>
        var size := Utf8Length(content);
        PruneLeavesOthers(t.rows, v, size, cap);
        var rows := if level == L0 then Prune(t.rows, v, size, cap) else t.rows;
        OthersOfAppend(rows, Note(t.nextId, v.session, v.agent, level, content, now), v);
      case PromoteOp(v, id, to) =>
        if Find(t.rows, v, id).Some? {
          var size := Utf8Length(Find(t.rows, v, id).value.content);
          PruneLeavesOthers(t.rows, v, size, cap);
          SetLevelLeavesOthers(if to == L0 then Prune(t.rows, v, size, cap) else t.rows, v, id, to);
        }
      case DeleteOp(v, id) => DeleteSeenLeavesOthers(t.rows, v, id);
    }
  }

  lemma OthersOfAppend(rows: seq<Note>, n: Note, v: View)
    requires Sees(v, n)
    ensures Others(rows + [n], v) == Others(rows, v)
  {
    assert (rows + [n])[..|rows|] == rows;
  }

  // ---- What the cap does not bound ----

  function Repeat(n: nat): string {
    seq(n, _ => 'x')
  }

  lemma {:induction false} RepeatWeighs(n: nat)
    ensures Utf8Length(Repeat(n)) == n
  {
    if n > 0 {
      RepeatWeighs(n - 1);
      assert Repeat(n)[..n - 1] == Repeat(n - 1);
    }
  }

  /** A store without an agent counts the whole session, so its hot write leaves the whole session within the cap. */
  lemma AdminWriteCapsSession(t: Table, session: string, cap: nat, content: string, now: real)
    requires Utf8Length(content) <= cap
    ensures var v := View(session, None, false);
            L0Bytes(After(t, WriteOp(v, L0, content, now), cap).rows, v) <= cap
  {
    hide L0Bytes, Prune, Utf8Length;
    var v := View(session, None, false);
    PruneMakesRoom(t.rows, v, Utf8Length(content), cap);
    AppendAdds(Prune(t.rows, v, Utf8Length(content), cap), Note(t.nextId, session, None, L0, content, now), v);
  }

  lemma FirstWrite(cap: nat, agent: string, content: string)
    requires Utf8Length(content) <= cap
    ensures After(Table([], 0), WriteOp(View("s", Some(agent), false), L0, content, 0.0), cap) ==
            Table([Note(0, "s", Some(agent), L0, content, 0.0)], 1)
  {
    hide Utf8Length;
    var n := Note(0, "s", Some(agent), L0, content, 0.0);
    assert [] + [n] == [n];
  }

  lemma SecondWrite(cap: nat, n: Note, agent: string, content: string)
    requires Utf8Length(content) <= cap && n.agent != Some(agent)
    ensures After(Table([n], 1), WriteOp(View("s", Some(agent), false), L0, content, 1.0), cap) ==
            Table([n, Note(1, "s", Some(agent), L0, content, 1.0)], 2)
  {
    hide Utf8Length;
    var v := View("s", Some(agent), false);
    AppendAdds([], n, v);
    assert [] + [n] == [n];
    assert [n] + [Note(1, "s", Some(agent), L0, content, 1.0)] == [n, Note(1, "s", Some(agent), L0, content, 1.0)];
  }

  lemma RunOfTwo(t: Table, a: Op, b: Op, cap: nat)
    ensures Run(t, [a, b], cap) == After(After(t, a, cap), b, cap)
  {
    hide After;
    assert [a, b][..1] == [a] && [a][..0] == [];
    assert Run(t, [a], cap) == After(Run(t, [], cap), a, cap);
  }

  /** The cap is one per agent: two agents of a session may hold twice the cap between them. */
  lemma SessionMayExceedCap(cap: nat)
    ensures var a, b := View("s", Some("a"), false), View("s", Some("b"), false);
            var t := Run(Table([], 0), [WriteOp(a, L0, Repeat(cap), 0.0), WriteOp(b, L0, Repeat(cap), 1.0)], cap);
            L0Bytes(t.rows, View("s", None, false)) == 2 * cap
  {
    hide After, Run, Repeat, Utf8Length;
    var all, text := View("s", None, false), Repeat(cap);
    var n, m := Note(0, "s", Some("a"), L0, text, 0.0), Note(1, "s", Some("b"), L0, text, 1.0);
    RepeatWeighs(cap);
    RunOfTwo(Table([], 0), WriteOp(View("s", Some("a"), false), L0, text, 0.0),
             WriteOp(View("s", Some("b"), false), L0, text, 1.0), cap);
    FirstWrite(cap, "a", text);
    SecondWrite(cap, n, "b", text);
    AppendAdds([], n, all);
    AppendAdds([n], m, all);
    assert [] + [n] == [n] && [n] + [m] == [n, m];
  }
}
