/** What one operation does to the table. */
module ScratchpadMoves {
  import opened Wrappers
  import opened Utf8
  import opened Scratchpad
  import opened ScratchpadProperties
  import opened ScratchpadEviction

  /** The store may touch the note. */
  predicate Reaches(v: View, n: Note) {
    n.session == v.session && (v.agent == None || n.agent == v.agent)
  }

  /** What eviction leaves before a note of this size becomes hot. */
  function Room(rows: seq<Note>, v: View, content: string, cap: nat): seq<Note> {
    Prune(rows, v, Utf8Length(content), cap)
  }

  lemma FindsIt(rows: seq<Note>, v: View, n: Note)
    requires UniqueIds(rows) && n in rows && Sees(v, n)
    ensures Find(rows, v, n.id) == Some(n)
  {
    if Find(rows, v, n.id).Some? { SameIdSameNote(rows, Find(rows, v, n.id).value, n); }
  }

  lemma ColdSurvives(rows: seq<Note>, v: View, size: nat, cap: nat, n: Note)
    requires UniqueIds(rows) && n in rows && n.level != L0
    ensures n in Prune(rows, v, size, cap)
  {
    hide Prune, Without;
    EvictionIsFifo(rows, v, size, cap);
  }

  lemma LevelIsSet(rows: seq<Note>, v: View, n: Note, to: Level)
    requires UniqueIds(rows) && n in rows && Sees(v, n)
    ensures var moved := SetLevel(rows, v, n.id, to);
            && |moved| == |rows|
            && forall i :: 0 <= i < |rows| ==> moved[i] == if rows[i] == n then n.(level := to) else rows[i]
  {
    forall i | 0 <= i < |rows| && rows[i].id == n.id ensures rows[i] == n {
      assert rows[i] in rows;
      SameIdSameNote(rows, rows[i], n);
    }
  }

  /** A promotion that is not refused moves the one row, in its place, to the level asked for, and changes no other
      row; only a note that becomes hot makes room first, and never at its own cost. */
  lemma PromoteMoves(t: Table, v: View, n: Note, to: Level, cap: nat)
    requires UniqueIds(t.rows) && !v.exact && n in t.rows && Reaches(v, n)
    requires to == L0 && n.level != L0 ==> Utf8Length(n.content) <= cap
    ensures var t' := After(t, PromoteOp(v, n.id, to), cap);
            var kept := if to == L0 && n.level != L0 then Room(t.rows, v, n.content, cap) else t.rows;
            && n in kept && t'.nextId == t.nextId && |t'.rows| == |kept|
            && forall i :: 0 <= i < |kept| ==> t'.rows[i] == if kept[i] == n then n.(level := to) else kept[i]
  {
    hide Prune, SetLevel, Find, Utf8Length;
    ViewsSee(n, v.session, v.agent);
    FindsIt(t.rows, v, n);
    var size := Utf8Length(n.content);
    PruneKeepsOrder(t.rows, v, size, cap);
    if to == L0 && n.level != L0 {
      ColdSurvives(t.rows, v, size, cap, n);
      LevelIsSet(Prune(t.rows, v, size, cap), v, n, to);
    } else if to != L0 {
      LevelIsSet(t.rows, v, n, to);
    }
  }

  /** A refused one changes nothing, and neither does one of a note the store does not reach. */
  lemma PromoteRefused(t: Table, v: View, id: nat, to: Level, cap: nat)
    requires !v.exact
    requires forall n :: n in t.rows && n.id == id && Reaches(v, n) ==>
               to == L0 && n.level != L0 && Utf8Length(n.content) > cap
    ensures After(t, PromoteOp(v, id, to), cap) == t
  {
    hide Prune, SetLevel, Utf8Length;
    forall n ensures !v.exact ==> (Sees(v, n) <==> Reaches(v, n)) { ViewsSee(n, v.session, v.agent); }
  }

  lemma {:induction false} ReplaceWeighs(rows: seq<Note>, i: nat, m: Note, o: View)
    requires i < |rows|
    ensures L0Bytes(rows[i := m], o) + Weight(o, rows[i]) == L0Bytes(rows, o) + Weight(o, m)
  {
    hide Weight;
    var last := |rows| - 1;
    if i < last {
      ReplaceWeighs(rows[..last], i, m, o);
      assert rows[i := m][..last] == rows[..last][i := m];
    } else {
      assert rows[i := m][..last] == rows[..last];
    }
  }

  /** For whoever sees the note, hot bytes grow by exactly its size when it becomes hot, after eviction, and fall by it
      when it leaves. */
  lemma PromoteWeighs(t: Table, v: View, n: Note, to: Level, cap: nat, o: View)
    requires UniqueIds(t.rows) && !v.exact && n in t.rows && Reaches(v, n) && Sees(o, n)
    requires to == L0 && n.level != L0 ==> Utf8Length(n.content) <= cap
    ensures var t' := After(t, PromoteOp(v, n.id, to), cap);
            var kept := if to == L0 && n.level != L0 then Room(t.rows, v, n.content, cap) else t.rows;
            L0Bytes(t'.rows, o) + (if n.level == L0 then Utf8Length(n.content) else 0) ==
            L0Bytes(kept, o) + (if to == L0 then Utf8Length(n.content) else 0)
  {
    hide Prune, After, L0Bytes, Utf8Length;
    PromoteMoves(t, v, n, to, cap);
    PruneKeepsOrder(t.rows, v, Utf8Length(n.content), cap);
    var kept := if to == L0 && n.level != L0 then Room(t.rows, v, n.content, cap) else t.rows;
    var i :| 0 <= i < |kept| && kept[i] == n;
    assert After(t, PromoteOp(v, n.id, to), cap).rows == kept[i := n.(level := to)] by {
      forall j | 0 <= j < |kept| && kept[j] == n ensures j == i { assert kept[i].id == kept[j].id; }
    }
    ReplaceWeighs(kept, i, n.(level := to), o);
  }

  /** A note written is the last row, with everything it was given and a new id; before it stand the rows eviction left
      if it is hot, all rows otherwise. Only a hot note above the cap is refused, and then nothing changes. */
  lemma WriteAdds(t: Table, v: View, level: Level, content: string, now: real, cap: nat)
    ensures var t' := After(t, WriteOp(v, level, content, now), cap);
            var kept := if level == L0 then Room(t.rows, v, content, cap) else t.rows;
            if level == L0 && Utf8Length(content) > cap then t' == t
            else
              && t'.nextId == t.nextId + 1 && |t'.rows| == |kept| + 1 && t'.rows[..|kept|] == kept
              && var n := t'.rows[|kept|];
                 n.id == t.nextId && n.session == v.session && n.agent == v.agent && n.level == level
                 && n.content == content && n.createdAt == now
  {
    hide Prune, Utf8Length;
  }

  /** Only the note asked for goes, if the store reaches it; the others keep their order. */
  lemma {:induction false} DeleteRemoves(rows: seq<Note>, v: View, id: nat)
    requires UniqueIds(rows) && !v.exact
    ensures DeleteSeen(rows, v, id) ==
            Without(rows, if exists n :: n in rows && n.id == id && Reaches(v, n) then {id} else {})
  {
    forall n ensures Sees(v, n) <==> Reaches(v, n) { ViewsSee(n, v.session, v.agent); }
    if n :| n in rows && n.id == id && Reaches(v, n) {
      forall m | m in rows && m.id == id ensures m == n { SameIdSameNote(rows, m, n); }
      DeletesAll(rows, v, id);
    } else {
      WithoutNone(rows, {});
      DeletesNone(rows, v, id);
    }
  }

  lemma {:induction false} DeletesAll(rows: seq<Note>, v: View, id: nat)
    requires forall m :: m in rows && m.id == id ==> Sees(v, m)
    ensures DeleteSeen(rows, v, id) == Without(rows, {id})
  {
    if rows != [] {
      assert rows[|rows| - 1] in rows;
      DeletesAll(rows[..|rows| - 1], v, id);
    }
  }

  lemma {:induction false} DeletesNone(rows: seq<Note>, v: View, id: nat)
    requires forall m :: m in rows && m.id == id ==> !Sees(v, m)
    ensures DeleteSeen(rows, v, id) == rows
  {
    if rows != [] {
      assert rows[|rows| - 1] in rows;
      DeletesNone(rows[..|rows| - 1], v, id);
      assert rows[..|rows| - 1] + [rows[|rows| - 1]] == rows;
    }
  }
}
