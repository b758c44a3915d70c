/** The scratchpad: notes shared by many stores, with a byte budget on the hot level. */
module Scratchpad {
  import opened Wrappers
  import opened Utf8

  datatype Level = L0 | L1 | L2

  datatype Note = Note(id: nat, session: string, agent: Option<string>, level: Level, content: string, createdAt: real)

  /** Which rows a query sees. A store without an agent sees its whole session; `exact` asks for one owner's rows,
      the rows without an owner included. */
  datatype View = View(session: string, agent: Option<string>, exact: bool)

  predicate Sees(v: View, n: Note) {
    n.session == v.session && ((v.agent.None? && !v.exact) || n.agent == v.agent)
  }

  function Owner(session: string, agent: Option<string>): View {
    View(session, agent, true)
  }

  // ---- Sizes ----

  function Weight(v: View, n: Note): nat {
    if Sees(v, n) && n.level == L0 then Utf8Length(n.content) else 0
  }

  function L0Bytes(rows: seq<Note>, v: View): nat {
    if rows == [] then 0 else L0Bytes(rows[..|rows| - 1], v) + Weight(v, rows[|rows| - 1])
  }

  // ---- Eviction ----

  predicate Older(a: Note, b: Note) {
    a.createdAt < b.createdAt || (a.createdAt == b.createdAt && a.id < b.id)
  }

  predicate Hot(v: View, n: Note) {
    Sees(v, n) && n.level == L0
  }

  function OldestL0(rows: seq<Note>, v: View): (o: Option<Note>)
    ensures o.Some? ==> o.value in rows && Hot(v, o.value)
    ensures o.None? ==> forall n :: n in rows ==> !Hot(v, n)
  {
    if rows == [] then None
    else
      var init, last := rows[..|rows| - 1], rows[|rows| - 1];
      assert rows == init + [last];
      var best := OldestL0(init, v);
      if Hot(v, last) && (best.None? || Older(last, best.value)) then Some(last) else best
  }

  function DeleteId(rows: seq<Note>, id: nat): seq<Note> {
    if rows == [] then []
    else DeleteId(rows[..|rows| - 1], id) + if rows[|rows| - 1].id == id then [] else [rows[|rows| - 1]]
  }

  lemma {:induction false} DeleteShrinks(rows: seq<Note>, id: nat)
    ensures |DeleteId(rows, id)| <= |rows|
    ensures forall n :: n in DeleteId(rows, id) <==> n in rows && n.id != id
    ensures (exists n :: n in rows && n.id == id) ==> |DeleteId(rows, id)| < |rows|
  {
    if rows != [] {
      DeleteShrinks(rows[..|rows| - 1], id);
      assert rows == rows[..|rows| - 1] + [rows[|rows| - 1]];
    }
  }

  /** Removes the oldest visible hot rows, one at a time, until `incoming` more bytes fit. */
  function Prune(rows: seq<Note>, v: View, incoming: nat, cap: nat): seq<Note>
    decreases |rows|
  {
    if L0Bytes(rows, v) + incoming <= cap then rows
    else match OldestL0(rows, v)
      case None => rows
      case Some(n) =>
        DeleteShrinks(rows, n.id);
        Prune(DeleteId(rows, n.id), v, incoming, cap)
  }

  function SetLevel(rows: seq<Note>, v: View, id: nat, level: Level): seq<Note> {
    seq(|rows|, i requires 0 <= i < |rows| =>
      if rows[i].id == id && Sees(v, rows[i]) then rows[i].(level := level) else rows[i])
  }

  function Find(rows: seq<Note>, v: View, id: nat): (r: Option<Note>)
    ensures r.Some? ==> r.value in rows && r.value.id == id && Sees(v, r.value)
    ensures r.None? ==> forall n :: n in rows && n.id == id ==> !Sees(v, n)
  {
    if rows == [] then None
    else
      assert rows == [rows[0]] + rows[1..];
      if rows[0].id == id && Sees(v, rows[0]) then Some(rows[0]) else Find(rows[1..], v, id)
  }

  // ---- Operations on the table ----

  datatype Error = TooBig | BadConfig

  datatype Table = Table(rows: seq<Note>, nextId: nat)

  function Write(t: Table, v: View, cap: nat, level: Level, content: string, now: real): Result<Table, Error> {
    var size := Utf8Length(content);
    if level == L0 && size > cap then Err(TooBig)
    else
      var rows := if level == L0 then Prune(t.rows, v, size, cap) else t.rows;
      Ok(Table(rows + [Note(t.nextId, v.session, v.agent, level, content, now)], t.nextId + 1))
  }

  function Promote(t: Table, v: View, cap: nat, id: nat, to: Level): Result<Table, Error> {
    match Find(t.rows, v, id)
    case None => Ok(t)
    case Some(n) =>
      var size := Utf8Length(n.content);
      if to == L0 && n.level == L0 then Ok(t)
      else if to == L0 && size > cap then Err(TooBig)
      else
        var rows := if to == L0 then Prune(t.rows, v, size, cap) else t.rows;
        Ok(t.(rows := SetLevel(rows, v, id, to)))
  }

  function DeleteSeen(rows: seq<Note>, v: View, id: nat): seq<Note> {
    if rows == [] then []
    else
      var last := rows[|rows| - 1];
      DeleteSeen(rows[..|rows| - 1], v, id) + if last.id == id && Sees(v, last) then [] else [last]
  }

  // ---- The code ----

  class NotesTable {
    var rows: seq<Note>
    var nextId: nat

    constructor ()
      ensures rows == [] && nextId == 0
    {
      rows, nextId := [], 0;
    }

    function Contents(): Table
      reads this
    {
      Table(rows, nextId)
    }
  }

  class ScratchpadStore {
    const table: NotesTable
    const view: View
    const cap: nat

    constructor (table: NotesTable, session: string, agent: Option<string>, cap: nat)
      ensures this.table == table && view == View(session, agent, false) && this.cap == cap
    {
      this.table, this.view, this.cap := table, View(session, agent, false), cap;
    }

    /** A store needs a session and a cap of at least 128 bytes. */
    static method Open(table: NotesTable, session: string, agent: Option<string>, cap: int)
      returns (r: Result<ScratchpadStore, Error>)
      ensures r.Ok? <==> session != "" && cap >= 128
      ensures r.Ok? ==> r.value.table == table && r.value.view == View(session, agent, false) && r.value.cap == cap
    {
      if session == "" { return Err(BadConfig); }
      if cap < 128 { return Err(BadConfig); }
      var s := new ScratchpadStore(table, session, agent, cap);
      return Ok(s);
    }

    method L0SizeBytes() returns (total: nat)
      ensures total == L0Bytes(table.rows, view)
    {
      total := 0;
      for i := 0 to |table.rows|
        invariant total == L0Bytes(table.rows[..i], view)
      {
        assert table.rows[..i + 1][..i] == table.rows[..i];
        if Sees(view, table.rows[i]) && table.rows[i].level == L0 {
          total := total + Utf8Length(table.rows[i].content);
        }
      }
      assert table.rows[..|table.rows|] == table.rows;
    }

    method PruneOldestL0() returns (removed: bool)
      modifies table
      ensures table.nextId == old(table.nextId)
      ensures removed <==> OldestL0(old(table.rows), view).Some?
      ensures table.rows == match OldestL0(old(table.rows), view)
              case None => old(table.rows)
              case Some(n) => DeleteId(old(table.rows), n.id)
    {
      match OldestL0(table.rows, view) {
        case None => return false;
        case Some(n) =>
          table.rows := DeleteId(table.rows, n.id);
          return true;
      }
    }

    method MakeRoom(incoming: nat)
      modifies table
      ensures table.rows == Prune(old(table.rows), view, incoming, cap) && table.nextId == old(table.nextId)
    {
      var current := L0SizeBytes();
      while current + incoming > cap
        invariant current == L0Bytes(table.rows, view) && table.nextId == old(table.nextId)
        invariant Prune(table.rows, view, incoming, cap) == Prune(old(table.rows), view, incoming, cap)
        decreases |table.rows|
      {
        ghost var before := table.rows;
        var pruned := PruneOldestL0();
        if !pruned { break; }
        DeleteShrinks(before, OldestL0(before, view).value.id);
        current := L0SizeBytes();
      }
    }

    method WriteNote(level: Level, content: string, now: real) returns (r: Result<nat, Error>)
      modifies table
      ensures match Write(old(table.Contents()), view, cap, level, content, now)
              case Err(e) => r == Err(e) && table.Contents() == old(table.Contents())
              case Ok(t) => r == Ok(old(table.nextId)) && table.Contents() == t
    {
      if level == L0 {
        var incoming := Utf8Length(content);
        if incoming > cap { return Err(TooBig); }
        MakeRoom(incoming);
      }
      var id := table.nextId;
      table.rows := table.rows + [Note(id, view.session, view.agent, level, content, now)];
      table.nextId := id + 1;
      return Ok(id);
    }

    method PromoteNote(id: nat, to: Level) returns (r: Result<Option<Note>, Error>)
      modifies table
      ensures match Promote(old(table.Contents()), view, cap, id, to)
              case Err(e) => r == Err(e) && table.Contents() == old(table.Contents())
              case Ok(t) =>
                && table.Contents() == t
                && r == Ok(match Find(old(table.rows), view, id)
                           case None => None
                           case Some(n) => Some(n.(level := to)))
    {
      var found := Find(table.rows, view, id);
      if found.None? { return Ok(None); }
      var note := found.value;
      if to == L0 {
        if note.level == L0 { return Ok(Some(note)); }
        var incoming := Utf8Length(note.content);
        if incoming > cap { return Err(TooBig); }
        MakeRoom(incoming);
      }
      table.rows := SetLevel(table.rows, view, id, to);
      return Ok(Some(note.(level := to)));
    }

    method DeleteNote(id: nat) returns (removed: bool)
      modifies table
      ensures table.rows == DeleteSeen(old(table.rows), view, id) && table.nextId == old(table.nextId)
      ensures removed <==> Find(old(table.rows), view, id).Some?
    {
      removed := Find(table.rows, view, id).Some?;
      var kept := [];
      for i := 0 to |table.rows|
        invariant table.rows == old(table.rows) && table.nextId == old(table.nextId)
        invariant kept == DeleteSeen(table.rows[..i], view, id)
      {
        assert table.rows[..i + 1][..i] == table.rows[..i];
        if !(table.rows[i].id == id && Sees(view, table.rows[i])) { kept := kept + [table.rows[i]]; }
      }
      assert table.rows[..|table.rows|] == table.rows;
      table.rows := kept;
    }
  }
}
