/** The live tail of the audit log: reading new lines as they come. */
module LogFollow {
  import opened Wrappers

  /** A character more: a newline opens a new piece, another goes to the last one. */
  function Push(pieces: seq<string>, c: char): (longer: seq<string>)
    requires |pieces| > 0
    ensures |longer| > 0
  {
    if c == '\n' then pieces + [""] else pieces[..|pieces| - 1] + [pieces[|pieces| - 1] + [c]]
  }

  /** The pieces of a text between its newlines; never empty. */
  function Split(s: string): (pieces: seq<string>)
    ensures |pieces| > 0
  {
    if s == "" then [""] else Push(Split(s[..|s| - 1]), s[|s| - 1])
  }

  /** What is in the opened file when it is read, and the size of the path afterwards, if the path can be examined. */
  datatype Glance = Glance(content: string, size: Option<nat>)

  datatype Reader = Reader(position: nat, buf: string, lines: seq<string>)

  function Chunk(r: Reader, g: Glance): string {
    if r.position < |g.content| then g.content[r.position..] else ""
  }

  predicate Resets(r: Reader, g: Glance) {
    Chunk(r, g) != "" && g.size.Some? && g.size.value < r.position + |Chunk(r, g)|
  }

  function Look(r: Reader, g: Glance): Reader {
    var chunk := Chunk(r, g);
    if chunk == "" then r
    else
      var pieces := Split(r.buf + chunk);
      var lines := r.lines + pieces[..|pieces| - 1];
      if Resets(r, g) then Reader(0, "", lines)
      else Reader(r.position + |chunk|, pieces[|pieces| - 1], lines)
  }

  function LookAll(r: Reader, glances: seq<Glance>): Reader {
    if glances == [] then r else Look(LookAll(r, glances[..|glances| - 1]), glances[|glances| - 1])
  }

  // ---- The code ----

  class LineFollower {
    var position: nat
    var buf: string
    var lines: seq<string>

    function Contents(): Reader
      reads this
    {
      Reader(position, buf, lines)
    }

    /** Starts after what is already in the file, or at its beginning. */
    constructor (content: string, startAtEnd: bool)
      ensures Contents() == Reader(if startAtEnd then |content| else 0, "", [])
    {
      position := if startAtEnd then |content| else 0;
      buf, lines := "", [];
    }

    /** One turn of the loop. The lines come out before the size is looked at; an empty read skips the look. */
    method Turn(g: Glance)
      modifies this
      ensures Contents() == Look(old(Contents()), g)
    {
      var chunk := if position < |g.content| then g.content[position..] else "";
      if chunk == "" { return; }
      buf := buf + chunk;
      var pieces := Split(buf);
      buf := pieces[|pieces| - 1];
      lines := lines + pieces[..|pieces| - 1];
      position := position + |chunk|;
      var size, here := 0, 0;
      if g.size.Some? { size, here := g.size.value, position; }
      if size < here { position, buf := 0, ""; }
    }

    method Follow(glances: seq<Glance>)
      modifies this
      ensures Contents() == LookAll(old(Contents()), glances)
    {
      for i := 0 to |glances|
        invariant Contents() == LookAll(old(Contents()), glances[..i])
      {
        assert glances[..i + 1][..i] == glances[..i];
        Turn(glances[i]);
      }
      assert glances[..|glances|] == glances;
    }
  }

  // ---- Splitting ----

  function Join(pieces: seq<string>): string
    requires |pieces| > 0
  {
    if |pieces| == 1 then pieces[0]
    else Join(pieces[..|pieces| - 1]) + "\n" + pieces[|pieces| - 1]
  }

  lemma {:induction false} JoinExtends(pieces: seq<string>, tail: string)
    requires |pieces| > 0
    ensures Join(pieces[..|pieces| - 1] + [pieces[|pieces| - 1] + tail]) == Join(pieces) + tail
    ensures Join(pieces + [tail]) == Join(pieces) + "\n" + tail
  {
    var longer := pieces[..|pieces| - 1] + [pieces[|pieces| - 1] + tail];
    if |pieces| > 1 { assert longer[..|longer| - 1] == pieces[..|pieces| - 1]; }
    assert (pieces + [tail])[..|pieces|] == pieces;
  }

  /** Splitting loses nothing, and no piece holds a newline. */
  lemma {:induction false} SplitKeepsText(s: string)
    ensures Join(Split(s)) == s
    ensures Pieces(Split(s))
  {
    hide Join, Push, Pieces;
    if s == "" {
      JoinOne("");
    } else {
      var init, c := s[..|s| - 1], s[|s| - 1];
      SplitKeepsText(init);
      PushKeepsText(Split(init), c);
      PushKeepsPieces(Split(init), c);
      assert s == init + [c];
    }
  }

  lemma JoinOne(p: string)
    ensures Join([p]) == p
    ensures '\n' !in p ==> Pieces([p])
  {
  }

  ghost predicate Pieces(pieces: seq<string>) {
    forall i :: 0 <= i < |pieces| ==> '\n' !in pieces[i]
  }

  lemma PushKeepsText(pieces: seq<string>, c: char)
    requires |pieces| > 0
    ensures Join(Push(pieces, c)) == Join(pieces) + [c]
  {
    hide Join;
    if c == '\n' {
      JoinExtends(pieces, "");
      assert Join(pieces) + "\n" + "" == Join(pieces) + [c];
    } else {
      JoinExtends(pieces, [c]);
    }
  }

  lemma PushKeepsPieces(pieces: seq<string>, c: char)
    requires |pieces| > 0 && Pieces(pieces)
    ensures Pieces(Push(pieces, c))
  {
  }

  lemma {:induction false} SplitOpen(s: string)
    requires '\n' !in s
    ensures Split(s) == [s]
  {
    if s != "" {
      var init, c := s[..|s| - 1], s[|s| - 1];
      assert s == init + [c];
      SplitOpen(init);
      assert [init][..0] == [];
    }
  }

  lemma PushToLast(head: seq<string>, rest: seq<string>, c: char)
    requires |rest| > 0
    ensures Push(head + rest, c) == head + Push(rest, c)
  {
    assert (head + rest)[..|head + rest| - 1] == head + rest[..|rest| - 1];
  }

  lemma SplitOneMore(s: string, c: char)
    ensures Split(s + [c]) == Push(Split(s), c)
  {
    assert (s + [c])[..|s|] == s;
  }

  /** A text may be split in two goes: only the last piece of the first part is still open. */
  lemma {:induction false} SplitInTwo(a: string, b: string)
    ensures var first := Split(a);
            Split(a + b) == first[..|first| - 1] + Split(first[|first| - 1] + b)
  {
    hide Split, Push;
    var first := Split(a);
    var head, open := first[..|first| - 1], first[|first| - 1];
    if b == "" {
      SplitKeepsText(a);
      assert a + b == a && open + b == open;
      SplitOpen(open);
    } else {
      var init, c := b[..|b| - 1], b[|b| - 1];
      SplitInTwo(a, init);
      assert a + b == (a + init) + [c] && open + b == (open + init) + [c];
      SplitOneMore(a + init, c);
      SplitOneMore(open + init, c);
      PushToLast(head, Split(open + init), c);
    }
  }

  /** ... and it is the only such splitting. */
  lemma {:induction false} SplitIsUnique(pieces: seq<string>)
    requires |pieces| > 0 && Pieces(pieces)
    ensures Split(Join(pieces)) == pieces
  {
    hide Split;
    var n := |pieces| - 1;
    SplitOpen(pieces[n]);
    if n > 0 {
      var init := pieces[..n];
      SplitIsUnique(init);
      SplitOneMore(Join(init), '\n');
      assert Push(init, '\n') == init + [""];
      SplitInTwo(Join(init) + "\n", pieces[n]);
      assert "" + pieces[n] == pieces[n];
    }
  }

  // ---- Reading ----

  /** All that was read, in order. */
  function Text(r: Reader, glances: seq<Glance>): string {
    if glances == [] then ""
    else
      var before := glances[..|glances| - 1];
      Text(r, before) + Chunk(LookAll(r, before), glances[|glances| - 1])
  }

  /** The buffer never holds a newline. */
  lemma BufferIsOpen(r: Reader, g: Glance)
    requires '\n' !in r.buf
    ensures '\n' !in Look(r, g).buf
  {
    SplitKeepsText(r.buf + Chunk(r, g));
  }

  ghost predicate NeverResets(r: Reader, glances: seq<Glance>) {
    forall i :: 0 <= i < |glances| ==> !Resets(LookAll(r, glances[..i]), glances[i])
  }

  lemma NeverResetsBefore(r: Reader, glances: seq<Glance>)
    requires glances != [] && NeverResets(r, glances)
    ensures NeverResets(r, glances[..|glances| - 1])
    ensures !Resets(LookAll(r, glances[..|glances| - 1]), glances[|glances| - 1])
  {
    var before := glances[..|glances| - 1];
    forall i | 0 <= i < |before| ensures !Resets(LookAll(r, before[..i]), before[i]) {
      assert before[..i] == glances[..i];
    }
  }

  /** Between resets the lines do not depend on how the text came in chunks: the lines given out and the unfinished one
      are the whole text split at once. */
  lemma {:induction false} ChunksDoNotMatter(r: Reader, glances: seq<Glance>)
    requires NeverResets(r, glances) && '\n' !in r.buf
    ensures var after := LookAll(r, glances);
            after.lines + [after.buf] == r.lines + Split(r.buf + Text(r, glances))
    ensures LookAll(r, glances).position == r.position + |Text(r, glances)|
  {
    hide Split, Look, Chunk;
    if glances == [] {
      assert r.buf + "" == r.buf;
      SplitOpen(r.buf);
    } else {
      var before, g := glances[..|glances| - 1], glances[|glances| - 1];
      var mid := LookAll(r, before);
      NeverResetsBefore(r, glances);
      ChunksDoNotMatter(r, before);
      assert r.buf + Text(r, glances) == (r.buf + Text(r, before)) + Chunk(mid, g);
      OneMoreLook(r.lines, r.buf + Text(r, before), mid, g);
    }
  }

  lemma {:induction false} BufferStaysOpen(r: Reader, glances: seq<Glance>)
    requires '\n' !in r.buf
    ensures '\n' !in LookAll(r, glances).buf
  {
    hide Look;
    if glances != [] {
      BufferStaysOpen(r, glances[..|glances| - 1]);
      BufferIsOpen(LookAll(r, glances[..|glances| - 1]), glances[|glances| - 1]);
    }
  }

  /** So whatever a follower went through before, from then to the next reset its lines are the text split at once. */
  lemma BetweenResets(start: nat, before: seq<Glance>, glances: seq<Glance>)
    requires NeverResets(LookAll(Reader(start, "", []), before), glances)
    ensures var r := LookAll(Reader(start, "", []), before);
            var after := LookAll(r, glances);
            after.lines + [after.buf] == r.lines + Split(r.buf + Text(r, glances))
  {
    hide NeverResets, LookAll, Split, Text;
    BufferStaysOpen(Reader(start, "", []), before);
    ChunksDoNotMatter(LookAll(Reader(start, "", []), before), glances);
  }

  lemma Unsnoc(a: seq<string>, x: string, start: seq<string>, whole: seq<string>)
    requires a + [x] == start + whole && |whole| > 0
    ensures a == start + whole[..|whole| - 1] && x == whole[|whole| - 1]
  {
    assert (a + [x])[..|a|] == a;
    assert (start + whole)[..|start| + |whole| - 1] == start + whole[..|whole| - 1];
    assert (a + [x])[|a|] == (start + whole)[|start| + |whole| - 1];
  }

  lemma Look1(r: Reader, g: Glance)
    requires !Resets(r, g) && '\n' !in r.buf
    ensures Look(r, g).lines + [Look(r, g).buf] == r.lines + Split(r.buf + Chunk(r, g))
    ensures Look(r, g).position == r.position + |Chunk(r, g)|
  {
    var chunk := Chunk(r, g);
    if chunk == "" {
      assert r.buf + chunk == r.buf;
      SplitOpen(r.buf);
    } else {
      var pieces := Split(r.buf + chunk);
      assert pieces[..|pieces| - 1] + [pieces[|pieces| - 1]] == pieces;
    }
  }

  lemma Associates(a: seq<string>, b: seq<string>, c: seq<string>)
    ensures (a + b) + c == a + (b + c)
  {
  }

  lemma OneMoreLook(start: seq<string>, text: string, r: Reader, g: Glance)
    requires r.lines + [r.buf] == start + Split(text) && !Resets(r, g)
    ensures Look(r, g).lines + [Look(r, g).buf] == start + Split(text + Chunk(r, g))
    ensures Look(r, g).position == r.position + |Chunk(r, g)|
  {
    hide Split, Look, Resets, Chunk;
    var whole, chunk := Split(text), Chunk(r, g);
    Unsnoc(r.lines, r.buf, start, whole);
    SplitKeepsText(text);
    Look1(r, g);
    SplitInTwo(text, chunk);
    var rest := Split(r.buf + chunk);
    Associates(start, whole[..|whole| - 1], rest);
  }

  /** A file that only grows, whose path still names it. */
  ghost predicate Grows(glances: seq<Glance>) {
    && (forall i, j :: 0 <= i < j < |glances| ==> glances[i].content <= glances[j].content)
    && (forall i :: 0 <= i < |glances| ==> glances[i].size.Some? ==> |glances[i].content| <= glances[i].size.value)
  }

  /** While the file only grows, every line appended after the start comes out once, in order, and nothing else does. */
  lemma {:induction false} FollowSeesAppends(start: nat, glances: seq<Glance>)
    requires Grows(glances) && glances != [] && start <= |glances[0].content|
    ensures var after := LookAll(Reader(start, "", []), glances);
            && after.lines + [after.buf] == Split(glances[|glances| - 1].content[start..])
            && after.position == |glances[|glances| - 1].content|
  {
    hide Split, Look;
    var r := Reader(start, "", []);
    var last, before := glances[|glances| - 1], glances[..|glances| - 1];
    var mid := LookAll(r, before);
    if before == [] {
      assert mid.lines + [mid.buf] == [] + Split("") by { SplitOpen(""); }
      OneMoreLook([], "", mid, last);
      Started("", last.content[start..]);
    } else {
      FollowSeesAppends(start, before);
      var seen := before[|before| - 1].content;
      assert seen <= last.content;
      Started(seen[start..], last.content[|seen|..]);
      assert last.content[start..] == seen[start..] + last.content[|seen|..];
      OneMoreLook([], seen[start..], mid, last);
    }
  }

  lemma Started(a: string, b: string)
    ensures [] + Split(a) == Split(a) && [] + Split(a + b) == Split(a + b) && "" + b == b
  {
  }

  // ---- Truncation ----

  /** The reader starts over exactly when the file it has open holds something new and the path names a smaller one. */
  lemma ResetsExactly(r: Reader, g: Glance)
    ensures Resets(r, g) <==> r.position < |g.content| && g.size.Some? && g.size.value < |g.content|
  {
  }

  /** A file may be cut down and grow as it likes: as long as the path has the size of what was read, or has grown
      since, there is never a reset. */
  lemma TruncationNeverResets(r: Reader, glances: seq<Glance>)
    requires forall g :: g in glances && g.size.Some? ==> |g.content| <= g.size.value
    ensures NeverResets(r, glances)
  {
    forall i | 0 <= i < |glances| ensures !Resets(LookAll(r, glances[..i]), glances[i]) {
      assert glances[i] in glances;
    }
  }

  /** A file cut down to what has been read, or less, goes unnoticed for as long as it stays there. */
  lemma {:induction false} TruncationIsMissed(r: Reader, glances: seq<Glance>)
    requires forall g :: g in glances ==> |g.content| <= r.position
    ensures LookAll(r, glances) == r
  {
    if glances != [] {
      assert glances[|glances| - 1] in glances;
      TruncationIsMissed(r, glances[..|glances| - 1]);
    }
  }

  /** Once it has grown past that point, reading resumes in the middle: what stands before is never given out, and the
      unfinished line of the old content is continued with the new. */
  lemma TruncationResumesMidFile(r: Reader, short: seq<Glance>, g: Glance)
    requires '\n' !in r.buf
    requires forall h :: h in short ==> |h.content| <= r.position
    requires r.position < |g.content| && (g.size.Some? ==> |g.content| <= g.size.value)
    ensures var after := LookAll(r, short + [g]);
            && after.lines + [after.buf] == r.lines + Split(r.buf + g.content[r.position..])
            && after.position == |g.content|
  {
    hide Split, LookAll;
    TruncationIsMissed(r, short);
    LookLast(r, short, g);
    Look1(r, g);
  }

  lemma LookLast(r: Reader, glances: seq<Glance>, g: Glance)
    ensures LookAll(r, glances + [g]) == Look(LookAll(r, glances), g)
  {
    assert (glances + [g])[..|glances|] == glances;
  }

  // ---- Rotation ----

  /** The finished lines of a text. */
  function Complete(s: string): seq<string> {
    Split(s)[..|Split(s)| - 1]
  }

  function Copies(lines: seq<string>, n: nat): seq<string> {
    if n == 0 then [] else Copies(lines, n - 1) + lines
  }

  /** The path names a file smaller than the one held open. */
  predicate Smaller(g: Glance, length: nat) {
    g.size.Some? && g.size.value < length
  }

  /** After a rotation the reader keeps the old file open while the path names the new one. After every turn that finds
      the new file smaller, the next turn gives out the whole old file again, and the unfinished line is dropped; from
      the first turn that does not, nothing more is given out. So lines are repeated exactly when the first turn finds
      the new file smaller and is not the last. */
  lemma {:induction false} RotationRepeatsOldFile(r: Reader, stale: string, glances: seq<Glance>, m: nat)
    requires r.position < |stale| && glances != [] && forall g :: g in glances ==> g.content == stale
    requires m <= |glances| && forall i :: 0 <= i < m ==> Smaller(glances[i], |stale|)
    requires m < |glances| ==> !Smaller(glances[m], |stale|)
    ensures var after := LookAll(r, glances);
            && after.lines == r.lines + Complete(r.buf + stale[r.position..]) +
                              Copies(Complete(stale), if m < |glances| then m else m - 1)
            && (if m < |glances| then after.position == |stale| else after.position == 0 && after.buf == "")
  {
    hide Split, Look, Complete;
    var n := |glances| - 1;
    var before, g := glances[..n], glances[n];
    assert g in glances;
    if n == 0 {
      assert before == [];
      LookAtStale(r, stale, g);
      assert r.lines + Complete(r.buf + stale[r.position..]) + [] == r.lines + Complete(r.buf + stale[r.position..]);
    } else {
      var mid := LookAll(r, before);
      assert forall h :: h in before ==> h in glances;
      RotationRepeatsOldFile(r, stale, before, if m <= n then m else n);
      if m < n {
        assert Look(mid, g) == mid by { hide *; NothingNew(mid, g); }
      } else {
        LookAtStale(mid, stale, g);
        assert mid.buf + stale[mid.position..] == stale;
      }
    }
  }

  lemma NothingNew(r: Reader, g: Glance)
    requires |g.content| <= r.position
    ensures Look(r, g) == r
  {
  }

  lemma LookAtStale(r: Reader, stale: string, g: Glance)
    requires r.position < |stale| && g.content == stale
    ensures Look(r, g).lines == r.lines + Complete(r.buf + stale[r.position..])
    ensures Smaller(g, |stale|) ==> Look(r, g).position == 0 && Look(r, g).buf == ""
    ensures !Smaller(g, |stale|) ==> Look(r, g).position == |stale|
  {
    hide Split;
  }
}
