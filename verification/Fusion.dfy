/** Hybrid retrieval: a lexical and a dense ranking fused by reciprocal ranks. */
module Fusion {
  import opened Ordering
  import Bm25
  import Bm25Index

  type Id = int
  type Entry = (Id, real)

  // ---- The fused ranking ----

  /** What a ranked list gives a note: `1 / (rrfK + rank)` for each of its places. */
  function Share(rrfK: nat, hits: seq<Id>, id: Id): real {
    if hits == [] then 0.0
    else
      Share(rrfK, hits[..|hits| - 1], id) +
      if hits[|hits| - 1] == id then 1.0 / (rrfK + |hits|) as real else 0.0
  }

  function FusedScore(rrfK: nat, bm25: seq<Id>, dense: seq<Id>, id: Id): real {
    Share(rrfK, bm25, id) + Share(rrfK, dense, id)
  }

  predicate NotLower(a: Entry, b: Entry) {
    a.1 >= b.1
  }

  /** Every note once, in the order in which the two lists first mention it. */
  function Entries(rrfK: nat, bm25: seq<Id>, dense: seq<Id>): seq<Entry> {
    var ids := Dedup(bm25 + dense);
    seq(|ids|, i requires 0 <= i < |ids| => (ids[i], FusedScore(rrfK, bm25, dense, ids[i])))
  }

  function Ranking(rrfK: nat, bm25: seq<Id>, dense: seq<Id>): seq<Entry> {
    Sort(Entries(rrfK, bm25, dense), NotLower)
  }

  function Take(s: seq<Entry>, k: nat): seq<Entry> {
    if |s| <= k then s else s[..k]
  }

  /** The accumulator: ids in insertion order, and their scores. */
  ghost predicate Accumulates(rrfK: nat, b: seq<Id>, d: seq<Id>, ids: seq<Id>, scores: map<Id, real>) {
    && ids == Dedup(b + d)
    && (forall id :: id in scores <==> id in ids)
    && (forall id :: (if id in scores then scores[id] else 0.0) == FusedScore(rrfK, b, d, id))
  }

  function Added(ids: seq<Id>, id: Id): seq<Id> {
    if id in ids then ids else ids + [id]
  }

  function Bumped(scores: map<Id, real>, id: Id, gain: real): map<Id, real> {
    scores[id := (if id in scores then scores[id] else 0.0) + gain]
  }

  lemma AddLexical(rrfK: nat, b: seq<Id>, id: Id, ids: seq<Id>, scores: map<Id, real>)
    requires Accumulates(rrfK, b, [], ids, scores)
    ensures Accumulates(rrfK, b + [id], [], Added(ids, id), Bumped(scores, id, 1.0 / (rrfK + |b| + 1) as real))
  {
    assert b + [] == b && (b + [id]) + [] == b + [id] && (b + [id])[..|b|] == b;
    DedupKeepsSet(b);
  }

  lemma AddDense(rrfK: nat, b: seq<Id>, d: seq<Id>, id: Id, ids: seq<Id>, scores: map<Id, real>)
    requires Accumulates(rrfK, b, d, ids, scores)
    ensures Accumulates(rrfK, b, d + [id], Added(ids, id), Bumped(scores, id, 1.0 / (rrfK + |d| + 1) as real))
  {
    assert b + (d + [id]) == (b + d) + [id] && ((b + d) + [id])[..|b + d|] == b + d && (d + [id])[..|d|] == d;
    DedupKeepsSet(b + d);
  }

  method RrfFuse(bm25: seq<Id>, dense: seq<Id>, topK: nat, rrfK: nat) returns (out: seq<Entry>)
    ensures out == Take(Ranking(rrfK, bm25, dense), topK)
  {
    var ids: seq<Id>, scores: map<Id, real> := [], map[];
    for i := 0 to |bm25|
      invariant Accumulates(rrfK, bm25[..i], [], ids, scores)
    {
      AddLexical(rrfK, bm25[..i], bm25[i], ids, scores);
      assert bm25[..i + 1] == bm25[..i] + [bm25[i]];
      ids, scores := Added(ids, bm25[i]), Bumped(scores, bm25[i], 1.0 / (rrfK + i + 1) as real);
    }
    assert bm25[..|bm25|] == bm25;
    for i := 0 to |dense|
      invariant Accumulates(rrfK, bm25, dense[..i], ids, scores)
    {
      AddDense(rrfK, bm25, dense[..i], dense[i], ids, scores);
      assert dense[..i + 1] == dense[..i] + [dense[i]];
      ids, scores := Added(ids, dense[i]), Bumped(scores, dense[i], 1.0 / (rrfK + i + 1) as real);
    }
    assert dense[..|dense|] == dense;
    out := SortItems(ids, scores, rrfK, bm25, dense, topK);
  }

  method SortItems(ids: seq<Id>, scores: map<Id, real>, ghost rrfK: nat, ghost bm25: seq<Id>, ghost dense: seq<Id>, topK: nat)
    returns (out: seq<Entry>)
    requires Accumulates(rrfK, bm25, dense, ids, scores)
    ensures out == Take(Ranking(rrfK, bm25, dense), topK)
  {
    var items: seq<Entry> := [];
    for i := 0 to |ids|
      invariant items == Entries(rrfK, bm25, dense)[..i]
    {
      items := items + [(ids[i], scores[ids[i]])];
    }
    assert items == Entries(rrfK, bm25, dense);
    var ranked := Sort(items, NotLower);
    out := if |ranked| <= topK then ranked else ranked[..topK];
  }

  // ---- Shares ----

  function IndexOf(hits: seq<Id>, id: Id): (i: nat)
    requires id in hits
    ensures i < |hits| && hits[i] == id
  {
    if hits[0] == id then 0 else 1 + IndexOf(hits[1..], id)
  }

  lemma {:induction false} ShareAbsent(rrfK: nat, hits: seq<Id>, id: Id)
    requires id !in hits
    ensures Share(rrfK, hits, id) == 0.0
  {
    if hits != [] { ShareAbsent(rrfK, hits[..|hits| - 1], id); }
  }

  lemma {:induction false} ShareAt(rrfK: nat, hits: seq<Id>, i: nat)
    requires Distinct(hits) && i < |hits|
    ensures Share(rrfK, hits, hits[i]) == 1.0 / (rrfK + i + 1) as real
  {
    var last := |hits| - 1;
    if i < last {
      ShareAt(rrfK, hits[..last], i);
    } else {
      ShareAbsent(rrfK, hits[..last], hits[i]);
    }
  }

  lemma Reciprocal(m: nat, n: nat)
    requires 0 < m
    ensures 1.0 / m as real > 0.0
    ensures m < n ==> 1.0 / n as real < 1.0 / m as real
    ensures m <= n ==> 1.0 / n as real <= 1.0 / m as real
  {
    Bm25.FractionLess(0.0, 1.0, 1.0, m as real);
    if m <= n { Bm25.FractionLess(1.0, n as real, 1.0, m as real); }
  }

  lemma ShareBounds(rrfK: nat, hits: seq<Id>, id: Id, n: nat)
    requires Distinct(hits) && |hits| <= n
    ensures 0.0 <= Share(rrfK, hits, id) <= 1.0 / (rrfK + 1) as real
    ensures id in hits ==> Share(rrfK, hits, id) >= 1.0 / (rrfK + n) as real
  {
    if id in hits {
      var i := IndexOf(hits, id);
      ShareAt(rrfK, hits, i);
      Reciprocal(rrfK + 1, rrfK + i + 1);
      Reciprocal(rrfK + i + 1, rrfK + n);
    } else {
      ShareAbsent(rrfK, hits, id);
      Reciprocal(rrfK + 1, rrfK + 1);
    }
  }

  // ---- Positions ----

  ghost predicate InBoth(bm25: seq<Id>, dense: seq<Id>, id: Id) {
    id in bm25 && id in dense
  }

  ghost predicate InOne(bm25: seq<Id>, dense: seq<Id>, id: Id) {
    (id in bm25) != (id in dense)
  }

  /** `x` is listed before `y`. */
  ghost predicate Ahead(out: seq<Entry>, x: Id, y: Id) {
    exists i, j :: 0 <= i < j < |out| && out[i].0 == x && out[j].0 == y
  }

  lemma NotLowerIsPreorder()
    ensures TotalPreorder(NotLower)
  {
  }

  lemma RankingFacts(rrfK: nat, bm25: seq<Id>, dense: seq<Id>)
    ensures var r := Ranking(rrfK, bm25, dense);
            && (forall e :: e in r <==> (e.0 in bm25 || e.0 in dense) && e.1 == FusedScore(rrfK, bm25, dense, e.0))
            && (forall i, j :: 0 <= i < j < |r| ==> r[i].1 >= r[j].1 && r[i].0 != r[j].0)
            && |r| == |Dedup(bm25 + dense)|
  {
    var ids, entries, r := Dedup(bm25 + dense), Entries(rrfK, bm25, dense), Ranking(rrfK, bm25, dense);
    DedupKeepsSet(bm25 + dense);
    NotLowerIsPreorder();
    SortPermutes(entries, NotLower);
    SortSorts(entries, NotLower);
    assert Distinct(entries) by {
      assert forall i :: 0 <= i < |entries| ==> entries[i].0 == ids[i];
    }
    PermutationKeepsDistinct(entries, r);
    EntryMembers(rrfK, bm25, dense);
    forall e ensures e in r <==> e in entries {
      assert e in r <==> e in multiset(r);
      assert e in entries <==> e in multiset(entries);
    }
    forall i, j | 0 <= i < j < |r| ensures r[i].1 >= r[j].1 && r[i].0 != r[j].0 {
      assert NotLower(r[i], r[j]);
      assert r[i] in r && r[j] in r && r[i] != r[j];
    }
  }

  lemma EntryMembers(rrfK: nat, bm25: seq<Id>, dense: seq<Id>)
    ensures forall e :: e in Entries(rrfK, bm25, dense) <==>
              (e.0 in bm25 || e.0 in dense) && e.1 == FusedScore(rrfK, bm25, dense, e.0)
  {
    var ids, entries := Dedup(bm25 + dense), Entries(rrfK, bm25, dense);
    DedupKeepsSet(bm25 + dense);
    forall e: Entry | (e.0 in bm25 || e.0 in dense) && e.1 == FusedScore(rrfK, bm25, dense, e.0) ensures e in entries {
      assert e.0 in ids;
      var i :| 0 <= i < |ids| && ids[i] == e.0;
      assert entries[i] == e;
    }
    forall e | e in entries
      ensures (e.0 in bm25 || e.0 in dense) && e.1 == FusedScore(rrfK, bm25, dense, e.0)
    {
      var i :| 0 <= i < |entries| && entries[i] == e;
      assert ids[i] in ids;
    }
  }

  /** A strictly higher fused score puts a note ahead; in a cut list, ahead of whatever made the cut. */
  lemma HigherIsAhead(rrfK: nat, bm25: seq<Id>, dense: seq<Id>, k: nat, x: Id, y: Id)
    requires x in bm25 || x in dense
    requires FusedScore(rrfK, bm25, dense, x) > FusedScore(rrfK, bm25, dense, y)
    requires var out := Take(Ranking(rrfK, bm25, dense), k); exists j :: 0 <= j < |out| && out[j].0 == y
    ensures Ahead(Take(Ranking(rrfK, bm25, dense), k), x, y)
  {
    RankingFacts(rrfK, bm25, dense);
    var r := Ranking(rrfK, bm25, dense);
    var out := Take(r, k);
    var j :| 0 <= j < |out| && out[j].0 == y;
    assert out[j] == r[j] && r[j] in r;
    assert (x, FusedScore(rrfK, bm25, dense, x)) in r;
    var i :| 0 <= i < |r| && r[i] == (x, FusedScore(rrfK, bm25, dense, x));
    assert i < j;
    assert out[i] == r[i];
  }

  // ---- Consensus ----

  lemma ConsensusScores(rrfK: nat, bm25: seq<Id>, dense: seq<Id>, fetchK: nat, x: Id, y: Id)
    requires Distinct(bm25) && Distinct(dense) && |bm25| <= fetchK && |dense| <= fetchK <= rrfK + 1
    requires InBoth(bm25, dense, x) && InOne(bm25, dense, y)
    ensures FusedScore(rrfK, bm25, dense, x) > FusedScore(rrfK, bm25, dense, y)
  {
    ShareBounds(rrfK, bm25, x, fetchK);
    ShareBounds(rrfK, dense, x, fetchK);
    ShareBounds(rrfK, bm25, y, fetchK);
    ShareBounds(rrfK, dense, y, fetchK);
    if y in bm25 { ShareAbsent(rrfK, dense, y); } else { ShareAbsent(rrfK, bm25, y); }
    Bm25.FractionLess(1.0, (rrfK + 1) as real, 2.0, (rrfK + fetchK) as real);
    assert 2.0 / (rrfK + fetchK) as real == 1.0 / (rrfK + fetchK) as real + 1.0 / (rrfK + fetchK) as real;
  }

  /** Consensus comes first: with at most `rrfK + 1` hits a list, a note found by both retrievers is ahead of every
      note found by one. */
  lemma ConsensusFirst(rrfK: nat, bm25: seq<Id>, dense: seq<Id>, fetchK: nat, k: nat, x: Id, y: Id)
    requires Distinct(bm25) && Distinct(dense) && |bm25| <= fetchK && |dense| <= fetchK <= rrfK + 1
    requires InBoth(bm25, dense, x) && InOne(bm25, dense, y)
    requires var out := Take(Ranking(rrfK, bm25, dense), k); exists j :: 0 <= j < |out| && out[j].0 == y
    ensures Ahead(Take(Ranking(rrfK, bm25, dense), k), x, y)
  {
    ConsensusScores(rrfK, bm25, dense, fetchK, x, y);
    HigherIsAhead(rrfK, bm25, dense, k, x, y);
  }

  /** `from`, `from + 1`, ..., `n` of them. */
  function Upward(from: int, n: nat): seq<Id> {
    seq(n, i => from + i)
  }

  /** With one hit more the guarantee is lost: the common note, last in both lists, ties with the first lexical hit
      and comes after it. */
  lemma ConsensusCanFail(rrfK: nat)
    ensures var bm25, dense := Upward(0, rrfK + 2), Upward(rrfK + 2, rrfK + 1) + [rrfK + 1];
            && Distinct(bm25) && Distinct(dense) && |bm25| == |dense| == rrfK + 2
            && InBoth(bm25, dense, rrfK + 1) && InOne(bm25, dense, 0)
            && Ahead(Ranking(rrfK, bm25, dense), 0, rrfK + 1)
  {
    var bm25, dense := Upward(0, rrfK + 2), Upward(rrfK + 2, rrfK + 1) + [rrfK + 1];
    var x := rrfK + 1;
    assert bm25[x] == x && bm25[0] == 0 && dense[rrfK + 1] == x;
    assert forall i :: 0 <= i < |dense| ==> dense[i] != 0;
    ShareAt(rrfK, bm25, x);
    ShareAt(rrfK, dense, rrfK + 1);
    ShareAt(rrfK, bm25, 0);
    ShareAbsent(rrfK, dense, 0);
    TwoHalves(rrfK + 1);
    assert FusedScore(rrfK, bm25, dense, x) == FusedScore(rrfK, bm25, dense, 0);
    FirstMentions(bm25, dense);
    var entries := Entries(rrfK, bm25, dense);
    NotLowerIsPreorder();
    SortIsStable(entries, NotLower, 0, x);
    var r := Ranking(rrfK, bm25, dense);
    var i, j :| 0 <= i < j < |r| && r[i] == entries[0] && r[j] == entries[x];
  }

  /** So it is when a list names a note more than once: three mentions in one list outweigh one in each. */
  lemma RepeatsBreakConsensus(rrfK: nat)
    requires rrfK >= 3
    ensures var bm25, dense := [0, 0, 0, 1], [1];
            && |bm25| <= rrfK + 1 && InBoth(bm25, dense, 1) && InOne(bm25, dense, 0)
            && Ahead(Ranking(rrfK, bm25, dense), 0, 1)
  {
    var bm25: seq<Id>, dense: seq<Id> := [0, 0, 0, 1], [1];
    ShareOfRepeats(rrfK);
    ShareAbsent(rrfK, dense, 0);
    ShareAt(rrfK, dense, 0);
    Reciprocal(rrfK + 3, rrfK + 4);
    Reciprocal(rrfK + 2, rrfK + 3);
    hide Share, Ranking;
    RankingFacts(rrfK, bm25, dense);
    var r := Ranking(rrfK, bm25, dense);
    var e := (1, FusedScore(rrfK, bm25, dense, 1));
    assert e in r;
    var j :| 0 <= j < |r| && r[j] == e;
    assert Take(r, |r|) == r;
    HigherIsAhead(rrfK, bm25, dense, |r|, 0, 1);
  }

  lemma ShareOfRepeats(rrfK: nat)
    ensures Share(rrfK, [0, 0, 0, 1], 0) ==
            1.0 / (rrfK + 1) as real + 1.0 / (rrfK + 2) as real + 1.0 / (rrfK + 3) as real
    ensures Share(rrfK, [0, 0, 0, 1], 1) == 1.0 / (rrfK + 4) as real
  {
    hide Share;
    Fourth(0, 0, 0, 1);
    ShareOfThree(rrfK, 0);
    ShareOfThree(rrfK, 1);
    ShareMore(rrfK, [0, 0, 0], 1, 0);
    ShareMore(rrfK, [0, 0, 0], 1, 1);
  }

  lemma Fourth(a: Id, b: Id, c: Id, d: Id)
    ensures [] + [a] == [a] && [a] + [b] == [a, b] && [a, b] + [c] == [a, b, c] && [a, b, c] + [d] == [a, b, c, d]
  {
  }

  lemma ShareOfThree(rrfK: nat, id: Id)
    ensures Share(rrfK, [0, 0, 0], id) ==
            if id == 0 then 1.0 / (rrfK + 1) as real + 1.0 / (rrfK + 2) as real + 1.0 / (rrfK + 3) as real else 0.0
  {
    assert Share(rrfK, [], id) == 0.0;
    hide Share;
    Fourth(0, 0, 0, 0);
    ShareMore(rrfK, [], 0, id);
    ShareMore(rrfK, [0], 0, id);
    ShareMore(rrfK, [0, 0], 0, id);
  }

  lemma ShareMore(rrfK: nat, hits: seq<Id>, last: Id, id: Id)
    ensures Share(rrfK, hits + [last], id) ==
            Share(rrfK, hits, id) + if last == id then 1.0 / (rrfK + |hits| + 1) as real else 0.0
  {
    assert (hits + [last])[..|hits|] == hits;
  }

  lemma TwoHalves(n: nat)
    requires n > 0
    ensures 1.0 / (2 * n) as real + 1.0 / (2 * n) as real == 1.0 / n as real
  {
    var y := 1.0 / (2 * n) as real;
    assert y * (2 * n) as real == 1.0;
    assert (y + y) * n as real == 1.0;
  }

  /** A list without repetition is mentioned first as it stands. */
  lemma {:induction false} FirstMentions(a: seq<Id>, b: seq<Id>)
    requires Distinct(a)
    ensures |a| <= |Dedup(a + b)| && forall i :: 0 <= i < |a| ==> Dedup(a + b)[i] == a[i]
  {
    if b == [] {
      assert a + b == a;
      DedupOfDistinct(a);
    } else {
      FirstMentions(a, b[..|b| - 1]);
      assert (a + b)[..|a + b| - 1] == a + b[..|b| - 1];
    }
  }

  lemma {:induction false} DedupOfDistinct(a: seq<Id>)
    requires Distinct(a)
    ensures Dedup(a) == a
  {
    if a != [] {
      var init, last := a[..|a| - 1], a[|a| - 1];
      DedupOfDistinct(init);
      assert a == init + [last] && last !in init;
    }
  }

  // ---- Dominance ----

  ghost predicate NoWorse(hits: seq<Id>, x: Id, y: Id) {
    y !in hits || (x in hits && IndexOf(hits, x) <= IndexOf(hits, y))
  }

  ghost predicate Better(hits: seq<Id>, x: Id, y: Id) {
    x in hits && (y !in hits || IndexOf(hits, x) < IndexOf(hits, y))
  }

  lemma SharesFollowRanks(rrfK: nat, hits: seq<Id>, x: Id, y: Id)
    requires Distinct(hits) && NoWorse(hits, x, y)
    ensures Share(rrfK, hits, x) >= Share(rrfK, hits, y)
    ensures Better(hits, x, y) ==> Share(rrfK, hits, x) > Share(rrfK, hits, y)
  {
    ShareBounds(rrfK, hits, x, |hits|);
    if y !in hits {
      ShareAbsent(rrfK, hits, y);
      if x in hits {
        var i := IndexOf(hits, x);
        ShareAt(rrfK, hits, i);
        Reciprocal(rrfK + i + 1, rrfK + i + 1);
      }
    } else {
      var i, j := IndexOf(hits, x), IndexOf(hits, y);
      ShareAt(rrfK, hits, i);
      ShareAt(rrfK, hits, j);
      Reciprocal(rrfK + i + 1, rrfK + j + 1);
    }
  }

  /** A note ranked no worse in both lists and better in one is ahead, whatever the smoothing constant. */
  lemma DominanceWins(rrfK: nat, bm25: seq<Id>, dense: seq<Id>, k: nat, x: Id, y: Id)
    requires Distinct(bm25) && Distinct(dense)
    requires NoWorse(bm25, x, y) && NoWorse(dense, x, y) && (Better(bm25, x, y) || Better(dense, x, y))
    requires var out := Take(Ranking(rrfK, bm25, dense), k); exists j :: 0 <= j < |out| && out[j].0 == y
    ensures Ahead(Take(Ranking(rrfK, bm25, dense), k), x, y)
  {
    SharesFollowRanks(rrfK, bm25, x, y);
    SharesFollowRanks(rrfK, dense, x, y);
    HigherIsAhead(rrfK, bm25, dense, k, x, y);
  }

  /** The answer names each note once and is as long as the lists and the limit allow. */
  lemma AnswerShape(rrfK: nat, bm25: seq<Id>, dense: seq<Id>, k: nat)
    ensures var out, union := Take(Ranking(rrfK, bm25, dense), k), set id | id in bm25 + dense;
            && |out| == (if |union| <= k then |union| else k)
            && (forall i, j :: 0 <= i < j < |out| ==> out[i].0 != out[j].0 && out[i].1 >= out[j].1)
            && forall e :: e in out ==> e.0 in union && e.1 == FusedScore(rrfK, bm25, dense, e.0)
  {
    RankingFacts(rrfK, bm25, dense);
    DedupKeepsSet(bm25 + dense);
    DistinctCardinality(Dedup(bm25 + dense));
    var union := set id | id in bm25 + dense;
    assert union == set id | id in Dedup(bm25 + dense);
    var r := Ranking(rrfK, bm25, dense);
    assert forall e :: e in Take(r, k) ==> e in r;
  }

  lemma {:induction false} DistinctCardinality(s: seq<Id>)
    requires Distinct(s)
    ensures |set id | id in s| == |s|
  {
    if s != [] {
      var init, last := s[..|s| - 1], s[|s| - 1];
      DistinctCardinality(init);
      assert (set id | id in s) == (set id | id in init) + {last} by { assert s == init + [last]; }
    }
  }

  // ---- One list alone ----

  lemma LoneEntries(rrfK: nat, bm25: seq<Id>, dense: seq<Id>, hits: seq<Id>)
    requires Distinct(hits) && ((bm25 == hits && dense == []) || (bm25 == [] && dense == hits))
    ensures var es := Entries(rrfK, bm25, dense);
            && |es| == |hits|
            && forall i :: 0 <= i < |hits| ==> es[i] == (hits[i], 1.0 / (rrfK + i + 1) as real)
  {
    LoneMentions(bm25, dense, hits);
    hide Dedup, FusedScore;
    assert |Entries(rrfK, bm25, dense)| == |hits|;
    forall i | 0 <= i < |hits| ensures Entries(rrfK, bm25, dense)[i] == (hits[i], 1.0 / (rrfK + i + 1) as real) {
      LoneShare(rrfK, bm25, dense, hits, i);
    }
  }

  lemma LoneMentions(bm25: seq<Id>, dense: seq<Id>, hits: seq<Id>)
    requires Distinct(hits) && ((bm25 == hits && dense == []) || (bm25 == [] && dense == hits))
    ensures Dedup(bm25 + dense) == hits
  {
    assert bm25 + dense == hits;
    DedupOfDistinct(hits);
  }

  lemma LoneShare(rrfK: nat, bm25: seq<Id>, dense: seq<Id>, hits: seq<Id>, i: nat)
    requires Distinct(hits) && ((bm25 == hits && dense == []) || (bm25 == [] && dense == hits)) && i < |hits|
    ensures FusedScore(rrfK, bm25, dense, hits[i]) == 1.0 / (rrfK + i + 1) as real
  {
    hide Share;
    ShareAt(rrfK, hits, i);
    ShareAbsent(rrfK, [], hits[i]);
  }

  /** When one retriever finds nothing, the answer is the other's list, in its order. */
  lemma LoneListKeepsOrder(rrfK: nat, bm25: seq<Id>, dense: seq<Id>, hits: seq<Id>, k: nat)
    requires Distinct(hits) && ((bm25 == hits && dense == []) || (bm25 == [] && dense == hits))
    ensures var out := Take(Ranking(rrfK, bm25, dense), k);
            && |out| == (if |hits| <= k then |hits| else k)
            && forall i :: 0 <= i < |out| ==> out[i].0 == hits[i]
  {
    hide Entries;
    var es := Entries(rrfK, bm25, dense);
    LoneEntries(rrfK, bm25, dense, hits);
    forall i, j | 0 <= i < j < |es| ensures NotLower(es[i], es[j]) {
      Reciprocal(rrfK + i + 1, rrfK + j + 1);
    }
    SortOfSorted(es, NotLower);
  }

  // ---- The retriever ----

  datatype Note = Note(id: Id, tokens: Bm25.Doc)

  function Docs(notes: seq<Note>): seq<Bm25.Doc> {
    seq(|notes|, i requires 0 <= i < |notes| => notes[i].tokens)
  }

  function NoteIds(notes: seq<Note>): seq<Id> {
    seq(|notes|, i requires 0 <= i < |notes| => notes[i].id)
  }

  /** The vector store's answer, with ids that belong to no note dropped. */
  function Known(raw: seq<Id>, notes: seq<Note>): seq<Id> {
    if raw == [] then []
    else Known(raw[..|raw| - 1], notes) +
         if raw[|raw| - 1] in NoteIds(notes) then [raw[|raw| - 1]] else []
  }

  lemma {:induction false} KnownFacts(raw: seq<Id>, notes: seq<Note>)
    requires Distinct(raw)
    ensures Distinct(Known(raw, notes)) && |Known(raw, notes)| <= |raw|
    ensures forall id :: id in Known(raw, notes) <==> id in raw && id in NoteIds(notes)
  {
    if raw != [] {
      var init := raw[..|raw| - 1];
      KnownFacts(init, notes);
      assert raw == init + [raw[|raw| - 1]];
    }
  }

  /** They keep their order. */
  lemma {:induction false} KnownKeepsOrder(raw: seq<Id>, notes: seq<Note>, i: nat, j: nat)
    requires i < j < |raw| && raw[i] in NoteIds(notes) && raw[j] in NoteIds(notes)
    ensures Before(Known(raw, notes), raw[i], raw[j])
  {
    var init := raw[..|raw| - 1];
    var known := Known(init, notes);
    if j < |init| {
      KnownKeepsOrder(init, notes, i, j);
      var p, q :| 0 <= p < q < |known| && known[p] == raw[i] && known[q] == raw[j];
      assert Known(raw, notes)[p] == raw[i] && Known(raw, notes)[q] == raw[j];
    } else {
      KnownHolds(init, notes, i);
      var p :| 0 <= p < |known| && known[p] == raw[i];
      assert Known(raw, notes)[p] == raw[i] && Known(raw, notes)[|known|] == raw[j];
    }
  }

  lemma {:induction false} KnownHolds(raw: seq<Id>, notes: seq<Note>, i: nat)
    requires i < |raw| && raw[i] in NoteIds(notes)
    ensures raw[i] in Known(raw, notes)
  {
    if i < |raw| - 1 { KnownHolds(raw[..|raw| - 1], notes, i); }
  }

  lemma {:induction false} NoneKnown(raw: seq<Id>, notes: seq<Note>)
    requires forall id :: id in raw ==> id !in NoteIds(notes)
    ensures Known(raw, notes) == []
  {
    if raw != [] {
      assert raw[|raw| - 1] in raw;
      NoneKnown(raw[..|raw| - 1], notes);
    }
  }

  function HitIds(hits: seq<Bm25Index.Hit>, notes: seq<Note>): seq<Id>
    requires forall h :: h in hits ==> h.0 < |notes|
  {
    seq(|hits|, i requires 0 <= i < |hits| => notes[hits[i].0].id)
  }

  lemma SameIndex(notes: seq<Note>, i: nat, j: nat)
    requires Distinct(NoteIds(notes)) && i < |notes| && j < |notes| && notes[i].id == notes[j].id
    ensures i == j
  {
    assert NoteIds(notes)[i] == NoteIds(notes)[j];
  }

  class L2Retriever {
    const fetchK: nat
    const rrfK: nat

    constructor (fetchK: int, rrfK: int)
      ensures this.fetchK == (if fetchK < 1 then 1 else fetchK)
      ensures this.rrfK == (if rrfK < 0 then 0 else rrfK)
    {
      this.fetchK := if fetchK < 1 then 1 else fetchK;
      this.rrfK := if rrfK < 0 then 0 else rrfK;
    }

    /** The lexical hits of a query, as note ids. */
    ghost function Lexical(ln: real -> real, q: Bm25.Doc, notes: seq<Note>): seq<Id> {
      var scores := Bm25Index.FlooredScores(ln, Docs(notes), q);
      Bm25Index.RankIsTopK(scores, fetchK);
      HitIds(if q == [] then [] else Bm25Index.Rank(scores, fetchK), notes)
    }

    method DenseRetrieve(raw: seq<Id>, notes: seq<Note>) returns (ids: seq<Id>)
      ensures ids == Known(raw, notes)
    {
      ids := [];
      for i := 0 to |raw|
        invariant ids == Known(raw[..i], notes)
      {
        assert raw[..i + 1][..i] == raw[..i];
        if raw[i] in NoteIds(notes) { ids := ids + [raw[i]]; }
      }
      assert raw[..|raw|] == raw;
    }

    /** `raw` is what the vector store answers for the query. */
    method Search(ln: real -> real, q: Bm25.Doc, topK: int, notes: seq<Note>, raw: seq<Id>) returns (out: seq<Entry>)
      ensures out == if topK <= 0 then [] else Take(Ranking(rrfK, Lexical(ln, q, notes), Known(raw, notes)), topK)
    {
      if topK <= 0 { return []; }
      var hits := Bm25Index.Retrieve(ln, q, Docs(notes), fetchK);
      Bm25Index.RankIsTopK(Bm25Index.FlooredScores(ln, Docs(notes), q), fetchK);
      var dense := DenseRetrieve(raw, notes);
      out := RrfFuse(HitIds(hits, notes), dense, topK, rrfK);
    }

    lemma LexicalFacts(ln: real -> real, q: Bm25.Doc, notes: seq<Note>)
      requires Distinct(NoteIds(notes))
      ensures Distinct(Lexical(ln, q, notes)) && |Lexical(ln, q, notes)| <= fetchK
    {
      var scores := Bm25Index.FlooredScores(ln, Docs(notes), q);
      Bm25Index.RankIsTopK(scores, fetchK);
      var hits := if q == [] then [] else Bm25Index.Rank(scores, fetchK);
      forall i, j | 0 <= i < j < |hits| ensures notes[hits[i].0].id != notes[hits[j].0].id {
        assert Bm25Index.Precedes(hits[i], hits[j]) && hits[i] in hits && hits[j] in hits;
        assert hits[i].0 != hits[j].0;
        assert NoteIds(notes)[hits[i].0] != NoteIds(notes)[hits[j].0];
      }
    }

    lemma LexicalIs(ln: real -> real, q: Bm25.Doc, notes: seq<Note>)
      ensures var scores := Bm25Index.FlooredScores(ln, Docs(notes), q);
              var hits := if q == [] then [] else Bm25Index.Rank(scores, fetchK);
              && |Lexical(ln, q, notes)| == |hits|
              && forall i :: 0 <= i < |hits| ==>
                   hits[i].0 < |notes| && Lexical(ln, q, notes)[i] == notes[hits[i].0].id && scores[hits[i].0] > 0.0
    {
      hide Bm25Index.Rank;
      var scores := Bm25Index.FlooredScores(ln, Docs(notes), q);
      Bm25Index.RankIsTopK(scores, fetchK);
      var hits := if q == [] then [] else Bm25Index.Rank(scores, fetchK);
      assert forall i :: 0 <= i < |hits| ==> hits[i] in hits;
    }

    /** The lexical hits are notes that share a token with the query, named by the id of the note. */
    lemma LexicalShares(ln: real -> real, q: Bm25.Doc, notes: seq<Note>, i: nat)
      requires Bm25.LnLike(ln) && Distinct(NoteIds(notes)) && i < |notes| && notes[i].id in Lexical(ln, q, notes)
      ensures Bm25.Shares(q, notes[i].tokens)
    {
      hide Bm25Index.Rank, Bm25Index.FlooredScores, Lexical;
      LexicalIs(ln, q, notes);
      var hits := if q == [] then [] else Bm25Index.Rank(Bm25Index.FlooredScores(ln, Docs(notes), q), fetchK);
      var p :| 0 <= p < |hits| && Lexical(ln, q, notes)[p] == notes[i].id;
      SameIndex(notes, hits[p].0, i);
      Bm25Index.SearchFindsSharers(ln, Docs(notes), q, i);
    }

    /** If the vector store answers nothing known, a search answers the lexical ranking. */
    lemma SearchWithoutDense(ln: real -> real, q: Bm25.Doc, topK: nat, notes: seq<Note>, raw: seq<Id>)
      requires Distinct(NoteIds(notes)) && forall id :: id in raw ==> id !in NoteIds(notes)
      ensures var hits := if q == [] then [] else Bm25Index.Rank(Bm25Index.FlooredScores(ln, Docs(notes), q), fetchK);
              var out := Take(Ranking(rrfK, Lexical(ln, q, notes), Known(raw, notes)), topK);
              && |out| == (if |hits| <= topK then |hits| else topK)
              && forall i :: 0 <= i < |out| ==> hits[i].0 < |notes| && out[i].0 == notes[hits[i].0].id
    {
      hide Ranking, Known, Take, Lexical, Bm25Index.Rank, Bm25Index.FlooredScores;
      NoneKnown(raw, notes);
      LexicalIs(ln, q, notes);
      LexicalFacts(ln, q, notes);
      LoneListKeepsOrder(rrfK, Lexical(ln, q, notes), [], Lexical(ln, q, notes), topK);
      var hits := if q == [] then [] else Bm25Index.Rank(Bm25Index.FlooredScores(ln, Docs(notes), q), fetchK);
      var out := Take(Ranking(rrfK, Lexical(ln, q, notes), Known(raw, notes)), topK);
      assert out == Take(Ranking(rrfK, Lexical(ln, q, notes), []), topK);
      forall i | 0 <= i < |out| ensures hits[i].0 < |notes| && out[i].0 == notes[hits[i].0].id {
        assert out[i].0 == Lexical(ln, q, notes)[i];
      }
    }

    /** If the query has no tokens, it answers the known notes in the vector store's order. */
    lemma SearchWithoutLexical(ln: real -> real, topK: nat, notes: seq<Note>, raw: seq<Id>)
      requires Distinct(raw)
      ensures var out := Take(Ranking(rrfK, Lexical(ln, [], notes), Known(raw, notes)), topK);
              && |out| == (if |Known(raw, notes)| <= topK then |Known(raw, notes)| else topK)
              && forall i :: 0 <= i < |out| ==> out[i].0 == Known(raw, notes)[i]
    {
      hide Ranking, Known, Take;
      KnownFacts(raw, notes);
      assert Lexical(ln, [], notes) == [];
      LoneListKeepsOrder(rrfK, [], Known(raw, notes), Known(raw, notes), topK);
    }

    /** With the default constants, and whenever `fetchK <= rrfK + 1`, what both retrievers found comes first. */
    lemma SearchPutsConsensusFirst(ln: real -> real, q: Bm25.Doc, topK: nat, notes: seq<Note>, raw: seq<Id>, x: Id, y: Id)
      requires Distinct(NoteIds(notes)) && Distinct(raw) && |raw| <= fetchK <= rrfK + 1
      requires var b, d := Lexical(ln, q, notes), Known(raw, notes); InBoth(b, d, x) && InOne(b, d, y)
      requires var out := Take(Ranking(rrfK, Lexical(ln, q, notes), Known(raw, notes)), topK);
               exists j :: 0 <= j < |out| && out[j].0 == y
      ensures Ahead(Take(Ranking(rrfK, Lexical(ln, q, notes), Known(raw, notes)), topK), x, y)
    {
      LexicalFacts(ln, q, notes);
      KnownFacts(raw, notes);
      ConsensusFirst(rrfK, Lexical(ln, q, notes), Known(raw, notes), fetchK, topK, x, y);
    }
  }
}
