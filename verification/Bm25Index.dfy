/** The inverted statistics of a corpus, scoring through them, and the ranked answer. */
module Bm25Index {
  import opened Ordering
  import opened Bm25

  datatype Index = Index(
    docTermFreq: seq<map<string, nat>>, docFreq: map<string, nat>, docLen: seq<nat>, avgdl: real, nDocs: nat)

  /** The statistics say of every document and every term what the token lists say. */
  ghost predicate Describes(ix: Index, docs: seq<Doc>) {
    && ix.nDocs == |docs| == |ix.docTermFreq| == |ix.docLen|
    && ix.avgdl == AverageLength(docs)
    && (forall i :: 0 <= i < |docs| ==> ix.docLen[i] == |docs[i]| && IsTermFreq(ix.docTermFreq[i], docs[i]))
    && IsDocFreq(ix.docFreq, docs)
  }

  ghost predicate IsTermFreq(tf: map<string, nat>, doc: Doc) {
    forall t :: (if t in tf then tf[t] else 0) == Count(t, doc) && (t in tf <==> t in doc)
  }

  ghost predicate IsDocFreq(df: map<string, nat>, docs: seq<Doc>) {
    forall t :: (if t in df then df[t] else 0) == DocFreq(t, docs)
  }

  method TermFreq(tokens: Doc) returns (tf: map<string, nat>)
    ensures IsTermFreq(tf, tokens)
  {
    tf := map[];
    for i := 0 to |tokens|
      invariant IsTermFreq(tf, tokens[..i])
    {
      var t := tokens[i];
      assert tokens[..i + 1][..i] == tokens[..i];
      tf := tf[t := (if t in tf then tf[t] else 0) + 1];
    }
    assert tokens[..|tokens|] == tokens;
  }

  /** Each term of the new document is counted once. */
  method CountDocument(df: map<string, nat>, tf: map<string, nat>, ghost docs: seq<Doc>, ghost doc: Doc)
    returns (out: map<string, nat>)
    requires IsDocFreq(df, docs) && IsTermFreq(tf, doc)
    ensures IsDocFreq(out, docs + [doc])
  {
    out := df;
    var keys := tf.Keys;
    while keys != {}
      invariant keys <= tf.Keys
      invariant forall t :: (if t in out then out[t] else 0) ==
                            DocFreq(t, docs) + (if t in tf && t !in keys then 1 else 0)
      decreases |keys|
    {
      var t :| t in keys;
      out := out[t := (if t in out then out[t] else 0) + 1];
      keys := keys - {t};
    }
    assert (docs + [doc])[..|docs|] == docs;
  }

  method NewIndex(docs: seq<Doc>) returns (ix: Index)
    ensures Describes(ix, docs)
  {
    var freqs: seq<map<string, nat>>, lens: seq<nat>, df: map<string, nat>, total: nat := [], [], map[], 0;
    for i := 0 to |docs|
      invariant |freqs| == |lens| == i
      invariant total == TotalLength(docs[..i])
      invariant IsDocFreq(df, docs[..i])
      invariant forall j :: 0 <= j < i ==> lens[j] == |docs[j]| && IsTermFreq(freqs[j], docs[j])
    {
      assert docs[..i + 1][..i] == docs[..i];
      assert docs[..i + 1] == docs[..i] + [docs[i]];
      lens := lens + [|docs[i]|];
      total := total + |docs[i]|;
      var tf := TermFreq(docs[i]);
      df := CountDocument(df, tf, docs[..i], docs[i]);
      freqs := freqs + [tf];
    }
    assert docs[..|docs|] == docs;
    ix := Index(freqs, df, lens, if |docs| == 0 then 0.0 else total as real / |docs| as real, |docs|);
  }

  lemma AveragePositive(docs: seq<Doc>, i: nat)
    requires i < |docs| && docs[i] != []
    ensures AverageLength(docs) > 0.0
  {
    LengthsAddUp(docs, i);
    FractionLess(0.0, 1.0, TotalLength(docs) as real, |docs| as real);
  }

  /** The score of document `i`; empty documents and documents that do not exist score nothing. */
  function DocScore(ln: real -> real, docs: seq<Doc>, q: Doc, i: nat): real {
    if i >= |docs| || docs[i] == [] then 0.0
    else
      AveragePositive(docs, i);
      Score(ln, docs, docs[i], AverageLength(docs), q)
  }

  /** The same with the floor under the average length. */
  function FlooredDocScore(ln: real -> real, docs: seq<Doc>, q: Doc, i: nat): real {
    if i >= |docs| || docs[i] == [] then 0.0
    else Score(ln, docs, docs[i], Floored(AverageLength(docs)), q)
  }

  method IndexScore(ln: real -> real, ix: Index, q: Doc, i: nat, ghost docs: seq<Doc>) returns (score: real)
    requires Describes(ix, docs)
    ensures score == DocScore(ln, docs, q, i)
  {
    if i >= |ix.docTermFreq| { return 0.0; }
    if ix.docLen[i] == 0 { return 0.0; }
    AveragePositive(docs, i);
    var tf, dl, n := ix.docTermFreq[i], ix.docLen[i], ix.nDocs;
    score := 0.0;
    for j := 0 to |q|
      invariant score == Score(ln, docs, docs[i], ix.avgdl, q[..j])
    {
      assert q[..j + 1][..j] == q[..j];
      var t := q[j];
      if t !in tf { continue; }
      var df := if t in ix.docFreq then ix.docFreq[t] else 0;
      DocFreqBounds(t, docs);
      var idf := Idf(ln, n, df);
      var norm := Saturation(tf[t], LengthNorm(dl, ix.avgdl));
      score := score + idf * norm;
    }
    assert q[..|q|] == q;
  }

  /** The in-memory scorer counts the terms of each document afresh and keeps the average off zero. */
  method ListScore(ln: real -> real, df: map<string, nat>, n: nat, avgdl: real, q: Doc, doc: Doc, ghost docs: seq<Doc>)
    returns (score: real)
    requires n == |docs| && avgdl == AverageLength(docs) && IsDocFreq(df, docs)
    ensures score == Score(ln, docs, doc, Floored(AverageLength(docs)), q)
  {
    hide LengthNorm, Saturation, AverageLength;
    var tf := TermFreq(doc);
    var avg := if avgdl < FLOOR then FLOOR else avgdl;
    score := 0.0;
    for j := 0 to |q|
      invariant score == Score(ln, docs, doc, avg, q[..j])
    {
      assert q[..j + 1][..j] == q[..j];
      var t := q[j];
      if t !in tf { continue; }
      DocFreqBounds(t, docs);
      var idf := Idf(ln, n, if t in df then df[t] else 0);
      score := score + idf * Saturation(tf[t], LengthNorm(|doc|, avg));
    }
    assert q[..|q|] == q;
  }

  // ---- Ranking ----

  type Hit = (nat, real)

  predicate HigherFirst(a: Hit, b: Hit) {
    a.1 > b.1 || (a.1 == b.1 && a.0 <= b.0)
  }

  /** Strictly before: a higher score, or the same score and a lower index. */
  predicate Precedes(a: Hit, b: Hit) {
    a.1 > b.1 || (a.1 == b.1 && a.0 < b.0)
  }

  function Positive(scores: seq<real>): seq<Hit> {
    if scores == [] then []
    else
      var i := |scores| - 1;
      Positive(scores[..i]) + if scores[i] > 0.0 then [(i, scores[i])] else []
  }

  function Rank(scores: seq<real>, k: int): seq<Hit> {
    if k <= 0 then []
    else
      var sorted := Sort(Positive(scores), HigherFirst);
      if |sorted| <= k then sorted else sorted[..k]
  }

  function Scores(ln: real -> real, docs: seq<Doc>, q: Doc): seq<real> {
    seq(|docs|, i requires 0 <= i < |docs| => DocScore(ln, docs, q, i))
  }

  function FlooredScores(ln: real -> real, docs: seq<Doc>, q: Doc): seq<real> {
    seq(|docs|, i requires 0 <= i < |docs| => FlooredDocScore(ln, docs, q, i))
  }

  method Search(ln: real -> real, ix: Index, q: Doc, k: nat, ghost docs: seq<Doc>) returns (hits: seq<Hit>)
    requires Describes(ix, docs)
    ensures hits == if q == [] then [] else Rank(Scores(ln, docs, q), k)
  {
    if k == 0 || ix.nDocs == 0 || q == [] { return []; }
    var scored: seq<Hit> := [];
    for i := 0 to ix.nDocs
      invariant scored == Positive(Scores(ln, docs, q)[..i])
    {
      assert Scores(ln, docs, q)[..i + 1][..i] == Scores(ln, docs, q)[..i];
      var s := IndexScore(ln, ix, q, i, docs);
      if s > 0.0 { scored := scored + [(i, s)]; }
    }
    assert Scores(ln, docs, q)[..ix.nDocs] == Scores(ln, docs, q);
    var sorted := Sort(scored, HigherFirst);
    hits := if |sorted| <= k then sorted else sorted[..k];
  }

  /** One-shot search over token lists. */
  method SearchDocuments(ln: real -> real, q: Doc, docs: seq<Doc>, k: nat) returns (hits: seq<Hit>)
    ensures hits == if q == [] then [] else Rank(Scores(ln, docs, q), k)
  {
    if k == 0 || docs == [] { return []; }
    if q == [] { return []; }
    var ix := NewIndex(docs);
    hits := Search(ln, ix, q, k, docs);
  }

  /** The in-memory retriever. */
  method Retrieve(ln: real -> real, q: Doc, docs: seq<Doc>, k: int) returns (hits: seq<Hit>)
    ensures hits == if q == [] then [] else Rank(FlooredScores(ln, docs, q), k)
  {
    if k <= 0 || docs == [] || q == [] { return []; }
    var ix := NewIndex(docs);
    var scored: seq<Hit> := [];
    for i := 0 to |docs|
      invariant scored == Positive(FlooredScores(ln, docs, q)[..i])
    {
      assert FlooredScores(ln, docs, q)[..i + 1][..i] == FlooredScores(ln, docs, q)[..i];
      if docs[i] == [] { continue; }
      var s := ListScore(ln, ix.docFreq, |docs|, ix.avgdl, q, docs[i], docs);
      if s > 0.0 { scored := scored + [(i, s)]; }
    }
    assert FlooredScores(ln, docs, q)[..|docs|] == FlooredScores(ln, docs, q);
    var sorted := Sort(scored, HigherFirst);
    hits := if |sorted| <= k then sorted else sorted[..k];
  }

  // ---- What a ranking is ----

  function PositiveIndices(scores: seq<real>): set<int> {
    set i | 0 <= i < |scores| && scores[i] > 0.0
  }

  lemma {:induction false} PositiveSound(scores: seq<real>, h: Hit)
    requires h in Positive(scores)
    ensures h.0 < |scores| && h.1 == scores[h.0] && h.1 > 0.0
  {
    var init := scores[..|scores| - 1];
    if h in Positive(init) { PositiveSound(init, h); }
  }

  lemma {:induction false} PositiveComplete(scores: seq<real>, i: nat)
    requires i < |scores| && scores[i] > 0.0
    ensures (i, scores[i]) in Positive(scores)
  {
    var init := scores[..|scores| - 1];
    if i < |init| { PositiveComplete(init, i); }
  }

  lemma PositiveIsExact(scores: seq<real>)
    ensures forall h :: h in Positive(scores) ==> h.0 < |scores| && h.1 == scores[h.0] && h.1 > 0.0
    ensures forall i: nat :: i < |scores| && scores[i] > 0.0 <==> i < |scores| && (i, scores[i]) in Positive(scores)
  {
    forall h | h in Positive(scores) ensures h.0 < |scores| && h.1 == scores[h.0] && h.1 > 0.0 {
      PositiveSound(scores, h);
    }
    forall i: nat | i < |scores| && scores[i] > 0.0 ensures (i, scores[i]) in Positive(scores) {
      PositiveComplete(scores, i);
    }
  }

  lemma {:induction false} PositiveCounts(scores: seq<real>)
    ensures Distinct(Positive(scores))
    ensures |Positive(scores)| == |PositiveIndices(scores)|
  {
    if scores != [] {
      var i := |scores| - 1;
      var init := scores[..i];
      PositiveCounts(init);
      forall h | h in Positive(init) ensures h.0 < i { PositiveSound(init, h); }
      assert PositiveIndices(scores) == PositiveIndices(init) + if scores[i] > 0.0 then {i} else {};
    }
  }

  lemma HigherFirstIsOrder()
    ensures TotalPreorder(HigherFirst) && Antisymmetric(HigherFirst)
  {
  }

  /** The answer is the first `k` of the scoring documents, by score and then by index. */
  lemma RankIsTopK(scores: seq<real>, k: int)
    ensures var r := Rank(scores, k);
            && |r| == (if k <= 0 then 0 else if |PositiveIndices(scores)| <= k then |PositiveIndices(scores)| else k)
            && (forall h :: h in r ==> h.0 < |scores| && h.1 == scores[h.0] && h.1 > 0.0)
            && (forall i, j :: 0 <= i < j < |r| ==> Precedes(r[i], r[j]))
    ensures forall i: nat, h :: i < |scores| && scores[i] > 0.0 && (i, scores[i]) !in Rank(scores, k) && h in Rank(scores, k)
              ==> Precedes(h, (i, scores[i]))
  {
    if k > 0 {
      var sorted := Sort(Positive(scores), HigherFirst);
      PositiveIsExact(scores);
      PositiveCounts(scores);
      SortedFound(Positive(scores));
      assert Rank(scores, k) == if |sorted| <= k then sorted else sorted[..k];
      hide *;
      CutKeepsOrder(sorted, k);
    }
  }

  lemma SortedFound(found: seq<Hit>)
    requires Distinct(found)
    ensures var sorted := Sort(found, HigherFirst);
            && |sorted| == |found|
            && (forall h :: h in sorted <==> h in found)
            && (forall i, j :: 0 <= i < j < |sorted| ==> Precedes(sorted[i], sorted[j]))
  {
    var sorted := Sort(found, HigherFirst);
    HigherFirstIsOrder();
    SortPermutes(found, HigherFirst);
    SortSorts(found, HigherFirst);
    PermutationKeepsDistinct(found, sorted);
    forall h ensures h in sorted <==> h in found {
      assert h in sorted <==> h in multiset(sorted);
      assert h in found <==> h in multiset(found);
    }
    forall i, j | 0 <= i < j < |sorted| ensures Precedes(sorted[i], sorted[j]) {
      assert HigherFirst(sorted[i], sorted[j]) && sorted[i] != sorted[j];
    }
  }

  lemma CutKeepsOrder(sorted: seq<Hit>, k: nat)
    requires forall i, j :: 0 <= i < j < |sorted| ==> Precedes(sorted[i], sorted[j])
    ensures var cut := if |sorted| <= k then sorted else sorted[..k];
            && (forall h :: h in cut ==> h in sorted)
            && (forall i, j :: 0 <= i < j < |cut| ==> Precedes(cut[i], cut[j]))
            && (forall h, g :: h in cut && g in sorted && g !in cut ==> Precedes(h, g))
  {
    hide Precedes;
    if |sorted| > k {
      forall h, g | h in sorted[..k] && g in sorted && g !in sorted[..k] ensures Precedes(h, g) {
        var i :| 0 <= i < k && sorted[i] == h;
        assert sorted == sorted[..k] + sorted[k..];
        var j :| 0 <= j < |sorted| - k && sorted[k..][j] == g;
        assert sorted[k + j] == g;
      }
    }
  }

  // ---- The two implementations ----

  /** A search returns only documents that share a token with the query, and misses one only for lack of room. */
  lemma SearchFindsSharers(ln: real -> real, docs: seq<Doc>, q: Doc, i: nat)
    requires LnLike(ln) && i < |docs|
    ensures Scores(ln, docs, q)[i] > 0.0 <==> Shares(q, docs[i])
    ensures FlooredScores(ln, docs, q)[i] > 0.0 <==> Shares(q, docs[i])
  {
    if docs[i] != [] {
      AveragePositive(docs, i);
      ScorePositive(ln, docs, docs[i], AverageLength(docs), q);
      ScorePositive(ln, docs, docs[i], Floored(AverageLength(docs)), q);
    }
  }

  /** The Rust and the Python scores are the same list exactly when the floor is idle or nothing matches. */
  lemma ScoreListsAgreeExactly(ln: real -> real, docs: seq<Doc>, q: Doc)
    requires LnLike(ln)
    ensures Scores(ln, docs, q) == FlooredScores(ln, docs, q)
            <==> FLOOR <= AverageLength(docs) || forall i :: 0 <= i < |docs| ==> !Shares(q, docs[i])
  {
    forall i | 0 <= i < |docs|
      ensures Scores(ln, docs, q)[i] == FlooredScores(ln, docs, q)[i]
              <==> FLOOR <= AverageLength(docs) || !Shares(q, docs[i])
    {
      SearchFindsSharers(ln, docs, q, i);
      if docs[i] != [] {
        AveragePositive(docs, i);
        ScorePositive(ln, docs, docs[i], AverageLength(docs), q);
        ScorePositive(ln, docs, docs[i], Floored(AverageLength(docs)), q);
        if Shares(q, docs[i]) { ScoresAgreeExactly(ln, docs, docs[i], q); }
      }
    }
  }

  /** Up to a million documents the two implementations return the same answer to every query. */
  lemma RankingsCoincide(ln: real -> real, docs: seq<Doc>, q: Doc, k: int)
    requires LnLike(ln) && |docs| <= 1_000_000
    ensures Rank(Scores(ln, docs, q), k) == Rank(FlooredScores(ln, docs, q), k)
  {
    if i :| 0 <= i < |docs| && Shares(q, docs[i]) {
      FloorIsInert(docs, i);
    }
    ScoreListsAgreeExactly(ln, docs, q);
  }
}
