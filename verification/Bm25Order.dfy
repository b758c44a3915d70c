/** Why one document comes before another. */
module Bm25Order {
  import opened Ordering
  import opened Bm25
  import opened Bm25Index

  /** The logarithm grows above one. */
  ghost predicate Growing(ln: real -> real) {
    forall x, y :: 1.0 < x < y ==> ln(x) < ln(y)
  }

  /** The documents that hold a token. */
  function Holders(t: string, docs: seq<Doc>): set<int> {
    set i | 0 <= i < |docs| && t in docs[i]
  }

  lemma {:induction false} DocFreqCounts(t: string, docs: seq<Doc>)
    ensures DocFreq(t, docs) == |Holders(t, docs)|
  {
    if docs != [] {
      var n := |docs| - 1;
      DocFreqCounts(t, docs[..n]);
      assert Holders(t, docs) == Holders(t, docs[..n]) + if t in docs[n] then {n} else {};
    }
  }

  lemma IdfFalls(ln: real -> real, n: nat, d: nat, e: nat)
    requires LnLike(ln) && Growing(ln) && d < e <= n
    ensures Idf(ln, n, d) > Idf(ln, n, e) > 0.0
  {
    var x, y := n as real - d as real + 0.5, d as real + 0.5;
    var v, w := n as real - e as real + 0.5, e as real + 0.5;
    FractionLess(0.0, 1.0, v, w);
    assert v < x && y < w;
    CrossLess(v, w, x, y);
  }

  lemma CrossLess(v: real, w: real, x: real, y: real)
    requires 0.0 < v < x && 0.0 < y < w
    ensures v / w < x / y
  {
    CompareScaled(v, x, y);
    CompareScaled(y, w, x);
    FractionLess(v, w, x, y);
  }

  /** A token that fewer documents hold counts for more. */
  lemma RarerCountsMore(ln: real -> real, docs: seq<Doc>, a: Doc, b: Doc, avg: real, t: string, u: string)
    requires LnLike(ln) && Growing(ln) && avg > 0.0 && |a| == |b|
    requires Count(t, a) == Count(u, b) > 0 && |Holders(t, docs)| < |Holders(u, docs)|
    ensures Term(ln, docs, a, avg, t) > Term(ln, docs, b, avg, u)
  {
    hide LengthNorm, Saturation, Idf, Count, Holders, DocFreq;
    CountPositive(t, a);
    CountPositive(u, b);
    DocFreqBounds(t, docs);
    DocFreqBounds(u, docs);
    DocFreqCounts(t, docs);
    DocFreqCounts(u, docs);
    IdfFalls(ln, |docs|, DocFreq(t, docs), DocFreq(u, docs));
    SaturationBounds(Count(t, a), LengthNorm(|a|, avg));
    CompareScaled(Idf(ln, |docs|, DocFreq(u, docs)), Idf(ln, |docs|, DocFreq(t, docs)),
                  Saturation(Count(t, a), LengthNorm(|a|, avg)));
  }

  lemma LongerNorm(m: nat, n: nat, avg: real)
    requires avg > 0.0 && m < n
    ensures LengthNorm(m, avg) < LengthNorm(n, avg)
  {
    FractionLess(B * m as real, avg, B * n as real, avg);
    CompareScaled(B * m as real, B * n as real, avg);
  }

  /** A token that occurs as often in a shorter document counts for more there. */
  lemma ShorterCountsMore(ln: real -> real, docs: seq<Doc>, a: Doc, b: Doc, avg: real, t: string)
    requires LnLike(ln) && avg > 0.0 && |a| < |b| && Count(t, a) == Count(t, b) > 0
    ensures Term(ln, docs, a, avg, t) > Term(ln, docs, b, avg, t)
  {
    hide LengthNorm, Saturation, Idf, Count, DocFreq;
    CountPositive(t, a);
    CountPositive(t, b);
    DocFreqBounds(t, docs);
    IdfPositive(ln, |docs|, DocFreq(t, docs));
    LongerNorm(|a|, |b|, avg);
    SaturationFalls(Count(t, a), LengthNorm(|a|, avg), LengthNorm(|b|, avg));
    CompareScaled(Saturation(Count(t, b), LengthNorm(|b|, avg)), Saturation(Count(t, a), LengthNorm(|a|, avg)),
                  Idf(ln, |docs|, DocFreq(t, docs)));
  }

  // ---- Answers ----

  /** Hit `i` is listed before hit `j`. */
  ghost predicate Leads(hits: seq<Hit>, i: int, j: int) {
    exists p, q :: 0 <= p < q < |hits| && hits[p].0 == i && hits[q].0 == j
  }

  lemma HigherScoreLeads(scores: seq<real>, k: int, i: nat, j: nat)
    requires i < |scores| && j < |scores| && scores[i] > scores[j] > 0.0
    requires exists h :: h in Rank(scores, k) && h.0 == j
    ensures Leads(Rank(scores, k), i, j)
  {
    hide Rank;
    RankIsTopK(scores, k);
    var hits := Rank(scores, k);
    var h :| h in hits && h.0 == j;
    assert !Precedes(h, (i, scores[i]));
    assert (i, scores[i]) in hits;
    var q :| 0 <= q < |hits| && hits[q] == h;
    var p :| 0 <= p < |hits| && hits[p] == (i, scores[i]);
    assert !Precedes(hits[q], hits[p]) && p != q;
  }

  lemma ScoreOfTwo(ln: real -> real, docs: seq<Doc>, doc: Doc, avg: real, t: string, u: string)
    requires avg > 0.0
    ensures Score(ln, docs, doc, avg, [t, u]) == Term(ln, docs, doc, avg, t) + Term(ln, docs, doc, avg, u)
  {
    assert [t, u][..1] == [t] && [t][..0] == [];
    assert Score(ln, docs, doc, avg, []) == 0.0;
    assert Score(ln, docs, doc, avg, [t]) == Score(ln, docs, doc, avg, []) + Term(ln, docs, doc, avg, t);
  }

  lemma RareScoresMore(ln: real -> real, docs: seq<Doc>, a: Doc, b: Doc, avg: real, t: string, u: string)
    requires LnLike(ln) && Growing(ln) && avg > 0.0 && |a| == |b|
    requires t in a && u !in a && u in b && t !in b && Count(t, a) == Count(u, b)
    requires |Holders(t, docs)| < |Holders(u, docs)|
    ensures Score(ln, docs, a, avg, [t, u]) > Score(ln, docs, b, avg, [t, u]) > 0.0
  {
    CountPositive(t, a);
    ScoreOfTwo(ln, docs, a, avg, t, u);
    ScoreOfTwo(ln, docs, b, avg, t, u);
    RarerCountsMore(ln, docs, a, b, avg, t, u);
    TermIsBounded(ln, docs, b, avg, u);
    assert Term(ln, docs, a, avg, u) == 0.0 && Term(ln, docs, b, avg, t) == 0.0;
  }

  /** Of two equally long documents, each holding one of two query tokens equally often, the one with the token that
      fewer documents hold comes first, in both implementations. */
  lemma RareComesFirst(ln: real -> real, docs: seq<Doc>, t: string, u: string, i: nat, j: nat, k: int)
    requires LnLike(ln) && Growing(ln) && i < |docs| && j < |docs| && |docs[i]| == |docs[j]|
    requires t in docs[i] && u !in docs[i] && u in docs[j] && t !in docs[j] && Count(t, docs[i]) == Count(u, docs[j])
    requires |Holders(t, docs)| < |Holders(u, docs)|
    ensures var hits := Rank(Scores(ln, docs, [t, u]), k);
            (exists h :: h in hits && h.0 == j) ==> Leads(hits, i, j)
    ensures var hits := Rank(FlooredScores(ln, docs, [t, u]), k);
            (exists h :: h in hits && h.0 == j) ==> Leads(hits, i, j)
  {
    hide Rank, Score, Count, Holders, Leads, AverageLength;
    AveragePositive(docs, i);
    RareScoresMore(ln, docs, docs[i], docs[j], AverageLength(docs), t, u);
    RareScoresMore(ln, docs, docs[i], docs[j], Floored(AverageLength(docs)), t, u);
    var scores, floored := Scores(ln, docs, [t, u]), FlooredScores(ln, docs, [t, u]);
    if exists h :: h in Rank(scores, k) && h.0 == j { HigherScoreLeads(scores, k, i, j); }
    if exists h :: h in Rank(floored, k) && h.0 == j { HigherScoreLeads(floored, k, i, j); }
  }

  // ---- By hand ----

  lemma TermIs(ln: real -> real, docs: seq<Doc>, doc: Doc, avg: real, t: string)
    requires avg > 0.0 && t in doc
    ensures var n, df, tf := |docs| as real, |Holders(t, docs)| as real, Count(t, doc) as real;
            Term(ln, docs, doc, avg, t) ==
            ln((n - df + 0.5) / (df + 0.5) + 1.0) * (tf * 2.5 / (tf + 1.5 * (0.25 + 0.75 * |doc| as real / avg)))
  {
    hide Count, Holders, DocFreq;
    DocFreqBounds(t, docs);
    DocFreqCounts(t, docs);
  }

  lemma HoldersAre(t: string, docs: seq<Doc>, i: nat)
    requires i < |docs| && forall j :: 0 <= j < |docs| ==> (t in docs[j] <==> j == i)
    ensures |Holders(t, docs)| == 1
  {
    assert Holders(t, docs) == {i};
  }

  lemma AverageOfTwo(a: Doc, b: Doc)
    ensures AverageLength([a, b]) == (|a| + |b|) as real / 2.0
  {
    assert [a, b][..1] == [a] && [a][..0] == [];
    assert TotalLength([a]) == |a|;
  }

  lemma ScoreOfOne(ln: real -> real, docs: seq<Doc>, doc: Doc, avg: real, t: string)
    requires avg > 0.0
    ensures Score(ln, docs, doc, avg, [t]) == Term(ln, docs, doc, avg, t)
  {
    assert [t][..0] == [];
    assert Score(ln, docs, doc, avg, []) == 0.0;
  }

  lemma OneFraction()
    ensures (1.0 - 1.0 + 0.5) / (1.0 + 0.5) + 1.0 == 4.0 / 3.0
    ensures 1.0 * 2.5 / (1.0 + 1.5 * (0.25 + 0.75 * 1.0 / 1.0)) == 1.0
  {
  }

  /** One document of one token: ln(4/3). */
  lemma OneByHand(ln: real -> real, t: string)
    ensures Scores(ln, [[t]], [t]) == [ln(4.0 / 3.0)]
  {
    var docs: seq<Doc> := [[t]];
    LoneDocument(t);
    HoldersAre(t, docs, 0);
    LoneByHand(ln, docs, docs[0], t);
    hide Score, Term, Count, Holders, TotalLength;
    assert DocScore(ln, docs, [t], 0) == ln(4.0 / 3.0);
  }

  lemma LoneByHand(ln: real -> real, docs: seq<Doc>, doc: Doc, t: string)
    requires |docs| == 1 && |Holders(t, docs)| == 1 && t in doc && Count(t, doc) == 1 && |doc| == 1
    ensures Score(ln, docs, doc, 1.0, [t]) == ln(4.0 / 3.0)
  {
    hide Term, Score, Count, Holders;
    ScoreOfOne(ln, docs, doc, 1.0, t);
    TermIs(ln, docs, doc, 1.0, t);
    OneFraction();
    assert |docs| as real == 1.0 && |Holders(t, docs)| as real == 1.0;
  }

  lemma LoneDocument(t: string)
    ensures Count(t, [t]) == 1 && AverageLength([[t]]) == 1.0
  {
    assert [t][..0] == [];
    var docs: seq<Doc> := [[t]];
    assert docs[..0] == [];
    assert TotalLength(docs) == TotalLength([]) + 1;
  }

  /** A document of one token beside one of three: 40/31 of ln 2 for the short one, 40/27 of ln 2 for the long one. */
  lemma TwoByHand(ln: real -> real, t: string, u: string)
    requires t != u
    ensures Scores(ln, [[t], [u, u, u]], [t]) == [ln(2.0) * (40.0 / 31.0), 0.0]
    ensures Scores(ln, [[t], [u, u, u]], [u]) == [0.0, ln(2.0) * (40.0 / 27.0)]
  {
    var a: Doc, b: Doc := [t], [u, u, u];
    var docs := [a, b];
    AverageOfTwo(a, b);
    HoldersAre(t, docs, 0);
    HoldersAre(u, docs, 1);
    CountsByHand(t, u);
    hide Count, Holders;
    hide Term, Score;
    assert AverageLength(docs) == 2.0;
    ByHand();
    ScoreByHand(ln, docs, a, t, 1, 1, 2.0, 40.0 / 31.0);
    ScoreByHand(ln, docs, b, u, 3, 3, 2.0, 40.0 / 27.0);
    NoTerm(ln, docs, a, 2.0, u);
    NoTerm(ln, docs, b, 2.0, t);
    ScoreOfOne(ln, docs, a, 2.0, u);
    ScoreOfOne(ln, docs, b, 2.0, t);
    assert Scores(ln, docs, [t])[0] == ln(2.0) * (40.0 / 31.0) && Scores(ln, docs, [t])[1] == 0.0;
    assert Scores(ln, docs, [u])[0] == 0.0 && Scores(ln, docs, [u])[1] == ln(2.0) * (40.0 / 27.0);
  }

  /** Of two documents one holds the token. */
  lemma ScoreByHand(ln: real -> real, docs: seq<Doc>, doc: Doc, t: string, tf: nat, length: nat, idf: real, factor: real)
    requires |docs| == 2 && |Holders(t, docs)| == 1 && t in doc && Count(t, doc) == tf && |doc| == length
    requires (2.0 - 1.0 + 0.5) / (1.0 + 0.5) + 1.0 == idf
    requires tf as real * 2.5 / (tf as real + 1.5 * (0.25 + 0.75 * length as real / 2.0)) == factor
    ensures Score(ln, docs, doc, 2.0, [t]) == ln(idf) * factor
  {
    hide Term, Score, Count, Holders;
    ScoreOfOne(ln, docs, doc, 2.0, t);
    TermIs(ln, docs, doc, 2.0, t);
    assert |docs| as real == 2.0 && |Holders(t, docs)| as real == 1.0;
  }

  lemma NoTerm(ln: real -> real, docs: seq<Doc>, doc: Doc, avg: real, t: string)
    requires avg > 0.0 && t !in doc
    ensures Term(ln, docs, doc, avg, t) == 0.0
  {
  }

  lemma ByHand()
    ensures (2.0 - 1.0 + 0.5) / (1.0 + 0.5) + 1.0 == 2.0
    ensures 1.0 * 2.5 / (1.0 + 1.5 * (0.25 + 0.75 * 1.0 / 2.0)) == 40.0 / 31.0
    ensures 3.0 * 2.5 / (3.0 + 1.5 * (0.25 + 0.75 * 3.0 / 2.0)) == 40.0 / 27.0
  {
  }

  lemma CountsByHand(t: string, u: string)
    ensures Count(t, [t]) == 1 && Count(u, [u, u, u]) == 3
  {
    assert [t][..0] == [];
    assert [u, u, u][..2] == [u, u] && [u, u][..1] == [u] && [u][..0] == [];
    assert Count(u, [u, u]) == 2 by { assert Count(u, [u]) == 1; }
  }

  /** The floor is a millionth: what lies below it is raised to it, nothing else is changed. */
  lemma FloorIs(avg: real)
    ensures Floored(avg) == if avg < 0.000001 then 0.000001 else avg
  {
  }
}
