/** BM25 ranking: the Rust index and the in-memory Python index, over the reals. */
module Bm25 {
  import opened Ordering

  type Doc = seq<string>

  /** A natural logarithm, of which mostly its sign above one is used. */
  ghost predicate LnLike(ln: real -> real) {
    forall x :: x > 1.0 ==> ln(x) > 0.0
  }

  const K1 := 1.5
  const B := 0.75
  const FLOOR := 0.000001

  // ---- Scoring straight from the token lists ----

  function Count(t: string, doc: Doc): nat {
    if doc == [] then 0 else Count(t, doc[..|doc| - 1]) + if doc[|doc| - 1] == t then 1 else 0
  }

  function DocFreq(t: string, docs: seq<Doc>): nat {
    if docs == [] then 0 else DocFreq(t, docs[..|docs| - 1]) + if t in docs[|docs| - 1] then 1 else 0
  }

  function TotalLength(docs: seq<Doc>): nat {
    if docs == [] then 0 else TotalLength(docs[..|docs| - 1]) + |docs[|docs| - 1]|
  }

  function AverageLength(docs: seq<Doc>): real {
    if docs == [] then 0.0 else TotalLength(docs) as real / |docs| as real
  }

  function Idf(ln: real -> real, n: nat, df: nat): real
    requires df <= n
  {
    ln((n as real - df as real + 0.5) / (df as real + 0.5) + 1.0)
  }

  /** The length correction in the denominator of a term's weight. */
  function LengthNorm(length: nat, avg: real): (r: real)
    requires avg > 0.0
    ensures r > 0.0
  {
    NormPositive(length as real, avg);
    K1 * (1.0 - B + B * length as real / avg)
  }

  lemma NormPositive(x: real, avg: real)
    requires avg > 0.0 && x >= 0.0
    ensures K1 * (1.0 - B + B * x / avg) > 0.0
  {
    DivAtLeast(B * x, avg, 0.0);
  }

  function Saturation(tf: nat, norm: real): real
    requires norm > 0.0
  {
    (tf as real * (K1 + 1.0)) / (tf as real + norm)
  }

  lemma {:induction false} DocFreqBounds(t: string, docs: seq<Doc>)
    ensures DocFreq(t, docs) <= |docs|
    ensures (exists i :: 0 <= i < |docs| && t in docs[i]) ==> DocFreq(t, docs) > 0
  {
    if docs != [] {
      DocFreqBounds(t, docs[..|docs| - 1]);
      if i :| 0 <= i < |docs| && t in docs[i] {
        assert i < |docs| - 1 ==> t in docs[..|docs| - 1][i];
      }
    }
  }

  /** What one query token contributes. */
  function Term(ln: real -> real, docs: seq<Doc>, doc: Doc, avg: real, t: string): real
    requires avg > 0.0
  {
    if t !in doc then 0.0
    else
      DocFreqBounds(t, docs);
      Idf(ln, |docs|, DocFreq(t, docs)) * Saturation(Count(t, doc), LengthNorm(|doc|, avg))
  }

  function Score(ln: real -> real, docs: seq<Doc>, doc: Doc, avg: real, q: Doc): real
    requires avg > 0.0
  {
    if q == [] then 0.0
    else Score(ln, docs, doc, avg, q[..|q| - 1]) + Term(ln, docs, doc, avg, q[|q| - 1])
  }

  // ---- Elementary facts about fractions ----

  lemma DivAtLeast(x: real, y: real, low: real)
    requires y > 0.0 && low * y <= x
    ensures low <= x / y
  {
    assert x / y * y == x;
    CompareScaled(x / y, low, y);
  }

  lemma FractionLess(a: real, p: real, b: real, q: real)
    requires p > 0.0 && q > 0.0
    ensures a / p < b / q <==> a * q < b * p
  {
    var x, y := a / p, b / q;
    assert a == x * p && b == y * q;
    assert a * q == x * (p * q) && b * p == y * (p * q);
    assert p * q > 0.0;
    CompareScaled(x, y, p * q);
  }

  lemma CompareScaled(x: real, y: real, s: real)
    requires s > 0.0
    ensures x < y <==> x * s < y * s
  {
  }

  lemma {:induction false} CountPositive(t: string, doc: Doc)
    ensures t in doc <==> Count(t, doc) > 0
    ensures Count(t, doc) <= |doc|
  {
    if doc != [] { CountPositive(t, doc[..|doc| - 1]); }
  }

  /** A token that occurs contributes a positive amount below its saturation limit. */
  lemma TermIsBounded(ln: real -> real, docs: seq<Doc>, doc: Doc, avg: real, t: string)
    requires LnLike(ln) && avg > 0.0 && t in doc
    ensures DocFreq(t, docs) <= |docs|
    ensures 0.0 < Term(ln, docs, doc, avg, t) < Idf(ln, |docs|, DocFreq(t, docs)) * (K1 + 1.0)
  {
    hide LengthNorm, Saturation, Idf, Count;
    DocFreqBounds(t, docs);
    CountPositive(t, doc);
    IdfPositive(ln, |docs|, DocFreq(t, docs));
    SaturationBounds(Count(t, doc), LengthNorm(|doc|, avg));
    ProductBounds(Idf(ln, |docs|, DocFreq(t, docs)), Saturation(Count(t, doc), LengthNorm(|doc|, avg)), K1 + 1.0);
  }

  lemma IdfPositive(ln: real -> real, n: nat, df: nat)
    requires LnLike(ln) && df <= n
    ensures Idf(ln, n, df) > 0.0
  {
    var x, y := n as real - df as real + 0.5, df as real + 0.5;
    FractionLess(0.0, 1.0, x, y);
  }

  lemma SaturationBounds(tf: nat, norm: real)
    requires tf > 0 && norm > 0.0
    ensures 0.0 < Saturation(tf, norm) < K1 + 1.0
  {
    var x := tf as real;
    FractionLess(0.0, 1.0, x * (K1 + 1.0), x + norm);
    FractionLess(x * (K1 + 1.0), x + norm, K1 + 1.0, 1.0);
  }

  lemma ProductBounds(a: real, x: real, high: real)
    requires a > 0.0 && 0.0 < x < high
    ensures 0.0 < a * x < a * high
  {
  }

  predicate Shares(q: Doc, doc: Doc) {
    exists t :: t in q && t in doc
  }

  /** A document scores exactly when it shares a token with the query. */
  lemma {:induction false} ScorePositive(ln: real -> real, docs: seq<Doc>, doc: Doc, avg: real, q: Doc)
    requires LnLike(ln) && avg > 0.0
    ensures Score(ln, docs, doc, avg, q) >= 0.0
    ensures Score(ln, docs, doc, avg, q) > 0.0 <==> Shares(q, doc)
  {
    if q != [] {
      var init, t := q[..|q| - 1], q[|q| - 1];
      assert q == init + [t];
      ScorePositive(ln, docs, doc, avg, init);
      if t in doc { TermIsBounded(ln, docs, doc, avg, t); }
    }
  }

  /** For documents of one length, a query token that occurs more often never lowers the score, and raises it if it
      occurs strictly more often. */
  lemma {:induction false} ScoreMonotone(ln: real -> real, docs: seq<Doc>, a: Doc, b: Doc, avg: real, q: Doc)
    requires LnLike(ln) && avg > 0.0 && |a| == |b|
    requires forall t :: t in q ==> Count(t, a) <= Count(t, b)
    ensures Score(ln, docs, a, avg, q) <= Score(ln, docs, b, avg, q)
    ensures (exists t :: t in q && Count(t, a) < Count(t, b)) ==> Score(ln, docs, a, avg, q) < Score(ln, docs, b, avg, q)
  {
    if q != [] {
      var init, t := q[..|q| - 1], q[|q| - 1];
      assert q == init + [t];
      ScoreMonotone(ln, docs, a, b, avg, init);
      TermMonotone(ln, docs, a, b, avg, t);
    }
  }

  lemma TermMonotone(ln: real -> real, docs: seq<Doc>, a: Doc, b: Doc, avg: real, t: string)
    requires LnLike(ln) && avg > 0.0 && |a| == |b| && Count(t, a) <= Count(t, b)
    ensures Term(ln, docs, a, avg, t) <= Term(ln, docs, b, avg, t)
    ensures Count(t, a) < Count(t, b) ==> Term(ln, docs, a, avg, t) < Term(ln, docs, b, avg, t)
  {
    hide LengthNorm, Saturation, Idf, Count;
    CountPositive(t, a);
    CountPositive(t, b);
    DocFreqBounds(t, docs);
    if t in b && t !in a {
      TermIsBounded(ln, docs, b, avg, t);
    } else if Count(t, a) < Count(t, b) {
      var idf, norm := Idf(ln, |docs|, DocFreq(t, docs)), LengthNorm(|a|, avg);
      IdfPositive(ln, |docs|, DocFreq(t, docs));
      SaturationGrows(Count(t, a), Count(t, b), norm);
      CompareScaled(Saturation(Count(t, a), norm), Saturation(Count(t, b), norm), idf);
    } else if t in b {
      assert Count(t, a) == Count(t, b);
    }
  }

  lemma SaturationGrows(m: nat, n: nat, norm: real)
    requires 0 < m < n && norm > 0.0
    ensures Saturation(m, norm) < Saturation(n, norm)
  {
    var x, y := m as real, n as real;
    FractionLess(x * (K1 + 1.0), x + norm, y * (K1 + 1.0), y + norm);
  }

  // ---- The floor under the average length ----

  function Floored(avg: real): real {
    if avg < FLOOR then FLOOR else avg
  }

  lemma NormShrinks(length: nat, low: real, high: real)
    requires 0.0 < low < high && length > 0
    ensures LengthNorm(length, high) < LengthNorm(length, low)
  {
    var x := B * length as real;
    FractionLess(x, high, x, low);
  }

  lemma SaturationFalls(tf: nat, low: real, high: real)
    requires tf > 0 && 0.0 < low < high
    ensures Saturation(tf, high) < Saturation(tf, low)
  {
    var x := tf as real * (K1 + 1.0);
    FractionLess(x, tf as real + high, x, tf as real + low);
  }

  /** A larger average length makes every occurring token count for more. */
  lemma {:induction false} ScoreGrowsWithAverage(ln: real -> real, docs: seq<Doc>, doc: Doc, low: real, high: real, q: Doc)
    requires LnLike(ln) && 0.0 < low < high
    ensures Score(ln, docs, doc, low, q) <= Score(ln, docs, doc, high, q)
    ensures Shares(q, doc) ==> Score(ln, docs, doc, low, q) < Score(ln, docs, doc, high, q)
  {
    if q != [] {
      var init, t := q[..|q| - 1], q[|q| - 1];
      assert q == init + [t];
      ScoreGrowsWithAverage(ln, docs, doc, low, high, init);
      if t in doc { TermGrowsWithAverage(ln, docs, doc, low, high, t); }
    }
  }

  lemma TermGrowsWithAverage(ln: real -> real, docs: seq<Doc>, doc: Doc, low: real, high: real, t: string)
    requires LnLike(ln) && 0.0 < low < high && t in doc
    ensures Term(ln, docs, doc, low, t) < Term(ln, docs, doc, high, t)
  {
    DocFreqBounds(t, docs);
    CountPositive(t, doc);
    IdfPositive(ln, |docs|, DocFreq(t, docs));
    NormShrinks(|doc|, low, high);
    SaturationFalls(Count(t, doc), LengthNorm(|doc|, high), LengthNorm(|doc|, low));
    CompareScaled(Saturation(Count(t, doc), LengthNorm(|doc|, low)), Saturation(Count(t, doc), LengthNorm(|doc|, high)),
                  Idf(ln, |docs|, DocFreq(t, docs)));
  }

  /** The two implementations score a matching document alike exactly when the floor is not in use. */
  lemma ScoresAgreeExactly(ln: real -> real, docs: seq<Doc>, doc: Doc, q: Doc)
    requires LnLike(ln) && AverageLength(docs) > 0.0 && Shares(q, doc)
    ensures Score(ln, docs, doc, Floored(AverageLength(docs)), q) == Score(ln, docs, doc, AverageLength(docs), q)
            <==> FLOOR <= AverageLength(docs)
  {
    if AverageLength(docs) < FLOOR { ScoreGrowsWithAverage(ln, docs, doc, AverageLength(docs), FLOOR, q); }
  }

  lemma {:induction false} LengthsAddUp(docs: seq<Doc>, i: nat)
    requires i < |docs|
    ensures |docs[i]| <= TotalLength(docs)
  {
    if i < |docs| - 1 { LengthsAddUp(docs[..|docs| - 1], i); }
  }

  /** A corpus of at most a million documents, one of them not empty, has an average length above the floor. */
  lemma FloorIsInert(docs: seq<Doc>, i: nat)
    requires i < |docs| <= 1_000_000 && docs[i] != []
    ensures 0.000001 <= AverageLength(docs) && Floored(AverageLength(docs)) == AverageLength(docs)
    ensures FLOOR <= AverageLength(docs) && AverageLength(docs) > 0.0
  {
    LengthsAddUp(docs, i);
    var total, n := TotalLength(docs) as real, |docs| as real;
    assert FLOOR * n <= 1.0;
    DivAtLeast(total, n, FLOOR);
  }
}
