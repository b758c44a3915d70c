/** Spreading files over slices: round-robin, and the greedy line-count balancer. */
module LoadBalance {
  import opened Ordering

  type Bucket = seq<string>
  type Locs = map<string, nat>

  function Loc(locs: Locs, f: string): nat {
    if f in locs then locs[f] else 0
  }

  /** The sum of a measure over a list of files. */
  function Sum(p: string -> nat, s: Bucket): nat {
    if s == [] then 0 else Sum(p, s[..|s| - 1]) + p(s[|s| - 1])
  }

  function Weight(locs: Locs): string -> nat {
    (f: string) => Loc(locs, f)
  }

  function Total(locs: Locs, s: Bucket): nat {
    Sum(Weight(locs), s)
  }

  function Flatten(buckets: seq<Bucket>): Bucket {
    if buckets == [] then [] else Flatten(buckets[..|buckets| - 1]) + buckets[|buckets| - 1]
  }

  function SumAll(p: string -> nat, buckets: seq<Bucket>): nat {
    if buckets == [] then 0
    else SumAll(p, buckets[..|buckets| - 1]) + Sum(p, buckets[|buckets| - 1])
  }

  /** `buckets` is a way of putting exactly `files` into `n` buckets. */
  ghost predicate Spreads(buckets: seq<Bucket>, files: Bucket, n: nat) {
    |buckets| == n && multiset(Flatten(buckets)) == multiset(files)
  }

  // ---- The algorithms ----

  function Totals(locs: Locs, buckets: seq<Bucket>): seq<nat> {
    seq(|buckets|, i requires 0 <= i < |buckets| => Total(locs, buckets[i]))
  }

  /** The index of the first smallest entry. */
  function FirstMin(totals: seq<nat>): (i: nat)
    requires totals != []
    ensures i < |totals|
    ensures forall j :: 0 <= j < |totals| ==> totals[i] <= totals[j]
    ensures forall j :: 0 <= j < i ==> totals[i] < totals[j]
  {
    var last := |totals| - 1;
    if last == 0 then 0
    else
      var i := FirstMin(totals[..last]);
      assert forall j :: 0 <= j < last ==> totals[..last][j] == totals[j];
      if totals[last] < totals[i] then last else i
  }

  function Place(locs: Locs, buckets: seq<Bucket>, f: string): seq<Bucket>
    requires buckets != []
  {
    var i := FirstMin(Totals(locs, buckets));
    buckets[i := buckets[i] + [f]]
  }

  /** Each file of `order` in turn goes to the first least-loaded of `n` buckets. */
  function Greedy(locs: Locs, order: Bucket, n: nat): (buckets: seq<Bucket>)
    requires n > 0
    ensures |buckets| == n
  {
    if order == [] then seq(n, _ => [])
    else Place(locs, Greedy(locs, order[..|order| - 1], n), order[|order| - 1])
  }

  /** File `k` of `files` goes to bucket `k % n`. */
  function Deal(files: Bucket, n: nat): (buckets: seq<Bucket>)
    requires n > 0
    ensures |buckets| == n
  {
    if files == [] then seq(n, _ => [])
    else
      var k := |files| - 1;
      var buckets := Deal(files[..k], n);
      buckets[k % n := buckets[k % n] + [files[k]]]
  }

  function DropEmpty(buckets: seq<Bucket>): seq<Bucket> {
    if buckets == [] then []
    else
      var last := buckets[|buckets| - 1];
      DropEmpty(buckets[..|buckets| - 1]) + if last == [] then [] else [last]
  }

  function CountGroups(files: Bucket, n: int): seq<Bucket> {
    if n <= 1 then [files] else DropEmpty(Deal(files, n))
  }

  /** More lines first; the path decides between equals. */
  function HeavierFirst(locs: Locs): (string, string) -> bool {
    (f: string, g: string) => Loc(locs, f) > Loc(locs, g) || (Loc(locs, f) == Loc(locs, g) && LexLe(f, g))
  }

  function SizeGroups(files: Bucket, n: int, locs: Locs): seq<Bucket> {
    if n <= 1 then [files]
    else if locs == map[] then CountGroups(files, n)
    else DropEmpty(Greedy(locs, Sort(files, HeavierFirst(locs)), n))
  }

  method SplitByCount(files: Bucket, n: int) returns (out: seq<Bucket>)
    ensures out == CountGroups(files, n)
  {
    if n <= 1 { return [files]; }
    out := seq(n, _ => []);
    for i := 0 to |files|
      invariant out == Deal(files[..i], n)
    {
      assert files[..i + 1][..i] == files[..i];
      out := out[i % n := out[i % n] + [files[i]]];
    }
    assert files[..|files|] == files;
    out := KeepNonEmpty(out);
  }

  method KeepNonEmpty(buckets: seq<Bucket>) returns (out: seq<Bucket>)
    ensures out == DropEmpty(buckets)
  {
    out := [];
    for i := 0 to |buckets|
      invariant out == DropEmpty(buckets[..i])
    {
      assert buckets[..i + 1][..i] == buckets[..i];
      if buckets[i] != [] { out := out + [buckets[i]]; }
    }
    assert buckets[..|buckets|] == buckets;
  }

  lemma PlaceTotals(locs: Locs, buckets: seq<Bucket>, f: string)
    requires buckets != []
    ensures var totals := Totals(locs, buckets);
            var i := FirstMin(totals);
            Totals(locs, Place(locs, buckets, f)) == totals[i := totals[i] + Loc(locs, f)]
  {
    var i := FirstMin(Totals(locs, buckets));
    assert (buckets[i] + [f])[..|buckets[i]|] == buckets[i];
  }

  lemma PlaceAt(locs: Locs, buckets: seq<Bucket>, f: string)
    requires buckets != []
    ensures var i := FirstMin(Totals(locs, buckets));
            Place(locs, buckets, f) == buckets[i := buckets[i] + [f]]
  {
  }

  /** The running totals of the loop are the totals of the buckets. */
  method SplitBySize(files: Bucket, n: int, locs: Locs) returns (out: seq<Bucket>)
    ensures out == SizeGroups(files, n, locs)
  {
    hide Sort, CountGroups, FirstMin, DropEmpty, Place;
    if n <= 1 { return [files]; }
    if locs == map[] {
      out := SplitByCount(files, n);
      return;
    }
    var weighted := Sort(files, HeavierFirst(locs));
    var buckets: seq<Bucket> := seq(n, _ => []);
    var totals: seq<nat> := seq(n, _ => 0);
    for i := 0 to |weighted|
      invariant buckets == Greedy(locs, weighted[..i], n)
      invariant totals == Totals(locs, buckets)
    {
      assert weighted[..i + 1][..i] == weighted[..i];
      var f, idx := weighted[i], FirstMin(totals);
      PlaceTotals(locs, buckets, f);
      PlaceAt(locs, buckets, f);
      buckets := buckets[idx := buckets[idx] + [f]];
      totals := totals[idx := totals[idx] + Loc(locs, f)];
    }
    assert weighted[..|weighted|] == weighted;
    out := KeepNonEmpty(buckets);
  }

  // ---- Sums over buckets ----

  lemma {:induction false} SumSplits(p: string -> nat, a: Bucket, b: Bucket)
    ensures Sum(p, a + b) == Sum(p, a) + Sum(p, b)
  {
    if b == [] {
      assert a + b == a;
    } else {
      SumSplits(p, a, b[..|b| - 1]);
      assert (a + b)[..|a + b| - 1] == a + b[..|b| - 1];
    }
  }

  lemma SumOne(p: string -> nat, f: string)
    ensures Sum(p, [f]) == p(f)
  {
    assert [f][..0] == [];
  }

  lemma RemoveAt(s: Bucket, k: nat)
    requires k < |s|
    ensures multiset(s[..k] + s[k + 1..]) == multiset(s) - multiset{s[k]}
  {
    assert s == s[..k] + [s[k]] + s[k + 1..];
  }

  lemma SumAt(p: string -> nat, s: Bucket, k: nat)
    requires k < |s|
    ensures Sum(p, s) == Sum(p, s[..k] + s[k + 1..]) + p(s[k])
  {
    hide Sum;
    assert s == (s[..k] + [s[k]]) + s[k + 1..];
    SumSplits(p, s[..k] + [s[k]], s[k + 1..]);
    SumSplits(p, s[..k], [s[k]]);
    SumSplits(p, s[..k], s[k + 1..]);
    SumOne(p, s[k]);
  }

  lemma {:induction false} SumIsOrderFree(p: string -> nat, a: Bucket, b: Bucket)
    requires multiset(a) == multiset(b)
    ensures Sum(p, a) == Sum(p, b)
  {
    assert |a| == |multiset(a)| == |multiset(b)| == |b|;
    if a != [] {
      var last := |a| - 1;
      assert a[last] in multiset(b);
      var k :| 0 <= k < |b| && b[k] == a[last];
      RemoveAt(a, last);
      RemoveAt(b, k);
      assert a[..last] + a[last + 1..] == a[..last];
      SumIsOrderFree(p, a[..last], b[..k] + b[k + 1..]);
      SumAt(p, b, k);
    }
  }

  lemma {:induction false} SumAllFlattens(p: string -> nat, buckets: seq<Bucket>)
    ensures SumAll(p, buckets) == Sum(p, Flatten(buckets))
  {
    if buckets != [] {
      SumAllFlattens(p, buckets[..|buckets| - 1]);
      SumSplits(p, Flatten(buckets[..|buckets| - 1]), buckets[|buckets| - 1]);
    }
  }

  lemma {:induction false} SumAllAtLeast(p: string -> nat, buckets: seq<Bucket>, low: nat)
    requires forall b :: b in buckets ==> low <= Sum(p, b)
    ensures Times(|buckets|, low) <= SumAll(p, buckets)
  {
    if buckets != [] {
      SumAllAtLeast(p, buckets[..|buckets| - 1], low);
      assert buckets[|buckets| - 1] in buckets;
    }
  }

  lemma {:induction false} SumAllAtMost(p: string -> nat, buckets: seq<Bucket>, high: nat)
    requires forall b :: b in buckets ==> Sum(p, b) <= high
    ensures SumAll(p, buckets) <= Times(|buckets|, high)
  {
    if buckets != [] {
      SumAllAtMost(p, buckets[..|buckets| - 1], high);
      assert buckets[|buckets| - 1] in buckets;
    }
  }

  lemma {:induction false} FlattenUpdate(buckets: seq<Bucket>, i: nat, f: string)
    requires i < |buckets|
    ensures multiset(Flatten(buckets[i := buckets[i] + [f]])) == multiset(Flatten(buckets)) + multiset{f}
  {
    var last := |buckets| - 1;
    var next := buckets[i := buckets[i] + [f]];
    if i == last {
      assert next[..last] == buckets[..last];
    } else {
      FlattenUpdate(buckets[..last], i, f);
      assert next[..last] == buckets[..last][i := buckets[i] + [f]];
    }
  }

  lemma {:induction false} FlattenEmpties(n: nat)
    ensures Flatten(seq(n, _ => [])) == []
  {
    if n > 0 {
      FlattenEmpties(n - 1);
      assert seq<Bucket>(n, _ => [])[..n - 1] == seq<Bucket>(n - 1, _ => []);
    }
  }

  lemma {:induction false} GreedySpreads(locs: Locs, order: Bucket, n: nat)
    requires n > 0
    ensures Spreads(Greedy(locs, order, n), order, n)
  {
    if order == [] {
      FlattenEmpties(n);
    } else {
      var init := order[..|order| - 1];
      GreedySpreads(locs, init, n);
      var buckets := Greedy(locs, init, n);
      FlattenUpdate(buckets, FirstMin(Totals(locs, buckets)), order[|order| - 1]);
      assert order == init + [order[|order| - 1]];
    }
  }

  lemma {:induction false} DealSpreads(files: Bucket, n: nat)
    requires n > 0
    ensures Spreads(Deal(files, n), files, n)
  {
    if files == [] {
      FlattenEmpties(n);
    } else {
      var k := |files| - 1;
      DealSpreads(files[..k], n);
      FlattenUpdate(Deal(files[..k], n), k % n, files[k]);
      assert files == files[..k] + [files[k]];
    }
  }

  // ---- Graham's bound ----

  /** The weight classes of the counting argument for a file of weight `w` against a makespan `m`. */
  function Points(locs: Locs, w: nat, m: nat): string -> nat {
    (f: string) => if Loc(locs, f) < w then 0 else if Loc(locs, f) + w > m then 2 else 1
  }

  /** A bucket within the makespan has room for two points only. */
  lemma {:induction false} RivalBucketPoints(locs: Locs, bucket: Bucket, w: nat, m: nat)
    requires m < 3 * w
    ensures var p := Sum(Points(locs, w, m), bucket);
            && (p >= 1 ==> Total(locs, bucket) >= w)
            && (p >= 2 ==> Total(locs, bucket) + w > m)
            && (p >= 3 ==> Total(locs, bucket) > m)
  {
    if bucket != [] {
      RivalBucketPoints(locs, bucket[..|bucket| - 1], w, m);
    }
  }

  /** A bucket of files no lighter than `w`, too full to take `w` more, holds at least two points. */
  lemma {:induction false} FullBucketPoints(locs: Locs, bucket: Bucket, w: nat, m: nat)
    requires forall f :: f in bucket ==> Loc(locs, f) >= w
    requires w <= m < Total(locs, bucket) + w
    ensures Sum(Points(locs, w, m), bucket) >= 2
  {
    var p, init := Points(locs, w, m), bucket[..|bucket| - 1];
    assert bucket[|bucket| - 1] in bucket;
    if init == [] {
      assert bucket == [bucket[0]];
      SumOne(Weight(locs), bucket[0]);
      SumOne(p, bucket[0]);
    } else {
      assert init[|init| - 1] in bucket;
      assert Sum(p, init) >= p(init[|init| - 1]) >= 1;
    }
  }

  lemma {:induction false} SumFileAtMost(locs: Locs, buckets: seq<Bucket>, f: string, m: nat)
    requires f in Flatten(buckets)
    requires forall b :: b in buckets ==> Total(locs, b) <= m
    ensures Loc(locs, f) <= m
  {
    var last := buckets[|buckets| - 1];
    if f in last {
      assert last in buckets;
      var k :| 0 <= k < |last| && last[k] == f;
      SumAt(Weight(locs), last, k);
    } else {
      SumFileAtMost(locs, buckets[..|buckets| - 1], f, m);
    }
  }

  /** When `w` is more than a third of the rival's makespan, the greedy choice stays within it. */
  lemma BigFileFits(locs: Locs, buckets: seq<Bucket>, f: string, files: Bucket, rival: seq<Bucket>, m: nat, low: nat)
    requires Spreads(rival, files, |buckets|) && Bounded(locs, rival, m)
    requires multiset(Flatten(buckets)) + multiset{f} <= multiset(files)
    requires forall b :: b in buckets ==> low <= Total(locs, b)
    requires forall b, g :: b in buckets && g in b ==> Loc(locs, g) >= Loc(locs, f)
    requires m < 3 * Loc(locs, f)
    ensures low + Loc(locs, f) <= m
  {
    var w := Loc(locs, f);
    var p := Points(locs, w, m);
    assert f in multiset(Flatten(rival));
    SumFileAtMost(locs, rival, f, m);
    if low + w > m {
      forall b | b in buckets ensures 2 <= Sum(p, b) { FullBucketPoints(locs, b, w, m); }
      forall b | b in rival ensures Sum(p, b) <= 2 { RivalBucketPoints(locs, b, w, m); }
      SumsCompare(p, buckets, f, files, rival, 2, 2);
      assert false;
    }
  }

  /** Averaging: the buckets and `f` hold no more than the rival. */
  lemma SumsCompare(p: string -> nat, buckets: seq<Bucket>, f: string, files: Bucket, rival: seq<Bucket>,
                    low: nat, high: nat)
    requires Spreads(rival, files, |buckets|)
    requires multiset(Flatten(buckets)) + multiset{f} <= multiset(files)
    requires forall b :: b in buckets ==> low <= Sum(p, b)
    requires forall b :: b in rival ==> Sum(p, b) <= high
    ensures Times(|buckets|, low) + p(f) <= Times(|buckets|, high)
  {
    SumAllAtLeast(p, buckets, low);
    SumAllAtMost(p, rival, high);
    SumAllFlattens(p, buckets);
    SumAllFlattens(p, rival);
    SumIsOrderFree(p, Flatten(rival), files);
    SumOfPart(p, Flatten(buckets) + [f], files);
    SumSplits(p, Flatten(buckets), [f]);
    SumOne(p, f);
  }

  lemma {:induction false} SumOfPart(p: string -> nat, part: Bucket, whole: Bucket)
    requires multiset(part) <= multiset(whole)
    ensures Sum(p, part) <= Sum(p, whole)
  {
    if part != [] {
      var last := |part| - 1;
      assert part[last] in multiset(whole);
      var k :| 0 <= k < |whole| && whole[k] == part[last];
      RemoveAt(part, last);
      RemoveAt(whole, k);
      assert part[..last] + part[last + 1..] == part[..last];
      SumOfPart(p, part[..last], whole[..k] + whole[k + 1..]);
      SumAt(p, whole, k);
    }
  }

  /** Products as repeated addition: the argument needs nothing but linear steps. */
  ghost function Times(k: nat, x: nat): nat {
    if k == 0 then 0 else x + Times(k - 1, x)
  }

  lemma {:induction false} TimesIsProduct(k: nat, x: nat)
    ensures Times(k, x) == k * x
  {
    if k > 0 {
      TimesIsProduct(k - 1, x);
      assert k * x == (k - 1) * x + x;
    }
  }

  lemma {:induction false} TimesSum(k: nat, x: nat, y: nat)
    ensures Times(k, x + y) == Times(k, x) + Times(k, y)
  {
    if k > 0 { TimesSum(k - 1, x, y); }
  }

  lemma {:induction false} TimesGrows(k: nat, x: nat, y: nat)
    requires x <= y
    ensures Times(k, x) <= Times(k, y)
  {
    if k > 0 { TimesGrows(k - 1, x, y); }
  }

  lemma {:induction false} TimesThird(k: nat, w: nat, m: nat)
    requires 3 * w <= m
    ensures 3 * Times(k, w) <= Times(k, m)
  {
    if k > 0 { TimesThird(k - 1, w, m); }
  }

  /** Graham's factor: a load is at most 4/3 - 1/(3n) of the makespan `m`. */
  ghost predicate WithinGraham(n: nat, load: nat, m: nat)
    requires n > 0
  {
    3 * Times(n, load) <= 3 * Times(n, m) + Times(n - 1, m)
  }

  lemma SmallFileArithmetic(n: nat, low: nat, w: nat, m: nat)
    requires n > 0 && Times(n, low) + w <= Times(n, m) && 3 * w <= m
    ensures WithinGraham(n, low + w, m)
  {
    TimesThird(n - 1, w, m);
    TimesSum(n, low, w);
  }

  lemma BigFileArithmetic(n: nat, load: nat, m: nat)
    requires n > 0 && load <= m
    ensures WithinGraham(n, load, m)
  {
    TimesGrows(n, load, m);
  }

  lemma WithinGrahamIs(n: nat, load: nat, m: nat)
    requires n > 0
    ensures WithinGraham(n, load, m) <==> 3 * n * load <= (4 * n - 1) * m
  {
    GrahamProducts(n, load, m);
    TimesIsProduct(n, load);
    TimesIsProduct(n, m);
    TimesIsProduct(n - 1, m);
  }

  lemma GrahamProducts(n: nat, load: nat, m: nat)
    ensures 3 * n * load == 3 * (n * load)
    ensures (4 * n - 1) * m == 3 * (n * m) + (n - 1) * m
  {
  }

  ghost predicate Descending(locs: Locs, order: Bucket) {
    forall i, j :: 0 <= i < j < |order| ==> Loc(locs, order[i]) >= Loc(locs, order[j])
  }

  ghost predicate AllWithin(locs: Locs, buckets: seq<Bucket>, m: nat)
    requires buckets != []
  {
    forall b :: b in buckets ==> WithinGraham(|buckets|, Total(locs, b), m)
  }

  ghost predicate Bounded(locs: Locs, buckets: seq<Bucket>, m: nat) {
    forall b :: b in buckets ==> Total(locs, b) <= m
  }

  /** The load of the least loaded bucket, the one the next file joins. */
  ghost function LeastLoad(locs: Locs, buckets: seq<Bucket>): nat
    requires buckets != []
  {
    Total(locs, buckets[FirstMin(Totals(locs, buckets))])
  }

  lemma LeastLoadIsLeast(locs: Locs, buckets: seq<Bucket>)
    requires buckets != []
    ensures forall b :: b in buckets ==> LeastLoad(locs, buckets) <= Total(locs, b)
  {
    forall b | b in buckets ensures LeastLoad(locs, buckets) <= Total(locs, b) {
      var j :| 0 <= j < |buckets| && buckets[j] == b;
      assert Totals(locs, buckets)[j] == Total(locs, b);
    }
  }

  /** A bucket no fuller than any other may take the next file. */
  lemma NextFileFits(locs: Locs, buckets: seq<Bucket>, f: string, files: Bucket, rival: seq<Bucket>, m: nat, low: nat)
    requires buckets != [] && Spreads(rival, files, |buckets|) && Bounded(locs, rival, m)
    requires multiset(Flatten(buckets)) + multiset{f} <= multiset(files)
    requires forall b :: b in buckets ==> low <= Total(locs, b)
    requires forall b, g :: b in buckets && g in b ==> Loc(locs, g) >= Loc(locs, f)
    ensures WithinGraham(|buckets|, low + Loc(locs, f), m)
  {
    hide Sum, Flatten, Times;
    var n := |buckets|;
    if 3 * Loc(locs, f) <= m {
      assert Times(n, low) + Loc(locs, f) <= Times(n, m) by {
        SumsCompare(Weight(locs), buckets, f, files, rival, low, m);
      }
      SmallFileArithmetic(n, low, Loc(locs, f), m);
    } else {
      assert low + Loc(locs, f) <= m by {
        BigFileFits(locs, buckets, f, files, rival, m, low);
      }
      BigFileArithmetic(n, low + Loc(locs, f), m);
    }
  }

  lemma PlaceWithin(locs: Locs, buckets: seq<Bucket>, f: string, m: nat)
    requires buckets != [] && AllWithin(locs, buckets, m)
    requires WithinGraham(|buckets|, LeastLoad(locs, buckets) + Loc(locs, f), m)
    ensures AllWithin(locs, Place(locs, buckets, f), m)
  {
    SumSplits(Weight(locs), buckets[FirstMin(Totals(locs, buckets))], [f]);
    SumOne(Weight(locs), f);
  }

  lemma NextWithinBound(locs: Locs, order: Bucket, n: nat, k: nat, rival: seq<Bucket>, m: nat)
    requires n > 0 && k < |order| && Spreads(rival, order, n) && Bounded(locs, rival, m)
    requires Descending(locs, order) && AllWithin(locs, Greedy(locs, order[..k], n), m)
    ensures AllWithin(locs, Place(locs, Greedy(locs, order[..k], n), order[k]), m)
  {
    hide Sum, Flatten, Times;
    PrefixFacts(locs, order, n, k);
    var buckets := Greedy(locs, order[..k], n);
    LeastLoadIsLeast(locs, buckets);
    NextFileFits(locs, buckets, order[k], order, rival, m, LeastLoad(locs, buckets));
    PlaceWithin(locs, buckets, order[k], m);
  }

  /** Every prefix of the greedy run keeps within Graham's bound. */
  lemma {:induction false} GreedyWithinBound(locs: Locs, order: Bucket, n: nat, k: nat, rival: seq<Bucket>, m: nat)
    requires n > 0 && k <= |order| && Spreads(rival, order, n) && Bounded(locs, rival, m)
    requires Descending(locs, order)
    ensures AllWithin(locs, Greedy(locs, order[..k], n), m)
  {
    if k == 0 {
      BigFileArithmetic(n, 0, m);
    } else {
      GreedyWithinBound(locs, order, n, k - 1, rival, m);
      NextWithinBound(locs, order, n, k - 1, rival, m);
      assert order[..k][..k - 1] == order[..k - 1];
    }
  }

  lemma PrefixFacts(locs: Locs, order: Bucket, n: nat, k: nat)
    requires n > 0 && k < |order|
    requires Descending(locs, order)
    ensures var buckets := Greedy(locs, order[..k], n);
            && multiset(Flatten(buckets)) + multiset{order[k]} <= multiset(order)
            && forall b, g :: b in buckets && g in b ==> Loc(locs, g) >= Loc(locs, order[k])
  {
    hide Sum, Flatten;
    var buckets := Greedy(locs, order[..k], n);
    GreedySpreads(locs, order[..k], n);
    assert order == order[..k] + [order[k]] + order[k + 1..];
    forall b, g | b in buckets && g in b ensures Loc(locs, g) >= Loc(locs, order[k]) {
      FlattenHolds(buckets, b, g);
      assert g in multiset(order[..k]);
    }
  }

  lemma {:induction false} FlattenHolds(buckets: seq<Bucket>, b: Bucket, f: string)
    requires b in buckets && f in b
    ensures f in Flatten(buckets)
  {
    if b != buckets[|buckets| - 1] {
      FlattenHolds(buckets[..|buckets| - 1], b, f);
    }
  }

  lemma HeavierFirstIsTotalOrder(locs: Locs)
    ensures TotalPreorder(HeavierFirst(locs)) && Antisymmetric(HeavierFirst(locs))
  {
    LexIsTotalOrder();
  }

  lemma {:induction false} DropEmptyMembers(buckets: seq<Bucket>, b: Bucket)
    ensures b in DropEmpty(buckets) <==> b in buckets && b != []
  {
    if buckets != [] {
      DropEmptyMembers(buckets[..|buckets| - 1], b);
      assert b in buckets <==> b in buckets[..|buckets| - 1] || b == buckets[|buckets| - 1];
    }
  }

  lemma {:induction false} DropEmptyFlattens(buckets: seq<Bucket>)
    ensures Flatten(DropEmpty(buckets)) == Flatten(buckets)
    ensures |DropEmpty(buckets)| <= |buckets|
  {
    if buckets != [] {
      var kept, last := DropEmpty(buckets[..|buckets| - 1]), buckets[|buckets| - 1];
      DropEmptyFlattens(buckets[..|buckets| - 1]);
      assert (kept + [last])[..|kept|] == kept;
      assert kept + [] == kept;
    }
  }

  lemma {:induction false} DropEmptyOfFull(buckets: seq<Bucket>)
    requires [] !in buckets
    ensures DropEmpty(buckets) == buckets
  {
    if buckets != [] {
      DropEmptyOfFull(buckets[..|buckets| - 1]);
    }
  }

  // ---- Round-robin ----

  lemma {:induction false} DealSize(files: Bucket, n: nat, b: nat)
    requires b < n
    ensures |Deal(files, n)[b]| == |files| / n + if b < |files| % n then 1 else 0
  {
    if files != [] {
      var k := |files| - 1;
      DealSize(files[..k], n, b);
      DivModStep(k, n);
    }
  }

  /** Bucket `b` of a deal holds files `b`, `b + n`, `b + 2n`, ... in that order. */
  lemma {:induction false} DealAt(files: Bucket, n: nat, b: nat, j: nat)
    requires b < n && j < |Deal(files, n)[b]|
    ensures 0 <= b + j * n < |files| && Deal(files, n)[b][j] == files[b + j * n]
  {
    var k := |files| - 1;
    var before := Deal(files[..k], n)[b];
    if j < |before| {
      DealAt(files[..k], n, b, j);
    } else {
      DealSize(files[..k], n, b);
      assert k == k / n * n + k % n;
    }
  }

  lemma DivModStep(k: nat, n: nat)
    requires n > 0
    ensures k % n + 1 < n ==> (k + 1) / n == k / n && (k + 1) % n == k % n + 1
    ensures k % n + 1 == n ==> (k + 1) / n == k / n + 1 && (k + 1) % n == 0
  {
    var q, r := k / n, k % n;
    if r + 1 < n {
      DivModUnique(k + 1, n, q, r + 1);
    } else {
      assert k + 1 == (q + 1) * n;
      DivModUnique(k + 1, n, q + 1, 0);
    }
  }

  lemma DivModUnique(k: nat, n: nat, q: nat, r: nat)
    requires k == q * n + r && r < n
    ensures k / n == q && k % n == r
  {
    var q', r' := k / n, k % n;
    assert k == q' * n + r';
    assert (q - q') * n == r' - r;
    SmallMultiple(q - q', n);
  }

  lemma SmallMultiple(d: int, n: int)
    requires -n < d * n < n
    ensures d == 0
  {
    assert d >= 1 ==> d * n == n + (d - 1) * n >= n;
    assert d <= -1 ==> d * n == -n + (d + 1) * n <= -n;
  }

  lemma DealFair(files: Bucket, n: nat, b: nat, m: nat)
    requires b < n && |files| <= Times(n, m)
    ensures |Deal(files, n)[b]| <= m
  {
    DealSize(files, n, b);
    QuotientFits(|files|, n, m);
  }

  lemma QuotientFits(k: nat, n: nat, m: nat)
    requires n > 0 && k <= Times(n, m)
    ensures k / n < m || (k / n == m && k % n == 0)
  {
    QuotientSplits(k, n);
    var q := k / n;
    if q > m {
      TimesGrows(n, m + 1, q);
      TimesSum(n, m, 1);
      TimesIsProduct(n, 1);
    }
  }

  lemma QuotientSplits(k: nat, n: nat)
    requires n > 0
    ensures k == Times(n, k / n) + k % n
  {
    TimesIsProduct(n, k / n);
  }

  lemma DealHasNoEmpty(files: Bucket, n: nat)
    requires 0 < n <= |files|
    ensures [] !in Deal(files, n)
  {
    forall b | 0 <= b < n ensures Deal(files, n)[b] != [] {
      DealSize(files, n, b);
      QuotientPositive(|files|, n);
    }
  }

  lemma QuotientPositive(k: nat, n: nat)
    requires 0 < n <= k
    ensures k / n >= 1
  {
  }

  // ---- What a split keeps ----

  /** Nothing is lost or duplicated, and no slice is empty. */
  lemma SizeGroupsConserve(files: Bucket, n: int, locs: Locs)
    requires files != []
    ensures var groups := SizeGroups(files, n, locs);
            && multiset(Flatten(groups)) == multiset(files)
            && [] !in groups
            && 1 <= |groups| <= Parts(n)
  {
    if n <= 1 {
      FlattenOne(files);
    } else if locs == map[] {
      CountGroupsConserve(files, n);
    } else {
      var order := Sort(files, HeavierFirst(locs));
      SortPermutes(files, HeavierFirst(locs));
      GreedySpreads(locs, order, n);
      DropEmptyConserves(Greedy(locs, order, n), files);
    }
  }

  lemma CountGroupsConserve(files: Bucket, n: int)
    requires files != []
    ensures var groups := CountGroups(files, n);
            && multiset(Flatten(groups)) == multiset(files)
            && [] !in groups
            && 1 <= |groups| <= Parts(n)
  {
    if n <= 1 {
      FlattenOne(files);
    } else {
      DealSpreads(files, n);
      DropEmptyConserves(Deal(files, n), files);
    }
  }

  lemma FlattenOne(files: Bucket)
    ensures Flatten([files]) == files
  {
    assert [files][..0] == [];
    assert [] + files == files;
  }

  lemma DropEmptyConserves(buckets: seq<Bucket>, files: Bucket)
    requires files != [] && multiset(Flatten(buckets)) == multiset(files)
    ensures multiset(Flatten(DropEmpty(buckets))) == multiset(files)
    ensures [] !in DropEmpty(buckets) && 1 <= |DropEmpty(buckets)| <= |buckets|
  {
    DropEmptyFlattens(buckets);
    DropEmptyMembers(buckets, []);
    assert files[0] in multiset(Flatten(buckets));
  }

  // ---- The main result ----

  /** What a file costs: its line count, or one when no counts were supplied. */
  function Cost(locs: Locs): string -> nat {
    if locs == map[] then (_: string) => 1 else Weight(locs)
  }

  lemma {:induction false} CountingCost(s: Bucket)
    ensures Sum(Cost(map[]), s) == |s|
  {
    if s != [] { CountingCost(s[..|s| - 1]); }
  }

  /** The number of buckets a split may use. */
  function Parts(n: int): nat {
    if n <= 1 then 1 else n
  }

  /** The split is within 4/3 - 1/(3n) of every rival way of spreading the files over n slices. */
  lemma SizeGroupsWithinBound(files: Bucket, n: int, locs: Locs, rival: seq<Bucket>, m: nat, g: Bucket)
    requires Spreads(rival, files, Parts(n))
    requires forall b :: b in rival ==> Sum(Cost(locs), b) <= m
    requires g in SizeGroups(files, n, locs)
    ensures 3 * Parts(n) * Sum(Cost(locs), g) <= (4 * Parts(n) - 1) * m
  {
    SizeGroupsWithinGraham(files, n, locs, rival, m, g);
    WithinGrahamIs(Parts(n), Sum(Cost(locs), g), m);
  }

  lemma SizeGroupsWithinGraham(files: Bucket, n: int, locs: Locs, rival: seq<Bucket>, m: nat, g: Bucket)
    requires Spreads(rival, files, Parts(n))
    requires forall b :: b in rival ==> Sum(Cost(locs), b) <= m
    requires g in SizeGroups(files, n, locs)
    ensures WithinGraham(Parts(n), Sum(Cost(locs), g), m)
  {
    if n > 1 && locs != map[] {
      LptWithinBound(files, n, locs, rival, m, g);
    } else {
      if n > 1 {
        CountGroupFits(files, n, rival, m, g);
      } else {
        RivalHolds(Cost(locs), files, 1, rival, m);
        assert Times(1, m) == m;
      }
      BigFileArithmetic(Parts(n), Sum(Cost(locs), g), m);
    }
  }

  lemma RivalHolds(p: string -> nat, files: Bucket, n: nat, rival: seq<Bucket>, m: nat)
    requires Spreads(rival, files, n) && forall b :: b in rival ==> Sum(p, b) <= m
    ensures Sum(p, files) <= Times(n, m)
  {
    SumAllAtMost(p, rival, m);
    SumAllFlattens(p, rival);
    SumIsOrderFree(p, Flatten(rival), files);
  }

  /** Without line counts the split is optimal: no slice is larger than the rival's largest. */
  lemma CountGroupFits(files: Bucket, n: nat, rival: seq<Bucket>, m: nat, g: Bucket)
    requires n > 1 && Spreads(rival, files, n)
    requires forall b :: b in rival ==> Sum(Cost(map[]), b) <= m
    requires g in CountGroups(files, n)
    ensures Sum(Cost(map[]), g) <= m
  {
    RivalHolds(Cost(map[]), files, n, rival, m);
    CountingCost(files);
    DropEmptyMembers(Deal(files, n), g);
    var b :| 0 <= b < n && Deal(files, n)[b] == g;
    DealFair(files, n, b, m);
    CountingCost(g);
  }

  lemma LptWithinBound(files: Bucket, n: nat, locs: Locs, rival: seq<Bucket>, m: nat, g: Bucket)
    requires n > 1 && locs != map[] && Spreads(rival, files, n) && Bounded(locs, rival, m)
    requires g in SizeGroups(files, n, locs)
    ensures WithinGraham(n, Total(locs, g), m)
  {
    var le := HeavierFirst(locs);
    var order := Sort(files, le);
    SortPermutes(files, le);
    HeavierFirstIsTotalOrder(locs);
    SortSorts(files, le);
    assert Descending(locs, order) by {
      forall i, j | 0 <= i < j < |order| ensures Loc(locs, order[i]) >= Loc(locs, order[j]) {
        assert le(order[i], order[j]);
      }
    }
    GreedyWithinBound(locs, order, n, |order|, rival, m);
    assert order[..|order|] == order;
    DropEmptyMembers(Greedy(locs, order, n), g);
  }
}
