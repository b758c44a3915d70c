/** The load balancer at its worst, and on the documented example. */
module LoadBalanceTight {
  import opened Ordering
  import opened LoadBalance

  lemma GreedyStep(locs: Locs, order: Bucket, f: string, left: Bucket, right: Bucket)
    requires Greedy(locs, order, 2) == [left, right]
    ensures Greedy(locs, order + [f], 2) ==
            if Total(locs, right) < Total(locs, left) then [left, right + [f]] else [left + [f], right]
    ensures Total(locs, left + [f]) == Total(locs, left) + Loc(locs, f)
    ensures Total(locs, right + [f]) == Total(locs, right) + Loc(locs, f)
  {
    assert (order + [f])[..|order|] == order;
    var totals := Totals(locs, [left, right]);
    assert totals == [Total(locs, left), Total(locs, right)];
    hide Sum;
    SumSplits(Weight(locs), left, [f]);
    SumSplits(Weight(locs), right, [f]);
    SumOne(Weight(locs), f);
  }

  lemma GreedyStart(locs: Locs)
    ensures Greedy(locs, [], 2) == [[], []] && Total(locs, []) == 0
  {
  }

  lemma SumTwo(p: string -> nat, f: string, g: string)
    ensures Sum(p, [f, g]) == p(f) + p(g)
  {
    SumSplits(p, [f], [g]);
    SumOne(p, f);
    SumOne(p, g);
    assert [f] + [g] == [f, g];
  }

  /** Files in any order are sorted the same way. */
  lemma AnyOrder(locs: Locs, files: Bucket, order: Bucket)
    requires multiset(files) == multiset(order) && SortedBy(order, HeavierFirst(locs))
    ensures Sort(files, HeavierFirst(locs)) == order
  {
    HeavierFirstIsTotalOrder(locs);
    SortPermutes(files, HeavierFirst(locs));
    SortSorts(files, HeavierFirst(locs));
    SortedIsUnique(Sort(files, HeavierFirst(locs)), order, HeavierFirst(locs));
  }

  /** The worked example beside the algorithm puts `c` with `a`; the code puts it with `b`, in whatever order the files
      come. */
  lemma DocumentedExample(files: Bucket)
    requires multiset(files) == multiset{"a", "b", "c", "d"}
    ensures SizeGroups(files, 2, map["a" := 100, "b" := 50, "c" := 50, "d" := 10]) == [["a", "d"], ["b", "c"]]
  {
    hide Sort, Greedy, DropEmpty;
    var locs: Locs := map["a" := 100, "b" := 50, "c" := 50, "d" := 10];
    assert multiset(["a", "b", "c", "d"]) == multiset{"a", "b", "c", "d"};
    assert Loc(locs, "a") == 100 && Loc(locs, "b") == Loc(locs, "c") == 50 && Loc(locs, "d") == 10;
    ExampleSorted(locs, "a", "b", "c", "d");
    AnyOrder(locs, files, ["a", "b", "c", "d"]);
    ExampleRun(locs, "a", "b", "c", "d");
    DropEmptyOfFull([["a", "d"], ["b", "c"]]);
  }

  lemma ExampleSorted(locs: Locs, a: string, b: string, c: string, d: string)
    requires Loc(locs, a) == 100 && Loc(locs, b) == Loc(locs, c) == 50 && Loc(locs, d) == 10
    requires b != "" && c != "" && b[0] < c[0]
    ensures SortedBy([a, b, c, d], HeavierFirst(locs))
  {
  }

  lemma ExampleRun(locs: Locs, a: string, b: string, c: string, d: string)
    requires Loc(locs, a) == 100 && Loc(locs, b) == Loc(locs, c) == 50 && Loc(locs, d) == 10
    ensures Greedy(locs, [a, b, c, d], 2) == [[a, d], [b, c]]
  {
    hide *;
    GreedyStart(locs);
    assert [] + [a] == [a] && [a] + [b] == [a, b] && [] + [b] == [b];
    GreedyStep(locs, [], a, [], []);
    GreedyStep(locs, [a], b, [a], []);
    GreedyStep(locs, [a, b], c, [a], [b]);
    assert [a, b] + [c] == [a, b, c] && [b] + [c] == [b, c];
    GreedyStep(locs, [a, b, c], d, [a], [b, c]);
    assert [a, b, c] + [d] == [a, b, c, d] && [a] + [d] == [a, d];
  }

  // ---- The worst case ----

  /** The lines of file `i`: 2n - 1, 2n - 1, 2n - 2, 2n - 2, ..., n, n, and n once more. */
  function Lines(n: nat, i: nat): nat {
    if i < 2 * n then 2 * n - 1 - i / 2 else n
  }

  function Name(i: nat): string {
    seq(i + 1, _ => 'x')
  }

  function Names(n: nat): Bucket {
    seq(2 * n + 1, i requires 0 <= i < 2 * n + 1 => Name(i))
  }

  function TightLocs(n: nat): Locs {
    map f: string | f in Names(n) :: Lines(n, |f| - 1)
  }

  lemma TightLoc(n: nat, i: nat)
    requires i <= 2 * n
    ensures Loc(TightLocs(n), Name(i)) == Lines(n, i)
  {
    assert Names(n)[i] == Name(i);
    assert |Name(i)| == i + 1;
  }

  lemma {:induction false} PrefixFirst(a: string, b: string)
    requires a <= b
    ensures LexLe(a, b)
  {
    if a != "" { PrefixFirst(a[1..], b[1..]); }
  }

  lemma NamesSorted(n: nat)
    ensures SortedBy(Names(n), HeavierFirst(TightLocs(n)))
  {
    var names := Names(n);
    forall i, j | 0 <= i < j < |names| ensures HeavierFirst(TightLocs(n))(names[i], names[j]) {
      TightLoc(n, i);
      TightLoc(n, j);
      PrefixFirst(names[i], names[j]);
    }
  }

  // ---- What the greedy loop does with it ----

  function Bump(loads: seq<nat>, w: nat): seq<nat>
    requires loads != []
  {
    var i := FirstMin(loads);
    loads[i := loads[i] + w]
  }

  /** The loads after the first `k` files. */
  function Loads(n: nat, k: nat): (loads: seq<nat>)
    requires n > 0
    ensures |loads| == n
  {
    if k == 0 then seq(n, _ => 0) else Bump(Loads(n, k - 1), Lines(n, k - 1))
  }

  lemma {:induction false} TotalsAreLoads(n: nat, k: nat)
    requires n > 0 && k <= 2 * n + 1
    ensures Totals(TightLocs(n), Greedy(TightLocs(n), Names(n)[..k], n)) == Loads(n, k)
  {
    hide TightLocs, Total, Place, Greedy, FirstMin, Loads, Name, Lines;
    var locs, order := TightLocs(n), Names(n)[..k];
    if k == 0 {
      EmptyTotals(locs, n);
      NoLoad(n);
    } else {
      assert order == Names(n)[..k - 1] + [Name(k - 1)];
      TotalsAreLoads(n, k - 1);
      TightLoc(n, k - 1);
      GreedyNext(locs, Names(n)[..k - 1], Name(k - 1), n);
      PlaceTotals(locs, Greedy(locs, Names(n)[..k - 1], n), Name(k - 1));
      NextLoad(n, k - 1);
    }
  }

  lemma GreedyNext(locs: Locs, order: Bucket, f: string, n: nat)
    requires n > 0
    ensures Greedy(locs, order + [f], n) == Place(locs, Greedy(locs, order, n), f)
  {
    assert (order + [f])[..|order|] == order;
  }

  lemma NoLoad(n: nat)
    requires n > 0
    ensures Loads(n, 0) == seq(n, _ => 0)
  {
  }

  lemma EmptyTotals(locs: Locs, n: nat)
    requires n > 0
    ensures Totals(locs, Greedy(locs, [], n)) == seq(n, _ => 0)
  {
    assert Total(locs, []) == 0;
  }

  lemma FirstMinIs(loads: seq<nat>, i: nat)
    requires i < |loads|
    requires forall j :: 0 <= j < |loads| ==> loads[i] <= loads[j]
    requires forall j :: 0 <= j < i ==> loads[i] < loads[j]
    ensures FirstMin(loads) == i
  {
    hide FirstMin;
    var m := FirstMin(loads);
    assert loads[m] <= loads[i] && loads[i] <= loads[m];
    if m < i { assert false; }
  }

  /** One file in each of the first `k` buckets. */
  function Singles(n: nat, k: nat): seq<nat> {
    seq(n, i requires 0 <= i < n => if i < k then Lines(n, i) else 0)
  }

  lemma {:induction false} FirstRound(n: nat, k: nat)
    requires n > 0 && k <= n
    ensures Loads(n, k) == Singles(n, k)
  {
    hide FirstMin, Loads;
    if k == 0 {
      NoLoad(n);
      assert Singles(n, 0) == seq(n, _ => 0);
    } else {
      FirstRound(n, k - 1);
      NextLoad(n, k - 1);
      FirstMinIs(Singles(n, k - 1), k - 1);
      assert Singles(n, k - 1)[k - 1 := Lines(n, k - 1)] == Singles(n, k);
    }
  }

  /** The first `q` buckets hold one file each, the others two with 3n - 1 lines together. */
  function Paired(n: nat, q: nat): seq<nat>
    requires n > 0
  {
    seq(n, i requires 0 <= i < n => if i < q then Lines(n, i) else 3 * n - 1)
  }

  lemma NextLoad(n: nat, k: nat)
    requires n > 0
    ensures Loads(n, k + 1) == Bump(Loads(n, k), Lines(n, k))
  {
  }

  lemma BumpAt(loads: seq<nat>, i: nat, w: nat)
    requires i < |loads|
    requires forall j :: 0 <= j < |loads| ==> loads[i] <= loads[j]
    requires forall j :: 0 <= j < i ==> loads[i] < loads[j]
    ensures Bump(loads, w) == loads[i := loads[i] + w]
  {
    hide FirstMin;
    FirstMinIs(loads, i);
  }

  /** The first and then the second of the buckets next in line is the least loaded. */
  ghost predicate NextInLine(loads: seq<nat>, i: nat, load: nat) {
    && i < |loads| && loads[i] == load
    && (forall j :: 0 <= j < |loads| ==> load <= loads[j])
    && (forall j :: 0 <= j < i ==> load < loads[j])
  }

  lemma PairedLeast(n: nat, h: nat)
    requires 1 <= h && 2 * h <= n
    ensures NextInLine(Paired(n, 2 * h), 2 * h - 2, 2 * n - h)
    ensures NextInLine(Paired(n, 2 * h)[2 * h - 2 := 3 * n - 1], 2 * h - 1, 2 * n - h)
  {
  }

  lemma BumpNext(loads: seq<nat>, i: nat, load: nat, w: nat)
    requires NextInLine(loads, i, load)
    ensures loads != [] && Bump(loads, w) == loads[i := load + w]
  {
    BumpAt(loads, i, w);
  }

  lemma PairedLess(n: nat, h: nat)
    requires 1 <= h && 2 * h <= n
    ensures |Paired(n, 2 * h)| == n
    ensures Paired(n, 2 * h)[2 * h - 2 := 3 * n - 1][2 * h - 1 := 3 * n - 1] == Paired(n, 2 * h - 2)
  {
  }

  lemma PairLines(n: nat, h: nat)
    requires 1 <= h && 2 * h <= n
    ensures Lines(n, 2 * n - 2 * h) == Lines(n, 2 * n - 2 * h + 1) == n - 1 + h
  {
  }

  /** The two files of n - 1 + h lines go to the two buckets of 2n - h. */
  lemma PairStep(n: nat, h: nat)
    requires 1 <= h && 2 * h <= n && Loads(n, 2 * n - 2 * h) == Paired(n, 2 * h)
    ensures Loads(n, 2 * n - 2 * h + 2) == Paired(n, 2 * h - 2)
  {
    hide *;
    var k, loads := 2 * n - 2 * h, Paired(n, 2 * h);
    PairLines(n, h);
    PairedLeast(n, h);
    PairedLess(n, h);
    NextLoad(n, k);
    BumpNext(loads, 2 * h - 2, 2 * n - h, n - 1 + h);
    NextLoad(n, k + 1);
    BumpNext(loads[2 * h - 2 := 3 * n - 1], 2 * h - 1, 2 * n - h, n - 1 + h);
  }

  lemma OddLines(h: nat, j: nat)
    requires 1 <= h && j <= 2 * h + 1
    ensures j < 2 * h ==> 3 * h + 1 < Lines(2 * h + 1, j)
    ensures 2 * h <= j ==> Lines(2 * h + 1, j) == 3 * h + 1
  {
  }

  lemma OddLeast(h: nat)
    requires 1 <= h
    ensures NextInLine(Singles(2 * h + 1, 2 * h + 1), 2 * h, 3 * h + 1)
  {
    hide Lines;
    var n := 2 * h + 1;
    forall j: nat | j < n ensures j < 2 * h ==> 3 * h + 1 < Lines(n, j) { OddLines(h, j); }
    OddLines(h, 2 * h);
  }

  lemma OddLess(n: nat)
    requires n > 1
    ensures |Singles(n, n)| == n && Singles(n, n)[n - 1 := 3 * n - 1] == Paired(n, n - 1)
  {
    hide Lines;
  }

  /** With an odd number of buckets the last one gets its second file before the others. */
  lemma OddStart(h: nat)
    requires 1 <= h
    ensures Loads(2 * h + 1, 2 * h + 2) == Paired(2 * h + 1, 2 * h)
  {
    hide *;
    var n := 2 * h + 1;
    FirstRound(n, n);
    NextLoad(n, n);
    OddLeast(h);
    OddLess(n);
    OddLines(h, n);
    BumpNext(Singles(n, n), 2 * h, 3 * h + 1, 3 * h + 1);
  }

  lemma {:induction false} PairUp(n: nat, q: nat)
    requires 2 <= n && q <= n && q % 2 == 0
    ensures Loads(n, 2 * n - q) == Paired(n, q)
    decreases n - q
  {
    hide Loads, FirstMin;
    if q + 1 < n {
      PairUp(n, q + 2);
      PairStep(n, q / 2 + 1);
    } else if q == n {
      FirstRound(n, n);
      assert Singles(n, n) == Paired(n, n);
    } else {
      OddStart(q / 2);
    }
  }

  lemma WorstLoad(n: nat)
    requires 2 <= n
    ensures Loads(n, 2 * n + 1)[0] == 4 * n - 1
  {
    hide Loads, FirstMin;
    PairUp(n, 0);
    FirstMinIs(Paired(n, 0), 0);
    NextLoad(n, 2 * n);
  }

  // ---- A better split ----

  /** File `i` with file `2n - 3 - i`, and the three lightest together: 3n lines everywhere. */
  function Rival(n: nat): seq<Bucket>
    requires 2 <= n
  {
    seq(n, i requires 0 <= i < n =>
      if i < n - 1 then [Name(i), Name(2 * n - 3 - i)] else [Name(2 * n - 2), Name(2 * n - 1), Name(2 * n)])
  }

  lemma RivalFront(n: nat, m: nat)
    requires 2 <= n && 0 < m < n
    ensures |Names(n)| == 2 * n + 1 && |Rival(n)| == n
    ensures Rival(n)[..m] == Rival(n)[..m - 1] + [[Names(n)[m - 1], Names(n)[2 * n - 2 - m]]]
  {
    hide Name;
    assert Rival(n)[m - 1] == [Names(n)[m - 1], Names(n)[2 * n - 2 - m]];
  }

  lemma RivalLast(n: nat)
    requires 2 <= n
    ensures |Names(n)| == 2 * n + 1 && |Rival(n)| == n
    ensures Rival(n) == Rival(n)[..n - 1] + [Names(n)[2 * n - 2..]]
  {
    hide Name;
    var names := Names(n);
    assert names[2 * n - 2..] == [names[2 * n - 2], names[2 * n - 1], names[2 * n]];
  }

  lemma {:induction false} RivalPrefix(n: nat, m: nat)
    requires 2 <= n && m < n && |Names(n)| == 2 * n + 1 && |Rival(n)| == n
    ensures multiset(Flatten(Rival(n)[..m])) == multiset(Names(n)[..m]) + multiset(Names(n)[2 * n - 2 - m..2 * n - 2])
  {
    hide Names, Rival, Flatten;
    var names, rival := Names(n), Rival(n);
    if m == 0 {
      assert names[2 * n - 2..2 * n - 2] == [] && names[..0] == [] && rival[..0] == [];
      NothingFlattens();
    } else {
      var i, j := m - 1, 2 * n - 2 - m;
      RivalPrefix(n, m - 1);
      RivalFront(n, m);
      FlattenMore(rival[..i], [names[i], names[j]]);
      assert multiset(Flatten(rival[..m])) == multiset(Flatten(rival[..i])) + multiset([names[i], names[j]]);
      Outwards(names, i, j, 2 * n - 2);
      assert i + 1 == m && 2 * n - 2 - i == j + 1;
    }
  }

  lemma NothingFlattens()
    ensures Flatten([]) == []
  {
  }

  lemma FlattenMore(buckets: seq<Bucket>, b: Bucket)
    ensures Flatten(buckets + [b]) == Flatten(buckets) + b
  {
    assert (buckets + [b])[..|buckets|] == buckets;
  }

  lemma Outwards(names: Bucket, i: nat, j: nat, end: nat)
    requires i < j < end <= |names|
    ensures multiset(names[..i + 1]) + multiset(names[j..end]) ==
            multiset(names[..i]) + multiset(names[j + 1..end]) + multiset([names[i], names[j]])
  {
    assert names[..i + 1] == names[..i] + [names[i]];
    assert names[j..end] == [names[j]] + names[j + 1..end];
  }

  lemma RivalSpreads(n: nat)
    requires 2 <= n
    ensures Spreads(Rival(n), Names(n), n)
  {
    hide Names, Rival, Flatten;
    var names, rival := Names(n), Rival(n);
    RivalLast(n);
    RivalPrefix(n, n - 1);
    FlattenMore(rival[..n - 1], names[2 * n - 2..]);
    Thirds(names, n - 1, 2 * n - 2);
  }

  lemma Thirds(names: Bucket, i: nat, j: nat)
    requires i <= j <= |names|
    ensures multiset(names) == multiset(names[..i]) + multiset(names[i..j]) + multiset(names[j..])
  {
    assert names == names[..i] + names[i..j] + names[j..];
  }

  lemma RivalLoads(n: nat, i: nat)
    requires 2 <= n && i < n
    ensures Total(TightLocs(n), Rival(n)[i]) == 3 * n
  {
    hide Sum, TightLocs, Name;
    var p := Weight(TightLocs(n));
    if i < n - 1 {
      TightLoc(n, i);
      TightLoc(n, 2 * n - 3 - i);
      SumTwo(p, Name(i), Name(2 * n - 3 - i));
      assert i / 2 + (2 * n - 3 - i) / 2 == n - 2;
    } else {
      var a, b, c := Name(2 * n - 2), Name(2 * n - 1), Name(2 * n);
      TightLoc(n, 2 * n - 2);
      TightLoc(n, 2 * n - 1);
      TightLoc(n, 2 * n);
      SumTwo(p, a, b);
      SumSplits(p, [a, b], [c]);
      SumOne(p, c);
      assert [a, b] + [c] == [a, b, c];
    }
  }

  /** For every number of slices the bound is met with equality: these 2n + 1 files, in whatever order, give a slice of
      4n - 1 lines where 3n are possible. */
  lemma BoundIsTight(n: nat, files: Bucket)
    requires 2 <= n && multiset(files) == multiset(Names(n))
    ensures Spreads(Rival(n), files, Parts(n))
    ensures forall b :: b in Rival(n) ==> Sum(Cost(TightLocs(n)), b) == 3 * n
    ensures exists g :: g in SizeGroups(files, n, TightLocs(n)) && Sum(Cost(TightLocs(n)), g) == 4 * n - 1
    ensures 3 * Parts(n) * (4 * n - 1) == (4 * Parts(n) - 1) * (3 * n)
  {
    hide Sort, Greedy, DropEmpty, Flatten, Names, Rival, Sum, Name, TightLocs, CountGroups;
    var locs := TightLocs(n);
    TightLocsNotEmpty(n);
    RivalSpreads(n);
    forall b | b in Rival(n) ensures Sum(Cost(locs), b) == 3 * n {
      var i :| 0 <= i < |Rival(n)| && Rival(n)[i] == b;
      RivalLoads(n, i);
    }
    NamesSorted(n);
    AnyOrder(locs, files, Names(n));
    WorstBucket(n);
    var buckets := Greedy(locs, Names(n), n);
    DropEmptyMembers(buckets, buckets[0]);
    assert buckets[0] in SizeGroups(files, n, locs) && Sum(Cost(locs), buckets[0]) == 4 * n - 1 by {
      assert Sum(Cost(locs), buckets[0]) == Total(locs, buckets[0]);
    }
  }

  lemma TightLocsNotEmpty(n: nat)
    ensures TightLocs(n) != map[]
  {
    assert Names(n)[0] in TightLocs(n);
  }

  lemma WorstBucket(n: nat)
    requires 2 <= n
    ensures var buckets := Greedy(TightLocs(n), Names(n), n);
            buckets[0] != [] && Total(TightLocs(n), buckets[0]) == 4 * n - 1
  {
    hide TightLocs, Loads;
    TotalsAreLoads(n, 2 * n + 1);
    assert Names(n)[..2 * n + 1] == Names(n);
    WorstLoad(n);
    var buckets := Greedy(TightLocs(n), Names(n), n);
    assert Totals(TightLocs(n), buckets)[0] == Total(TightLocs(n), buckets[0]);
  }
}
