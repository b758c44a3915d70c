/** How many slices a plan has. */
module SliceCounts {
  import opened Wrappers
  import opened Ordering
  import opened LoadBalance
  import opened SplitPlan
  import opened PlanProperties

  /** The first `filled` buckets are the ones with a file in them, the first `loaded` those with a line. */
  ghost predicate Filled(locs: Locs, buckets: seq<Bucket>, filled: nat, loaded: nat) {
    && loaded <= filled <= |buckets|
    && forall i :: 0 <= i < |buckets| ==>
         (buckets[i] != [] <==> i < filled) && (Total(locs, buckets[i]) > 0 <==> i < loaded)
  }

  /** Files with at least one line. */
  function Weighty(locs: Locs, order: Bucket): nat {
    if order == [] then 0
    else Weighty(locs, order[..|order| - 1]) + if Loc(locs, order[|order| - 1]) > 0 then 1 else 0
  }

  function Clip(k: nat, n: nat): nat {
    if k <= n then k else n
  }

  /** How many of `n` buckets the load balancer uses: files without lines share one, if there is a free one. */
  function Used(locs: Locs, order: Bucket, n: nat): nat {
    Clip(Weighty(locs, order) + (if Weighty(locs, order) < |order| then 1 else 0), n)
  }

  lemma {:induction false} WeightyBounds(locs: Locs, order: Bucket)
    ensures Weighty(locs, order) <= |order|
    ensures (forall f :: f in order ==> Loc(locs, f) > 0) ==> Weighty(locs, order) == |order|
  {
    if order != [] {
      var init := order[..|order| - 1];
      WeightyBounds(locs, init);
      assert forall f :: f in init ==> f in order;
    }
  }

  lemma PlaceFills(locs: Locs, buckets: seq<Bucket>, f: string, filled: nat, loaded: nat)
    requires buckets != [] && Filled(locs, buckets, filled, loaded)
    requires Loc(locs, f) > 0 ==> filled == loaded
    requires filled <= loaded + 1
    ensures var next := if loaded < |buckets| then loaded + 1 else loaded;
            Filled(locs, Place(locs, buckets, f), next, if Loc(locs, f) > 0 then next else loaded)
  {
    hide Total;
    var i, after := FirstMin(Totals(locs, buckets)), Place(locs, buckets, f);
    assert |after| == |buckets|;
    assert loaded < |buckets| ==> i == loaded by {
      if loaded < |buckets| {
        assert Totals(locs, buckets)[loaded] == 0;
        assert Totals(locs, buckets)[i] == 0;
      }
    }
    assert Totals(locs, after) == Totals(locs, buckets)[i := Totals(locs, buckets)[i] + Loc(locs, f)] by {
      PlaceTotals(locs, buckets, f);
    }
    forall j | 0 <= j < |after|
      ensures Total(locs, after[j]) == Total(locs, buckets[j]) + if j == i then Loc(locs, f) else 0
      ensures after[j] != [] <==> buckets[j] != [] || j == i
    {
      assert Totals(locs, after)[j] == Total(locs, after[j]) && Totals(locs, buckets)[j] == Total(locs, buckets[j]);
    }
  }

  lemma StartFills(locs: Locs, n: nat)
    requires n > 0
    ensures Filled(locs, Greedy(locs, [], n), 0, 0)
  {
  }

  lemma LightTail(locs: Locs, order: Bucket)
    requires order != [] && Descending(locs, order) && Loc(locs, order[|order| - 1]) > 0
    ensures Weighty(locs, order[..|order| - 1]) == |order| - 1
  {
    var init := order[..|order| - 1];
    forall f | f in init ensures Loc(locs, f) > 0 {
      var i :| 0 <= i < |init| && init[i] == f;
      assert Loc(locs, order[i]) >= Loc(locs, order[|order| - 1]);
    }
    WeightyBounds(locs, init);
  }

  lemma {:induction false} GreedyFills(locs: Locs, order: Bucket, n: nat)
    requires n > 0 && Descending(locs, order)
    ensures Filled(locs, Greedy(locs, order, n), Used(locs, order, n), Clip(Weighty(locs, order), n))
  {
    hide Filled, Place;
    if order == [] {
      StartFills(locs, n);
    } else {
      var init, f := order[..|order| - 1], order[|order| - 1];
      GreedyFills(locs, init, n);
      WeightyBounds(locs, init);
      if Loc(locs, f) > 0 { LightTail(locs, order); }
      FilledShape(locs, Greedy(locs, init, n), Used(locs, init, n), Clip(Weighty(locs, init), n));
      PlaceFills(locs, Greedy(locs, init, n), f, Used(locs, init, n), Clip(Weighty(locs, init), n));
    }
  }

  lemma FilledShape(locs: Locs, buckets: seq<Bucket>, filled: nat, loaded: nat)
    requires Filled(locs, buckets, filled, loaded)
    ensures loaded <= filled <= |buckets|
  {
  }

  lemma {:induction false} DropEmptyCounts(buckets: seq<Bucket>, filled: nat)
    requires filled <= |buckets| && forall i :: 0 <= i < |buckets| ==> (buckets[i] != [] <==> i < filled)
    ensures |DropEmpty(buckets)| == filled
  {
    if buckets != [] {
      var n := |buckets| - 1;
      DropEmptyCounts(buckets[..n], if filled <= n then filled else n);
    }
  }

  lemma WeightyPermutes(locs: Locs, a: Bucket, b: Bucket)
    requires multiset(a) == multiset(b)
    ensures Weighty(locs, a) == Weighty(locs, b) && |a| == |b|
  {
    WeightySums(locs, a);
    WeightySums(locs, b);
    SumIsOrderFree(HasLines(locs), a, b);
    assert |a| == |multiset(a)| == |multiset(b)| == |b|;
  }

  function HasLines(locs: Locs): string -> nat {
    (f: string) => if Loc(locs, f) > 0 then 1 else 0
  }

  lemma {:induction false} WeightySums(locs: Locs, order: Bucket)
    ensures Weighty(locs, order) == Sum(HasLines(locs), order)
  {
    if order != [] { WeightySums(locs, order[..|order| - 1]); }
  }

  /** By line counts, the split of n buckets has a slice for every file with lines, as far as there are buckets, and
      one more if there are files without. */
  lemma SizeGroupsCount(files: Bucket, n: int, locs: Locs)
    requires n > 1 && locs != map[]
    ensures |SizeGroups(files, n, locs)| == Used(locs, files, n)
  {
    hide Sort, HeavierFirst, Filled, Greedy, DropEmpty;
    var order := Sort(files, HeavierFirst(locs));
    SortPermutes(files, HeavierFirst(locs));
    SortedDescends(files, locs);
    GreedyFills(locs, order, n);
    FilledIs(locs, Greedy(locs, order, n), Used(locs, order, n), Clip(Weighty(locs, order), n));
    DropEmptyCounts(Greedy(locs, order, n), Used(locs, order, n));
    WeightyPermutes(locs, files, order);
  }

  lemma FilledIs(locs: Locs, buckets: seq<Bucket>, filled: nat, loaded: nat)
    requires Filled(locs, buckets, filled, loaded)
    ensures filled <= |buckets| && forall i :: 0 <= i < |buckets| ==> (buckets[i] != [] <==> i < filled)
  {
  }

  lemma SortedDescends(files: Bucket, locs: Locs)
    ensures Descending(locs, Sort(files, HeavierFirst(locs)))
  {
    var order := Sort(files, HeavierFirst(locs));
    HeavierFirstIsTotalOrder(locs);
    SortSorts(files, HeavierFirst(locs));
    forall i, j | 0 <= i < j < |order| ensures Loc(locs, order[i]) >= Loc(locs, order[j]) {
      assert HeavierFirst(locs)(order[i], order[j]);
    }
  }

  // ---- Plans ----

  /** The number of slices, by strategy. */
  function PlanLength(r: Request): int {
    var files := SortedSet(r.diffFiles);
    if r.diffFiles == [] then 1
    else if AsDirectory(r) then Min(|TopKeys(files)|, Max(1, r.maxSlices))
    else match SliceCount(r, |files|)
      case Err(_) => 0
      case Ok(n) => if AsFiles(r) || n <= 1 || r.fileLocs == map[] then Max(1, n) else Used(r.fileLocs, files, n)
  }

  lemma CountedLength(files: Bucket, n: int)
    requires files != [] && n <= |files|
    ensures |CountGroups(files, n)| == Max(1, n)
  {
    CountGroupsEven(files, n);
  }

  lemma PlanHasLength(r: Request)
    requires Plan(r).Ok?
    ensures |Plan(r).value| == PlanLength(r)
  {
    hide Sort, Dedup, LexLe, TopKeys, Used, CountGroups, SizeGroups, ResolveStrategy, AsFiles, AsDirectory;
    var files := SortedSet(r.diffFiles);
    SortedSetFacts(r.diffFiles);
    StrategyText(r);
    if r.diffFiles != [] {
      hide SortedSet;
      if ByDirectory(r) {
        DirectoryPlanGroups(r);
      } else {
        var n := SliceCount(r, |files|).value;
        CountedLength(files, n);
        SizeLength(files, n, r.fileLocs);
        CountGroupsConserve(files, n);
        SizeGroupsConserve(files, n, r.fileLocs);
      }
    }
  }

  lemma SizeLength(files: Bucket, n: int, locs: Locs)
    requires files != [] && n <= |files|
    ensures |SizeGroups(files, n, locs)| == if n <= 1 || locs == map[] then Max(1, n) else Used(locs, files, n)
  {
    if n > 1 && locs != map[] { SizeGroupsCount(files, n, locs); } else { CountedLength(files, n); }
  }

  /** A plan keeps to `max_slices` exactly when that allows a slice at all and, for plans by count or size, either
      `min_slices` does not push the count above it or too few files have lines to fill that many slices. */
  lemma PlanIsBounded(r: Request)
    requires Plan(r).Ok?
    ensures 1 <= |Plan(r).value|
    ensures var files := SortedSet(r.diffFiles);
            |Plan(r).value| <= r.maxSlices <==>
            && 1 <= r.maxSlices
            && (r.diffFiles == [] || ByDirectory(r)
                || Min(r.minSlices, |files|) <= r.maxSlices
                || (r.strategy == "size" && r.fileLocs != map[]
                    && Used(r.fileLocs, files, Min(r.minSlices, |files|)) <= r.maxSlices))
    ensures r.minSlices <= r.maxSlices ==> |Plan(r).value| <= Max(1, r.maxSlices)
  {
    hide Sort, Dedup, LexLe, TopKeys, Plan, SortedSet, Weighty, AsFiles, AsDirectory, ResolveStrategy;
    StrategyText(r);
    var files := SortedSet(r.diffFiles);
    PlanHasLength(r);
    if r.diffFiles != [] { PlanIsOk(r); }
    PlanIsAStack(r);
    if ByDirectory(r) { DirectoryPlanGroups(r); }
    if r.diffFiles != [] { SortedSetFacts(r.diffFiles); }
  }

  lemma PlanIsOk(r: Request)
    requires Plan(r).Ok? && r.diffFiles != []
    ensures AsFiles(r) || AsDirectory(r) || r.strategy == "size"
    ensures !AsDirectory(r) ==> SliceCount(r, |SortedSet(r.diffFiles)|).Ok?
  {
    hide SortedSet, AsFiles, AsDirectory, ResolveStrategy;
    StrategyText(r);
  }

  // ---- Errors ----

  /** A plan fails exactly for an unknown strategy, or for a cap of zero where a count has to be made from it. */
  lemma PlanFails(r: Request)
    ensures Plan(r).Err? <==>
            && r.diffFiles != []
            && (r.strategy !in {"auto", "files", "directory", "size"}
                || (!AsDirectory(r) && r.nSlices == None && r.maxFilesPerSlice == 0))
    ensures Plan(r).Err? ==>
              Plan(r).error == if r.strategy in {"auto", "files", "directory", "size"} then DivisionByZero
                               else UnknownStrategy(r.strategy)
  {
    hide SortedSet, ResolveStrategy, SizeGroups, CountGroups, DirectoryGroups;
    StrategyText(r);
  }

  // ---- The choice left to the planner ----

  /** A diff that fits one slice stays together. */
  lemma AutoKeepsTogether(r: Request)
    requires r.strategy == "auto" && r.nSlices == None && r.minSlices <= 1 <= r.maxSlices
    requires r.diffFiles != [] && FileCount(r.diffFiles) <= r.maxFilesPerSlice
    ensures Plan(r).Ok? && |Plan(r).value| == 1
    ensures forall f :: f in Plan(r).value[0].files <==> f in r.diffFiles
  {
    hide Plan, SortedSet, Partitions;
    SortedSetFacts(r.diffFiles);
    FileCountIs(r.diffFiles);
    assert r.maxFilesPerSlice != 0;
    PlanFails(r);
    CeilDivCovers(|SortedSet(r.diffFiles)|, r.maxFilesPerSlice);
    if CeilDiv(|SortedSet(r.diffFiles)|, r.maxFilesPerSlice) > 1 {
      CeilDivBelow(|SortedSet(r.diffFiles)|, r.maxFilesPerSlice, 1);
    }
    PlanHasLength(r);
    CountedPlanPartitions(r);
    WholePartition(Plan(r).value, r.diffFiles);
  }

  lemma WholePartition(plan: seq<SplitSlice>, diff: seq<string>)
    requires Partitions(plan, diff) && |plan| == 1
    ensures forall f :: f in plan[0].files <==> f in diff
  {
  }

  /** A larger one is split by first component. */
  lemma AutoSplitsByDirectory(r: Request, i: nat, j: nat, f: string, g: string)
    requires r.strategy == "auto" && FileCount(r.diffFiles) > r.maxFilesPerSlice && r.diffFiles != []
    ensures Plan(r).Ok?
    ensures i < |Plan(r).value| && j < |Plan(r).value| && f in Plan(r).value[i].files && g in Plan(r).value[j].files ==>
              (i == j <==> Top(f) == Top(g))
  {
    hide Plan, Top, KeptGroups, HoldsKeys;
    DirectoryPlanIs(r);
    if i < |Plan(r).value| && j < |Plan(r).value| && f in Plan(r).value[i].files && g in Plan(r).value[j].files {
      SameSliceIffSameTop(r, i, j, f, g);
    }
  }

  lemma CeilDivBelow(a: nat, b: nat, c: int)
    requires b >= 1 && c < CeilDiv(a, b)
    ensures c * b < a
  {
    var minus: int := -(a as int);
    var q, rem := minus / b, minus % b;
    assert minus == q * b + rem && CeilDiv(a, b) == -q;
    ProductGrows(c, -q - 1, b);
    assert (-q - 1) * b == -(q * b) - b;
  }

  /** Without an explicit count a plan by files has the least number of slices that respects the cap, lowered to
      `max_slices` and raised to `min_slices` as far as there are files; a negative cap asks for one slice. */
  lemma DefaultCountIsLeast(r: Request, c: nat)
    requires ByCount(r) && r.nSlices == None
    requires if r.maxFilesPerSlice > 0
             then (c - 1) * r.maxFilesPerSlice < FileCount(r.diffFiles) <= c * r.maxFilesPerSlice
             else c == 1
    ensures var n := FileCount(r.diffFiles);
            |Plan(r).value| == Max(1, Max(Min(Min(c, r.maxSlices), n), Min(r.minSlices, n)))
  {
    hide Plan, SortedSet;
    var n, cap := FileCount(r.diffFiles), r.maxFilesPerSlice;
    FileCountIs(r.diffFiles);
    SortedSetFacts(r.diffFiles);
    PlanFails(r);
    CountedPlanIsEven(r);
    if cap > 0 {
      CeilDivCovers(n, cap);
      if c < CeilDiv(n, cap) { CeilDivBelow(n, cap, c); }
      if CeilDiv(n, cap) < c { ProductGrows(CeilDiv(n, cap), c - 1, cap); }
    } else {
      NegativeCap(n, cap);
    }
  }

  lemma NegativeTimes(q: nat, b: int)
    requires q >= 1 && b < 0
    ensures q * b <= b
  {
    ProductGrows(b, 0, q - 1);
    assert q * b == b * (q - 1) + b;
  }

  lemma NegativeCap(a: nat, b: int)
    requires b < 0
    ensures CeilDiv(a, b) <= 0
  {
    var q, rem := a / b, a % b;
    assert a == q * b + rem && 0 <= rem < -b;
    if q >= 1 { NegativeTimes(q, b); }
  }

  // ---- The order of components ----

  /** The first component is what stands before the first slash; without a slash it is the made-up one. */
  lemma TopIsFirstComponent(f: string, k: nat)
    requires k <= |f| && '/' !in f[..k] && (k < |f| ==> f[k] == '/')
    ensures Top(f) == if k < |f| then f[..k] else "(root)"
  {
    if k < |f| { UpToSlashSteps(f, k); } else { assert f[..k] == f; }
  }

  /** Slices come root first, then by component in code-point order. */
  lemma DirectoryOrder(r: Request, i: nat, j: nat, f: string, g: string)
    requires ByDirectory(r) && Plan(r).Ok? && i < j < |Plan(r).value|
    requires f in Plan(r).value[i].files && g in Plan(r).value[j].files
    ensures Top(g) != "(root)" && (Top(f) == "(root)" || (Top(f) != Top(g) && LexLe(Top(f), Top(g))))
  {
    hide Plan, SortedSet, KeptGroups, ByDirectory, Top, LexLe, TopKeys;
    DirectoryPlanGroups(r);
    var keys := TopKeys(SortedSet(r.diffFiles));
    assert Top(f) == keys[i] && Top(g) == keys[j];
    KeysAreSorted(SortedSet(r.diffFiles), i, j);
  }

  lemma KeysAreSorted(files: Bucket, i: nat, j: nat)
    requires i < j < |TopKeys(files)|
    ensures var keys := TopKeys(files);
            && keys[i] != keys[j] && keys[j] != "(root)"
            && (keys[i] == "(root)" || LexLe(keys[i], keys[j]))
  {
    hide LexLe, Tops;
    RootFirstIsTotalOrder();
    TopKeysFacts(files);
    SortSorts(Dedup(Tops(files)), RootFirst);
    var keys := TopKeys(files);
    assert RootFirst(keys[i], keys[j]);
  }

  lemma RootFirstIsTotalOrder()
    ensures TotalPreorder(RootFirst)
  {
    LexIsTotalOrder();
    hide LexLe;
  }

  /** Titles number the slices of a plan from one and name their total. */
  lemma TitlesCount(r: Request, i: nat)
    requires Plan(r).Ok? && i < |Plan(r).value| && r.diffFiles != []
    ensures Plan(r).value[i].title ==
            "harness: " + r.task[..Min(|r.task|, 80)] + " (step " + Decimal(i + 1) + "/" + Decimal(|Plan(r).value|) + ")"
  {
    hide SortedSet, Groups, Decimal, Sort, Branch;
    assert r.task[..|r.task|] == r.task;
  }

  /** Without changes there is one slice without files. */
  lemma NothingToSplit(r: Request)
    requires r.diffFiles == []
    ensures Plan(r).Ok? && |Plan(r).value| == 1 && Plan(r).value[0].files == [] && Plan(r).value[0].position == 0
    ensures Plan(r).value[0].branchName == "harness/" + r.worktreeId + "/step-0"
    ensures Plan(r).value[0].title ==
            "harness: " + (if r.task == "" then "(no changes)" else r.task[..Min(|r.task|, 80)]) + " (step 1/1)"
  {
    assert r.task[..|r.task|] == r.task;
    assert Decimal(0) == "0";
  }
}
