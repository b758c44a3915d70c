/** What every plan keeps: conservation, order, names and sizes of the slices. */
module PlanProperties {
  import opened Wrappers
  import opened Ordering
  import opened LoadBalance
  import opened SplitPlan

  // ---- Conservation ----

  ghost predicate Disjoint(groups: seq<Bucket>) {
    forall i, j, f :: 0 <= i < j < |groups| && f in groups[i] ==> f !in groups[j]
  }

  lemma {:induction false} FlattenMembers(groups: seq<Bucket>, f: string)
    ensures f in Flatten(groups) <==> exists i :: 0 <= i < |groups| && f in groups[i]
  {
    if groups != [] {
      var last := |groups| - 1;
      FlattenMembers(groups[..last], f);
      if f in Flatten(groups[..last]) {
        var i :| 0 <= i < last && f in groups[..last][i];
        assert f in groups[i];
      }
      if i :| 0 <= i < |groups| && f in groups[i] {
        assert i < last ==> f in groups[..last][i];
      }
    }
  }

  /** Groups whose concatenation repeats nothing are disjoint, and repeat nothing themselves. */
  lemma DistinctParts(left: Bucket, right: Bucket)
    requires Distinct(left + right)
    ensures Distinct(left) && Distinct(right) && forall f :: f in left ==> f !in right
  {
    assert forall i :: 0 <= i < |left| ==> (left + right)[i] == left[i];
    assert forall i :: 0 <= i < |right| ==> (left + right)[|left| + i] == right[i];
  }

  lemma {:induction false} FlattenDistinct(groups: seq<Bucket>)
    requires Distinct(Flatten(groups))
    ensures Disjoint(groups)
    ensures forall i :: 0 <= i < |groups| ==> Distinct(groups[i])
  {
    if groups != [] {
      var last := |groups| - 1;
      var left, right := Flatten(groups[..last]), groups[last];
      DistinctParts(left, right);
      hide Flatten;
      FlattenDistinct(groups[..last]);
      forall i, f | 0 <= i < last && f in groups[i] ensures f !in right {
        assert f in groups[..last][i];
        FlattenMembers(groups[..last], f);
      }
      forall i | 0 <= i < |groups| ensures Distinct(groups[i]) {
        if i < last { assert Distinct(groups[..last][i]); }
      }
      forall i, j, f | 0 <= i < j < |groups| && f in groups[i] ensures f !in groups[j] {
        if j < last { assert f in groups[..last][i] && f !in groups[..last][j]; }
      }
    }
  }

  lemma SliceFiles(groups: seq<Bucket>, worktreeId: string, task: string, i: nat)
    requires i < |groups|
    ensures var files := MakeSlices(groups, worktreeId, task)[i].files;
            && multiset(files) == multiset(groups[i])
            && SortedBy(files, LexLe)
            && (forall f :: f in files <==> f in groups[i])
            && |files| == |groups[i]|
            && (Distinct(groups[i]) ==> Distinct(files))
  {
    var files := Sort(groups[i], LexLe);
    LexIsTotalOrder();
    SortPermutes(groups[i], LexLe);
    SortSorts(groups[i], LexLe);
    forall f ensures f in files <==> f in groups[i] {
      assert f in files <==> f in multiset(files);
    }
    if Distinct(groups[i]) { PermutationKeepsDistinct(groups[i], files); }
  }

  lemma ConservedGroupsPartition(groups: seq<Bucket>, files: Bucket, worktreeId: string, task: string)
    requires Distinct(files) && multiset(Flatten(groups)) == multiset(files) && [] !in groups
    ensures Partitions(MakeSlices(groups, worktreeId, task), files)
  {
    var plan := MakeSlices(groups, worktreeId, task);
    PermutationKeepsDistinct(files, Flatten(groups));
    FlattenDistinct(groups);
    forall i | 0 <= i < |plan|
      ensures forall f :: f in plan[i].files <==> f in groups[i]
      ensures plan[i].files != [] && Distinct(plan[i].files)
    {
      SliceFiles(groups, worktreeId, task, i);
      assert groups[i] in groups;
    }
    forall f
      ensures f in files <==> exists i :: 0 <= i < |plan| && f in plan[i].files
    {
      FlattenMembers(groups, f);
      assert f in Flatten(groups) <==> f in multiset(Flatten(groups));
      if i :| 0 <= i < |groups| && f in groups[i] { assert f in plan[i].files; }
    }
  }

  ghost predicate SameFiles(a: seq<string>, b: seq<string>) {
    forall f :: f in a <==> f in b
  }

  lemma PartitionsOfSameFiles(plan: seq<SplitSlice>, a: seq<string>, b: seq<string>)
    requires SameFiles(a, b) && Partitions(plan, a)
    ensures Partitions(plan, b)
  {
  }

  // ---- What the strategy asks for ----

  /** How many different files changed. */
  function FileCount(diff: seq<string>): nat {
    |set f | f in diff|
  }

  /** Asked to go by count, or left the choice with a diff that fits one slice. */
  predicate AsFiles(r: Request) {
    r.strategy == "files" || (r.strategy == "auto" && FileCount(r.diffFiles) <= r.maxFilesPerSlice)
  }

  /** Asked to go by directory, or left the choice with a diff that does not. */
  predicate AsDirectory(r: Request) {
    r.strategy == "directory" || (r.strategy == "auto" && FileCount(r.diffFiles) > r.maxFilesPerSlice)
  }

  lemma {:induction false} DistinctCard(s: Bucket)
    requires Distinct(s)
    ensures |set f | f in s| == |s|
  {
    if s != [] {
      var init, last := s[..|s| - 1], s[|s| - 1];
      DistinctCard(init);
      assert s == init + [last];
      assert (set f | f in s) == (set f | f in init) + {last};
    }
  }

  lemma FileCountIs(diff: seq<string>)
    ensures |SortedSet(diff)| == FileCount(diff)
  {
    SortedSetFacts(diff);
    DistinctCard(SortedSet(diff));
    assert (set f | f in diff) == (set f | f in SortedSet(diff));
  }

  lemma StrategyText(r: Request)
    ensures var kind := ResolveStrategy(r, |SortedSet(r.diffFiles)|);
            && (kind == Ok(Files) <==> AsFiles(r))
            && (kind == Ok(Directory) <==> AsDirectory(r))
            && (kind == Ok(Size) <==> r.strategy == "size")
            && (kind.Err? ==> kind.error == UnknownStrategy(r.strategy))
  {
    FileCountIs(r.diffFiles);
    assert |"files"| == 5 && |"directory"| == 9 && |"size"| == 4 && |"auto"| == 4 && "size"[0] != "auto"[0];
  }

  /** By count or by size, a plan is a partition of the changed files. */
  lemma CountedPlanPartitions(r: Request)
    requires r.diffFiles != [] && Plan(r).Ok? && (AsFiles(r) || r.strategy == "size")
    ensures Partitions(Plan(r).value, r.diffFiles)
  {
    hide ResolveStrategy, AsFiles, AsDirectory;
    StrategyText(r);
    var files := SortedSet(r.diffFiles);
    SortedSetFacts(r.diffFiles);
    var groups := Groups(r, files).value;
    var n := SliceCount(r, |files|).value;
    CountGroupsConserve(files, n);
    SizeGroupsConserve(files, n, r.fileLocs);
    ConservedGroupsPartition(groups, files, r.worktreeId, r.task);
    PartitionsOfSameFiles(Plan(r).value, files, r.diffFiles);
  }

  // ---- By directory ----

  lemma {:induction false} UnderMembers(files: Bucket, key: string, f: string)
    ensures f in Under(files, key) <==> f in files && Top(f) == key
  {
    if files != [] {
      UnderMembers(files[..|files| - 1], key, f);
      assert files == files[..|files| - 1] + [files[|files| - 1]];
    }
  }

  lemma {:induction false} UnderDistinct(files: Bucket, key: string)
    requires Distinct(files)
    ensures Distinct(Under(files, key))
  {
    if files != [] {
      var init, last := files[..|files| - 1], files[|files| - 1];
      UnderDistinct(init, key);
      UnderMembers(init, key, last);
    }
  }

  lemma TopKeysFacts(files: Bucket)
    ensures Distinct(TopKeys(files))
    ensures forall k :: k in TopKeys(files) <==> exists i :: 0 <= i < |files| && Top(files[i]) == k
  {
    var tops := Tops(files);
    DedupKeepsSet(tops);
    SortPermutes(Dedup(tops), RootFirst);
    PermutationKeepsDistinct(Dedup(tops), TopKeys(files));
    forall k ensures k in TopKeys(files) <==> exists i :: 0 <= i < |files| && Top(files[i]) == k {
      assert k in TopKeys(files) <==> k in multiset(TopKeys(files));
      assert k in Dedup(tops) <==> k in multiset(Dedup(tops));
      if k in tops {
        var i :| 0 <= i < |tops| && tops[i] == k;
        assert Top(files[i]) == k;
      }
      if i :| 0 <= i < |files| && Top(files[i]) == k { assert tops[i] == k; }
    }
  }

  lemma GroupMembers(files: Bucket, key: string)
    requires Distinct(files)
    ensures forall f :: f in Group(files, key) <==> f in files && Top(f) == key
    ensures Distinct(Group(files, key))
  {
    SortPermutes(Under(files, key), LexLe);
    UnderDistinct(files, key);
    PermutationKeepsDistinct(Under(files, key), Group(files, key));
    forall f ensures f in Group(files, key) <==> f in files && Top(f) == key {
      UnderMembers(files, key, f);
      assert f in Group(files, key) <==> f in multiset(Group(files, key));
      assert f in Under(files, key) <==> f in multiset(Under(files, key));
    }
  }

  /** The number of directory groups a plan keeps. */
  function KeptGroups(r: Request): nat {
    var groups := |TopKeys(SortedSet(r.diffFiles))|;
    Min(groups, Max(1, r.maxSlices))
  }

  ghost predicate ByDirectory(r: Request) {
    r.diffFiles != [] && AsDirectory(r)
  }

  /** Slice `i` holds exactly the changed files under `keys[i]`, and `keys` are the components of the diff. */
  ghost predicate HoldsKeys(plan: seq<SplitSlice>, diff: seq<string>, keys: seq<string>) {
    && |plan| <= |keys| && Distinct(keys)
    && (forall f :: f in diff ==> Top(f) in keys)
    && (forall k :: k in keys ==> exists f :: f in diff && Top(f) == k)
    && (forall i, f :: 0 <= i < |plan| ==> (f in plan[i].files <==> f in diff && Top(f) == keys[i]))
  }

  lemma DirectoryPlanIs(r: Request)
    requires ByDirectory(r)
    ensures Plan(r).Ok?
    ensures var files, plan := SortedSet(r.diffFiles), Plan(r).value;
            var groups := DirectoryGroups(files)[..KeptGroups(r)];
            && 1 <= |plan| == KeptGroups(r) <= |TopKeys(files)|
            && plan == MakeSlices(groups, r.worktreeId, r.task)
  {
    hide Sort, Dedup, LexLe, MakeSlice, Group, ResolveStrategy, AsDirectory;
    var files := SortedSet(r.diffFiles);
    SortedSetFacts(r.diffFiles);
    StrategyText(r);
    hide SortedSet;
    TopKeysFacts(files);
    assert Top(files[0]) in TopKeys(files);
    assert |TopKeys(files)| >= 1;
    assert Groups(r, files).value == DirectoryGroups(files)[..KeptGroups(r)];
  }

  lemma DirectoryKeys(diff: seq<string>)
    ensures var keys := TopKeys(SortedSet(diff));
            && Distinct(keys)
            && (forall f :: f in diff ==> Top(f) in keys)
            && (forall k :: k in keys ==> exists f :: f in diff && Top(f) == k)
  {
    var files := SortedSet(diff);
    SortedSetFacts(diff);
    hide SortedSet, TopKeys, Top;
    TopKeysFacts(files);
    var keys := TopKeys(files);
    forall f | f in diff ensures Top(f) in keys {
      var i :| 0 <= i < |files| && files[i] == f;
    }
    forall k | k in keys ensures exists f :: f in diff && Top(f) == k {
      var i :| 0 <= i < |files| && Top(files[i]) == k;
      assert files[i] in diff;
    }
  }

  /** By directory, slice `i` holds exactly the changed files under the `i`-th component. */
  lemma DirectoryPlanGroups(r: Request)
    requires ByDirectory(r)
    ensures Plan(r).Ok?
    ensures var keys, plan := TopKeys(SortedSet(r.diffFiles)), Plan(r).value;
            && |plan| == KeptGroups(r) && 1 <= |plan|
            && HoldsKeys(plan, r.diffFiles, keys)
    ensures forall i :: 0 <= i < |Plan(r).value| ==> Distinct(Plan(r).value[i].files)
  {
    hide Sort, Dedup, LexLe, Plan, MakeSlices, KeptGroups, Top, Group, TopKeys;
    var files := SortedSet(r.diffFiles);
    SortedSetFacts(r.diffFiles);
    DirectoryPlanIs(r);
    var keys, plan := TopKeys(files), Plan(r).value;
    DirectoryKeys(r.diffFiles);
    var groups := DirectoryGroups(files)[..KeptGroups(r)];
    forall i | 0 <= i < |plan|
      ensures Distinct(plan[i].files)
      ensures forall f :: f in plan[i].files <==> f in r.diffFiles && Top(f) == keys[i]
    {
      assert groups[i] == Group(files, keys[i]);
      GroupMembers(files, keys[i]);
      SliceFiles(groups, r.worktreeId, r.task, i);
    }
  }

  /** By directory, files are lost exactly when there are more components than slices allowed. */
  lemma DirectoryPlanPartitions(r: Request)
    requires ByDirectory(r)
    ensures Plan(r).Ok?
    ensures Partitions(Plan(r).value, r.diffFiles) <==> |TopKeys(SortedSet(r.diffFiles))| <= Max(1, r.maxSlices)
  {
    DirectoryPlanGroups(r);
    var keys, plan := TopKeys(SortedSet(r.diffFiles)), Plan(r).value;
    if |keys| <= Max(1, r.maxSlices) {
      AllKeysKept(plan, r.diffFiles, keys);
    } else {
      LastKeyLost(plan, r.diffFiles, keys);
    }
  }

  lemma ComponentCount(diff: seq<string>)
    ensures |TopKeys(SortedSet(diff))| == |set f | f in diff :: Top(f)|
  {
    var keys := TopKeys(SortedSet(diff));
    hide TopKeys, SortedSet, Top;
    DirectoryKeys(diff);
    DistinctCard(keys);
    assert (set k | k in keys) == (set f | f in diff :: Top(f));
  }

  lemma AllKeysKept(plan: seq<SplitSlice>, diff: seq<string>, keys: seq<string>)
    requires HoldsKeys(plan, diff, keys) && |plan| == |keys|
    requires forall i :: 0 <= i < |plan| ==> Distinct(plan[i].files)
    ensures Partitions(plan, diff)
  {
    forall i | 0 <= i < |plan| ensures plan[i].files != [] {
      assert keys[i] in keys;
      var f :| f in diff && Top(f) == keys[i];
      assert f in plan[i].files;
    }
    forall f | f in diff ensures exists i :: 0 <= i < |plan| && f in plan[i].files {
      var i :| 0 <= i < |keys| && keys[i] == Top(f);
      assert f in plan[i].files;
    }
    forall i, j, f | 0 <= i < j < |plan| && f in plan[i].files ensures f !in plan[j].files {
      assert keys[i] != keys[j];
      assert f in plan[j].files <==> f in diff && Top(f) == keys[j];
    }
  }

  lemma LastKeyLost(plan: seq<SplitSlice>, diff: seq<string>, keys: seq<string>)
    requires HoldsKeys(plan, diff, keys) && |plan| < |keys|
    ensures exists f :: f in diff && forall i :: 0 <= i < |plan| ==> f !in plan[i].files
  {
    assert keys[|plan|] in keys;
    var f :| f in diff && Top(f) == keys[|plan|];
    assert forall i :: 0 <= i < |plan| ==> f !in plan[i].files;
  }

  /** Two planned files share a slice exactly when they share their first component. */
  lemma SameSliceIffSameTop(r: Request, i: nat, j: nat, f: string, g: string)
    requires ByDirectory(r) && Plan(r).Ok? && i < |Plan(r).value| && j < |Plan(r).value|
    requires f in Plan(r).value[i].files && g in Plan(r).value[j].files
    ensures i == j <==> Top(f) == Top(g)
  {
    hide Plan, TopKeys, SortedSet, Top, KeptGroups, ByDirectory;
    DirectoryPlanGroups(r);
    var keys := TopKeys(SortedSet(r.diffFiles));
    assert Top(f) == keys[i] && Top(g) == keys[j];
  }

  // ---- Files at the root ----

  /** A directory may be named like the made-up component; its files are then taken for files at the root. */
  predicate LooksLikeRoot(f: string) {
    '/' in f && UpToSlash(f) == ROOT
  }

  lemma RootComponent(f: string, g: string)
    requires '/' !in f
    ensures Top(f) == Top(g) <==> '/' !in g || LooksLikeRoot(g)
  {
  }

  lemma RootIsShared()
    ensures LooksLikeRoot("(root)/b") && Top("a") == Top("(root)/b")
  {
    var s := "(root)/b";
    assert UpToSlash(s) == ROOT by {
      assert s[1..] == "root)/b" && s[2..] == "oot)/b" && s[3..] == "ot)/b";
      assert s[4..] == "t)/b" && s[5..] == ")/b" && s[6..] == "/b";
      UpToSlashSteps(s, 6);
    }
    assert s[6] == '/';
  }

  lemma {:induction false} UpToSlashSteps(f: string, k: nat)
    requires k < |f| && f[k] == '/' && '/' !in f[..k]
    ensures UpToSlash(f) == f[..k]
  {
    if k > 0 {
      assert f[0] in f[..k];
      assert f[1..][..k - 1] == f[..k][1..];
      UpToSlashSteps(f[1..], k - 1);
    }
  }

  /** The slice of a file at the root holds nothing but files at the root exactly when no changed file lies under a
      directory with the name kept for them. */
  lemma RootFilesAreAlone(r: Request, i: nat, f: string)
    requires ByDirectory(r) && Plan(r).Ok? && i < |Plan(r).value|
    requires f in Plan(r).value[i].files && '/' !in f
    ensures (forall g :: g in Plan(r).value[i].files ==> '/' !in g) <==>
            forall g :: g in r.diffFiles ==> !LooksLikeRoot(g)
    ensures forall g :: g in r.diffFiles && '/' !in g ==> g in Plan(r).value[i].files
  {
    hide Plan, TopKeys, SortedSet, Top, KeptGroups, ByDirectory, LooksLikeRoot;
    DirectoryPlanGroups(r);
    var slice, keys := Plan(r).value[i].files, TopKeys(SortedSet(r.diffFiles));
    forall g ensures g in slice <==> g in r.diffFiles && ('/' !in g || LooksLikeRoot(g)) {
      assert f in slice <==> f in r.diffFiles && Top(f) == keys[i];
      assert g in slice <==> g in r.diffFiles && Top(g) == keys[i];
      RootComponent(f, g);
    }
    assert forall g :: LooksLikeRoot(g) ==> '/' in g by { hide *; LooksHasSlash(); }
  }

  lemma LooksHasSlash()
    ensures forall g :: LooksLikeRoot(g) ==> '/' in g
  {
  }

  // ---- Positions, names and counts ----

  function FromDecimal(s: string): int {
    if s == "" then 0 else 10 * FromDecimal(s[..|s| - 1]) + (s[|s| - 1] as int - '0' as int)
  }

  lemma {:induction false} DecimalReads(n: nat)
    ensures FromDecimal(Decimal(n)) == n
  {
    if n >= 10 {
      DecimalReads(n / 10);
      var s := Decimal(n);
      assert s[..|s| - 1] == Decimal(n / 10);
    }
  }

  lemma BranchesDiffer(worktreeId: string, i: nat, j: nat)
    requires Branch(worktreeId, i) == Branch(worktreeId, j)
    ensures i == j
  {
    var prefix := "harness/" + worktreeId + "/step-";
    assert Branch(worktreeId, i)[|prefix|..] == Decimal(i);
    assert Branch(worktreeId, j)[|prefix|..] == Decimal(j);
    DecimalReads(i);
    DecimalReads(j);
  }

  /** Slices come in stack order, sorted inside, each on a branch of its own. */
  lemma PlanIsAStack(r: Request)
    requires Plan(r).Ok?
    ensures var plan := Plan(r).value;
            && plan != []
            && (forall i :: 0 <= i < |plan| ==>
                  plan[i].position == i && plan[i].branchName == Branch(r.worktreeId, i) &&
                  SortedBy(plan[i].files, LexLe))
            && forall i, j :: 0 <= i < j < |plan| ==> plan[i].branchName != plan[j].branchName
  {
    var plan := Plan(r).value;
    if r.diffFiles != [] {
      var files := SortedSet(r.diffFiles);
      var groups := Groups(r, files).value;
      var used := if groups == [] then [files] else groups;
      forall i | 0 <= i < |plan| ensures SortedBy(plan[i].files, LexLe) {
        SliceFiles(used, r.worktreeId, r.task, i);
      }
    }
    forall i, j | 0 <= i < j < |plan| ensures plan[i].branchName != plan[j].branchName {
      if plan[i].branchName == plan[j].branchName { BranchesDiffer(r.worktreeId, i, j); }
    }
  }

  ghost predicate ByCount(r: Request) {
    r.diffFiles != [] && Plan(r).Ok? && AsFiles(r)
  }

  /** The number of slices decided on before any are made. */
  function DecidedCount(r: Request): int {
    match SliceCount(r, |SortedSet(r.diffFiles)|)
    case Ok(n) => n
    case Err(_) => 0
  }

  lemma CountedSizes(r: Request)
    requires ByCount(r)
    ensures var files := SortedSet(r.diffFiles);
            var groups := CountGroups(files, DecidedCount(r));
            && |Plan(r).value| == |groups|
            && forall i :: 0 <= i < |groups| ==> |Plan(r).value[i].files| == |groups[i]|
  {
    hide ResolveStrategy, AsFiles, AsDirectory;
    var files := SortedSet(r.diffFiles);
    SortedSetFacts(r.diffFiles);
    StrategyText(r);
    var groups := Groups(r, files).value;
    CountGroupsConserve(files, DecidedCount(r));
    forall i | 0 <= i < |groups| ensures |Plan(r).value[i].files| == |groups[i]| {
      SliceFiles(groups, r.worktreeId, r.task, i);
    }
  }

  /** Round-robin slices differ by at most one file, and there are as many as asked for. */
  lemma CountedPlanIsEven(r: Request)
    requires ByCount(r)
    ensures var plan, n := Plan(r).value, DecidedCount(r);
            && |plan| == Max(1, n)
            && forall i, j :: 0 <= i < |plan| && 0 <= j < |plan| ==> |plan[i].files| <= |plan[j].files| + 1
  {
    hide Sort, Dedup, LexLe;
    var files := SortedSet(r.diffFiles);
    SortedSetFacts(r.diffFiles);
    CountedSizes(r);
    CountGroupsEven(files, DecidedCount(r));
  }

  lemma CountGroupsEven(files: Bucket, n: int)
    requires n <= |files|
    ensures |CountGroups(files, n)| == Max(1, n)
    ensures forall i, j :: 0 <= i < Max(1, n) && 0 <= j < Max(1, n) ==>
              |CountGroups(files, n)[i]| <= |CountGroups(files, n)[j]| + 1
  {
    if n > 1 {
      DealHasNoEmpty(files, n);
      DropEmptyOfFull(Deal(files, n));
      forall i | 0 <= i < n
        ensures |files| / n <= |CountGroups(files, n)[i]| <= |files| / n + 1
      {
        DealSize(files, n, i);
      }
    }
  }

  /** The per-slice cap holds exactly when the chosen number of slices can hold the files at all. */
  lemma SliceCapHolds(r: Request)
    requires ByCount(r) && r.maxFilesPerSlice >= 1
    ensures var nFiles := |SortedSet(r.diffFiles)|;
            (forall i :: 0 <= i < |Plan(r).value| ==> |Plan(r).value[i].files| <= r.maxFilesPerSlice)
            <==> nFiles <= Max(1, DecidedCount(r)) * r.maxFilesPerSlice
  {
    var files, cap := SortedSet(r.diffFiles), r.maxFilesPerSlice;
    SortedSetFacts(r.diffFiles);
    var n := DecidedCount(r);
    var k: nat := Max(1, n);
    var groups := CountGroups(files, n);
    CountedSizes(r);
    TimesIsProduct(k, cap);
    if |files| <= Times(k, cap) {
      forall i | 0 <= i < |groups| ensures |groups[i]| <= cap {
        if n > 1 {
          DropEmptyMembers(Deal(files, n), groups[i]);
          assert groups[i] in groups;
          var b :| 0 <= b < n && Deal(files, n)[b] == groups[i];
          DealFair(files, n, b, cap);
        }
      }
    }
    if forall i :: 0 <= i < |groups| ==> |groups[i]| <= cap {
      CappedGroupsHold(groups, files, n, cap);
    }
  }

  lemma CappedGroupsHold(groups: seq<Bucket>, files: Bucket, n: int, cap: nat)
    requires files != [] && groups == CountGroups(files, n)
    requires forall i :: 0 <= i < |groups| ==> |groups[i]| <= cap
    ensures |files| <= Times(Max(1, n), cap)
  {
    CountGroupsConserve(files, n);
    forall b | b in groups ensures Sum(Cost(map[]), b) <= cap { CountingCost(b); }
    RivalHolds(Cost(map[]), files, |groups|, groups, cap);
    CountingCost(files);
    TimesLonger(|groups|, Max(1, n), cap);
  }

  lemma {:induction false} TimesLonger(j: nat, k: nat, x: nat)
    requires j <= k
    ensures Times(j, x) <= Times(k, x)
  {
    if j < k { TimesLonger(j, k - 1, x); }
  }

  /** With no explicit count, the cap holds whenever enough slices are allowed. */
  lemma DefaultCountKeepsCap(r: Request)
    requires ByCount(r) && r.maxFilesPerSlice >= 1 && r.nSlices.None?
    requires CeilDiv(|SortedSet(r.diffFiles)|, r.maxFilesPerSlice) <= r.maxSlices
    ensures forall i :: 0 <= i < |Plan(r).value| ==> |Plan(r).value[i].files| <= r.maxFilesPerSlice
  {
    var nFiles, cap := |SortedSet(r.diffFiles)|, r.maxFilesPerSlice;
    SortedSetFacts(r.diffFiles);
    CeilDivCovers(nFiles, cap);
    var n := DecidedCount(r);
    assert n >= CeilDiv(nFiles, cap);
    ProductGrows(CeilDiv(nFiles, cap), n, cap);
    SliceCapHolds(r);
  }

  lemma ProductGrows(a: int, b: int, c: nat)
    requires a <= b
    ensures a * c <= b * c
  {
  }

  lemma CeilDivCovers(a: nat, b: nat)
    requires a >= 1 && b >= 1
    ensures 1 <= CeilDiv(a, b) <= a && CeilDiv(a, b) * b >= a
  {
    var minus: int := -(a as int);
    var q, rem := minus / b, minus % b;
    assert minus == q * b + rem;
    assert q >= 0 ==> q * b >= 0;
    assert q < minus ==> q * b <= (minus - 1) * b;
    assert (minus - 1) * b == minus * b - b;
    assert minus * b <= minus;
  }

  /** An explicit count wins under `auto` as well: it is raised to one, lowered to `max_slices` and to the number of
      files, and raised again to `min_slices` as far as there are files. A large count is not collapsed to one slice. */
  lemma ExplicitCountIsKept(r: Request, n: int)
    requires ByCount(r) && r.nSlices == Some(n)
    ensures var nFiles := |SortedSet(r.diffFiles)|;
            && |Plan(r).value| == Max(1, Max(Min(Min(Max(1, n), r.maxSlices), nFiles), Min(r.minSlices, nFiles)))
            && (1 <= n && 1 <= r.minSlices <= r.maxSlices ==>
                  |Plan(r).value| == Min(Max(Min(n, r.maxSlices), r.minSlices), nFiles))
  {
    SortedSetFacts(r.diffFiles);
    CountedPlanIsEven(r);
  }
}
