/** Planning a stack: which changed files go into which pull request. */
module SplitPlan {
  import opened Wrappers
  import opened Ordering
  import opened LoadBalance

  datatype SplitSlice = SplitSlice(position: nat, files: Bucket, branchName: string, title: string)

  datatype Strategy = Files | Directory | Size

  datatype PlanError = UnknownStrategy(name: string) | DivisionByZero

  datatype Request = Request(
    diffFiles: seq<string>,
    strategy: string,
    worktreeId: string,
    task: string,
    nSlices: Option<int>,
    maxFilesPerSlice: int,
    minSlices: int,
    maxSlices: int,
    fileLocs: Locs)

  const ROOT := "(root)"

  // ---- Text ----

  function Decimal(n: nat): string {
    var digit := ['0' + (n % 10) as char];
    if n < 10 then digit else Decimal(n / 10) + digit
  }

  function Branch(worktreeId: string, position: nat): string {
    "harness/" + worktreeId + "/step-" + Decimal(position)
  }

  function Truncate(s: string, n: nat): string {
    if |s| <= n then s else s[..n]
  }

  // ---- Expressions of the planner ----

  function Max(a: int, b: int): int { if a < b then b else a }

  function Min(a: int, b: int): int { if b < a then b else a }

  function ResolveStrategy(r: Request, nFiles: nat): Result<Strategy, PlanError> {
    if r.strategy == "files" then Ok(Files)
    else if r.strategy == "directory" then Ok(Directory)
    else if r.strategy == "size" then Ok(Size)
    else if r.strategy == "auto" then Ok(if nFiles <= r.maxFilesPerSlice then Files else Directory)
    else Err(UnknownStrategy(r.strategy))
  }

  /** The quotient rounded up, for divisors of either sign. */
  function CeilDiv(a: int, b: int): int
    requires b != 0
  {
    if b > 0 then -((-a) / b) else a / b
  }

  function SliceCount(r: Request, nFiles: nat): Result<int, PlanError> {
    if r.nSlices.None? && r.maxFilesPerSlice == 0 then Err(DivisionByZero)
    else
      var wanted := match r.nSlices
        case Some(n) => Max(1, n)
        case None => Max(1, CeilDiv(nFiles, r.maxFilesPerSlice));
      Ok(Max(Min(Min(wanted, r.maxSlices), nFiles), Min(r.minSlices, nFiles)))
  }

  function MakeSlice(position: nat, files: Bucket, worktreeId: string, task: string, total: nat): SplitSlice {
    SplitSlice(position, Sort(files, LexLe), Branch(worktreeId, position),
               "harness: " + Truncate(task, 80) + " (step " + Decimal(position + 1) + "/" + Decimal(total) + ")")
  }

  function EmptySlice(worktreeId: string, task: string): SplitSlice {
    SplitSlice(0, [], Branch(worktreeId, 0),
               "harness: " + (if task == "" then "(no changes)" else Truncate(task, 80)) + " (step 1/1)")
  }

  // ---- Grouping by directory ----

  function UpToSlash(f: string): string {
    if f == "" || f[0] == '/' then "" else [f[0]] + UpToSlash(f[1..])
  }

  /** The first path component; files at the root share a made-up one. */
  function Top(f: string): string {
    if '/' in f then UpToSlash(f) else ROOT
  }

  predicate RootFirst(a: string, b: string) {
    a == ROOT || (b != ROOT && LexLe(a, b))
  }

  function Tops(files: Bucket): seq<string> {
    seq(|files|, i requires 0 <= i < |files| => Top(files[i]))
  }

  function TopKeys(files: Bucket): seq<string> {
    Sort(Dedup(Tops(files)), RootFirst)
  }

  function Under(files: Bucket, key: string): Bucket {
    if files == [] then []
    else
      var last := files[|files| - 1];
      Under(files[..|files| - 1], key) + if Top(last) == key then [last] else []
  }

  function Group(files: Bucket, key: string): Bucket {
    Sort(Under(files, key), LexLe)
  }

  function GroupAll(files: Bucket, keys: seq<string>): seq<Bucket> {
    seq(|keys|, i requires 0 <= i < |keys| => Group(files, keys[i]))
  }

  function DirectoryGroups(files: Bucket): seq<Bucket> {
    GroupAll(files, TopKeys(files))
  }

  method CollectByTop(files: Bucket) returns (keys: seq<string>, buckets: map<string, Bucket>)
    ensures keys == Dedup(Tops(files))
    ensures forall k :: k in buckets <==> k in keys
    ensures forall k :: k in buckets ==> buckets[k] == Under(files, k)
  {
    keys, buckets := [], map[];
    for i := 0 to |files|
      invariant keys == Dedup(Tops(files[..i]))
      invariant forall k :: k in buckets <==> k in keys
      invariant forall k :: Under(files[..i], k) == if k in buckets then buckets[k] else []
    {
      var top := Top(files[i]);
      assert files[..i + 1][..i] == files[..i];
      assert Tops(files[..i + 1]) == Tops(files[..i]) + [top];
      DedupKeepsSet(Tops(files[..i]));
      DedupAppend(Tops(files[..i]), top);
      if top !in buckets {
        keys := keys + [top];
        buckets := buckets[top := []];
      }
      buckets := buckets[top := buckets[top] + [files[i]]];
    }
    assert files[..|files|] == files;
  }

  method SplitByDirectory(files: Bucket) returns (out: seq<Bucket>)
    ensures out == DirectoryGroups(files)
  {
    var keys, buckets := CollectByTop(files);
    SortPermutes(keys, RootFirst);
    keys := Sort(keys, RootFirst);
    assert forall k :: k in keys ==> k in multiset(keys);
    out := CollectGroups(keys, buckets, files);
  }

  method CollectGroups(keys: seq<string>, buckets: map<string, Bucket>, ghost files: Bucket) returns (out: seq<Bucket>)
    requires forall k :: k in keys ==> k in buckets && buckets[k] == Under(files, k)
    ensures out == GroupAll(files, keys)
  {
    out := [];
    for i := 0 to |keys|
      invariant |out| == i
      invariant forall j :: 0 <= j < i ==> out[j] == Group(files, keys[j])
    {
      out := out + [Sort(buckets[keys[i]], LexLe)];
    }
  }

  lemma DedupAppend(s: seq<string>, x: string)
    ensures Dedup(s + [x]) == if x in s then Dedup(s) else Dedup(s) + [x]
  {
    assert (s + [x])[..|s|] == s;
  }

  // ---- The planner ----

  function SortedSet(files: seq<string>): Bucket {
    Sort(Dedup(files), LexLe)
  }

  function Groups(r: Request, files: Bucket): Result<seq<Bucket>, PlanError> {
    match ResolveStrategy(r, |files|)
    case Err(e) => Err(e)
    case Ok(Directory) =>
      var groups := DirectoryGroups(files);
      var n := Max(1, Min(|groups|, r.maxSlices));
      Ok(if n <= |groups| then groups[..n] else groups)
    case Ok(kind) =>
      match SliceCount(r, |files|)
      case Err(e) => Err(e)
      case Ok(n) => Ok(if kind == Files then CountGroups(files, n) else SizeGroups(files, n, r.fileLocs))
  }

  function MakeSlices(groups: seq<Bucket>, worktreeId: string, task: string): seq<SplitSlice> {
    seq(|groups|, i requires 0 <= i < |groups| => MakeSlice(i, groups[i], worktreeId, task, |groups|))
  }

  function Plan(r: Request): Result<seq<SplitSlice>, PlanError> {
    if r.diffFiles == [] then Ok([EmptySlice(r.worktreeId, r.task)])
    else
      var files := SortedSet(r.diffFiles);
      match Groups(r, files)
      case Err(e) => Err(e)
      case Ok(groups) =>
        Ok(MakeSlices(if groups == [] then [files] else groups, r.worktreeId, r.task))
  }

  method MakeGroups(r: Request, files: Bucket) returns (groups: Result<seq<Bucket>, PlanError>)
    ensures groups == Groups(r, files)
  {
    var strategy := ResolveStrategy(r, |files|);
    if strategy.Err? { return Err(strategy.error); }
    if strategy.value == Directory {
      var found := SplitByDirectory(files);
      var n := Max(1, Min(|found|, r.maxSlices));
      return Ok(if n <= |found| then found[..n] else found);
    }
    var count := SliceCount(r, |files|);
    if count.Err? { return Err(count.error); }
    var found;
    if strategy.value == Files {
      found := SplitByCount(files, count.value);
    } else {
      found := SplitBySize(files, count.value, r.fileLocs);
    }
    return Ok(found);
  }

  method PlanSplits(r: Request) returns (plan: Result<seq<SplitSlice>, PlanError>)
    ensures plan == Plan(r)
  {
    if r.diffFiles == [] { return Ok([EmptySlice(r.worktreeId, r.task)]); }
    var files := SortedSet(r.diffFiles);
    var found := MakeGroups(r, files);
    if found.Err? { return Err(found.error); }
    var groups := if found.value == [] then [files] else found.value;
    var slices := [];
    for i := 0 to |groups|
      invariant slices == MakeSlices(groups, r.worktreeId, r.task)[..i]
    {
      slices := slices + [MakeSlice(i, groups[i], r.worktreeId, r.task, |groups|)];
    }
    assert slices == MakeSlices(groups, r.worktreeId, r.task);
    return Ok(slices);
  }

  // ---- What a plan keeps ----

  /** Every changed file is in exactly one slice, once, and no slice is empty. */
  ghost predicate Partitions(plan: seq<SplitSlice>, diff: seq<string>) {
    && (forall i :: 0 <= i < |plan| ==> plan[i].files != [] && Distinct(plan[i].files))
    && (forall i, f :: 0 <= i < |plan| && f in plan[i].files ==> f in diff)
    && (forall f :: f in diff ==> exists i :: 0 <= i < |plan| && f in plan[i].files)
    && (forall i, j, f :: 0 <= i < j < |plan| && f in plan[i].files ==> f !in plan[j].files)
  }

  lemma SortedSetFacts(files: seq<string>)
    ensures Distinct(SortedSet(files)) && SortedBy(SortedSet(files), LexLe)
    ensures forall f :: f in SortedSet(files) <==> f in files
    ensures files != [] ==> SortedSet(files) != []
  {
    LexIsTotalOrder();
    DedupKeepsSet(files);
    SortPermutes(Dedup(files), LexLe);
    SortSorts(Dedup(files), LexLe);
    PermutationKeepsDistinct(Dedup(files), SortedSet(files));
    forall f ensures f in SortedSet(files) <==> f in files {
      assert f in SortedSet(files) <==> f in multiset(SortedSet(files));
      assert f in Dedup(files) <==> f in multiset(Dedup(files));
    }
    if files != [] { assert files[0] in SortedSet(files); }
  }

  lemma SortedSetUnique(a: seq<string>, b: seq<string>)
    requires forall f :: f in a <==> f in b
    ensures SortedSet(a) == SortedSet(b)
  {
    LexIsTotalOrder();
    DedupKeepsSet(a);
    DedupKeepsSet(b);
    DistinctSameSet(Dedup(a), Dedup(b));
    SortPermutes(Dedup(a), LexLe);
    SortPermutes(Dedup(b), LexLe);
    SortSorts(Dedup(a), LexLe);
    SortSorts(Dedup(b), LexLe);
    SortedIsUnique(SortedSet(a), SortedSet(b), LexLe);
  }

  /** Only the set of changed files matters, not their order or repetition. */
  lemma PlanDependsOnSet(r: Request, diff: seq<string>)
    requires forall f :: f in r.diffFiles <==> f in diff
    ensures Plan(r.(diffFiles := diff)) == Plan(r)
  {
    var r' := r.(diffFiles := diff);
    SortedSetUnique(diff, r.diffFiles);
    assert diff == [] <==> r.diffFiles == [] by {
      SortedSetFacts(diff);
      SortedSetFacts(r.diffFiles);
    }
    var files := SortedSet(diff);
    assert ResolveStrategy(r', |files|) == ResolveStrategy(r, |files|);
    assert SliceCount(r', |files|) == SliceCount(r, |files|);
    assert Groups(r', files) == Groups(r, files);
  }
}
