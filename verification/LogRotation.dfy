/** Rotating the audit log: the file becomes `.1`, `.1` becomes `.2`, and so on. */
module LogRotation {
  import opened Wrappers

  /** The log is `Log(0)`, its rotated copies `Log(1)`, `Log(2)`, ... */
  datatype Name = Log(index: nat) | Other(name: string)

  type Directory = map<Name, string>

  /** Moves a file over whatever the new name held. */
  function Move(files: Directory, i: nat): Directory
    requires Log(i) in files
  {
    files[Log(i + 1) := files[Log(i)]] - {Log(i)}
  }

  /** Moves copies `n`, ..., 0 up by one, in that order; the renames in `failing` fail and change nothing. */
  function Shift(files: Directory, n: nat, failing: set<nat>): Directory
    requires forall i :: 0 <= i <= n ==> Log(i) in files
    decreases n
  {
    var next := if n in failing then files else Move(files, n);
    if n == 0 then next else Shift(next, n - 1, failing)
  }

  /** The number of copies `.1`, ..., `.n` before the first gap. */
  ghost predicate IsTop(files: Directory, n: nat) {
    Log(n + 1) !in files && forall i :: 1 <= i <= n ==> Log(i) in files
  }

  // ---- The code ----

  class LogDirectory {
    var files: Directory

    constructor (files: Directory)
      ensures this.files == files
    {
      this.files := files;
    }

    method HighestRotation() returns (n: nat)
      ensures IsTop(files, n)
    {
      n := 0;
      ghost var seen: set<Name> := {};
      while Log(n + 1) in files
        invariant forall i :: 1 <= i <= n ==> Log(i) in files
        invariant seen <= files.Keys && |seen| == n
        invariant forall k :: k in seen ==> k.Log? && 1 <= k.index <= n
        decreases |files| - n
      {
        Bounded(seen, files.Keys, Log(n + 1));
        seen := seen + {Log(n + 1)};
        n := n + 1;
      }
    }

    /** `statable` is false when the size of the log cannot be read. */
    method RotateIfNeeded(maxBytes: int, statable: bool, failing: set<nat>) returns (rotated: bool)
      modifies this
      ensures rotated <==> maxBytes > 0 && statable && Log(0) in old(files) && |old(files)[Log(0)]| > maxBytes
      ensures !rotated ==> files == old(files)
      ensures rotated ==> exists n: nat :: IsTop(old(files), n) && files == Shift(old(files), n, failing)
    {
      if maxBytes <= 0 { return false; }
      if !statable || Log(0) !in files { return false; }
      if |files[Log(0)]| <= maxBytes { return false; }
      var n := HighestRotation();
      assert forall i :: 0 <= i <= n ==> Log(i) in files;
      var i := n;
      while i > 0
        invariant 0 <= i <= n
        invariant forall k :: 0 <= k <= i ==> Log(k) in files
        invariant Shift(files, i, failing) == Shift(old(files), n, failing)
      {
        if i !in failing { files := Move(files, i); }
        i := i - 1;
      }
      if 0 !in failing { files := Move(files, 0); }
      return true;
    }
  }

  lemma Bounded(seen: set<Name>, keys: set<Name>, next: Name)
    requires seen <= keys && next in keys && next !in seen
    ensures |seen| < |keys|
  {
    Fits(seen + {next}, keys);
  }

  lemma {:induction false} Fits(a: set<Name>, b: set<Name>)
    requires a <= b
    ensures |a| <= |b|
  {
    if a != {} {
      var x :| x in a;
      Fits(a - {x}, b - {x});
    }
  }

  // ---- Where every file goes ----

  /** The log or copy that a name holds after a rotation with failures, if any: the one moved there, else the one that
      failed to move away. */
  function Landed(files: Directory, n: nat, failing: set<nat>, j: nat): Option<string>
    requires forall i :: 0 <= i <= n ==> Log(i) in files
  {
    if 1 <= j <= n + 1 && j - 1 !in failing then Some(files[Log(j - 1)])
    else if Log(j) in files && (j > n || j in failing) then Some(files[Log(j)])
    else None
  }

  function Get(files: Directory, name: Name): Option<string> {
    if name in files then Some(files[name]) else None
  }

  /** What a rotation leaves under every name of the log, whichever renames fail. */
  lemma {:induction false} ShiftLands(files: Directory, n: nat, failing: set<nat>, j: nat)
    requires forall i :: 0 <= i <= n ==> Log(i) in files
    ensures Get(Shift(files, n, failing), Log(j)) == Landed(files, n, failing, j)
    decreases n
  {
    var next := if n in failing then files else Move(files, n);
    if n > 0 { ShiftLands(next, n - 1, failing, j); }
  }

  lemma {:induction false} ShiftSparesOthers(files: Directory, n: nat, failing: set<nat>, name: string)
    requires forall i :: 0 <= i <= n ==> Log(i) in files
    ensures Get(Shift(files, n, failing), Other(name)) == Get(files, Other(name))
    decreases n
  {
    var next := if n in failing then files else Move(files, n);
    if n > 0 { ShiftSparesOthers(next, n - 1, failing, name); }
  }

  /** If every rename succeeds, the log is `.1`, each copy up to the first gap has moved up by one, and every other file
      of the directory is as it was. */
  lemma RotationMovesUp(files: Directory, n: nat, name: Name)
    requires IsTop(files, n) && Log(0) in files
    ensures var after := Shift(files, n, {});
            Get(after, name) ==
            if name == Log(0) then None
            else if name.Log? && name.index <= n + 1 then Some(files[Log(name.index - 1)])
            else Get(files, name)
  {
    match name {
      case Log(j) => ShiftLands(files, n, {}, j);
      case Other(s) => ShiftSparesOthers(files, n, {}, s);
    }
  }

  // ---- What is lost ----

  lemma MoveCounts(files: Directory, i: nat)
    requires Log(i) in files
    ensures |Move(files, i)| == |files| - if Log(i + 1) in files then 1 else 0
  {
    var after := Move(files, i);
    assert after.Keys == files.Keys + {Log(i + 1)} - {Log(i)};
    assert |after| == |after.Keys| && |files| == |files.Keys|;
    if Log(i + 1) in files { assert files.Keys + {Log(i + 1)} == files.Keys; }
  }

  lemma {:induction false} ShiftCounts(files: Directory, n: nat, failing: set<nat>)
    requires forall i :: 0 <= i <= n ==> Log(i) in files
    ensures |Shift(files, n, failing)| <= |files|
    ensures |Shift(files, n, failing)| == |files| <==>
            (Log(n + 1) in files ==> n in failing) && forall i: nat :: 0 <= i < n && i + 1 in failing ==> i in failing
    decreases n
  {
    hide Move;
    var next := if n in failing then files else Move(files, n);
    if n !in failing { MoveCounts(files, n); }
    if n > 0 {
      assert forall i :: 0 <= i <= n - 1 ==> Log(i) in next by { MoveKeeps(files, n); }
      assert Log(n) in next <==> n in failing by { MoveKeeps(files, n); }
      ShiftCounts(next, n - 1, failing);
    }
  }

  lemma MoveKeeps(files: Directory, i: nat)
    requires Log(i) in files
    ensures Log(i) !in Move(files, i)
    ensures forall k :: k in files && k != Log(i) ==> k in Move(files, i)
  {
  }

  /** A rotation loses no file if and only if no rename succeeds right after one that failed: otherwise the file that
      stayed is overwritten. */
  lemma RotationLosesNothing(files: Directory, n: nat, failing: set<nat>)
    requires IsTop(files, n) && Log(0) in files
    ensures |Shift(files, n, failing)| == |files| <==>
            forall i: nat :: 0 <= i < n && i + 1 in failing ==> i in failing
  {
    ShiftCounts(files, n, failing);
  }
}
