/** One lock per repository. */
module RepoLocks {

  /** A mutual-exclusion lock; its identity is all that matters here. */
  class Lock {
    constructor () {}
  }

  class RepoLockRegistry {
    var locks: map<string, Lock>

    /** Different repositories never share a lock. */
    ghost predicate Valid()
      reads this
    {
      forall j, k :: j in locks && k in locks && j != k ==> locks[j] != locks[k]
    }

    constructor ()
      ensures Valid() && locks == map[]
    {
      locks := map[];
    }

    /** Looks the key up or creates its lock, with no suspension in between. */
    method LockFor(key: string) returns (lock: Lock)
      requires Valid() && forall k :: k in locks ==> allocated(locks[k])
      modifies this
      ensures Valid()
      ensures key in locks && lock == locks[key]
      ensures key in old(locks) ==> locks == old(locks)
      ensures key !in old(locks) ==> fresh(lock) && locks == old(locks)[key := lock]
    {
      if key in locks { return locks[key]; }
      lock := new Lock();
      locks := locks[key := lock];
    }

    /** The first look of `get`, before it may have to wait for the guard. */
    method GetFast(key: string) returns (found: bool, lock: Lock?)
      ensures found <==> key in locks
      ensures found ==> lock == locks[key]
    {
      if key in locks { return true, locks[key]; }
      return false, null;
    }

    /** The second look of `get`, under the guard: others may have bound the key while it waited. */
    method GetGuarded(key: string) returns (lock: Lock)
      requires Valid() && forall k :: k in locks ==> allocated(locks[k])
      modifies this
      ensures Valid()
      ensures key in locks && lock == locks[key]
      ensures key in old(locks) ==> locks == old(locks)
      ensures key !in old(locks) ==> locks == old(locks)[key := lock]
    {
      lock := LockFor(key);
    }

    /** `get` when nobody else touches the registry meanwhile. */
    method Get(key: string) returns (lock: Lock)
      requires Valid() && forall k :: k in locks ==> allocated(locks[k])
      modifies this
      ensures Valid()
      ensures key in locks && lock == locks[key]
      ensures locks == if key in old(locks) then old(locks) else old(locks)[key := lock]
    {
      var found, known := GetFast(key);
      if found { return known; }
      lock := GetGuarded(key);
    }
  }
}
