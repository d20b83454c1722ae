/** The lock coordinator as the object it is: a map from trimmed table names to shared lock objects. */
module TableAccess {
  import opened Text

  /** A reader-writer lock, of which only the identity matters here. */
  class TableLock {
    constructor () {}
  }

  class TableAccessCoordinator {
    var locks: map<string, TableLock>

    /** Different names have different locks. */
    ghost predicate Valid()
      reads this
    {
      forall n, m :: n in locks && m in locks && locks[n] == locks[m] ==> n == m
    }

    constructor ()
      ensures Valid() && locks == map[]
    {
      locks := map[];
    }

    method LockFor(tableName: string) returns (lock: TableLock)
      requires Valid()
      modifies this
      ensures Valid()
      ensures Trim(tableName) in locks && locks[Trim(tableName)] == lock
      ensures locks.Keys == old(locks).Keys + {Trim(tableName)}
      ensures forall n :: n in old(locks) ==> locks[n] == old(locks)[n]
      ensures Trim(tableName) !in old(locks) ==> fresh(lock)
    {
      var name := Trim(tableName);
      if name in locks {
        lock := locks[name];
      } else {
        lock := new TableLock();
        locks := locks[name := lock];
      }
    }
  }

  /** Over any sequence of look-ups, two give the same lock object exactly when the names trim to the same text. */
  method LookUpAll(coordinator: TableAccessCoordinator, names: seq<string>) returns (found: seq<TableLock>)
    requires coordinator.Valid()
    modifies coordinator
    ensures coordinator.Valid() && |found| == |names|
    ensures forall i, j :: 0 <= i < |names| && 0 <= j < |names| ==>
              (found[i] == found[j] <==> Trim(names[i]) == Trim(names[j]))
    ensures forall n :: n in old(coordinator.locks) ==>
              n in coordinator.locks && coordinator.locks[n] == old(coordinator.locks)[n]
  {
    found := [];
    for k := 0 to |names|
      invariant coordinator.Valid() && |found| == k
      invariant forall i :: 0 <= i < k ==>
                  Trim(names[i]) in coordinator.locks && coordinator.locks[Trim(names[i])] == found[i]
      invariant forall n :: n in old(coordinator.locks) ==>
                  n in coordinator.locks && coordinator.locks[n] == old(coordinator.locks)[n]
    {
      var lock := coordinator.LockFor(names[k]);
      found := found + [lock];
    }
  }
}
