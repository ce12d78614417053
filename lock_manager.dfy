/**
  The lock table and the manager protocol (src/lock_mgr.rs): one table with a
  map from resource id to its lock list and a map from operation id to its
  lock list; `acquire`, `promote` and `release` change both maps in place.

  The heap-level class `LockTable` is proved against the pure functions
  `AcquireSpec`, `PromoteSpec` and `ReleaseSpec` over the abstract
  `TableState`; the properties of the protocol are lemmas about those
  functions (module LockManagerProperties).
 */
module LockManager {
  import opened Operations
  import opened Locks
  import opened LockLists

  /** The macro's two instantiations. */
  type ResourceLockTable = LockList<string>
  type OperationLockTable = LockList<Operation>

  /** `LockErrorCode`. */
  datatype LockErrorCode =
    | DuplicateLock(opId: string)
    | NoLockHeld(opId: string)
    | LockConflicts(opId: string, rid: string)

  /** What a call ends in: a value, one of the typed errors, or a panic at an
      `unwrap`. Every such panic happens before the call changes anything,
      so the table is left as it was. */
  datatype Outcome<T> = Ok(value: T) | Err(error: LockErrorCode) | Panic

  /** The abstract content of the table: the locks listed per resource id
      and per operation id. */
  datatype TableState = TableState(resources: map<string, seq<Lock>>, operations: map<string, seq<Lock>>)

  const EMPTY_TABLE := TableState(map[], map[])

  /** What `promote` demands beyond its two lookups: the lists it updates
      are not empty (`update_lock` removes at an index). */
  predicate PromoteRequires(s: TableState, op: Operation)
  {
    op.resources in s.resources && op.id in s.operations ==>
      |s.resources[op.resources]| > 0 && |s.operations[op.id]| > 0
  }

  /** `promote(new_lock)`: looks up the resource's list (line 162) and the
      operation's list (line 163), then replaces in each the first lock on
      the resource. A missing entry is a panic. */
  function PromoteSpec(s: TableState, op: Operation, newLock: Lock): (Outcome<()>, TableState)
    requires PromoteRequires(s, op)
  {
    var rid := op.resources;
    if rid !in s.resources || op.id !in s.operations then (Panic, s)
    else
      var rl := s.resources[rid];
      var ol := s.operations[op.id];
      (Ok(()), TableState(s.resources[rid := rl[ReplaceIndex(rl, rid) := newLock]],
                          s.operations[op.id := ol[ReplaceIndex(ol, rid) := newLock]]))
  }

  /** `acquire()`: duplicate check on the operation id, then either a fresh
      resource entry, or a decision made on the FIRST held mode only:
      upgrade (through `promote`), conflict, or append. */
  function AcquireSpec(s: TableState, op: Operation): (Outcome<Lock>, TableState)
  {
    var rid := op.resources;
    var opId := op.id;
    var requireLock := RequestedMode(op.opType);
    var newLock := NewLock(requireLock, opId, rid);
    if opId in s.operations then (Err(DuplicateLock(opId)), s)
    else if rid in s.resources then
      var oldLock := ModeOf(s.resources[rid], rid);
      if oldLock.Upgradable(requireLock) then
        var promoted := PromoteSpec(s, op, newLock);
        (if promoted.0.Panic? then Panic else Ok(newLock), promoted.1)
      else if !oldLock.Compatible(requireLock) then (Err(LockConflicts(opId, rid)), s)
      else
        (Ok(newLock), TableState(s.resources[rid := s.resources[rid] + [newLock]],
                                 s.operations[opId := [newLock]]))
    else
      (Ok(newLock), TableState(s.resources[rid := [newLock]], s.operations[opId := [newLock]]))
  }

  /** `release()`: for an operation with an entry, removes every lock on the
      operation's resource, drops the resource entry once it is empty, and
      drops only this operation's entry. A missing resource entry is the
      panic at line 141. */
  function ReleaseSpec(s: TableState, op: Operation): (Outcome<()>, TableState)
  {
    var opId := op.id;
    var rid := op.resources;
    if opId !in s.operations then (Err(NoLockHeld(opId)), s)
    else if rid !in s.resources then (Panic, s)
    else
      var kept := WithoutRid(s.resources[rid], rid);
      (Ok(()), TableState(if |kept| == 0 then s.resources - {rid} else s.resources[rid := kept],
                          s.operations - {opId}))
  }

  /** `LockTable` with its two maps. */
  class LockTable {
    var resourceTable: map<string, ResourceLockTable>
    var operationTable: map<string, OperationLockTable>
    ghost var Resources: map<string, seq<Lock>>
    ghost var Operations: map<string, seq<Lock>>
    ghost var Repr: set<object>

    /** Every list is owned by exactly one key of exactly one map, is keyed
        by that key, and holds what the abstract maps say. */
    ghost predicate Valid()
      reads this, Repr
    {
      && this in Repr
      && resourceTable.Keys == Resources.Keys
      && operationTable.Keys == Operations.Keys
      && (forall r :: r in resourceTable ==>
            resourceTable[r] in Repr && resourceTable[r].tableKey == r
            && resourceTable[r].locks == Resources[r])
      && (forall o :: o in operationTable ==>
            operationTable[o] in Repr && operationTable[o].tableKey.id == o
            && operationTable[o].locks == Operations[o])
      && (forall r1, r2 :: r1 in resourceTable && r2 in resourceTable && r1 != r2 ==>
            resourceTable[r1] != resourceTable[r2])
      && (forall o1, o2 :: o1 in operationTable && o2 in operationTable && o1 != o2 ==>
            operationTable[o1] != operationTable[o2])
      && (forall r, o :: r in resourceTable && o in operationTable ==>
            resourceTable[r] as object != operationTable[o] as object)
    }

    ghost function State(): TableState
      reads this
    {
      TableState(Resources, Operations)
    }

    /** `LockTable::new()`: two empty maps. */
    constructor ()
      ensures Valid() && fresh(Repr)
      ensures State() == EMPTY_TABLE
    {
      resourceTable := map[];
      operationTable := map[];
      Resources := map[];
      Operations := map[];
      Repr := {this};
    }

    /** `promote(new_lock)` for operation `op`. */
    method Promote(op: Operation, newLock: Lock) returns (res: Outcome<()>)
      requires Valid() && PromoteRequires(State(), op)
      modifies Repr
      ensures Valid() && Repr == old(Repr)
      ensures (res, State()) == PromoteSpec(old(State()), op, newLock)
    {
      var rid := op.resources;
      if rid !in resourceTable {
        return Panic;
      }
      if op.id !in operationTable {
        return Panic;
      }
      UpdateResourceEntry(rid, newLock);
      UpdateOperationEntry(op.id, rid, newLock);
      res := Ok(());
    }

    /** Line 165 of `promote`: `res_table.update_lock(new_lock, rid)`. */
    method UpdateResourceEntry(rid: string, newLock: Lock)
      requires Valid() && rid in Resources && |Resources[rid]| > 0
      modifies Repr
      ensures Valid() && Repr == old(Repr)
      ensures Resources == old(Resources)[rid := old(Resources)[rid][ReplaceIndex(old(Resources)[rid], rid) := newLock]]
      ensures Operations == old(Operations)
    {
      var resTable := resourceTable[rid];
      resTable.UpdateLock(newLock, rid);
      Resources := Resources[rid := resTable.locks];
    }

    /** Line 166 of `promote`: `ops_table.update_lock(new_lock, rid)`. */
    method UpdateOperationEntry(opId: string, rid: string, newLock: Lock)
      requires Valid() && opId in Operations && |Operations[opId]| > 0
      modifies Repr
      ensures Valid() && Repr == old(Repr)
      ensures Operations == old(Operations)[opId := old(Operations)[opId][ReplaceIndex(old(Operations)[opId], rid) := newLock]]
      ensures Resources == old(Resources)
    {
      var opsTable := operationTable[opId];
      opsTable.UpdateLock(newLock, rid);
      Operations := Operations[opId := opsTable.locks];
    }

    /** `acquire()` for operation `op`. */
    method Acquire(op: Operation) returns (res: Outcome<Lock>)
      requires Valid()
      modifies Repr
      ensures Valid() && fresh(Repr - old(Repr))
      ensures (res, State()) == AcquireSpec(old(State()), op)
    {
      var rid := op.resources;
      var opId := op.id;
      var requireLock := RequestedMode(op.opType);
      if opId in operationTable {
        return Err(DuplicateLock(opId));
      }
      if rid in resourceTable {
        var resTable := resourceTable[rid];
        var oldLock := resTable.GetLockMode(rid);
        var newLock := NewLock(requireLock, opId, rid);
        if oldLock.Upgradable(requireLock) {
          var promoted := Promote(op, newLock);
          if promoted.Panic? {
            return Panic;
          }
        } else {
          if !oldLock.Compatible(requireLock) {
            return Err(LockConflicts(opId, rid));
          }
          AppendGrant(op, newLock);
        }
        res := Ok(newLock);
      } else {
        var newLock := NewLock(requireLock, opId, rid);
        InsertGrant(op, newLock);
        res := Ok(newLock);
      }
    }

    /** The compatible branch of `acquire` (lines 110-113): append to the
        resource's list and give the operation a new list holding the lock. */
    method AppendGrant(op: Operation, newLock: Lock)
      requires Valid()
      requires op.id !in Operations && op.resources in Resources
      modifies Repr
      ensures Valid() && fresh(Repr - old(Repr))
      ensures Resources == old(Resources)[op.resources := old(Resources)[op.resources] + [newLock]]
      ensures Operations == old(Operations)[op.id := [newLock]]
    {
      var resTable := resourceTable[op.resources];
      resTable.AddLock(newLock);
      Resources := Resources[op.resources := resTable.locks];
      InsertOperationEntry(op, newLock);
    }

    /** The fresh-resource branch of `acquire` (lines 117-124): a new list
        on each side, each holding the lock. */
    method InsertGrant(op: Operation, newLock: Lock)
      requires Valid()
      requires op.id !in Operations && op.resources !in Resources
      modifies Repr
      ensures Valid() && fresh(Repr - old(Repr))
      ensures Resources == old(Resources)[op.resources := [newLock]]
      ensures Operations == old(Operations)[op.id := [newLock]]
    {
      InsertResourceEntry(op.resources, newLock);
      InsertOperationEntry(op, newLock);
    }

    /** `ResourceLockTable::new(rid)`, `add_lock(new_lock)`, then
        `resource_table.insert(rid, ..)`. */
    method InsertResourceEntry(rid: string, newLock: Lock)
      requires Valid() && rid !in Resources
      modifies this
      ensures Valid() && fresh(Repr - old(Repr))
      ensures Resources == old(Resources)[rid := [newLock]]
      ensures Operations == old(Operations)
    {
      var resTable := new LockList<string>(rid);
      resTable.AddLock(newLock);
      assert resTable.locks == [newLock];
      resourceTable := resourceTable[rid := resTable];
      Resources := Resources[rid := resTable.locks];
      Repr := Repr + {resTable};
    }

    /** `OperationLockTable::new(op)`, `add_lock(new_lock)`, then
        `operation_table.insert(op_id, ..)`. */
    method InsertOperationEntry(op: Operation, newLock: Lock)
      requires Valid() && op.id !in Operations
      modifies this
      ensures Valid() && fresh(Repr - old(Repr))
      ensures Operations == old(Operations)[op.id := [newLock]]
      ensures Resources == old(Resources)
    {
      var opsTable := new LockList<Operation>(op);
      opsTable.AddLock(newLock);
      assert opsTable.locks == [newLock];
      operationTable := operationTable[op.id := opsTable];
      Operations := Operations[op.id := opsTable.locks];
      Repr := Repr + {opsTable};
    }

    /** `try_acquire(retry_time_count)` when the duration is zero
        milliseconds: one `acquire`. */
    method TryAcquire(op: Operation, retryMillis: nat) returns (res: Outcome<Lock>)
      requires Valid()
      requires retryMillis == 0
      modifies Repr
      ensures Valid() && fresh(Repr - old(Repr))
      ensures (res, State()) == AcquireSpec(old(State()), op)
    {
      res := Acquire(op);
    }

    /** `release()` for operation `op`. */
    method Release(op: Operation) returns (res: Outcome<()>)
      requires Valid()
      modifies Repr
      ensures Valid() && Repr == old(Repr)
      ensures (res, State()) == ReleaseSpec(old(State()), op)
    {
      var opId := op.id;
      if opId !in operationTable {
        return Err(NoLockHeld(opId));
      }
      var rid := op.resources;
      if rid !in resourceTable {
        return Panic;
      }
      ReleaseResource(rid);
      DropOperation(opId);
      res := Ok(());
    }

    /** Lines 142-145 of `release`: remove every lock on `rid` from its
        list, and drop the list once it is empty. */
    method ReleaseResource(rid: string)
      requires Valid() && rid in Resources
      modifies Repr
      ensures Valid() && Repr == old(Repr)
      ensures var kept := WithoutRid(old(Resources)[rid], rid);
        Resources == if |kept| == 0 then old(Resources) - {rid} else old(Resources)[rid := kept]
      ensures Operations == old(Operations)
    {
      var resTable := resourceTable[rid];
      resTable.RemoveLock(rid);
      var size := resTable.LockSize();
      if size == 0 {
        resourceTable := resourceTable - {rid};
        Resources := Resources - {rid};
      } else {
        Resources := Resources[rid := resTable.locks];
      }
    }

    /** Line 146 of `release`: `operation_table.remove(op_id)`. */
    method DropOperation(opId: string)
      requires Valid()
      modifies this
      ensures Valid() && Repr == old(Repr)
      ensures Operations == old(Operations) - {opId}
      ensures Resources == old(Resources)
    {
      operationTable := operationTable - {opId};
      Operations := Operations - {opId};
    }
  }
}
