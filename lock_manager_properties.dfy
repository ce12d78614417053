/**
  Properties of the lock manager protocol, stated about the functions that
  the `LockTable` methods are proved against.
 */
module LockManagerProperties {
  import opened Operations
  import opened Locks
  import opened LockLists
  import opened LockManager

  /** The resource lists in the shape two-phase locking wants (each list
      all Shared or a single Exclusive) and every operation holding exactly
      its one lock. This constrains each resource list on its own: it does
      not relate the operation entries to the resource lists, so a table can
      be consistent while two operations hold incompatible locks on one
      resource (`ReaderReleaseAdmitsWriter`). */
  ghost predicate Consistent(s: TableState)
  {
    && (forall r :: r in s.resources ==> WellShaped(s.resources[r], r))
    && (forall o :: o in s.operations ==>
          |s.operations[o]| == 1 && s.operations[o][0].opId == o)
  }

  /** Every lock in a resource's list is on that resource. This holds of
      every table `acquire` and `release` can build from the empty one,
      whatever the access kinds, NoOp included. */
  ghost predicate Keyed(s: TableState)
  {
    forall r :: r in s.resources ==>
      forall i :: 0 <= i < |s.resources[r]| ==> s.resources[r][i].rid == r
  }

  /** The lock `op` asks for. */
  function RequestedLock(op: Operation): Lock
  {
    NewLock(RequestedMode(op.opType), op.id, op.resources)
  }

  // ----- acquire -----

  /** An operation id already in the operation table is refused and both
      maps stay as they were. */
  lemma AcquireDuplicate(s: TableState, op: Operation)
    requires op.id in s.operations
    ensures AcquireSpec(s, op) == (Err(DuplicateLock(op.id)), s)
  {
  }

  /** On a resource with no entry, both maps gain an entry holding exactly
      the new lock, which is returned. */
  lemma AcquireFreshResource(s: TableState, op: Operation)
    requires op.id !in s.operations && op.resources !in s.resources
    ensures AcquireSpec(s, op) ==
      (Ok(RequestedLock(op)),
       TableState(s.resources[op.resources := [RequestedLock(op)]],
                  s.operations[op.id := [RequestedLock(op)]]))
  {
  }

  /** When the first held mode neither upgrades to nor admits the request,
      the result is `LockConflicts(op_id, rid)` and nothing changes. */
  lemma AcquireConflict(s: TableState, op: Operation)
    requires op.id !in s.operations && op.resources in s.resources
    requires var held := ModeOf(s.resources[op.resources], op.resources);
      !held.Upgradable(RequestedMode(op.opType)) && !held.Compatible(RequestedMode(op.opType))
    ensures AcquireSpec(s, op) == (Err(LockConflicts(op.id, op.resources)), s)
  {
  }

  /** When the first held mode admits the request, the lock is appended to
      the resource's list and the operation gets a list of just that lock. */
  lemma AcquireCompatible(s: TableState, op: Operation)
    requires op.id !in s.operations && op.resources in s.resources
    requires ModeOf(s.resources[op.resources], op.resources).Compatible(RequestedMode(op.opType))
    ensures AcquireSpec(s, op) ==
      (Ok(RequestedLock(op)),
       TableState(s.resources[op.resources := s.resources[op.resources] + [RequestedLock(op)]],
                  s.operations[op.id := [RequestedLock(op)]]))
  {
    UpgradableExcludesCompatible(ModeOf(s.resources[op.resources], op.resources), RequestedMode(op.opType));
  }

  /** The promote branch is reached only for an operation with no
      operation-table entry, so `promote`'s lookup at line 163 always fails:
      `acquire` panics exactly when the first held mode is Shared and the
      request is Exclusive, and the table is unchanged. */
  lemma AcquirePanicsExactlyOnUpgrade(s: TableState, op: Operation)
    ensures AcquireSpec(s, op).0.Panic? <==>
      && op.id !in s.operations
      && op.resources in s.resources
      && ModeOf(s.resources[op.resources], op.resources) == Shared
      && op.opType == Write
    ensures AcquireSpec(s, op).0.Panic? ==> AcquireSpec(s, op).1 == s
  {
  }

  /** Every success returns the requested lock, and every failure leaves
      the table unchanged. */
  lemma AcquireOutcomes(s: TableState, op: Operation)
    ensures AcquireSpec(s, op).0.Ok? ==> AcquireSpec(s, op).0.value == RequestedLock(op)
    ensures !AcquireSpec(s, op).0.Ok? ==> AcquireSpec(s, op).1 == s
    ensures AcquireSpec(s, op).0.Ok? ==>
      AcquireSpec(s, op).1.operations == s.operations[op.id := [RequestedLock(op)]]
  {
  }

  /** With Read and Write operations only, `acquire` keeps every resource
      list in the two-phase-locking shape: one Exclusive lock or only Shared
      locks. */
  lemma AcquirePreservesConsistent(s: TableState, op: Operation)
    requires Consistent(s)
    requires op.opType != NoOp
    ensures Consistent(AcquireSpec(s, op).1)
  {
  }

  /** Whatever the access kind, `acquire` keeps every lock in the list of
      its own resource. */
  lemma AcquireKeepsKeyed(s: TableState, op: Operation)
    requires Keyed(s)
    ensures Keyed(AcquireSpec(s, op).1)
  {
  }

  // ----- release -----

  /** Releasing an operation with no entry returns `NoLockHeld` and changes
      nothing. */
  lemma ReleaseNoLockHeld(s: TableState, op: Operation)
    requires op.id !in s.operations
    ensures ReleaseSpec(s, op) == (Err(NoLockHeld(op.id)), s)
  {
  }

  /** A release that finds both entries succeeds, removes the resource
      entry entirely (every lock on it is on the same resource, so its size
      drops to 0) and only the releasing operation's entry; everything else
      is untouched. */
  lemma ReleaseClearsResource(s: TableState, op: Operation)
    requires Keyed(s)
    requires op.id in s.operations && op.resources in s.resources
    ensures ReleaseSpec(s, op) ==
      (Ok(()), TableState(s.resources - {op.resources}, s.operations - {op.id}))
  {
    WithoutRidAllMatch(s.resources[op.resources], op.resources);
  }

  /** A release keeps every lock in the list of its own resource. */
  lemma ReleaseKeepsKeyed(s: TableState, op: Operation)
    requires Keyed(s)
    ensures Keyed(ReleaseSpec(s, op).1)
  {
    if op.id in s.operations && op.resources in s.resources {
      ReleaseClearsResource(s, op);
    }
  }

  /** The two-phase-locking shape is a special case of `Keyed`. */
  lemma ConsistentIsKeyed(s: TableState)
    requires Consistent(s)
    ensures Keyed(s)
  {
  }

  /** One call on the lock manager. */
  datatype Step = AcquireStep(op: Operation) | ReleaseStep(op: Operation)

  /** The table after `steps`, run one after the other from `s`. */
  function RunSteps(s: TableState, steps: seq<Step>): TableState
    decreases |steps|
  {
    if |steps| == 0 then s
    else
      var next := match steps[0]
        case AcquireStep(op) => AcquireSpec(s, op).1
        case ReleaseStep(op) => ReleaseSpec(s, op).1;
      RunSteps(next, steps[1..])
  }

  /** Every table that `acquire` and `release` build from the empty one is
      keyed, whatever the operations. */
  lemma {:induction false} ReachableIsKeyed(s: TableState, steps: seq<Step>)
    requires Keyed(s)
    ensures Keyed(RunSteps(s, steps))
    decreases |steps|
  {
    if |steps| > 0 {
      match steps[0]
      case AcquireStep(op) =>
        AcquireKeepsKeyed(s, op);
        ReachableIsKeyed(AcquireSpec(s, op).1, steps[1..]);
      case ReleaseStep(op) =>
        ReleaseKeepsKeyed(s, op);
        ReachableIsKeyed(ReleaseSpec(s, op).1, steps[1..]);
    }
  }

  /** A release keeps the table consistent. */
  lemma ReleasePreservesConsistent(s: TableState, op: Operation)
    requires Consistent(s)
    ensures Consistent(ReleaseSpec(s, op).1)
  {
    if op.id in s.operations && op.resources in s.resources {
      ConsistentIsKeyed(s);
      ReleaseClearsResource(s, op);
    }
  }

  /** After one holder of a shared resource releases, any co-holder that
      still has its operation entry panics on its own release: the first
      release removed the whole resource entry (the `unwrap` at line 141). */
  lemma CoHolderReleasePanics(s: TableState, a: Operation, b: Operation)
    requires Keyed(s)
    requires a.id in s.operations && a.resources in s.resources
    requires b.id in s.operations && b.id != a.id && b.resources == a.resources
    ensures ReleaseSpec(s, a).0 == Ok(())
    ensures ReleaseSpec(ReleaseSpec(s, a).1, b) == (Panic, ReleaseSpec(s, a).1)
  {
    ReleaseClearsResource(s, a);
  }

  /** A second release of the same operation reports `NoLockHeld`. */
  lemma ReleaseTwice(s: TableState, op: Operation)
    requires ReleaseSpec(s, op).0 == Ok(())
    ensures ReleaseSpec(ReleaseSpec(s, op).1, op) == (Err(NoLockHeld(op.id)), ReleaseSpec(s, op).1)
  {
  }

  // ----- promote -----

  /** When both entries exist, `promote` keeps both lists' lengths and
      replaces only the first lock on the resource in each. */
  lemma PromoteReplacesFirst(s: TableState, op: Operation, newLock: Lock)
    requires op.resources in s.resources && op.id in s.operations
    requires |s.resources[op.resources]| > 0 && |s.operations[op.id]| > 0
    ensures PromoteSpec(s, op, newLock).0 == Ok(())
    ensures var s' := PromoteSpec(s, op, newLock).1;
      && s'.resources.Keys == s.resources.Keys && s'.operations.Keys == s.operations.Keys
      && |s'.resources[op.resources]| == |s.resources[op.resources]|
      && |s'.operations[op.id]| == |s.operations[op.id]|
      && (forall i :: 0 <= i < |s.resources[op.resources]| ==>
            s'.resources[op.resources][i] ==
              if i == ReplaceIndex(s.resources[op.resources], op.resources) then newLock
              else s.resources[op.resources][i])
      && (forall i :: 0 <= i < |s.operations[op.id]| ==>
            s'.operations[op.id][i] ==
              if i == ReplaceIndex(s.operations[op.id], op.resources) then newLock
              else s.operations[op.id][i])
  {
    ReplaceIndexInRange(s.resources[op.resources], op.resources);
    ReplaceIndexInRange(s.operations[op.id], op.resources);
  }

  // ----- scenarios from the source's tests and the first-lock rule -----

  /** `test_acquire_multi_state` run one after the other: two Read
      operations on one resource both succeed, leaving one resource entry
      and two operation entries. */
  lemma TwoReadersShare()
    ensures var a := NewOperation("0", "1,2,3", Read);
      var b := NewOperation("1", "1,2,3", Read);
      var r1 := AcquireSpec(EMPTY_TABLE, a);
      var r2 := AcquireSpec(r1.1, b);
      && r1.0.Ok? && r2.0.Ok?
      && r2.1.resources.Keys == {"1,2,3"}
      && r2.1.operations.Keys == {"0", "1"}
      && |r2.1.resources["1,2,3"]| == 2
  {
  }

  /** `test_lock_unlock`: acquire then release of one operation both
      succeed and leave the table empty. */
  lemma AcquireThenRelease()
    ensures var op := NewOperation("1", "1,2,3", Read);
      var r1 := AcquireSpec(EMPTY_TABLE, op);
      var r2 := ReleaseSpec(r1.1, op);
      r1.0.Ok? && r2 == (Ok(()), EMPTY_TABLE)
  {
    var op := NewOperation("1", "1,2,3", Read);
    AcquireFreshResource(EMPTY_TABLE, op);
    var s1 := AcquireSpec(EMPTY_TABLE, op).1;
    ReleaseClearsResource(s1, op);
    assert s1.resources - {"1,2,3"} == map[];
    assert s1.operations - {"1"} == map[];
  }

  /** `acquire` never waits: while a writer holds the resource, a Read by
      another operation is refused with `LockConflicts` at once. */
  lemma ReadAfterWriteConflicts()
    ensures var w := NewOperation("2", "1,2,3", Write);
      var r := NewOperation("1", "1,2,3", Read);
      var s1 := AcquireSpec(EMPTY_TABLE, w).1;
      AcquireSpec(s1, r) == (Err(LockConflicts("1", "1,2,3")), s1)
  {
  }

  /** `test_wait_lock_state` run one after the other: the writer acquires,
      the writer releases, and then the reader's acquire succeeds and its
      lock is the only one on the resource. */
  lemma WriterReleaseThenReaderAcquires()
    ensures var w := NewOperation("2", "1,2,3", Write);
      var r := NewOperation("1", "1,2,3", Read);
      var s1 := AcquireSpec(EMPTY_TABLE, w);
      var s2 := ReleaseSpec(s1.1, w);
      var s3 := AcquireSpec(s2.1, r);
      && s1.0.Ok? && s2.0 == Ok(()) && s3.0 == Ok(RequestedLock(r))
      && s3.1.resources == map["1,2,3" := [RequestedLock(r)]]
      && s3.1.operations == map["1" := [RequestedLock(r)]]
  {
  }

  /** Two readers share "x"; when the first releases, `remove_lock` drops
      the second reader's lock from the resource list too, so a writer then
      takes the fresh-resource branch and is granted while the second reader
      still holds Shared. Every call succeeds and the resource lists stay
      consistent, yet an Exclusive and a Shared lock on "x" are held by two
      operations at once. */
  lemma ReaderReleaseAdmitsWriter()
    ensures var a := NewOperation("1", "x", Read);
      var b := NewOperation("2", "x", Read);
      var w := NewOperation("3", "x", Write);
      var s1 := AcquireSpec(EMPTY_TABLE, a);
      var s2 := AcquireSpec(s1.1, b);
      var s3 := ReleaseSpec(s2.1, a);
      var s4 := AcquireSpec(s3.1, w);
      && s1.0.Ok? && s2.0.Ok? && s3.0 == Ok(()) && s4.0.Ok?
      && Consistent(s4.1)
      && s4.1.operations["2"] == [Lock("2", Shared, "x")]
      && s4.1.operations["3"] == [Lock("3", Exclusive, "x")]
  {
    var a := NewOperation("1", "x", Read);
    var b := NewOperation("2", "x", Read);
    var s2 := AcquireSpec(AcquireSpec(EMPTY_TABLE, a).1, b).1;
    ReleaseClearsResource(s2, a);
    assert ReleaseSpec(s2, a).1.resources == map[];
  }

  /** A Write by a second operation on a resource held Shared takes the
      promote branch and panics instead of reporting a conflict. */
  lemma WriteAfterReadPanics()
    ensures var r := NewOperation("1", "x", Read);
      var w := NewOperation("2", "x", Write);
      var s1 := AcquireSpec(EMPTY_TABLE, r).1;
      AcquireSpec(s1, w) == (Panic, s1)
  {
  }

  /** Only the first lock is consulted: after a NoOp operation takes a
      NoLock lock, a writer and then a reader are both admitted, so an
      Exclusive and a Shared lock end up held together. */
  lemma NoOpFirstLockAdmitsEverything()
    ensures var n := NewOperation("1", "x", NoOp);
      var w := NewOperation("2", "x", Write);
      var r := NewOperation("3", "x", Read);
      var s1 := AcquireSpec(EMPTY_TABLE, n);
      var s2 := AcquireSpec(s1.1, w);
      var s3 := AcquireSpec(s2.1, r);
      && s1.0.Ok? && s2.0.Ok? && s3.0.Ok?
      && s3.1.resources["x"] == [Lock("1", NoLock, "x"), Lock("2", Exclusive, "x"), Lock("3", Shared, "x")]
  {
  }

  /** The table `NoOpFirstLockAdmitsEverything` builds is reachable, hence
      keyed, yet lies outside the two-phase-locking shape. */
  lemma NoOpTableKeyedNotConsistent()
    ensures var steps := [AcquireStep(NewOperation("1", "x", NoOp)),
                          AcquireStep(NewOperation("2", "x", Write)),
                          AcquireStep(NewOperation("3", "x", Read))];
      var s := RunSteps(EMPTY_TABLE, steps);
      Keyed(s) && !Consistent(s)
  {
    var steps := [AcquireStep(NewOperation("1", "x", NoOp)),
                  AcquireStep(NewOperation("2", "x", Write)),
                  AcquireStep(NewOperation("3", "x", Read))];
    ReachableIsKeyed(EMPTY_TABLE, steps);
    NoOpFirstLockAdmitsEverything();
    var s1 := AcquireSpec(EMPTY_TABLE, steps[0].op).1;
    var s2 := AcquireSpec(s1, steps[1].op).1;
    var s3 := AcquireSpec(s2, steps[2].op).1;
    assert steps[1..][1..][1..] == [];
    assert RunSteps(EMPTY_TABLE, steps) == s3;
    var l := s3.resources["x"];
    assert l == [Lock("1", NoLock, "x"), Lock("2", Exclusive, "x"), Lock("3", Shared, "x")];
    assert l[0].lockMode != Shared && |l| != 1;
  }
}
