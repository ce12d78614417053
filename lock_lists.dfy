/**
  The per-key lock list that the `declare_locks_table!` macro stamps out twice
  (src/lock_mgr_macro.rs): a key and a vector of locks changed in place.
  `LockList<string>` is the resource-side list and `LockList<Operation>` the
  operation-side list.
 */
module LockLists {
  import opened Options
  import opened Locks

  /** Position of the first lock on `rid`, if any. */
  function FindRid(s: seq<Lock>, rid: string): (r: Option<nat>)
    ensures r.Some? ==> r.value < |s| && s[r.value].rid == rid
    ensures r.Some? ==> forall j :: 0 <= j < r.value ==> s[j].rid != rid
    ensures r.None? <==> forall j :: 0 <= j < |s| ==> s[j].rid != rid
    decreases |s|
  {
    if |s| == 0 then None
    else if s[0].rid == rid then Some(0)
    else match FindRid(s[1..], rid)
      case None => None
      case Some(i) => Some(i + 1)
  }

  /** What `get_lock_mode(rid)` answers: the mode of the first lock on
      `rid`, or NoLock when no lock is on `rid`. */
  function ModeOf(s: seq<Lock>, rid: string): LockMode
  {
    match FindRid(s, rid)
    case Some(i) => s[i].lockMode
    case None => NoLock
  }

  /** The position `update_lock` replaces: the first lock on `rid`, or 0 when
      there is none (its `replace_id` starts at 0 and `>= 0` always holds). */
  function ReplaceIndex(s: seq<Lock>, rid: string): nat
  {
    match FindRid(s, rid)
    case Some(i) => i
    case None => 0
  }

  /** What `lock_conflicts(require)` answers: some held lock does not admit
      `require`. */
  predicate Conflicts(s: seq<Lock>, require: LockMode)
  {
    exists i :: 0 <= i < |s| && !s[i].lockMode.Compatible(require)
  }

  /** What `retain(|lock| lock.rid != rid)` leaves: the locks not on `rid`, in
      their original order. */
  function WithoutRid(s: seq<Lock>, rid: string): (r: seq<Lock>)
    ensures forall l :: l in r <==> l in s && l.rid != rid
    ensures |r| <= |s|
    decreases |s|
  {
    if |s| == 0 then []
    else (if s[0].rid == rid then [] else [s[0]]) + WithoutRid(s[1..], rid)
  }

  /** A list in the shape two-phase locking wants on resource `rid`: not
      empty, every lock on `rid`, and either all Shared or one Exclusive. */
  ghost predicate WellShaped(s: seq<Lock>, rid: string)
  {
    && |s| > 0
    && (forall i :: 0 <= i < |s| ==> s[i].rid == rid)
    && ((forall i :: 0 <= i < |s| ==> s[i].lockMode == Shared)
        || (|s| == 1 && s[0].lockMode == Exclusive))
  }

  /** `remove(i)` followed by `insert(i, x)` replaces element `i`. */
  lemma RemoveInsertIsUpdate<T>(s: seq<T>, i: nat, x: T)
    requires i < |s|
    ensures var removed := s[..i] + s[i + 1..];
      removed[..i] + [x] + removed[i..] == s[i := x]
  {
    var removed := s[..i] + s[i + 1..];
    assert removed[..i] == s[..i];
    assert removed[i..] == s[i + 1..];
  }

  class LockList<K> {
    /** The resource id or the operation this list belongs to. */
    const tableKey: K
    var locks: seq<Lock>

    /** `new(key)`: the key and an empty list. */
    constructor (key: K)
      ensures tableKey == key && locks == []
    {
      tableKey := key;
      locks := [];
    }

    /** `lock_conflicts(require)`: scans for a held lock that does not admit
        `require`. */
    method LockConflicts(require: LockMode) returns (conflicts: bool)
      ensures conflicts <==> Conflicts(locks, require)
    {
      for k := 0 to |locks|
        invariant forall i :: 0 <= i < k ==> locks[i].lockMode.Compatible(require)
      {
        if !locks[k].lockMode.Compatible(require) {
          return true;
        }
      }
      return false;
    }

    /** `lock_size()`. */
    method LockSize() returns (n: nat)
      ensures n == |locks|
    {
      n := |locks|;
    }

    /** `remove_lock(rid)`: drops every lock on `rid`, keeping the others. */
    method RemoveLock(rid: string)
      modifies this
      ensures locks == WithoutRid(old(locks), rid)
    {
      locks := WithoutRid(locks, rid);
    }

    /** `update_lock(new_lock, rid)`: finds the first lock on `rid` and
        replaces it by remove-then-insert. `remove` panics on an empty vector,
        hence the precondition. */
    method UpdateLock(newLock: Lock, rid: string)
      requires |locks| > 0
      modifies this
      ensures |locks| == |old(locks)|
      ensures locks == old(locks)[ReplaceIndex(old(locks), rid) := newLock]
    {
      var replaceId := 0;
      var idx := 0;
      while idx < |locks|
        invariant 0 <= idx <= |locks|
        invariant forall j :: 0 <= j < idx ==> locks[j].rid != rid
        invariant replaceId == 0
      {
        if locks[idx].rid == rid {
          replaceId := idx;
          break;
        }
        idx := idx + 1;
      }
      ghost var before := locks;
      assert replaceId == ReplaceIndex(before, rid);
      // `replace_id >= 0` always holds, so the replacement always happens
      RemoveInsertIsUpdate(before, replaceId, newLock);
      var removed := locks[..replaceId] + locks[replaceId + 1..];
      locks := removed[..replaceId] + [newLock] + removed[replaceId..];
    }

    /** `add_lock(new_lock)`: appends at the end. */
    method AddLock(newLock: Lock)
      modifies this
      ensures locks == old(locks) + [newLock]
    {
      locks := locks + [newLock];
    }

    /** `get_lock_mode(rid)`: scans for the first lock on `rid`. */
    method GetLockMode(rid: string) returns (m: LockMode)
      ensures m == ModeOf(locks, rid)
    {
      for k := 0 to |locks|
        invariant forall j :: 0 <= j < k ==> locks[j].rid != rid
      {
        if locks[k].rid == rid {
          return locks[k].lockMode;
        }
      }
      return NoLock;
    }
  }

  // ----- Properties of the list operations -----

  /** `remove_lock` distributes over concatenation, so it keeps the
      surviving locks in their order. */
  lemma {:induction false} WithoutRidAppend(a: seq<Lock>, b: seq<Lock>, rid: string)
    ensures WithoutRid(a + b, rid) == WithoutRid(a, rid) + WithoutRid(b, rid)
    decreases |a|
  {
    if |a| == 0 {
      assert a + b == b;
    } else {
      assert (a + b)[1..] == a[1..] + b;
      WithoutRidAppend(a[1..], b, rid);
    }
  }

  /** A list with no lock on `rid` is left unchanged. */
  lemma {:induction false} WithoutRidNoMatch(s: seq<Lock>, rid: string)
    requires forall i :: 0 <= i < |s| ==> s[i].rid != rid
    ensures WithoutRid(s, rid) == s
    decreases |s|
  {
    if |s| > 0 {
      WithoutRidNoMatch(s[1..], rid);
    }
  }

  /** A list whose every lock is on `rid` is emptied. */
  lemma {:induction false} WithoutRidAllMatch(s: seq<Lock>, rid: string)
    requires forall i :: 0 <= i < |s| ==> s[i].rid == rid
    ensures WithoutRid(s, rid) == []
    decreases |s|
  {
    if |s| > 0 {
      WithoutRidAllMatch(s[1..], rid);
    }
  }

  /** Removing twice is removing once. */
  lemma WithoutRidIdempotent(s: seq<Lock>, rid: string)
    ensures WithoutRid(WithoutRid(s, rid), rid) == WithoutRid(s, rid)
  {
    var r := WithoutRid(s, rid);
    forall i | 0 <= i < |r| ensures r[i].rid != rid {
      assert r[i] in r;
    }
    WithoutRidNoMatch(r, rid);
  }

  /** The mode `get_lock_mode` reports is that of the first lock on `rid`;
      when every lock is on `rid`, that is simply the first lock. */
  lemma ModeOfFirstLock(s: seq<Lock>, rid: string)
    requires |s| > 0 && forall i :: 0 <= i < |s| ==> s[i].rid == rid
    ensures ModeOf(s, rid) == s[0].lockMode
  {
  }

  /** With no lock on `rid`, `get_lock_mode` reports NoLock. */
  lemma ModeOfMissing(s: seq<Lock>, rid: string)
    requires forall i :: 0 <= i < |s| ==> s[i].rid != rid
    ensures ModeOf(s, rid) == NoLock
  {
  }

  /** `update_lock` writes one position and keeps the length. */
  lemma ReplaceIndexInRange(s: seq<Lock>, rid: string)
    requires |s| > 0
    ensures ReplaceIndex(s, rid) < |s|
    ensures FindRid(s, rid).None? ==> ReplaceIndex(s, rid) == 0
  {
  }

  /** An empty list never conflicts. */
  lemma EmptyNeverConflicts(require: LockMode)
    ensures !Conflicts([], require)
  {
  }

  /** On a well-shaped list, the first lock's mode, which is all `acquire`
      consults, gives the same answer as scanning every held lock. */
  lemma FirstModeDecidesConflicts(s: seq<Lock>, rid: string, require: LockMode)
    requires WellShaped(s, rid)
    ensures Conflicts(s, require) <==> !ModeOf(s, rid).Compatible(require)
  {
    ModeOfFirstLock(s, rid);
    if !s[0].lockMode.Compatible(require) {
      assert Conflicts(s, require);
    }
  }
}
