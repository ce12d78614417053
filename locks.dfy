/**
  Lock modes, their compatibility and upgrade relations, the mapping from an
  operation's access kind to the mode it requests, and the lock grant record
  (src/lock.rs).
 */
module Locks {
  import opened Operations

  /** The three lock modes. `compatible` and `upgradable` are asked of the
      mode already HELD, with the REQUESTED mode as argument. */
  datatype LockMode = Shared | Exclusive | NoLock
  {
    /** May `require` be granted next to a lock held in this mode? */
    predicate Compatible(require: LockMode)
    {
      match this
      case Shared => require == Shared
      case Exclusive => false
      case NoLock => true
    }

    /** Does a request for `require` upgrade a lock held in this mode? */
    predicate Upgradable(require: LockMode)
    {
      match this
      case Shared => require == Exclusive
      case _ => false
    }
  }

  /** `LockMode::default()`. */
  function DefaultLockMode(): (m: LockMode)
    ensures m == NoLock
  {
    NoLock
  }

  /** `OP_LOCK_MAPPING`: the lock mode each access kind requests. */
  const OP_LOCK_MAPPING: map<OpType, LockMode> :=
    map[Read := Shared, Write := Exclusive, NoOp := NoLock]

  /** The lookup `*OP_LOCK_MAPPING.get(&op_type).unwrap()`: it never fails,
      because every access kind is a key of the mapping. */
  function RequestedMode(t: OpType): (m: LockMode)
    ensures t in OP_LOCK_MAPPING && m == OP_LOCK_MAPPING[t]
  {
    match t
    case Read => OP_LOCK_MAPPING[Read]
    case Write => OP_LOCK_MAPPING[Write]
    case NoOp => OP_LOCK_MAPPING[NoOp]
  }

  /** The grant record: which operation holds which mode on which resource. */
  datatype Lock = Lock(opId: string, lockMode: LockMode, rid: string)

  /** `Lock::new(lock_mode, op_id, rid)` (note the argument order). */
  function NewLock(lockMode: LockMode, opId: string, rid: string): (l: Lock)
    ensures l.opId == opId && l.lockMode == lockMode && l.rid == rid
  {
    Lock(opId, lockMode, rid)
  }

  /** The `get_lock_mode!` macro: the mode requested by the operation that
      `owners` records for `rid`, or the mode of `NoOp` when there is none. */
  function OwnerLockMode(owners: map<string, Operation>, rid: string): (m: LockMode)
    ensures rid in owners ==> owners[rid].opType in OP_LOCK_MAPPING && m == OP_LOCK_MAPPING[owners[rid].opType]
    ensures rid !in owners ==> m == NoLock
  {
    if rid in owners then RequestedMode(owners[rid].opType) else RequestedMode(NoOp)
  }

  // ----- Properties of the mode algebra -----

  /** A held Shared lock admits only Shared requests, a held Exclusive lock
      admits nothing, and NoLock admits everything. */
  lemma CompatibilityTable(require: LockMode)
    ensures Shared.Compatible(require) <==> require == Shared
    ensures !Exclusive.Compatible(require)
    ensures NoLock.Compatible(require)
  {
  }

  /** Upgrading is exactly the pair (Shared held, Exclusive requested). */
  lemma UpgradableExactly(held: LockMode, require: LockMode)
    ensures held.Upgradable(require) <==> held == Shared && require == Exclusive
  {
  }

  /** No pair is both an upgrade and compatible, so `acquire`'s two branches
      never overlap. */
  lemma UpgradableExcludesCompatible(held: LockMode, require: LockMode)
    ensures !(held.Upgradable(require) && held.Compatible(require))
  {
  }

  /** Compatibility is not symmetric. */
  lemma CompatibleNotSymmetric()
    ensures NoLock.Compatible(Exclusive)
    ensures !Exclusive.Compatible(NoLock)
  {
  }

  /** The mapping is total, so the lookup `acquire` unwraps never fails, and
      it sends each access kind to its mode. */
  lemma MappingTotal(t: OpType)
    ensures t in OP_LOCK_MAPPING
    ensures RequestedMode(t) == match t
      case Read => Shared
      case Write => Exclusive
      case NoOp => NoLock
  {
  }

  /** The default operation requests NoLock, the default mode. */
  lemma DefaultOperationRequestsNoLock()
    ensures RequestedMode(DefaultOperation().opType) == DefaultLockMode()
  {
  }
}
