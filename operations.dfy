/**
  Operations: the caller's single lock request, naming one resource and the
  kind of access it wants (src/operation.rs).
 */
module Operations {

  /** The kind of access an operation performs. */
  datatype OpType = Read | Write | NoOp

  /** One operation: its access kind, its id and the resource id it locks. */
  datatype Operation = Operation(opType: OpType, id: string, resources: string)

  /** `OpType::default()`. */
  function DefaultOpType(): (t: OpType)
    ensures t == NoOp
  {
    NoOp
  }

  /** `Operation::default()`: a placeholder operation that requests no lock. */
  function DefaultOperation(): (op: Operation)
    ensures op.opType == DefaultOpType()
    ensures op.id == "_NONE" && op.resources == "_NONE_RID"
  {
    Operation(NoOp, "_NONE", "_NONE_RID")
  }

  /** `Operation::new(id, rid, op_type)`: the resource id is stored in `resources`. */
  function NewOperation(id: string, rid: string, opType: OpType): (op: Operation)
    ensures op.id == id && op.resources == rid && op.opType == opType
  {
    Operation(opType, id, rid)
  }
}
