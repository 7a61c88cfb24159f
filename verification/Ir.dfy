/** The linear code that the compiler emits and the interpreter runs (src/ir.rs). */
module Ir {
  import opened Wasm

  datatype JumpTableEntry = JumpTableEntry(target: nat, drop: u16)

  /** A jump's target is a label id until assembly and a position afterwards. */
  datatype Op =
    | LeafOp(leaf: Leaf)
    | UnreachableOp
    | ReturnOp
    | Jump(target: nat, keep: u16, drop: u16)
    | JumpIf(target: nat, keep: u16, drop: u16)
    | JumpIfNot(target: nat, keep: u16, drop: u16)
    | JumpTable(index: nat, keep: u16)
    | CallOp(func: nat)
    | CallIndirectOp(ty: nat, table: nat)
    | ReturnCallOp(func: nat)
    | ReturnCallIndirectOp(ty: nat, table: nat)
    // made by fusing two adjacent operations
    | EqZeroJumpIf(zt: IntType, target: nat, keep: u16, drop: u16)
    | EqZeroJumpIfNot(target: nat, keep: u16, drop: u16)
    | CompareJumpIf(cmp: Comparison, target: nat, keep: u16, drop: u16)
    | LocalGet2(a: nat, b: nat)
    | LocalGetReturn(x: nat)
    | LocalGetLoad(x: nat, lk: LoadKind, arg: MemArg)
    | LocalGetStore(x: nat, sk: StoreKind, arg: MemArg)
    | LocalGetLocalSet(from: nat, to: nat)

  /** An operation with the operand-stack height, counted from the frame's
      base, that the compiler had computed where it emitted the operation. The
      original does not record that height; here it states the compiler's claim
      about the runtime, which the machine checks. It is -1 behind an unconditional
      transfer, where the claim is that no run ever is. */
  datatype Line = Line(op: Op, at: int)

  datatype Item = Emitted(line: Line) | Label(id: nat)

  datatype CompiledFunction = CompiledFunction(lines: seq<Line>, localTypes: seq<ValueType>, maxHeight: int)

  datatype ModuleCode = ModuleCode(funcs: seq<CompiledFunction>, tables: seq<seq<JumpTableEntry>>)

  function JumpTarget(op: Op): Option<nat> {
    match op
    case Jump(t, _, _) => Some(t)
    case JumpIf(t, _, _) => Some(t)
    case JumpIfNot(t, _, _) => Some(t)
    case EqZeroJumpIf(_, t, _, _) => Some(t)
    case EqZeroJumpIfNot(t, _, _) => Some(t)
    case CompareJumpIf(_, t, _, _) => Some(t)
    case _ => None
  }

  /** The same operation with its jump target, if it has one, replaced. */
  function Retarget(op: Op, t: nat): Op {
    match op
    case Jump(_, k, d) => Jump(t, k, d)
    case JumpIf(_, k, d) => JumpIf(t, k, d)
    case JumpIfNot(_, k, d) => JumpIfNot(t, k, d)
    case EqZeroJumpIf(z, _, k, d) => EqZeroJumpIf(z, t, k, d)
    case EqZeroJumpIfNot(_, k, d) => EqZeroJumpIfNot(t, k, d)
    case CompareJumpIf(c, _, k, d) => CompareJumpIf(c, t, k, d)
    case _ => op
  }
}
