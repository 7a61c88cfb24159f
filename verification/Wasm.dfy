/** Parsed WebAssembly modules: value types, instructions and the parts of a
    module that the validator and the compiler look at (src/module.rs). */
module Wasm {

  datatype Option<+T> = None | Some(value: T)

  const TWO_TO_16 := 0x1_0000
  const TWO_TO_32 := 0x1_0000_0000
  const TWO_TO_61 := 0x2000_0000_0000_0000
  const TWO_TO_64 := 0x1_0000_0000_0000_0000

  /** Two to the `n`. */
  function Pow2(n: nat): nat {
    if n == 0 then 1 else 2 * Pow2(n - 1)
  }

  type byte = x: int | 0 <= x < 0x100
  /** A name as its UTF-8 bytes. */
  type Name = seq<byte>

  type u16 = x: int | 0 <= x < TWO_TO_16
  type u32 = x: int | 0 <= x < TWO_TO_32
  type u64 = x: int | 0 <= x < TWO_TO_64

  // ----- types -----

  /** `HBot` is the bottom heap type that the typing rules of the standard use;
      no module contains it. */
  datatype HeapType =
    | HFunc | HExtern | HAny | HEq | HI31 | HStruct | HArray | HExn
    | HNone | HNoExtern | HNoFunc | HNoExn
    | HTypeIndex(index: u32)
    | HBot

  datatype RefType = FuncRef | ExternRef | Ref(nullable: bool, heap: HeapType)

  datatype ValueType = I32 | I64 | F32 | F64 | V128 | RefVal(rt: RefType)

  datatype FunctionType = FunctionType(params: seq<ValueType>, results: seq<ValueType>)

  datatype StorageType = Val(vt: ValueType) | I8 | I16

  datatype FieldType = FieldType(storage: StorageType, isMutable: bool)

  datatype CompositeType =
    | FuncType(ft: FunctionType)
    | StructType(fields: seq<FieldType>)
    | ArrayType(field: FieldType)

  datatype SubType = SubType(isFinal: bool, supertypes: seq<u32>, composite: CompositeType)

  datatype BlockType = EmptyType | SingleValue(vt: ValueType) | TypeIndex(index: int)

  datatype GlobalType = GlobalType(valueType: ValueType, isMutable: bool)

  datatype TableType = TableType(element: RefType, addr64: bool)

  // ----- instructions -----

  datatype IntType = Int32 | Int64

  datatype FloatType = Float32 | Float64

  function IntValueType(t: IntType): ValueType {
    if t == Int32 then I32 else I64
  }

  function FloatValueType(t: FloatType): ValueType {
    if t == Float32 then F32 else F64
  }

  datatype IntRelation = Eq | Ne | LtS | LtU | GtS | GtU | LeS | LeU | GeS | GeU

  datatype FloatRelation = FEq | FNe | FLt | FGt | FLe | FGe

  /** The comparison operators, all of which the compiler can fuse with a jump. */
  datatype Comparison =
    | IntCompare(it: IntType, irel: IntRelation)
    | FloatCompare(fl: FloatType, frel: FloatRelation)

  function ComparedType(c: Comparison): ValueType {
    match c
    case IntCompare(t, _) => IntValueType(t)
    case FloatCompare(t, _) => FloatValueType(t)
  }

  type Narrow = w: nat | w == 1 || w == 2 || w == 4 witness 1

  /** What a load reads and what it pushes: `width` bytes, extended to the
      operand width when narrower. */
  datatype LoadKind =
    | I32Load | I64Load | F32Load | F64Load
    | I32LoadNarrow(width: Narrow, signed: bool)
    | I64LoadNarrow(width: Narrow, signed: bool)

  datatype StoreKind =
    | I32Store | I64Store | F32Store | F64Store
    | I32StoreNarrow(width: Narrow)
    | I64StoreNarrow(width: Narrow)

  datatype MemArg = MemArg(align: u32, offset: u64, memory: nat)

  /** Instructions without control flow. A numeric operator is named by an
      opcode; what it computes is a parameter of the semantics. */
  datatype Leaf =
    | Nop
    | Const(ct: ValueType, bits: u64)
    | LocalGet(x: nat) | LocalSet(x: nat) | LocalTee(x: nat)
    | GlobalGet(x: nat) | GlobalSet(x: nat)
    | Drop
    | Select(ts: seq<ValueType>)
    | EqZero(zt: IntType)
    | Compare(cmp: Comparison)
    | Unary(opcode: nat, from: ValueType, to: ValueType)
    | Binary(opcode: nat, t: ValueType)
    | Load(lk: LoadKind, arg: MemArg)
    | Store(sk: StoreKind, arg: MemArg)
    | MemorySize(x: nat)
    | RefNull(ht: HeapType)
    | RefIsNull
    | RefAsNonNull
    | RefFunc(x: nat)

  datatype Instr =
    | Plain(leaf: Leaf)
    | Unreachable
    | Block(bt: BlockType, body: seq<Instr>)
    | Loop(bt: BlockType, body: seq<Instr>)
    | IfElse(bt: BlockType, thn: seq<Instr>, els: seq<Instr>)
    | Br(depth: nat)
    | BrIf(depth: nat)
    | BrTable(labels: seq<nat>, default: nat)
    | Return
    | Call(func: nat)
    | CallIndirect(ty: nat, table: nat)
    | ReturnCall(func: nat)
    | ReturnCallIndirect(ty: nat, table: nat)

  predicate Structured(i: Instr) { i.Block? || i.Loop? || i.IfElse? }

  // ----- modules -----

  datatype Function = Function(typeIndex: nat, locals: seq<ValueType>, body: seq<Instr>)

  /** `funcTypes` holds the type index of every function, imports first; the
      other index spaces are imports first too. `refs` are the functions that
      ref.func may name. */
  datatype Module = Module(
    types: seq<SubType>,
    funcTypes: seq<u32>,
    functions: seq<Function>,
    globals: seq<GlobalType>,
    mems: seq<bool>,            // true: 64-bit addresses
    tables: seq<TableType>,
    refs: set<nat>)

  /** The function type at a type index, if there is one. */
  function FuncTypeAt(types: seq<SubType>, i: int): Option<FunctionType> {
    if 0 <= i < |types| && types[i].composite.FuncType? then Some(types[i].composite.ft) else None
  }

  function CalleeType(m: Module, f: nat): Option<FunctionType> {
    if f < |m.funcTypes| then FuncTypeAt(m.types, m.funcTypes[f]) else None
  }

  /** The numbers of parameters and results of a block. */
  function BlockSig(m: Module, bt: BlockType): (nat, nat) {
    match bt
    case EmptyType => (0, 0)
    case SingleValue(_) => (0, 1)
    case TypeIndex(i) =>
      match FuncTypeAt(m.types, i)
      case Some(ft) => (|ft.params|, |ft.results|)
      case None => (0, 0)
  }
}
