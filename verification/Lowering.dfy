/** Lowering of structured bodies to linear code with labels, then the passes
    over that code, as functions (src/compiler.rs). The class
    `Compiler.Compiler` computes the same step by step. */
module Lowering {
  import opened Wasm
  import opened Ir

  /** The static height of code after an unconditional transfer. */
  const UNREACHABLE_DEPTH: int := -0x8000_0000

  datatype BlockKind = FunctionBlock | PlainBlock | LoopBlock | IfElseBlock

  datatype BlockContext = BlockContext(kind: BlockKind, entry: int, arity: nat, start: nat, end: nat)

  /** The compiler's mutable state besides the code itself. `tables` are the
      branch tables of this function; `base` tables of earlier functions of the
      module come before them. `dead` is not in the source: it says that the code
      is behind an unconditional transfer of this block or of one around it. */
  datatype Compiling = Compiling(height: int, max: int, next: nat, base: nat, tables: seq<seq<JumpTableEntry>>,
                                 dead: bool)

  datatype Emission = Emission(code: seq<Item>, st: Compiling)

  function ToU16(v: int): u16 { v % TWO_TO_16 }

  function Max(a: int, b: int): int { if a < b then b else a }

  // ----- lookups; a lookup out of range, on which the source panics, gives a default -----

  function BlockAt(blocks: seq<BlockContext>, depth: nat): BlockContext
    requires blocks != []
  {
    if depth < |blocks| then blocks[|blocks| - 1 - depth] else blocks[0]
  }

  function TypeSig(types: seq<SubType>, ty: int): (nat, nat) {
    match FuncTypeAt(types, ty)
    case Some(ft) => (|ft.params|, |ft.results|)
    case None => (0, 0)
  }

  function CallSig(m: Module, f: nat): (nat, nat) {
    if f < |m.funcTypes| then TypeSig(m.types, m.funcTypes[f]) else (0, 0)
  }

  // ----- emission -----

  function BranchTarget(b: BlockContext): nat {
    if b.kind == LoopBlock then b.start else b.end
  }

  function EntryHeight(height: int, params: nat): int {
    if height != UNREACHABLE_DEPTH then height - params else 0
  }

  function Drop16(height: int, b: BlockContext, keep: u16): u16 {
    ToU16(height - b.entry - keep)
  }

  function Entries(blocks: seq<BlockContext>, height: int, keep: u16, ls: seq<nat>): (r: seq<JumpTableEntry>)
    requires blocks != []
    ensures |r| == |ls|
  {
    seq(|ls|, i requires 0 <= i < |ls| =>
      var b := BlockAt(blocks, ls[i]);
      JumpTableEntry(BranchTarget(b), Drop16(height, b, keep)))
  }

  /** The operation for a leaf: memory offsets are cut to 32 bits. */
  function LowerLeaf(l: Leaf): Leaf {
    match l
    case Load(k, m) => Load(k, m.(offset := m.offset % TWO_TO_32))
    case Store(k, m) => Store(k, m.(offset := m.offset % TWO_TO_32))
    case _ => l
  }

  function LeafDelta(l: Leaf): int {
    match l
    case Nop | LocalTee(_) | EqZero(_) | Unary(_, _, _) | Load(_, _) | RefIsNull | RefAsNonNull => 0
    case Const(_, _) | LocalGet(_) | GlobalGet(_) | MemorySize(_) | RefNull(_) | RefFunc(_) => 1
    case LocalSet(_) | GlobalSet(_) | Drop | Compare(_) | Binary(_, _) => -1
    case Select(_) | Store(_, _) => -2
  }

  /** The number of operands, less the function's arguments, that is recorded with
      an operation. In dead code there is none: a nested block resets the
      compiler's height there, to a number that no run has to do with. */
  function Recorded(blocks: seq<BlockContext>, height: int, dead: bool): int
    requires blocks != []
  {
    if dead then -1 else height - blocks[0].entry
  }

  function One(blocks: seq<BlockContext>, s: Compiling, op: Op): seq<Item>
    requires blocks != []
  {
    [Emitted(Line(op, Recorded(blocks, s.height, s.dead)))]
  }

  function LowerSeq(m: Module, blocks: seq<BlockContext>, s: Compiling, body: seq<Instr>): Emission
    requires blocks != []
    decreases body, 0
  {
    if body == [] then Emission([], s)
    else
      var e := Lower(m, blocks, s, body[0]);
      var rest := LowerSeq(m, blocks, e.st, body[1..]);
      Emission(e.code + rest.code, rest.st)
  }

  /** Lowers one instruction; after an unconditional transfer only structured
      instructions still emit code. */
  function Lower(m: Module, blocks: seq<BlockContext>, s: Compiling, i: Instr): Emission
    requires blocks != []
    decreases i, 2
  {
    if s.height == UNREACHABLE_DEPTH && !Structured(i) then Emission([], s)
    else
      var e := if Structured(i) then LowerStructured(m, blocks, s, i) else LowerSimple(m, blocks, s, i);
      e.(st := e.st.(max := Max(e.st.max, e.st.height)))
  }

  function LowerStructured(m: Module, blocks: seq<BlockContext>, s: Compiling, i: Instr): Emission
    requires blocks != [] && Structured(i)
    decreases i, 1
  {
    var (p, r) := BlockSig(m, i.bt);
    match i
    case Block(_, body) => LowerBlock(m, blocks, s, PlainBlock, p, r, r, body)
    case Loop(_, body) => LowerBlock(m, blocks, s, LoopBlock, p, r, p, body)
    case IfElse(_, _, _) => LowerConditional(m, blocks, s, i)
  }

  /** Labels `n`, `n + 1` and `n + 2` mark the alternative, the end and the start. */
  function ConditionalCode(n: nat, test: seq<Item>, thn: seq<Item>, skip: seq<Item>, els: seq<Item>): seq<Item> {
    test + [Label(n + 2)] + thn + skip + [Label(n)] + els + [Label(n + 1)]
  }

  function LowerConditional(m: Module, blocks: seq<BlockContext>, s: Compiling, i: Instr): Emission
    requires blocks != [] && i.IfElse?
    decreases i, 0
  {
    var (p, r) := BlockSig(m, i.bt);
    var height := if s.height != UNREACHABLE_DEPTH then s.height - 1 else s.height;
    var entry := EntryHeight(height, p);
    var (elseLabel, end, start) := (s.next, s.next + 1, s.next + 2);
    var inner := blocks + [BlockContext(IfElseBlock, entry, r, start, end)];
    var test := One(blocks, s, JumpIfNot(elseLabel, 0, 0));
    var t := LowerSeq(m, inner, s.(height := height, next := s.next + 3), i.thn);
    if i.els == [] then
      Emission(ConditionalCode(s.next, test, t.code, [], []), t.st.(height := entry + r, dead := s.dead))
    else
      var e := LowerSeq(m, inner, t.st.(height := height, dead := s.dead), i.els);
      Emission(ConditionalCode(s.next, test, t.code, One(blocks, t.st, Jump(end, 0, 0)), e.code),
               e.st.(height := entry + r, dead := s.dead))
  }

  function LowerBlock(m: Module, blocks: seq<BlockContext>, s: Compiling, kind: BlockKind,
                      params: nat, results: nat, arity: nat, body: seq<Instr>): Emission
    requires blocks != []
    decreases body, 1
  {
    var entry := EntryHeight(s.height, params);
    var (start, end) := (s.next, s.next + 1);
    var e := LowerSeq(m, blocks + [BlockContext(kind, entry, arity, start, end)], s.(next := s.next + 2), body);
    Emission([Label(start)] + e.code + [Label(end)], e.st.(height := entry + results, dead := s.dead))
  }

  function LowerSimple(m: Module, blocks: seq<BlockContext>, s: Compiling, i: Instr): Emission
    requires blocks != [] && !Structured(i)
  {
    match i
    case Plain(l) => Emission(One(blocks, s, LeafOp(LowerLeaf(l))), s.(height := s.height + LeafDelta(l)))
    case Unreachable => Emission(One(blocks, s, UnreachableOp), s.(height := UNREACHABLE_DEPTH, dead := true))
    case Br(k) =>
      var b := BlockAt(blocks, k);
      var keep := ToU16(b.arity);
      Emission(One(blocks, s, Jump(BranchTarget(b), keep, Drop16(s.height, b, keep))), s.(height := UNREACHABLE_DEPTH, dead := true))
    case BrIf(k) =>
      var b := BlockAt(blocks, k);
      var keep := ToU16(b.arity);
      Emission(One(blocks, s, JumpIf(BranchTarget(b), keep, Drop16(s.height - 1, b, keep))), s.(height := s.height - 1))
    case BrTable(ls, default) =>
      var keep := ToU16(BlockAt(blocks, default).arity);
      var entries := Entries(blocks, s.height - 1, keep, ls + [default]);
      Emission(One(blocks, s, JumpTable(s.base + |s.tables|, keep)),
               s.(height := UNREACHABLE_DEPTH, dead := true, tables := s.tables + [entries]))
    case Return => Emission(One(blocks, s, ReturnOp), s.(height := UNREACHABLE_DEPTH, dead := true))
    case Call(f) =>
      var (p, r) := CallSig(m, f);
      Emission(One(blocks, s, CallOp(f)), s.(height := s.height - p + r))
    case CallIndirect(ty, table) =>
      var (p, r) := TypeSig(m.types, ty);
      Emission(One(blocks, s, CallIndirectOp(ty, table)), s.(height := s.height - 1 - p + r))
    case ReturnCall(f) => Emission(One(blocks, s, ReturnCallOp(f)), s.(height := UNREACHABLE_DEPTH, dead := true))
    case ReturnCallIndirect(ty, table) =>
      Emission(One(blocks, s, ReturnCallIndirectOp(ty, table)), s.(height := UNREACHABLE_DEPTH, dead := true))
  }

  /** The labelled code of a function, and what the compiler's state became. */
  function LowerFunction(m: Module, f: Function, base: nat): Emission {
    var (p, r) := TypeSig(m.types, f.typeIndex);
    var e := LowerSeq(m, [BlockContext(FunctionBlock, p, r, 0, 1)], Compiling(p, 0, 2, base, [], false), f.body);
    Emission([Label(0)] + e.code + [Label(1), Emitted(Line(ReturnOp, r))], e.st)
  }

  // ----- passes over labelled code -----

  /** Whether a jump in the code, or an entry of one of the tables, goes to the label. */
  predicate Targeted(code: seq<Item>, tables: seq<seq<JumpTableEntry>>, id: nat) {
    || (exists i :: 0 <= i < |code| && code[i].Emitted? && JumpTarget(code[i].line.op) == Some(id))
    || (exists t, e :: 0 <= t < |tables| && 0 <= e < |tables[t]| && tables[t][e].target == id)
  }

  function StripLabels(code: seq<Item>, live: set<nat>): seq<Item> {
    if code == [] then []
    else if code[0].Label? && code[0].id !in live then StripLabels(code[1..], live)
    else [code[0]] + StripLabels(code[1..], live)
  }

  /** The single operation for two adjacent ones, if there is one. */
  function FusedOp(a: Op, b: Op): Option<Op> {
    match (a, b)
    case (LeafOp(LocalGet(x)), LeafOp(LocalSet(y))) => Some(LocalGetLocalSet(x, y))
    case (LeafOp(LocalGet(x)), LeafOp(Store(k, arg))) =>
      if k.I32StoreNarrow? || k.I64StoreNarrow? then None else Some(LocalGetStore(x, k, arg))
    case (LeafOp(LocalGet(x)), LeafOp(Load(k, arg))) =>
      if k.I32LoadNarrow? || k.I64LoadNarrow? then None else Some(LocalGetLoad(x, k, arg))
    case (LeafOp(LocalGet(x)), ReturnOp) => Some(LocalGetReturn(x))
    case (LeafOp(LocalGet(x)), LeafOp(LocalGet(y))) => Some(LocalGet2(x, y))
    case (LeafOp(EqZero(t)), JumpIf(target, keep, drop)) => Some(EqZeroJumpIf(t, target, keep, drop))
    case (LeafOp(EqZero(Int32)), JumpIfNot(target, keep, drop)) => Some(EqZeroJumpIfNot(target, keep, drop))
    case (LeafOp(Compare(c)), JumpIf(target, keep, drop)) => Some(CompareJumpIf(c, target, keep, drop))
    case _ => None
  }

  /** Whether the code starts with two operations that fuse. */
  predicate FusesAtStart(code: seq<Item>) {
    |code| >= 2 && code[0].Emitted? && code[1].Emitted? && FusedOp(code[0].line.op, code[1].line.op).Some?
  }

  function FuseOps(code: seq<Item>): seq<Item> {
    if code == [] then []
    else if FusesAtStart(code) then
      [Emitted(Line(FusedOp(code[0].line.op, code[1].line.op).value, code[0].line.at))] + FuseOps(code[2..])
    else [code[0]] + FuseOps(code[1..])
  }

  /** The number of operations among the first `n` items. */
  function OpCount(code: seq<Item>): nat {
    if code == [] then 0
    else OpCount(code[..|code| - 1]) + (if code[|code| - 1].Emitted? then 1 else 0)
  }

  /** The position a label resolves to: that of the operation after it. */
  function LabelPosition(code: seq<Item>, id: nat): nat {
    if code == [] then 0
    else if code[|code| - 1] == Label(id) then OpCount(code[..|code| - 1])
    else LabelPosition(code[..|code| - 1], id)
  }

  function ResolveOp(code: seq<Item>, op: Op): Op {
    match JumpTarget(op)
    case Some(id) => Retarget(op, LabelPosition(code, id))
    case None => op
  }

  /** The operations of a prefix of the code, with targets resolved in all of it. */
  function Assemble(code: seq<Item>, prefix: seq<Item>): seq<Line> {
    if prefix == [] then []
    else
      var lines := Assemble(code, prefix[..|prefix| - 1]);
      match prefix[|prefix| - 1]
      case Emitted(line) => lines + [Line(ResolveOp(code, line.op), line.at)]
      case Label(_) => lines
  }

  function ResolveTable(code: seq<Item>, table: seq<JumpTableEntry>): (r: seq<JumpTableEntry>)
    ensures |r| == |table|
  {
    seq(|table|, i requires 0 <= i < |table| => table[i].(target := LabelPosition(code, table[i].target)))
  }

  function ResolveTables(code: seq<Item>, tables: seq<seq<JumpTableEntry>>): (r: seq<seq<JumpTableEntry>>)
    ensures |r| == |tables|
  {
    seq(|tables|, i requires 0 <= i < |tables| => ResolveTable(code, tables[i]))
  }

  // ----- whole modules -----

  function LowerFunctions(m: Module, n: nat): (es: seq<Emission>)
    requires n <= |m.functions|
    ensures |es| == n
  {
    if n == 0 then []
    else
      var es := LowerFunctions(m, n - 1);
      es + [LowerFunction(m, m.functions[n - 1], TableCount(es))]
  }

  function TableCount(es: seq<Emission>): nat {
    if es == [] then 0 else TableCount(es[..|es| - 1]) + |es[|es| - 1].st.tables|
  }

  /** The code that assembly starts from: without dead labels, and fused. */
  function Optimized(e: Emission): seq<Item> {
    FuseOps(StripLabels(e.code, LiveLabels(e.code, e.st.tables, e.st.next)))
  }

  function LiveLabels(code: seq<Item>, tables: seq<seq<JumpTableEntry>>, next: nat): set<nat> {
    set id | 0 <= id < next && Targeted(code, tables, id)
  }

  function FinishFunction(code: seq<Item>, e: Emission, f: Function): CompiledFunction {
    CompiledFunction(Assemble(code, code), f.locals, e.st.max)
  }

  /** All branch tables of a module, in the order of its functions, each resolved
      in the code of the function it belongs to. `optimize` says whether the
      passes that strip labels and fuse operations ran. */
  function ModuleTables(es: seq<Emission>, optimize: bool): seq<seq<JumpTableEntry>> {
    if es == [] then []
    else
      var e := es[|es| - 1];
      ModuleTables(es[..|es| - 1], optimize) + ResolveTables(if optimize then Optimized(e) else e.code, e.st.tables)
  }

  function CompileModule(m: Module, optimize: bool): ModuleCode {
    var es := LowerFunctions(m, |m.functions|);
    ModuleCode(
      seq(|es|, i requires 0 <= i < |es| =>
        FinishFunction(if optimize then Optimized(es[i]) else es[i].code, es[i], m.functions[i])),
      ModuleTables(es, optimize))
  }
}
