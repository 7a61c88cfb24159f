/** The state that runs of a program share and the meaning of instructions
    without control flow (src/runtime/store.rs, src/runtime/types.rs,
    src/runtime/memory.rs). The structured and the flat semantics both call
    `EvalLeaf`. */
module Runtime {
  import opened Wasm

  /** An untyped 64-bit stack slot. */
  type Raw = u64

  datatype Reference = Null | FunctionAddr(addr: nat) | OtherRef(payload: nat)

  datatype GlobalInst = GlobalInst(isMutable: bool, value: Raw)

  datatype MemInst = MemInst(addr64: bool, data: seq<byte>)

  datatype TableInst = TableInst(addr64: bool, elems: seq<Reference>)

  /** Everything that outlives a call. `hostData` is the embedder's own state. */
  datatype World = World(
    globals: seq<GlobalInst>,
    mems: seq<MemInst>,
    tables: seq<TableInst>,
    hostData: seq<byte>)

  /** Why a run stopped without a result. */
  datatype Fault =
    | UnreachableExecuted
    | NumericFault
    | OutOfBoundsMemory
    | UndefinedElement
    | IndirectCallTypeMismatch
    | NullReference
    | CallStackExhausted
    | ImmutableGlobal
    | NotAFunctionType
    | HostError
    | Exited(code: u32)
    | Panicked

  datatype FuncInst =
    | LocalFunc(ft: FunctionType, mi: nat, fi: nat)
    | HostFunc(ft: FunctionType, moduleName: Name, funcName: Name)

  /** A module instance: where each of its index spaces lives in the store. */
  datatype Instance = Instance(
    mod: Module,
    funcAddrs: seq<nat>,
    tableAddrs: seq<nat>,
    memAddrs: seq<nat>,
    globalAddrs: seq<nat>)

  /** What the numeric operators compute; None is a numeric trap. */
  datatype Platform = Platform(
    unary: (nat, Raw) -> Option<Raw>,
    binary: (nat, Raw, Raw) -> Option<Raw>,
    floatCompare: (FloatType, FloatRelation, Raw, Raw) -> bool)

  /** What calling an import does: it may change the world, and it returns
      values, exits, or fails. */
  datatype HostOutcome = HostReturn(results: seq<Raw>, world: World) | HostExit(code: u32, world: World) | HostFail(world: World)

  datatype Env = Env(
    funcs: seq<FuncInst>,
    insts: seq<Instance>,
    platform: Platform,
    host: (Name, Name, seq<Raw>, World) -> HostOutcome)

  // ----- raw values -----

  function Signed(bits: int, width: nat): int {
    if width == 1 then (if bits < 0x80 then bits else bits - 0x100)
    else if width == 2 then (if bits < 0x8000 then bits else bits - TWO_TO_16)
    else if width == 4 then (if bits < 0x8000_0000 then bits else bits - TWO_TO_32)
    else (if bits < 0x8000_0000_0000_0000 then bits else bits - TWO_TO_64)
  }

  function AsI32(r: Raw): int { Signed(r % TWO_TO_32, 4) }

  function AsI64(r: Raw): int { Signed(r, 8) }

  /** An integer stored in a slot, sign-extended to 64 bits. */
  function ToRaw(v: int): Raw { v % TWO_TO_64 }

  function AsInt(t: IntType, r: Raw): int { if t == Int32 then AsI32(r) else AsI64(r) }

  function AsUInt(t: IntType, r: Raw): int { if t == Int32 then r % TWO_TO_32 else r }

  function BoolRaw(b: bool): Raw { if b then 1 else 0 }

  /** None stands for a bit pattern that decoding a reference rejects by a panic. */
  function AsReference(r: Raw): Option<Reference> {
    var tag, payload := r / TWO_TO_61, r % TWO_TO_61;
    if tag == 0 then Some(Null)
    else if tag == 1 then Some(FunctionAddr(payload))
    else if tag <= 4 then Some(OtherRef(payload))
    else None
  }

  function FuncRefRaw(addr: nat): Raw { TWO_TO_61 + addr % TWO_TO_61 }

  function Holds(p: Platform, c: Comparison, b: Raw, a: Raw): bool {
    match c
    case IntCompare(t, rel) => IntHolds(rel, AsInt(t, b), AsInt(t, a), AsUInt(t, b), AsUInt(t, a))
    case FloatCompare(t, rel) => p.floatCompare(t, rel, b, a)
  }

  function IntHolds(rel: IntRelation, b: int, a: int, ub: int, ua: int): bool {
    match rel
    case Eq => b == a
    case Ne => b != a
    case LtS => b < a
    case LtU => ub < ua
    case GtS => b > a
    case GtU => ub > ua
    case LeS => b <= a
    case LeU => ub <= ua
    case GeS => b >= a
    case GeU => ub >= ua
  }

  // ----- linear memory -----

  /** The effective address: an i32 base is sign-extended to 64 bits, and the
      sum must not overflow 64 bits. */
  function EffectiveAddress(addr64: bool, base: Raw, offset: u64): Option<u64> {
    var b := if addr64 then base else ToRaw(AsI32(base));
    if b + offset < TWO_TO_64 then Some(b + offset) else None
  }

  function LoadWidth(k: LoadKind): nat {
    match k
    case I32Load => 4
    case I64Load => 8
    case F32Load => 4
    case F64Load => 8
    case I32LoadNarrow(w, _) => w
    case I64LoadNarrow(w, _) => w
  }

  function StoreWidth(k: StoreKind): nat {
    match k
    case I32Store => 4
    case I64Store => 8
    case F32Store => 4
    case F64Store => 8
    case I32StoreNarrow(w) => w
    case I64StoreNarrow(w) => w
  }

  function FromLE(bs: seq<byte>): nat {
    if bs == [] then 0 else bs[0] + 0x100 * FromLE(bs[1..])
  }

  function ToLE(v: nat, width: nat): (bs: seq<byte>)
    ensures |bs| == width
  {
    if width == 0 then [] else [v % 0x100] + ToLE(v / 0x100, width - 1)
  }

  function Loaded(k: LoadKind, bs: seq<byte>): Raw {
    var v := FromLE(bs);
    match k
    case I32Load => ToRaw(Signed(v, 4))
    case I64Load => ToRaw(v)
    case F32Load => ToRaw(v)
    case F64Load => ToRaw(v)
    case I32LoadNarrow(w, signed) => ToRaw(if signed then Signed(v, w) else v)
    case I64LoadNarrow(w, signed) => ToRaw(if signed then Signed(v, w) else v)
  }

  // ----- the shared step -----

  datatype LeafResult =
    | LeafOk(results: seq<Raw>, locals: seq<Raw>, world: World)
    | LeafFault(fault: Fault, w: World)
    | LeafWrong   // an index the source does not bounds-check, or checks by a panic

  /** How many operands a leaf instruction takes and gives. */
  function Pops(l: Leaf): nat {
    match l
    case Nop | Const(_, _) | LocalGet(_) | GlobalGet(_) | MemorySize(_) | RefNull(_) | RefFunc(_) => 0
    case LocalSet(_) | LocalTee(_) | GlobalSet(_) | Drop | EqZero(_) | Unary(_, _, _) | Load(_, _) => 1
    case RefIsNull | RefAsNonNull => 1
    case Compare(_) | Binary(_, _) | Store(_, _) => 2
    case Select(_) => 3
  }

  function Pushes(l: Leaf): nat {
    match l
    case Nop | LocalSet(_) | GlobalSet(_) | Drop | Store(_, _) => 0
    case _ => 1
  }

  /** Runs one leaf instruction on exactly the operands it takes, deepest first. */
  function EvalLeaf(env: Env, mi: nat, l: Leaf, args: seq<Raw>, locals: seq<Raw>, w: World): (r: LeafResult)
    requires mi < |env.insts| && |args| == Pops(l)
    ensures r.LeafOk? ==> |r.results| == Pushes(l) && |r.locals| == |locals|
  {
    var inst := env.insts[mi];
    match l
    case Nop => LeafOk([], locals, w)
    case Const(_, bits) => LeafOk([bits], locals, w)
    case LocalGet(x) => if x < |locals| then LeafOk([locals[x]], locals, w) else LeafWrong
    case LocalSet(x) => if x < |locals| then LeafOk([], locals[x := args[0]], w) else LeafWrong
    case LocalTee(x) => if x < |locals| then LeafOk(args, locals[x := args[0]], w) else LeafWrong
    case GlobalGet(x) =>
      if x < |inst.globalAddrs| && inst.globalAddrs[x] < |w.globals| then
        LeafOk([w.globals[inst.globalAddrs[x]].value], locals, w)
      else LeafWrong
    case GlobalSet(x) => SetGlobal(inst, x, args[0], locals, w)
    case Drop => LeafOk([], locals, w)
    case Select(_) => LeafOk([if AsI32(args[2]) != 0 then args[0] else args[1]], locals, w)
    case EqZero(t) => LeafOk([BoolRaw(AsInt(t, args[0]) == 0)], locals, w)
    case Compare(c) => LeafOk([BoolRaw(Holds(env.platform, c, args[0], args[1]))], locals, w)
    case Unary(op, _, _) => Numeric(env.platform.unary(op, args[0]), locals, w)
    case Binary(op, _) => Numeric(env.platform.binary(op, args[0], args[1]), locals, w)
    case Load(k, m) => LoadFrom(inst, k, m, args[0], locals, w)
    case Store(k, m) => StoreTo(inst, k, m, args[0], args[1], locals, w)
    case MemorySize(x) =>
      if x < |inst.memAddrs| && inst.memAddrs[x] < |w.mems| then
        LeafOk([ToRaw(|w.mems[inst.memAddrs[x]].data| / 65536)], locals, w)
      else LeafWrong
    case RefNull(_) => LeafOk([0], locals, w)
    case RefIsNull =>
      (match AsReference(args[0])
       case None => LeafFault(Panicked, w)
       case Some(r) => LeafOk([BoolRaw(r == Null)], locals, w))
    case RefAsNonNull =>
      (match AsReference(args[0])
       case None => LeafFault(Panicked, w)
       case Some(r) => if r == Null then LeafFault(NullReference, w) else LeafOk(args, locals, w))
    case RefFunc(x) =>
      if x < |inst.funcAddrs| then LeafOk([FuncRefRaw(inst.funcAddrs[x])], locals, w) else LeafWrong
  }

  function Numeric(r: Option<Raw>, locals: seq<Raw>, w: World): LeafResult {
    match r
    case Some(v) => LeafOk([v], locals, w)
    case None => LeafFault(NumericFault, w)
  }

  function SetGlobal(inst: Instance, x: nat, v: Raw, locals: seq<Raw>, w: World): LeafResult {
    if x < |inst.globalAddrs| && inst.globalAddrs[x] < |w.globals| then
      var a := inst.globalAddrs[x];
      if w.globals[a].isMutable then
        LeafOk([], locals, w.(globals := w.globals[a := w.globals[a].(value := v)]))
      else LeafFault(ImmutableGlobal, w)
    else LeafWrong
  }

  function LoadFrom(inst: Instance, k: LoadKind, m: MemArg, base: Raw, locals: seq<Raw>, w: World): LeafResult {
    if m.memory < |inst.memAddrs| && inst.memAddrs[m.memory] < |w.mems| then
      var mem := w.mems[inst.memAddrs[m.memory]];
      match EffectiveAddress(mem.addr64, base, m.offset)
      case None => LeafFault(OutOfBoundsMemory, w)
      case Some(ea) =>
        if ea + LoadWidth(k) <= |mem.data| then
          LeafOk([Loaded(k, mem.data[ea..ea + LoadWidth(k)])], locals, w)
        else LeafFault(OutOfBoundsMemory, w)
    else LeafWrong
  }

  function StoreTo(inst: Instance, k: StoreKind, m: MemArg, base: Raw, v: Raw, locals: seq<Raw>, w: World): LeafResult {
    if m.memory < |inst.memAddrs| && inst.memAddrs[m.memory] < |w.mems| then
      var a := inst.memAddrs[m.memory];
      var mem := w.mems[a];
      match EffectiveAddress(mem.addr64, base, m.offset)
      case None => LeafFault(OutOfBoundsMemory, w)
      case Some(ea) =>
        var bs := ToLE(v, StoreWidth(k));
        if ea + |bs| <= |mem.data| then
          LeafOk([], locals, w.(mems := w.mems[a := mem.(data := mem.data[..ea] + bs + mem.data[ea + |bs|..])]))
        else LeafFault(OutOfBoundsMemory, w)
    else LeafWrong
  }

  // ----- lookups that both semantics make -----

  const MAX_CALL_DEPTH := 1024

  function Top(vs: seq<Raw>, n: nat): (r: seq<Raw>)
    requires n <= |vs|
    ensures |r| == n
  {
    vs[|vs| - n..]
  }

  function Below(vs: seq<Raw>, n: nat): (r: seq<Raw>)
    requires n <= |vs|
    ensures |r| == |vs| - n
  {
    vs[..|vs| - n]
  }

  function Zeros(n: nat): (r: seq<Raw>)
    ensures |r| == n
  {
    seq(n, _ => 0)
  }

  /** An i32 operand converted to an index: negative values become huge. */
  function BranchIndex(r: Raw): nat { ToRaw(AsI32(r)) }

  datatype Callee = CalleeAt(addr: nat) | CalleeFault(fault: Fault) | CalleeWrong

  /** The function an indirect call reaches through a table. */
  function ResolveIndirect(env: Env, mi: nat, ty: nat, table: nat, r: Raw, w: World): (c: Callee)
    requires mi < |env.insts|
    ensures c.CalleeAt? ==>
              c.addr < |env.funcs| && FuncTypeAt(env.insts[mi].mod.types, ty) == Some(env.funcs[c.addr].ft)
  {
    var inst := env.insts[mi];
    if table < |inst.tableAddrs| && inst.tableAddrs[table] < |w.tables| && ty < |inst.mod.types| then
      var t := w.tables[inst.tableAddrs[table]];
      var i := if t.addr64 then r else BranchIndex(r);
      if i >= |t.elems| || !t.elems[i].FunctionAddr? then CalleeFault(UndefinedElement)
      else
        var addr := t.elems[i].addr;
        match FuncTypeAt(inst.mod.types, ty)
        case None => CalleeFault(NotAFunctionType)
        case Some(expected) =>
          if addr >= |env.funcs| then CalleeWrong
          else if env.funcs[addr].ft != expected then CalleeFault(IndirectCallTypeMismatch)
          else CalleeAt(addr)
    else CalleeWrong
  }

  // ----- linked programs -----

  /** The store's address spaces cover what the instance's module declares, as
      instantiation establishes. */
  ghost predicate InstanceLinked(env: Env, inst: Instance) {
    && |inst.funcAddrs| == |inst.mod.funcTypes|
    && |inst.tableAddrs| == |inst.mod.tables|
    && |inst.memAddrs| == |inst.mod.mems|
    && |inst.globalAddrs| == |inst.mod.globals|
    && (forall f :: 0 <= f < |inst.funcAddrs| ==>
          && inst.funcAddrs[f] < |env.funcs|
          && CalleeType(inst.mod, f) == Some(env.funcs[inst.funcAddrs[f]].ft))
  }

  /** A local function's address names a function of its module with that type. */
  ghost predicate FuncLinked(env: Env, f: FuncInst) {
    f.LocalFunc? ==>
      && f.mi < |env.insts|
      && f.fi < |env.insts[f.mi].mod.functions|
      && FuncTypeAt(env.insts[f.mi].mod.types, env.insts[f.mi].mod.functions[f.fi].typeIndex) == Some(f.ft)
  }

  ghost predicate InstanceWorld(inst: Instance, w: World) {
    && (forall x :: 0 <= x < |inst.globalAddrs| ==>
          && inst.globalAddrs[x] < |w.globals|
          && (x < |inst.mod.globals| && inst.mod.globals[x].isMutable ==> w.globals[inst.globalAddrs[x]].isMutable))
    && (forall x :: 0 <= x < |inst.memAddrs| ==> inst.memAddrs[x] < |w.mems|)
    && (forall x :: 0 <= x < |inst.tableAddrs| ==> inst.tableAddrs[x] < |w.tables|)
  }

  /** Instances find their globals, memories and tables, and tables hold only
      functions that exist. */
  ghost predicate WorldOk(env: Env, w: World) {
    && (forall mi :: 0 <= mi < |env.insts| ==> InstanceWorld(env.insts[mi], w))
    && (forall t, e :: 0 <= t < |w.tables| && 0 <= e < |w.tables[t].elems| && w.tables[t].elems[e].FunctionAddr? ==>
          w.tables[t].elems[e].addr < |env.funcs|)
  }

  ghost predicate HostKeepsWorld(env: Env) {
    forall m: Name, f: Name, args: seq<Raw>, w: World ::
      WorldOk(env, w) ==> WorldOk(env, env.host(m, f, args, w).world)
  }

  ghost predicate Linked(env: Env) {
    && (forall mi :: 0 <= mi < |env.insts| ==> InstanceLinked(env, env.insts[mi]))
    && (forall a :: 0 <= a < |env.funcs| ==> FuncLinked(env, env.funcs[a]))
    && HostKeepsWorld(env)
  }

  lemma LeafKeepsWorld(env: Env, mi: nat, l: Leaf, args: seq<Raw>, locals: seq<Raw>, w: World)
    requires mi < |env.insts| && |args| == Pops(l) && WorldOk(env, w)
    ensures var r := EvalLeaf(env, mi, l, args, locals, w);
            (r.LeafOk? ==> WorldOk(env, r.world)) && (r.LeafFault? ==> r.w == w)
  {
    var r := EvalLeaf(env, mi, l, args, locals, w);
    if r.LeafOk? {
      assert |r.world.globals| == |w.globals| && |r.world.mems| == |w.mems| && r.world.tables == w.tables;
      assert forall a :: 0 <= a < |w.globals| ==> r.world.globals[a].isMutable == w.globals[a].isMutable;
      forall i | 0 <= i < |env.insts| ensures InstanceWorld(env.insts[i], r.world) {
        assert InstanceWorld(env.insts[i], w);
      }
    }
  }
}
