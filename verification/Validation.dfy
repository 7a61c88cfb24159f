/** The stack-polymorphic validation algorithm as functions on the operand types
    of the innermost block (src/validator.rs). The class `Validator.Checker`
    runs it the way the source does, on shared value and control stacks. */
module Validation {
  import opened Wasm
  import opened Subtyping

  /** An operand type: `Bot` is the unconstrained type of unreachable code. */
  datatype OpType = Known(vt: ValueType) | Bot

  /** The operand types that the current block has pushed, and whether the rest
      of the block is unreachable, so that any type can be popped. */
  datatype Operands = Operands(ops: seq<OpType>, dead: bool)

  /** A function body's surroundings. `labels` lists the types each enclosing
      label expects, outermost first; the first is the function's own. A strict
      check reads `ref.as_non_null` as the standard does: on an operand of
      unknown type it leaves some non-null reference. The validator is not
      strict: it leaves an operand of unknown type. */
  datatype Context = Context(m: Module, locals: seq<ValueType>, results: seq<ValueType>, labels: seq<seq<ValueType>>,
                             strict: bool)

  function Strictly(c: Context): Context { c.(strict := true) }

  /** What `ref.as_non_null` leaves of an operand of unknown type. */
  function UnknownNonNull(strict: bool): OpType {
    if strict then Known(RefVal(Ref(false, HBot))) else Bot
  }

  function Known1(ts: seq<ValueType>): (r: seq<OpType>)
    ensures |r| == |ts|
  {
    seq(|ts|, i requires 0 <= i < |ts| => Known(ts[i]))
  }

  predicate Fits(types: seq<SubType>, a: OpType, expected: ValueType) {
    a.Bot? || ValueSubtype(types, a.vt, expected)
  }

  // ----- operand stacks -----

  function Push(a: Operands, ts: seq<ValueType>): Operands {
    a.(ops := a.ops + Known1(ts))
  }

  function Pop(a: Operands): Option<(OpType, Operands)> {
    if a.ops == [] then (if a.dead then Some((Bot, a)) else None)
    else Some((a.ops[|a.ops| - 1], a.(ops := a.ops[..|a.ops| - 1])))
  }

  function PopExpect(types: seq<SubType>, a: Operands, expected: ValueType): Option<(OpType, Operands)> {
    match Pop(a)
    case None => None
    case Some((t, a')) => if Fits(types, t, expected) then Some((t, a')) else None
  }

  /** Pops operands fitting `expected`, last first; gives the types found. */
  function PopAll(types: seq<SubType>, a: Operands, expected: seq<ValueType>): (r: Option<(seq<OpType>, Operands)>)
    ensures r.Some? ==> |r.value.0| == |expected|
    decreases |expected|
  {
    if expected == [] then Some(([], a))
    else
      match PopExpect(types, a, expected[|expected| - 1])
      case None => None
      case Some((t, a')) =>
        match PopAll(types, a', expected[..|expected| - 1])
        case None => None
        case Some((ts, a'')) => Some((ts + [t], a''))
  }

  function Apply(types: seq<SubType>, a: Operands, params: seq<ValueType>, results: seq<ValueType>): Option<Operands> {
    match PopAll(types, a, params)
    case None => None
    case Some((_, a')) => Some(Push(a', results))
  }

  function MarkDead(a: Operands): Operands { Operands([], true) }

  // ----- lookups -----

  function BlockFuncType(m: Module, bt: BlockType): Option<FunctionType> {
    match bt
    case EmptyType => Some(FunctionType([], []))
    case SingleValue(vt) => Some(FunctionType([], [vt]))
    case TypeIndex(i) => FuncTypeAt(m.types, i)
  }

  function LabelTypes(c: Context, depth: nat): Option<seq<ValueType>> {
    if depth < |c.labels| then Some(c.labels[|c.labels| - 1 - depth]) else None
  }

  function WithLabel(c: Context, ts: seq<ValueType>): Context {
    c.(labels := c.labels + [ts])
  }

  function AddrValueType(addr64: bool): ValueType { if addr64 then I64 else I32 }

  /** The largest alignment exponent of an access. */
  function MaxAlign(width: nat): nat {
    if width == 1 then 0 else if width == 2 then 1 else if width == 4 then 2 else 3
  }

  function LoadShape(k: LoadKind): (nat, ValueType) {
    match k
    case I32Load => (2, I32)
    case I64Load => (3, I64)
    case F32Load => (2, F32)
    case F64Load => (3, F64)
    case I32LoadNarrow(w, _) => (MaxAlign(w), I32)
    case I64LoadNarrow(w, _) => (MaxAlign(w), I64)
  }

  function StoreShape(k: StoreKind): (nat, ValueType) {
    match k
    case I32Store => (2, I32)
    case I64Store => (3, I64)
    case F32Store => (2, F32)
    case F64Store => (3, F64)
    case I32StoreNarrow(w) => (MaxAlign(w), I32)
    case I64StoreNarrow(w) => (MaxAlign(w), I64)
  }

  /** The address type of a memory access, when the access is well-formed. */
  function MemArgType(m: Module, arg: MemArg, maxAlign: nat): Option<ValueType> {
    if arg.memory < |m.mems| && arg.align <= maxAlign && (m.mems[arg.memory] || arg.offset < TWO_TO_32)
    then Some(AddrValueType(m.mems[arg.memory]))
    else None
  }

  predicate HoldsFuncs(rt: RefType) {
    rt.FuncRef? || (rt.Ref? && rt.heap == HFunc)
  }

  /** The type of an indirect callee and of the table index it pops. */
  function IndirectType(m: Module, ty: nat, table: nat): Option<(FunctionType, ValueType)> {
    if table < |m.tables| && HoldsFuncs(m.tables[table].element) then
      match FuncTypeAt(m.types, ty)
      case None => None
      case Some(ft) => Some((ft, AddrValueType(m.tables[table].addr64)))
    else None
  }

  predicate AllSubtypes(types: seq<SubType>, subs: seq<ValueType>, sups: seq<ValueType>) {
    |subs| == |sups| && forall i :: 0 <= i < |subs| ==> ValueSubtype(types, subs[i], sups[i])
  }

  // ----- instructions -----

  function CheckSelect(types: seq<SubType>, a: Operands): Option<Operands> {
    match PopExpect(types, a, I32)
    case None => None
    case Some((_, a1)) =>
      match Pop(a1)
      case None => None
      case Some((t1, a2)) =>
        match Pop(a2)
        case None => None
        case Some((t2, a3)) =>
          if (t1.Known? && t1.vt.RefVal?) || (t2.Known? && t2.vt.RefVal?) then None
          else if t1.Bot? then Some(a3.(ops := a3.ops + [t2]))
          else if t2.Bot? then Some(a3.(ops := a3.ops + [t1]))
          else if t1 == t2 then Some(a3.(ops := a3.ops + [t1]))
          else None
  }

  function CheckLeaf(c: Context, l: Leaf, a: Operands): Option<Operands> {
    var types := c.m.types;
    match l
    case Nop => Some(a)
    case Const(t, _) => Apply(types, a, [], [t])
    case LocalGet(x) => if x < |c.locals| then Apply(types, a, [], [c.locals[x]]) else None
    case LocalSet(x) => if x < |c.locals| then Apply(types, a, [c.locals[x]], []) else None
    case LocalTee(x) => if x < |c.locals| then Apply(types, a, [c.locals[x]], [c.locals[x]]) else None
    case GlobalGet(x) => if x < |c.m.globals| then Apply(types, a, [], [c.m.globals[x].valueType]) else None
    case GlobalSet(x) =>
      if x < |c.m.globals| && c.m.globals[x].isMutable
      then Apply(types, a, [c.m.globals[x].valueType], [])
      else None
    case Drop => (match Pop(a) case None => None case Some((_, a')) => Some(a'))
    case Select(ts) =>
      if ts == [] then CheckSelect(types, a)
      else if |ts| == 1 then Apply(types, a, [ts[0], ts[0], I32], [ts[0]])
      else None
    case EqZero(t) => Apply(types, a, [IntValueType(t)], [I32])
    case Compare(cmp) => Apply(types, a, [ComparedType(cmp), ComparedType(cmp)], [I32])
    case Unary(_, from, to) => Apply(types, a, [from], [to])
    case Binary(_, t) => Apply(types, a, [t, t], [t])
    case Load(k, m) =>
      (match MemArgType(c.m, m, LoadShape(k).0)
       case None => None
       case Some(at) => Apply(types, a, [at], [LoadShape(k).1]))
    case Store(k, m) =>
      (match MemArgType(c.m, m, StoreShape(k).0)
       case None => None
       case Some(at) => Apply(types, a, [at, StoreShape(k).1], []))
    case MemorySize(x) => if x < |c.m.mems| then Apply(types, a, [], [AddrValueType(c.m.mems[x])]) else None
    case RefNull(ht) =>
      if ht.HTypeIndex? && ht.index >= |types| then None
      else Apply(types, a, [], [RefVal(Ref(true, ht))])
    case RefIsNull =>
      (match Pop(a)
       case None => None
       case Some((t, a')) => if t.Bot? || t.vt.RefVal? then Some(Push(a', [I32])) else None)
    case RefAsNonNull =>
      (match Pop(a)
       case None => None
       case Some((t, a')) =>
         if t.Bot? then Some(a'.(ops := a'.ops + [UnknownNonNull(c.strict)]))
         else if t.vt.RefVal? then Some(Push(a', [RefVal(Ref(false, NormalizeRef(t.vt.rt).1))]))
         else None)
    case RefFunc(x) =>
      if x < |c.m.funcTypes| && x in c.m.refs
      then Apply(types, a, [], [RefVal(Ref(false, HTypeIndex(c.m.funcTypes[x])))])
      else None
  }

  /** The labels of a branch table before its default: each must accept what is
      on the stack, which stays there. */
  function CheckTable(c: Context, arity: nat, ls: seq<nat>, a: Operands): Option<Operands> {
    if ls == [] then Some(a)
    else
      match LabelTypes(c, ls[0])
      case None => None
      case Some(ts) =>
        if |ts| != arity then None
        else
          match PopAll(c.m.types, a, ts)
          case None => None
          case Some((found, a')) => CheckTable(c, arity, ls[1..], a'.(ops := a'.ops + found))
  }

  /** A block's body, entered with its parameters, must leave its results. */
  function CheckBody(c: Context, entered: seq<ValueType>, ft: FunctionType, body: seq<Instr>): bool
    decreases body, 1
  {
    match CheckSeq(WithLabel(c, entered), body, Push(Operands([], false), ft.params))
    case None => false
    case Some(a) => Ends(c.m.types, a, ft.results)
  }

  predicate Ends(types: seq<SubType>, a: Operands, results: seq<ValueType>) {
    var r := PopAll(types, a, results);
    r.Some? && r.value.1.ops == []
  }

  function CheckSeq(c: Context, body: seq<Instr>, a: Operands): Option<Operands>
    decreases body, 0
  {
    if body == [] then Some(a)
    else
      match Check(c, body[0], a)
      case None => None
      case Some(a') => CheckSeq(c, body[1..], a')
  }

  function Check(c: Context, i: Instr, a: Operands): Option<Operands>
    decreases i, 0
  {
    var types := c.m.types;
    match i
    case Plain(l) => CheckLeaf(c, l, a)
    case Unreachable => Some(MarkDead(a))
    case Block(bt, body) =>
      (match BlockFuncType(c.m, bt)
       case None => None
       case Some(ft) =>
         var r := Apply(types, a, ft.params, ft.results);
         if r.Some? && CheckBody(c, ft.results, ft, body) then r else None)
    case Loop(bt, body) =>
      (match BlockFuncType(c.m, bt)
       case None => None
       case Some(ft) =>
         var r := Apply(types, a, ft.params, ft.results);
         if r.Some? && CheckBody(c, ft.params, ft, body) then r else None)
    case IfElse(bt, thn, els) =>
      (match BlockFuncType(c.m, bt)
       case None => None
       case Some(ft) =>
         var r := Apply(types, a, ft.params + [I32], ft.results);
         if r.Some? && CheckBody(c, ft.results, ft, thn) && CheckBody(c, ft.results, ft, els) then r else None)
    case Br(k) => CheckExit(types, LabelTypes(c, k), a)
    case BrIf(k) =>
      (match LabelTypes(c, k)
       case None => None
       case Some(ts) => Apply(types, a, ts + [I32], ts))
    case BrTable(ls, default) =>
      (match PopExpect(types, a, I32)
       case None => None
       case Some((_, a1)) =>
         match LabelTypes(c, default)
         case None => None
         case Some(ts) =>
           match CheckTable(c, |ts|, ls, a1)
           case None => None
           case Some(a2) => CheckExit(types, Some(ts), a2))
    case Return => CheckExit(types, Some(c.results), a)
    case Call(f) =>
      (match CalleeType(c.m, f)
       case None => None
       case Some(ft) => Apply(types, a, ft.params, ft.results))
    case CallIndirect(ty, table) =>
      (match IndirectType(c.m, ty, table)
       case None => None
       case Some((ft, at)) => Apply(types, a, ft.params + [at], ft.results))
    case ReturnCall(f) =>
      (match CalleeType(c.m, f)
       case None => None
       case Some(ft) =>
         if AllSubtypes(types, ft.results, c.results) then CheckExit(types, Some(ft.params), a) else None)
    case ReturnCallIndirect(ty, table) =>
      (match IndirectType(c.m, ty, table)
       case None => None
       case Some((ft, at)) =>
         if AllSubtypes(types, ft.results, c.results) then CheckExit(types, Some(ft.params + [at]), a) else None)
  }

  /** Pops what a jump takes along; nothing after the jump is reachable. */
  function CheckExit(types: seq<SubType>, expected: Option<seq<ValueType>>, a: Operands): Option<Operands> {
    match expected
    case None => None
    case Some(ts) =>
      match PopAll(types, a, ts)
      case None => None
      case Some((_, a')) => Some(MarkDead(a'))
  }

  function FunctionContext(m: Module, f: Function, ft: FunctionType): Context {
    Context(m, ft.params + f.locals, ft.results, [], false)
  }

  predicate CheckFunction(m: Module, f: Function) {
    match FuncTypeAt(m.types, f.typeIndex)
    case None => false
    case Some(ft) => CheckBody(FunctionContext(m, f, ft), ft.results, FunctionType([], ft.results), f.body)
  }

  /** Every declared function has a function type and every body checks. */
  ghost predicate CheckModule(m: Module) {
    && (forall f :: 0 <= f < |m.funcTypes| ==> FuncTypeAt(m.types, m.funcTypes[f]).Some?)
    && (forall f :: 0 <= f < |m.functions| ==> CheckFunction(m, m.functions[f]))
  }

  // ----- what popping does in reachable code -----

  /** In reachable code popping takes exactly the operands it names. */
  lemma {:induction false} PopAllLive(types: seq<SubType>, a: Operands, expected: seq<ValueType>)
    requires !a.dead
    ensures var r := PopAll(types, a, expected);
            var n, k := |a.ops|, |expected|;
            r.Some? ==> k <= n && r.value.0 == a.ops[n - k..] && r.value.1 == Operands(a.ops[..n - k], false)
    decreases |expected|
  {
    var n, k := |a.ops|, |expected|;
    if k > 0 && PopExpect(types, a, expected[k - 1]).Some? {
      var a' := PopExpect(types, a, expected[k - 1]).value.1;
      PopAllLive(types, a', expected[..k - 1]);
      if PopAll(types, a', expected[..k - 1]).Some? {
        assert a.ops[..n - 1][n - k..] + [a.ops[n - 1]] == a.ops[n - k..];
        assert a.ops[..n - 1][..n - k] == a.ops[..n - k];
      }
    } else if k == 0 {
      assert a.ops[n..] == [] && a.ops[..n] == a.ops;
    }
  }
}
