/** The typing rules of section 3.3 of the WebAssembly Core Specification 2.0,
    over the operand types of that section (value types and a bottom type), for
    the instructions of this model. Rules are relations, not algorithms: code
    after an unconditional transfer may be given any stack. */
module Declarative {
  import opened Wasm
  import opened Subtyping
  import opened Validation

  /** Operand type matching: bottom matches everything. */
  predicate Matches(types: seq<SubType>, a: OpType, b: OpType) {
    a.Bot? || (b.Known? && ValueSubtype(types, a.vt, b.vt))
  }

  predicate AllMatch(types: seq<SubType>, subs: seq<OpType>, sups: seq<OpType>) {
    |subs| == |sups| && forall i :: 0 <= i < |subs| ==> Matches(types, subs[i], sups[i])
  }

  predicate EndsIn(ts: seq<OpType>, suffix: seq<OpType>) {
    |suffix| <= |ts| && ts[|ts| - |suffix|..] == suffix
  }

  // ----- single instructions -----

  ghost predicate Arrow(ins: seq<OpType>, outs: seq<OpType>, params: seq<ValueType>, results: seq<ValueType>) {
    ins == Known1(params) && outs == Known1(results)
  }

  /** The leaf instructions that operate on operands of more than one type. */
  predicate Polymorphic(l: Leaf) {
    l.Drop? || l == Select([]) || l.RefIsNull? || l.RefAsNonNull?
  }

  /** The parameters and results of the other leaf instructions. */
  function LeafArrow(c: Context, l: Leaf): Option<(seq<ValueType>, seq<ValueType>)>
    requires !Polymorphic(l)
  {
    match l
    case Nop => Some(([], []))
    case Const(t, _) => Some(([], [t]))
    case LocalGet(x) => if x < |c.locals| then Some(([], [c.locals[x]])) else None
    case LocalSet(x) => if x < |c.locals| then Some(([c.locals[x]], [])) else None
    case LocalTee(x) => if x < |c.locals| then Some(([c.locals[x]], [c.locals[x]])) else None
    case GlobalGet(x) => if x < |c.m.globals| then Some(([], [c.m.globals[x].valueType])) else None
    case GlobalSet(x) =>
      if x < |c.m.globals| && c.m.globals[x].isMutable then Some(([c.m.globals[x].valueType], [])) else None
    case Select(ts) => if |ts| == 1 then Some(([ts[0], ts[0], I32], ts)) else None
    case EqZero(t) => Some(([IntValueType(t)], [I32]))
    case Compare(cmp) => Some(([ComparedType(cmp), ComparedType(cmp)], [I32]))
    case Unary(_, from, to) => Some(([from], [to]))
    case Binary(_, t) => Some(([t, t], [t]))
    case Load(k, m) =>
      var at := MemArgType(c.m, m, LoadShape(k).0);
      if at.Some? then Some(([at.value], [LoadShape(k).1])) else None
    case Store(k, m) =>
      var at := MemArgType(c.m, m, StoreShape(k).0);
      if at.Some? then Some(([at.value, StoreShape(k).1], [])) else None
    case MemorySize(x) => if x < |c.m.mems| then Some(([], [AddrValueType(c.m.mems[x])])) else None
    case RefNull(ht) => if ht.HTypeIndex? && ht.index >= |c.m.types| then None else Some(([], [RefVal(Ref(true, ht))]))
    case RefFunc(x) =>
      if x < |c.m.funcTypes| && x in c.m.refs then Some(([], [RefVal(Ref(false, HTypeIndex(c.m.funcTypes[x])))])) else None
  }

  /** `l` has the type `ins -> outs`. The standard gives `ref.as_non_null` no
      type for a bottom operand that keeps the result unknown; unless the context
      is strict, there is one. */
  ghost predicate LeafTyped(c: Context, l: Leaf, ins: seq<OpType>, outs: seq<OpType>) {
    if !Polymorphic(l) then
      var arrow := LeafArrow(c, l);
      arrow.Some? && Arrow(ins, outs, arrow.value.0, arrow.value.1)
    else if l.Drop? then |ins| == 1 && outs == []
    else if l.Select? then
      exists t: OpType :: (t.Known? ==> !t.vt.RefVal?) && ins == [t, t, Known(I32)] && outs == [t]
    else if l.RefIsNull? then exists rt: RefType :: Arrow(ins, outs, [RefVal(rt)], [I32])
    else
      || (exists rt: RefType :: Arrow(ins, outs, [RefVal(rt)], [RefVal(Ref(false, NormalizeRef(rt).1))]))
      || (!c.strict && ins == [Bot] && outs == [Bot])
  }

  /** The operand types under the index of a branch table: one sequence that
      matches what every label of the table expects. */
  ghost predicate TableTyped(c: Context, ls: seq<nat>, ts: seq<OpType>) {
    forall j :: 0 <= j < |ls| ==>
      var label_ := LabelTypes(c, ls[j]);
      label_.Some? && AllMatch(c.m.types, ts, Known1(label_.value))
  }

  /** Instruction `i` has the type `ins -> outs`. After `unreachable`, branches
      and returns, `outs` is arbitrary. */
  ghost predicate InstrTyped(c: Context, i: Instr, ins: seq<OpType>, outs: seq<OpType>)
    decreases i, 0
  {
    match i
    case Plain(l) => LeafTyped(c, l, ins, outs)
    case Unreachable => true
    case Block(bt, body) =>
      var ft := BlockFuncType(c.m, bt);
      && ft.Some? && Arrow(ins, outs, ft.value.params, ft.value.results)
      && BodyTyped(WithLabel(c, ft.value.results), ft.value, body)
    case Loop(bt, body) =>
      var ft := BlockFuncType(c.m, bt);
      && ft.Some? && Arrow(ins, outs, ft.value.params, ft.value.results)
      && BodyTyped(WithLabel(c, ft.value.params), ft.value, body)
    case IfElse(bt, thn, els) =>
      var ft := BlockFuncType(c.m, bt);
      && ft.Some? && Arrow(ins, outs, ft.value.params + [I32], ft.value.results)
      && BodyTyped(WithLabel(c, ft.value.results), ft.value, thn)
      && BodyTyped(WithLabel(c, ft.value.results), ft.value, els)
    case Br(k) => LabelTypes(c, k).Some? && EndsIn(ins, Known1(LabelTypes(c, k).value))
    case BrIf(k) => LabelTypes(c, k).Some? && Arrow(ins, outs, LabelTypes(c, k).value + [I32], LabelTypes(c, k).value)
    case BrTable(ls, default) =>
      var label_ := LabelTypes(c, default);
      && label_.Some? && |ins| >= |label_.value| + 1 && ins[|ins| - 1] == Known(I32)
      && TableTyped(c, ls + [default], ins[|ins| - 1 - |label_.value|..|ins| - 1])
    case Return => EndsIn(ins, Known1(c.results))
    case Call(f) =>
      var ft := CalleeType(c.m, f);
      ft.Some? && Arrow(ins, outs, ft.value.params, ft.value.results)
    case CallIndirect(ty, table) =>
      var ft := IndirectType(c.m, ty, table);
      ft.Some? && Arrow(ins, outs, ft.value.0.params + [ft.value.1], ft.value.0.results)
    case ReturnCall(f) =>
      var ft := CalleeType(c.m, f);
      ft.Some? && AllSubtypes(c.m.types, ft.value.results, c.results) && EndsIn(ins, Known1(ft.value.params))
    case ReturnCallIndirect(ty, table) =>
      var ft := IndirectType(c.m, ty, table);
      && ft.Some? && AllSubtypes(c.m.types, ft.value.0.results, c.results)
      && EndsIn(ins, Known1(ft.value.0.params + [ft.value.1]))
  }

  // ----- sequences -----

  /** The instruction takes a stack `s` to `t`: it leaves the lowest `k` operands
      alone, and the others match its input types. */
  ghost predicate StepTyped(c: Context, i: Instr, s: seq<OpType>, t: seq<OpType>)
    decreases i, 1
  {
    exists k: nat, ins: seq<OpType> ::
      && k <= |s| && k <= |t| && s[..k] == t[..k]
      && AllMatch(c.m.types, s[k..], ins)
      && InstrTyped(c, i, ins, t[k..])
  }

  ghost predicate SeqTyped(c: Context, body: seq<Instr>, s: seq<OpType>, t: seq<OpType>)
    decreases body, 0
  {
    if body == [] then s == t
    else exists mid: seq<OpType> :: StepTyped(c, body[0], s, mid) && SeqTyped(c, body[1..], mid, t)
  }

  /** A block's body takes the block's parameters to something that matches its
      results. */
  ghost predicate BodyTyped(c: Context, ft: FunctionType, body: seq<Instr>)
    decreases body, 1
  {
    exists t: seq<OpType> ::
      SeqTyped(c, body, Known1(ft.params), t) && AllMatch(c.m.types, t, Known1(ft.results))
  }

  ghost predicate FunctionTyped(strict: bool, m: Module, f: Function) {
    match FuncTypeAt(m.types, f.typeIndex)
    case None => false
    case Some(ft) =>
      var c := FunctionContext(m, f, ft).(strict := strict);
      BodyTyped(WithLabel(c, ft.results), FunctionType([], ft.results), f.body)
  }
}
