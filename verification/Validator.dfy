/** The validator as the source runs it, on one value stack and one control stack
    for a whole function body (src/validator.rs: FunctionContext,
    validate_instruction, validate_function). Every method is proved to do what
    the functions of `Validation` say about the innermost block. */
module Validator {
  import opened Wasm
  import opened Subtyping
  import opened Validation

  datatype ControlFrame = ControlFrame(
    startTypes: seq<ValueType>, endTypes: seq<ValueType>, valueHeight: nat, unreachable: bool, isLoop: bool)

  function FrameLabel(f: ControlFrame): seq<ValueType> {
    if f.isLoop then f.startTypes else f.endTypes
  }

  function LabelsOf(cs: seq<ControlFrame>): (r: seq<seq<ValueType>>)
    ensures |r| == |cs|
  {
    seq(|cs|, i requires 0 <= i < |cs| => FrameLabel(cs[i]))
  }

  class Checker {
    const m: Module
    const locals: seq<ValueType>
    var valueStack: seq<OpType>
    var controlStack: seq<ControlFrame>

    constructor (m: Module, locals: seq<ValueType>)
      ensures this.m == m && this.locals == locals && valueStack == [] && controlStack == []
    {
      this.m, this.locals := m, locals;
      valueStack, controlStack := [], [];
    }

    ghost predicate Valid()
      reads this
    {
      controlStack != [] && Top().valueHeight <= |valueStack|
    }

    ghost function Top(): ControlFrame
      requires controlStack != []
      reads this
    {
      controlStack[|controlStack| - 1]
    }

    /** The operands of the innermost block. */
    ghost function Ops(): Operands
      requires Valid()
      reads this
    {
      Operands(valueStack[Top().valueHeight..], Top().unreachable)
    }

    ghost function Ctx(): Context
      requires Valid()
      reads this
    {
      Context(m, locals, controlStack[0].endTypes, LabelsOf(controlStack), false)
    }

    /** The enclosing blocks, and what lies below the innermost one, are as they
        were. */
    ghost predicate Keeps(vs: seq<OpType>, cs: seq<ControlFrame>)
      reads this
    {
      && Valid() && |cs| == |controlStack| && controlStack[..|cs| - 1] == cs[..|cs| - 1]
      && Top() == cs[|cs| - 1].(unreachable := Top().unreachable)
      && Top().valueHeight <= |vs| && valueStack[..Top().valueHeight] == vs[..Top().valueHeight]
    }

    /** The outcome of checking: accepted, with these operands, or rejected. */
    ghost predicate Outcome(ok: bool, r: Option<Operands>, vs: seq<OpType>, cs: seq<ControlFrame>)
      reads this
    {
      ok == r.Some? && (ok ==> Keeps(vs, cs) && Ops() == r.value)
    }

    // ----- the value stack -----

    method PushValues(ts: seq<OpType>)
      requires Valid()
      modifies this`valueStack
      ensures Valid() && Keeps(old(valueStack), old(controlStack)) && Ops() == old(Ops()).(ops := old(Ops()).ops + ts)
    {
      valueStack := valueStack + ts;
    }

    method PopValue() returns (r: Option<OpType>)
      requires Valid()
      modifies this`valueStack
      ensures Outcome(r.Some?, if Pop(old(Ops())).Some? then Some(Pop(old(Ops())).value.1) else None, old(valueStack), old(controlStack))
      ensures r.Some? ==> r.value == Pop(old(Ops())).value.0
    {
      var topFrame := controlStack[|controlStack| - 1];
      if topFrame.valueHeight == |valueStack| {
        return if topFrame.unreachable then Some(Bot) else None;
      }
      r := Some(valueStack[|valueStack| - 1]);
      valueStack := valueStack[..|valueStack| - 1];
      assert Ops().ops == old(Ops()).ops[..|old(Ops()).ops| - 1];
    }

    method PopValueExpect(expected: ValueType) returns (r: Option<OpType>)
      requires Valid()
      modifies this`valueStack
      ensures var p := PopExpect(m.types, old(Ops()), expected);
              && Outcome(r.Some?, if p.Some? then Some(p.value.1) else None, old(valueStack), old(controlStack))
              && (r.Some? ==> r.value == p.value.0)
    {
      r := PopValue();
      if r.Some? && r.value.Known? && !ValueSubtype(m.types, r.value.vt, expected) {
        r := None;
      }
    }

    /** Pops operands fitting `expected`, last first, and gives what was found. */
    method PopValuesExpect(expected: seq<ValueType>) returns (r: Option<seq<OpType>>)
      requires Valid()
      modifies this`valueStack
      ensures var p := PopAll(m.types, old(Ops()), expected);
              && Outcome(r.Some?, if p.Some? then Some(p.value.1) else None, old(valueStack), old(controlStack))
              && (r.Some? ==> r.value == p.value.0)
    {
      var out: seq<OpType> := [];
      var i := |expected|;
      assert expected[..i] == expected;
      AfterNone(PopAll(m.types, Ops(), expected));
      while i > 0
        invariant 0 <= i <= |expected| && Keeps(old(valueStack), old(controlStack))
        invariant PopAll(m.types, old(Ops()), expected) == After(PopAll(m.types, Ops(), expected[..i]), out)
      {
        i := i - 1;
        assert expected[..i + 1][..i] == expected[..i];
        var t := PopValueExpect(expected[i]);
        if t.None? {
          return None;
        }
        AfterOne(PopAll(m.types, Ops(), expected[..i]), t.value, out);
        out := [t.value] + out;
      }
      assert [] + out == out;
      r := Some(out);
    }

    method Apply(params: seq<ValueType>, results: seq<ValueType>) returns (ok: bool)
      requires Valid()
      modifies this`valueStack
      ensures Outcome(ok, Validation.Apply(m.types, old(Ops()), params, results), old(valueStack), old(controlStack))
    {
      var r := PopValuesExpect(params);
      if r.Some? {
        PushValues(Known1(results));
      }
      ok := r.Some?;
    }

    // ----- the control stack -----

    method LabelTypes(l: nat) returns (r: Option<seq<ValueType>>)
      requires Valid()
      ensures r == Validation.LabelTypes(Ctx(), l)
    {
      if l >= |controlStack| {
        return None;
      }
      r := Some(FrameLabel(controlStack[|controlStack| - 1 - l]));
    }

    method MarkUnreachable()
      requires Valid()
      modifies this`valueStack, this`controlStack
      ensures Keeps(old(valueStack), old(controlStack)) && Ops() == Operands([], true)
    {
      var topFrame := controlStack[|controlStack| - 1];
      valueStack := valueStack[..topFrame.valueHeight];
      controlStack := controlStack[|controlStack| - 1 := topFrame.(unreachable := true)];
    }

    method PushControl(startTypes: seq<ValueType>, endTypes: seq<ValueType>, isLoop: bool)
      requires controlStack != [] ==> Valid()
      modifies this`valueStack, this`controlStack
      ensures Valid()
      ensures controlStack == old(controlStack) + [ControlFrame(startTypes, endTypes, |old(valueStack)|, false, isLoop)]
      ensures valueStack[..|old(valueStack)|] == old(valueStack) && Ops() == Push(Operands([], false), startTypes)
    {
      controlStack := controlStack + [ControlFrame(startTypes, endTypes, |valueStack|, false, isLoop)];
      valueStack := valueStack + Known1(startTypes);
    }

    /** Leaves the innermost block, which must hold exactly its results. */
    method PopControl() returns (ok: bool)
      requires Valid()
      modifies this`valueStack, this`controlStack
      ensures ok == Ends(m.types, old(Ops()), old(Top()).endTypes)
      ensures ok ==> controlStack == old(controlStack)[..|old(controlStack)| - 1] && valueStack == old(valueStack)[..old(Top()).valueHeight]
    {
      var topFrame := controlStack[|controlStack| - 1];
      var r := PopValuesExpect(topFrame.endTypes);
      if r.None? || |valueStack| != topFrame.valueHeight {
        return false;
      }
      controlStack := controlStack[..|controlStack| - 1];
      ok := true;
    }

    /** A jump: takes what its target expects and leaves nothing. */
    method Exit(expected: Option<seq<ValueType>>) returns (ok: bool)
      requires Valid()
      modifies this`valueStack, this`controlStack
      ensures Outcome(ok, CheckExit(m.types, expected, old(Ops())), old(valueStack), old(controlStack))
    {
      if expected.None? {
        return false;
      }
      var r := PopValuesExpect(expected.value);
      if r.None? {
        return false;
      }
      MarkUnreachable();
      ok := true;
    }

    // ----- instructions -----

    method CheckSelect() returns (ok: bool)
      requires Valid()
      modifies this`valueStack
      ensures Outcome(ok, Validation.CheckSelect(m.types, old(Ops())), old(valueStack), old(controlStack))
    {
      var cond := PopValueExpect(I32);
      if cond.None? {
        return false;
      }
      var t1 := PopValue();
      if t1.None? {
        return false;
      }
      var t2 := PopValue();
      if t2.None? {
        return false;
      }
      var (a, b) := (t1.value, t2.value);
      if (a.Known? && a.vt.RefVal?) || (b.Known? && b.vt.RefVal?) {
        return false;
      }
      if a.Known? && b.Known? && a != b {
        return false;
      }
      PushValues([if a.Bot? then b else a]);
      ok := true;
    }

    method ValidateLoad(k: LoadKind, arg: MemArg) returns (ok: bool)
      requires Valid()
      modifies this`valueStack
      ensures Outcome(ok, CheckLeaf(old(Ctx()), Load(k, arg), old(Ops())), old(valueStack), old(controlStack))
    {
      hide Validation.Apply, MemArgType, LoadShape;
      var at := MemArgType(m, arg, LoadShape(k).0);
      if at.None? {
        return false;
      }
      ok := Apply([at.value], [LoadShape(k).1]);
    }

    method ValidateStore(k: StoreKind, arg: MemArg) returns (ok: bool)
      requires Valid()
      modifies this`valueStack
      ensures Outcome(ok, CheckLeaf(old(Ctx()), Store(k, arg), old(Ops())), old(valueStack), old(controlStack))
    {
      hide Validation.Apply, MemArgType, StoreShape;
      var at := MemArgType(m, arg, StoreShape(k).0);
      if at.None? {
        return false;
      }
      ok := Apply([at.value, StoreShape(k).1], []);
    }

    method ValidateLeaf(l: Leaf) returns (ok: bool)
      requires Valid()
      modifies this`valueStack
      ensures Outcome(ok, CheckLeaf(old(Ctx()), l, old(Ops())), old(valueStack), old(controlStack))
    {
      hide Validation.Apply, Validation.CheckSelect, MemArgType, LoadShape, StoreShape;
      match l {
        case Nop => ok := true;
        case Const(t, _) => ok := Apply([], [t]);
        case LocalGet(x) => if x < |locals| { ok := Apply([], [locals[x]]); } else { ok := false; }
        case LocalSet(x) => if x < |locals| { ok := Apply([locals[x]], []); } else { ok := false; }
        case LocalTee(x) => if x < |locals| { ok := Apply([locals[x]], [locals[x]]); } else { ok := false; }
        case GlobalGet(x) => if x < |m.globals| { ok := Apply([], [m.globals[x].valueType]); } else { ok := false; }
        case GlobalSet(x) =>
          if x < |m.globals| && m.globals[x].isMutable { ok := Apply([m.globals[x].valueType], []); } else { ok := false; }
        case Drop =>
          var r := PopValue();
          ok := r.Some?;
        case Select(ts) =>
          if ts == [] {
            ok := CheckSelect();
          } else if |ts| == 1 {
            ok := Apply([ts[0], ts[0], I32], [ts[0]]);
          } else {
            ok := false;
          }
        case EqZero(t) => ok := Apply([IntValueType(t)], [I32]);
        case Compare(cmp) => ok := Apply([ComparedType(cmp), ComparedType(cmp)], [I32]);
        case Unary(_, from, to) => ok := Apply([from], [to]);
        case Binary(_, t) => ok := Apply([t, t], [t]);
        case Load(k, arg) => ok := ValidateLoad(k, arg);
        case Store(k, arg) => ok := ValidateStore(k, arg);
        case MemorySize(x) => if x < |m.mems| { ok := Apply([], [AddrValueType(m.mems[x])]); } else { ok := false; }
        case RefNull(ht) =>
          if ht.HTypeIndex? && ht.index >= |m.types| { ok := false; } else { ok := Apply([], [RefVal(Ref(true, ht))]); }
        case RefIsNull => ok := ValidateNullTest();
        case RefAsNonNull => ok := ValidateNonNull();
        case RefFunc(x) =>
          if x < |m.funcTypes| && x in m.refs {
            ok := Apply([], [RefVal(Ref(false, HTypeIndex(m.funcTypes[x])))]);
          } else {
            ok := false;
          }
      }
    }

    method ValidateNullTest() returns (ok: bool)
      requires Valid()
      modifies this`valueStack
      ensures Outcome(ok, CheckLeaf(old(Ctx()), RefIsNull, old(Ops())), old(valueStack), old(controlStack))
    {
      var r := PopValue();
      if r.None? || (r.value.Known? && !r.value.vt.RefVal?) {
        return false;
      }
      PushValues(Known1([I32]));
      ok := true;
    }

    method ValidateNonNull() returns (ok: bool)
      requires Valid()
      modifies this`valueStack
      ensures Outcome(ok, CheckLeaf(old(Ctx()), RefAsNonNull, old(Ops())), old(valueStack), old(controlStack))
    {
      var r := PopValue();
      if r.None? || (r.value.Known? && !r.value.vt.RefVal?) {
        return false;
      }
      PushValues(if r.value.Bot? then [Bot] else Known1([RefVal(Ref(false, NormalizeRef(r.value.vt.rt).1))]));
      ok := true;
    }

    /** A body in a block of its own: entered with the block's parameters, left
        with its results. */
    method ValidateBody(ft: FunctionType, isLoop: bool, body: seq<Instr>) returns (ok: bool)
      requires Valid()
      modifies this`valueStack, this`controlStack
      ensures ok == CheckBody(old(Ctx()), if isLoop then ft.params else ft.results, ft, body)
      ensures ok ==> controlStack == old(controlStack) && valueStack == old(valueStack)
      decreases body, 1
    {
      PushControl(ft.params, ft.results, isLoop);
      InnerContext(old(controlStack), controlStack);
      ok := ValidateAll(body);
      if ok {
        ok := PopControl();
      }
    }

    /** The instructions of a body one after the other. */
    method ValidateAll(body: seq<Instr>) returns (ok: bool)
      requires Valid()
      modifies this`valueStack, this`controlStack
      ensures Outcome(ok, CheckSeq(old(Ctx()), body, old(Ops())), old(valueStack), old(controlStack))
      decreases body, 0
    {
      for k := 0 to |body|
        invariant Keeps(old(valueStack), old(controlStack)) && Ctx() == old(Ctx())
        invariant CheckSeq(Ctx(), body[k..], Ops()) == CheckSeq(old(Ctx()), body, old(Ops()))
      {
        hide Check;
        assert body[k..][0] == body[k] && body[k..][1..] == body[k + 1..];
        ghost var cs := controlStack;
        ok := ValidateInstruction(body[k]);
        if !ok {
          return;
        }
        SameContext(cs, controlStack);
      }
      assert body[|body|..] == [];
      ok := true;
    }

    method ValidateBlock(i: Instr) returns (ok: bool)
      requires Valid() && (i.Block? || i.Loop?)
      modifies this`valueStack, this`controlStack
      ensures Outcome(ok, Check(old(Ctx()), i, old(Ops())), old(valueStack), old(controlStack))
      decreases i, 0
    {
      hide CheckSeq;
      var ft := BlockFuncType(m, i.bt);
      if ft.None? {
        return false;
      }
      var r := PopValuesExpect(ft.value.params);
      if r.None? {
        return false;
      }
      ok := ValidateBody(ft.value, i.Loop?, i.body);
      if ok {
        PushValues(Known1(ft.value.results));
      }
    }

    method ValidateConditional(i: Instr) returns (ok: bool)
      requires Valid() && i.IfElse?
      modifies this`valueStack, this`controlStack
      ensures Outcome(ok, Check(old(Ctx()), i, old(Ops())), old(valueStack), old(controlStack))
      decreases i, 0
    {
      hide CheckSeq;
      var ft := BlockFuncType(m, i.bt);
      if ft.None? {
        return false;
      }
      LastFirst(m.types, Ops(), ft.value.params, I32);
      var cond := PopValueExpect(I32);
      if cond.None? {
        return false;
      }
      var r := PopValuesExpect(ft.value.params);
      if r.None? {
        return false;
      }
      ok := ValidateBody(ft.value, false, i.thn);
      if !ok {
        return;
      }
      ok := ValidateBody(ft.value, false, i.els);
      if ok {
        PushValues(Known1(ft.value.results));
      }
    }

    method ValidateTable(labels: seq<nat>, default: nat) returns (ok: bool)
      requires Valid()
      modifies this`valueStack, this`controlStack
      ensures Outcome(ok, Check(old(Ctx()), BrTable(labels, default), old(Ops())), old(valueStack), old(controlStack))
    {
      var index := PopValueExpect(I32);
      if index.None? {
        return false;
      }
      ghost var a := Ops();
      var defaultTypes := LabelTypes(default);
      if defaultTypes.None? {
        return false;
      }
      for k := 0 to |labels|
        invariant Keeps(old(valueStack), old(controlStack)) && controlStack == old(controlStack)
        invariant CheckTable(Ctx(), |defaultTypes.value|, labels[k..], Ops()) == CheckTable(Ctx(), |defaultTypes.value|, labels, a)
      {
        assert labels[k..][0] == labels[k] && labels[k..][1..] == labels[k + 1..];
        var types := LabelTypes(labels[k]);
        if types.None? || |types.value| != |defaultTypes.value| {
          return false;
        }
        var popped := PopValuesExpect(types.value);
        if popped.None? {
          return false;
        }
        PushValues(popped.value);
      }
      assert labels[|labels|..] == [];
      ok := Exit(defaultTypes);
    }

    method ValidateInstruction(i: Instr) returns (ok: bool)
      requires Valid()
      modifies this`valueStack, this`controlStack
      ensures Outcome(ok, Check(old(Ctx()), i, old(Ops())), old(valueStack), old(controlStack))
      decreases i, 1
    {
      hide CheckSeq, CheckTable, CheckBody, CheckLeaf, Validation.Apply, CheckExit, PopAll;
      match i {
        case Plain(l) => ok := ValidateLeaf(l);
        case Unreachable =>
          MarkUnreachable();
          ok := true;
        case Block(_, _) => ok := ValidateBlock(i);
        case Loop(_, _) => ok := ValidateBlock(i);
        case IfElse(_, _, _) => ok := ValidateConditional(i);
        case Br(l) =>
          var types := LabelTypes(l);
          ok := Exit(types);
        case BrIf(l) => ok := ValidateBranchIf(l);
        case BrTable(labels, default) => ok := ValidateTable(labels, default);
        case Return => ok := Exit(Some(controlStack[0].endTypes));
        case Call(f) =>
          var ft := CalleeType(m, f);
          if ft.Some? { ok := Apply(ft.value.params, ft.value.results); } else { ok := false; }
        case CallIndirect(ty, table) =>
          var ft := IndirectType(m, ty, table);
          if ft.Some? { ok := ApplyIndirect(ft.value.0, ft.value.1); } else { ok := false; }
        case ReturnCall(f) =>
          var ft := CalleeType(m, f);
          if ft.Some? && AllSubtypes(m.types, ft.value.results, controlStack[0].endTypes) {
            ok := Exit(Some(ft.value.params));
          } else {
            ok := false;
          }
        case ReturnCallIndirect(ty, table) =>
          var ft := IndirectType(m, ty, table);
          if ft.Some? && AllSubtypes(m.types, ft.value.0.results, controlStack[0].endTypes) {
            ok := Exit(Some(ft.value.0.params + [ft.value.1]));
          } else {
            ok := false;
          }
      }
    }

    method ValidateBranchIf(l: nat) returns (ok: bool)
      requires Valid()
      modifies this`valueStack
      ensures Outcome(ok, Check(old(Ctx()), BrIf(l), old(Ops())), old(valueStack), old(controlStack))
    {
      var types := LabelTypes(l);
      if types.None? {
        return false;
      }
      LastFirst(m.types, Ops(), types.value, I32);
      var cond := PopValueExpect(I32);
      if cond.None? {
        return false;
      }
      ok := Apply(types.value, types.value);
    }

    /** An indirect call pops its index before its arguments. */
    method ApplyIndirect(ft: FunctionType, index: ValueType) returns (ok: bool)
      requires Valid()
      modifies this`valueStack
      ensures Outcome(ok, Validation.Apply(m.types, old(Ops()), ft.params + [index], ft.results), old(valueStack), old(controlStack))
    {
      LastFirst(m.types, Ops(), ft.params, index);
      var i := PopValueExpect(index);
      if i.None? {
        return false;
      }
      ok := Apply(ft.params, ft.results);
    }
  }

  /** Checks one function body, in a context of its own. */
  method ValidateFunction(m: Module, f: Function) returns (ok: bool)
    ensures ok == CheckFunction(m, f)
  {
    hide CheckSeq;
    var ft := FuncTypeAt(m.types, f.typeIndex);
    if ft.None? {
      return false;
    }
    var checker := new Checker(m, ft.value.params + f.locals);
    checker.PushControl([], ft.value.results, false);
    assert Known1([]) == [] && LabelsOf(checker.controlStack) == [] + [ft.value.results];
    assert checker.Ctx() == WithLabel(Validation.FunctionContext(m, f, ft.value), ft.value.results);
    ok := checker.ValidateAll(f.body);
    if ok {
      ok := checker.PopControl();
    }
  }

  /** Checks every function type and every body of a module. */
  method ValidateModule(m: Module) returns (ok: bool)
    ensures ok <==> CheckModule(m)
  {
    for k := 0 to |m.funcTypes|
      invariant forall f :: 0 <= f < k ==> FuncTypeAt(m.types, m.funcTypes[f]).Some?
    {
      if FuncTypeAt(m.types, m.funcTypes[k]).None? {
        return false;
      }
    }
    for k := 0 to |m.functions|
      invariant forall f :: 0 <= f < k ==> CheckFunction(m, m.functions[f])
    {
      hide CheckFunction;
      ok := ValidateFunction(m, m.functions[k]);
      if !ok {
        return;
      }
    }
    ok := true;
  }

  /** A block's label is the innermost one inside it. */
  lemma InnerContext(outer: seq<ControlFrame>, inner: seq<ControlFrame>)
    requires outer != [] && |inner| == |outer| + 1 && inner[..|outer|] == outer
    ensures LabelsOf(inner) == LabelsOf(outer) + [FrameLabel(inner[|outer|])] && inner[0] == outer[0]
  {
    assert inner[..|outer|][0] == inner[0];
    forall i | 0 <= i < |outer| ensures inner[i] == outer[i] {
      assert inner[..|outer|][i] == inner[i];
    }
  }

  lemma SameContext(a: seq<ControlFrame>, b: seq<ControlFrame>)
    requires a != [] && |a| == |b| && a[..|a| - 1] == b[..|a| - 1]
    requires b[|a| - 1] == a[|a| - 1].(unreachable := b[|a| - 1].unreachable)
    ensures LabelsOf(a) == LabelsOf(b) && a[0].endTypes == b[0].endTypes
  {
    forall i | 0 <= i < |a| - 1 ensures a[i] == b[i] {
      assert a[..|a| - 1][i] == b[..|a| - 1][i];
    }
  }

  /** Popping the last operand first, and then the others. */
  lemma LastFirst(types: seq<SubType>, a: Operands, ts: seq<ValueType>, last: ValueType)
    ensures var p := PopExpect(types, a, last);
            PopAll(types, a, ts + [last]) == if p.None? then None else After(PopAll(types, p.value.1, ts), [p.value.0])
  {
    assert (ts + [last])[..|ts|] == ts;
  }

  /** What popping some operands and then others gives. */
  function After(p: Option<(seq<OpType>, Operands)>, out: seq<OpType>): Option<(seq<OpType>, Operands)> {
    if p.Some? then Some((p.value.0 + out, p.value.1)) else None
  }

  lemma AfterNone(p: Option<(seq<OpType>, Operands)>)
    ensures After(p, []) == p
  {
    if p.Some? { assert p.value.0 + [] == p.value.0; }
  }

  lemma AfterOne(p: Option<(seq<OpType>, Operands)>, t: OpType, out: seq<OpType>)
    ensures After(After(p, [t]), out) == After(p, [t] + out)
  {
    if p.Some? { assert p.value.0 + [t] + out == p.value.0 + ([t] + out); }
  }
}
