/** What the standard's own rules say about an accepted function. Where
    `ref.as_non_null` pops an operand of unknown type, the validator leaves an
    operand of unknown type and the standard a non-null reference. */
module Strictness {
  import opened Wasm
  import opened Validation
  import opened Declarative
  import opened Typability

  /** The validator's algorithm, with the standard's `ref.as_non_null`. */
  predicate CheckStrictly(m: Module, f: Function) {
    match FuncTypeAt(m.types, f.typeIndex)
    case None => false
    case Some(ft) =>
      CheckBody(Strictly(FunctionContext(m, f, ft)), ft.results, FunctionType([], ft.results), f.body)
  }

  /** The standard types exactly the functions that pass the strict check. */
  lemma StandardExact(m: Module, f: Function)
    ensures FunctionTyped(true, m, f) <==> CheckStrictly(m, f)
  {
    hide CheckBody, BodyTyped;
    if FuncTypeAt(m.types, f.typeIndex).Some? {
      var ft := FuncTypeAt(m.types, f.typeIndex).value;
      var (c, all) := (Strictly(FunctionContext(m, f, ft)), FunctionType([], ft.results));
      if CheckStrictly(m, f) { BodySound(c, ft.results, all, f.body); }
      if FunctionTyped(true, m, f) { BodyComplete(c, ft.results, all, f.body); }
    }
  }

  // ----- the standard's rules are among the validator's -----

  function Leniently(c: Context): Context { c.(strict := false) }

  lemma {:induction false} StepWeakens(c: Context, i: Instr, s: seq<OpType>, t: seq<OpType>)
    requires StepTyped(Strictly(c), i, s, t)
    ensures StepTyped(Leniently(c), i, s, t)
    decreases i, 3
  {
    hide *;
    var k, ins := StepParts(Strictly(c), i, s, t);
    InstrWeakens(c, i, ins, t[k..]);
    SameMatches(c, s[k..], ins);
    FromMiddle(Leniently(c), i, s, k, ins, t);
  }

  lemma SameMatches(c: Context, subs: seq<OpType>, sups: seq<OpType>)
    ensures AllMatch(Strictly(c).m.types, subs, sups) == AllMatch(Leniently(c).m.types, subs, sups)
  {
    hide AllMatch;
  }

  lemma {:induction false} InstrWeakens(c: Context, i: Instr, ins: seq<OpType>, outs: seq<OpType>)
    requires InstrTyped(Strictly(c), i, ins, outs)
    ensures InstrTyped(Leniently(c), i, ins, outs)
    decreases i, 2
  {
    hide LeafTyped, BodyTyped, TableTyped, AllMatch;
    match i
    case Plain(l) => LeafWeakens(c, l, ins, outs);
    case Block(_, _) => BlockWeakens(c, i, ins, outs);
    case Loop(_, _) => BlockWeakens(c, i, ins, outs);
    case IfElse(_, _, _) => BlockWeakens(c, i, ins, outs);
    case BrTable(ls, default) =>
      TableWeakens(c, ls + [default], ins[|ins| - 1 - |LabelTypes(c, default).value|..|ins| - 1]);
    case _ =>
  }

  lemma {:induction false} BlockWeakens(c: Context, i: Instr, ins: seq<OpType>, outs: seq<OpType>)
    requires InstrTyped(Strictly(c), i, ins, outs) && (i.Block? || i.Loop? || i.IfElse?)
    ensures InstrTyped(Leniently(c), i, ins, outs)
    decreases i, 1
  {
    hide BodyTyped;
    var ft := BlockFuncType(c.m, i.bt).value;
    match i
    case Block(_, body) => BodyWeakens(WithLabel(c, ft.results), ft, body);
    case Loop(_, body) => BodyWeakens(WithLabel(c, ft.params), ft, body);
    case IfElse(_, thn, els) =>
      BodyWeakens(WithLabel(c, ft.results), ft, thn);
      BodyWeakens(WithLabel(c, ft.results), ft, els);
  }

  lemma LeafWeakens(c: Context, l: Leaf, ins: seq<OpType>, outs: seq<OpType>)
    requires LeafTyped(Strictly(c), l, ins, outs)
    ensures LeafTyped(Leniently(c), l, ins, outs)
  {
  }

  lemma TableWeakens(c: Context, ls: seq<nat>, ts: seq<OpType>)
    requires TableTyped(Strictly(c), ls, ts)
    ensures TableTyped(Leniently(c), ls, ts)
  {
    hide AllMatch;
  }

  lemma {:induction false} BodyWeakens(c: Context, ft: FunctionType, body: seq<Instr>)
    requires BodyTyped(Strictly(c), ft, body)
    ensures BodyTyped(Leniently(c), ft, body)
    decreases body, 1
  {
    hide SeqTyped;
    var t: seq<OpType> :| SeqTyped(Strictly(c), body, Known1(ft.params), t) && AllMatch(c.m.types, t, Known1(ft.results));
    SeqWeakens(c, body, Known1(ft.params), t);
  }

  lemma {:induction false} SeqWeakens(c: Context, body: seq<Instr>, s: seq<OpType>, t: seq<OpType>)
    requires SeqTyped(Strictly(c), body, s, t)
    ensures SeqTyped(Leniently(c), body, s, t)
    decreases body, 0
  {
    hide StepTyped;
    if body != [] {
      var mid: seq<OpType> :| StepTyped(Strictly(c), body[0], s, mid) && SeqTyped(Strictly(c), body[1..], mid, t);
      StepWeakens(c, body[0], s, mid);
      SeqWeakens(c, body[1..], mid, t);
    }
  }

  // ----- a condition along the validator's own run -----

  /** No `ref.as_non_null` of the instruction pops an operand of unknown type. */
  predicate InstrKnown(c: Context, i: Instr, a: Operands)
    decreases i, 0
  {
    match i
    case Plain(l) => l.RefAsNonNull? && Pop(a).Some? ==> Pop(a).value.0.Known?
    case Block(bt, body) =>
      (match BlockFuncType(c.m, bt) case None => true case Some(ft) => BodyKnown(c, ft.results, ft, body))
    case Loop(bt, body) =>
      (match BlockFuncType(c.m, bt) case None => true case Some(ft) => BodyKnown(c, ft.params, ft, body))
    case IfElse(bt, thn, els) =>
      (match BlockFuncType(c.m, bt)
       case None => true
       case Some(ft) => BodyKnown(c, ft.results, ft, thn) && BodyKnown(c, ft.results, ft, els))
    case _ => true
  }

  predicate BodyKnown(c: Context, entered: seq<ValueType>, ft: FunctionType, body: seq<Instr>)
    decreases body, 1
  {
    SeqKnown(WithLabel(c, entered), body, Push(Operands([], false), ft.params))
  }

  predicate SeqKnown(c: Context, body: seq<Instr>, a: Operands)
    decreases body, 0
  {
    body == [] ||
    (InstrKnown(c, body[0], a) && (Check(c, body[0], a).Some? ==> SeqKnown(c, body[1..], Check(c, body[0], a).value)))
  }

  predicate FunctionKnown(m: Module, f: Function) {
    match FuncTypeAt(m.types, f.typeIndex)
    case None => true
    case Some(ft) => BodyKnown(FunctionContext(m, f, ft), ft.results, FunctionType([], ft.results), f.body)
  }

  lemma {:induction false} InstrAgrees(c: Context, i: Instr, a: Operands)
    requires InstrKnown(c, i, a)
    ensures Check(Strictly(c), i, a) == Check(c, i, a)
    decreases i, 2
  {
    hide Apply, CheckBody, CheckExit, SeqKnown, PopAll, BodyKnown;
    if i.BrTable? {
      TableAgrees(c, i, a);
    } else if Structured(i) && BlockFuncType(c.m, i.bt).Some? {
      var ft := BlockFuncType(c.m, i.bt).value;
      match i
      case Block(_, body) => BodyAgrees(c, ft.results, ft, body);
      case Loop(_, body) => BodyAgrees(c, ft.params, ft, body);
      case IfElse(_, thn, els) =>
        BodyAgrees(c, ft.results, ft, thn);
        BodyAgrees(c, ft.results, ft, els);
    }
  }

  lemma TableAgrees(c: Context, i: Instr, a: Operands)
    requires i.BrTable?
    ensures Check(Strictly(c), i, a) == Check(c, i, a)
  {
    hide CheckTable, CheckExit, Fits;
    forall n: nat, b: Operands ensures CheckTable(Strictly(c), n, i.labels, b) == CheckTable(c, n, i.labels, b) {
      LabelsAgree(c, n, i.labels, b);
    }
  }

  lemma {:induction false} LabelsAgree(c: Context, n: nat, ls: seq<nat>, a: Operands)
    ensures CheckTable(Strictly(c), n, ls, a) == CheckTable(c, n, ls, a)
  {
    hide PopAll;
    if ls != [] && LabelTypes(c, ls[0]).Some? && PopAll(c.m.types, a, LabelTypes(c, ls[0]).value).Some? {
      var (found, a') := PopAll(c.m.types, a, LabelTypes(c, ls[0]).value).value;
      LabelsAgree(c, n, ls[1..], a'.(ops := a'.ops + found));
    }
  }

  lemma {:induction false} BodyAgrees(c: Context, entered: seq<ValueType>, ft: FunctionType, body: seq<Instr>)
    requires BodyKnown(c, entered, ft, body)
    ensures CheckBody(Strictly(c), entered, ft, body) == CheckBody(c, entered, ft, body)
    decreases body, 1
  {
    hide CheckSeq, SeqKnown, Ends;
    SeqAgrees(WithLabel(c, entered), body, Push(Operands([], false), ft.params));
  }

  lemma {:induction false} SeqAgrees(c: Context, body: seq<Instr>, a: Operands)
    requires SeqKnown(c, body, a)
    ensures CheckSeq(Strictly(c), body, a) == CheckSeq(c, body, a)
    decreases body, 0
  {
    hide Check, InstrKnown;
    if body != [] {
      InstrAgrees(c, body[0], a);
      if Check(c, body[0], a).Some? { SeqAgrees(c, body[1..], Check(c, body[0], a).value); }
    }
  }

  /** By the rules of the standard: every function they type is accepted, and
      every accepted function in whose check no `ref.as_non_null` pops an operand
      of unknown type is typed by them. */
  lemma ValidatorStandard(m: Module, f: Function)
    ensures FunctionTyped(true, m, f) ==> CheckFunction(m, f)
    ensures FunctionKnown(m, f) && CheckFunction(m, f) ==> FunctionTyped(true, m, f)
  {
    hide CheckBody, BodyTyped, BodyKnown;
    StandardExact(m, f);
    if FuncTypeAt(m.types, f.typeIndex).Some? {
      var ft := FuncTypeAt(m.types, f.typeIndex).value;
      var (c, all) := (FunctionContext(m, f, ft), FunctionType([], ft.results));
      if FunctionTyped(true, m, f) {
        BodyWeakens(WithLabel(c, ft.results), all, f.body);
        BodyComplete(c, ft.results, all, f.body);
      }
      if FunctionKnown(m, f) { BodyAgrees(c, ft.results, all, f.body); }
    }
  }

  predicate WithoutInstr(i: Instr)
    decreases i, 1
  {
    match i
    case Plain(l) => !l.RefAsNonNull?
    case Block(_, body) => Without(body)
    case Loop(_, body) => Without(body)
    case IfElse(_, thn, els) => Without(thn) && Without(els)
    case _ => true
  }

  /** The body does not use `ref.as_non_null`. */
  predicate Without(body: seq<Instr>)
    decreases body, 0
  {
    body == [] || (WithoutInstr(body[0]) && Without(body[1..]))
  }

  lemma {:induction false} WithoutKnown(c: Context, body: seq<Instr>, a: Operands)
    requires Without(body)
    ensures SeqKnown(c, body, a)
    decreases body, 0
  {
    hide Check;
    if body != [] {
      WithoutInstrKnown(c, body[0], a);
      if Check(c, body[0], a).Some? { WithoutKnown(c, body[1..], Check(c, body[0], a).value); }
    }
  }

  lemma {:induction false} WithoutInstrKnown(c: Context, i: Instr, a: Operands)
    requires WithoutInstr(i)
    ensures InstrKnown(c, i, a)
    decreases i, 1
  {
    if Structured(i) && BlockFuncType(c.m, i.bt).Some? {
      var ft := BlockFuncType(c.m, i.bt).value;
      var start := Push(Operands([], false), ft.params);
      match i
      case Block(_, body) => WithoutKnown(WithLabel(c, ft.results), body, start);
      case Loop(_, body) => WithoutKnown(WithLabel(c, ft.params), body, start);
      case IfElse(_, thn, els) =>
        WithoutKnown(WithLabel(c, ft.results), thn, start);
        WithoutKnown(WithLabel(c, ft.results), els, start);
    }
  }

  /** On functions that do not use `ref.as_non_null` the validator is the
      standard's. */
  lemma WithoutNonNull(m: Module, f: Function)
    requires Without(f.body)
    ensures CheckFunction(m, f) <==> FunctionTyped(true, m, f)
  {
    hide CheckBody, BodyTyped, SeqKnown;
    ValidatorStandard(m, f);
    if FuncTypeAt(m.types, f.typeIndex).Some? {
      var ft := FuncTypeAt(m.types, f.typeIndex).value;
      WithoutKnown(WithLabel(FunctionContext(m, f, ft), ft.results), f.body, Push(Operands([], false), []));
    }
  }

  /** One step: what accepting `ref.as_non_null` leaves agrees with the standard
      exactly when the operand popped has a known type, or the check is strict. */
  lemma NonNullExact(c: Context, a: Operands)
    requires CheckLeaf(c, RefAsNonNull, a).Some?
    ensures Pop(a).Some?
    ensures c.strict || Pop(a).value.0.Known? <==>
            forall t: seq<OpType> :: Exact(CheckLeaf(c, RefAsNonNull, a).value, t) ==>
              exists s: seq<OpType> :: Exact(a, s) && StepTyped(Strictly(c), Plain(RefAsNonNull), s, t)
  {
    hide Exact, StepTyped, CheckLeaf;
    PopNeeded(c, RefAsNonNull, a);
    var (x, a') := Pop(a).value;
    OneOperandChecks(c, RefAsNonNull, a, x, a');
    if c.strict || x.Known? {
      forall t: seq<OpType> | Exact(CheckLeaf(c, RefAsNonNull, a).value, t)
        ensures exists s: seq<OpType> :: Exact(a, s) && StepTyped(Strictly(c), Plain(RefAsNonNull), s, t)
      {
        var s := LeafSound(c, RefAsNonNull, a, t);
      }
    } else {
      var t := a'.ops + [Bot];
      assert Exact(CheckLeaf(c, RefAsNonNull, a).value, t) by { ExactSelf(CheckLeaf(c, RefAsNonNull, a).value); }
      forall s: seq<OpType> ensures !StepTyped(Strictly(c), Plain(RefAsNonNull), s, t) {
        if StepTyped(Strictly(c), Plain(RefAsNonNull), s, t) { NonNullNeverBot(Strictly(c), s, t); }
      }
    }
  }

  lemma ExactSelf(a: Operands)
    ensures Exact(a, a.ops)
  {
  }

  /** The standard's `ref.as_non_null` leaves a reference. */
  lemma NonNullNeverBot(c: Context, s: seq<OpType>, t: seq<OpType>)
    requires c.strict && StepTyped(c, Plain(RefAsNonNull), s, t)
    ensures t != [] && t[|t| - 1].Known? && t[|t| - 1].vt.RefVal?
  {
    var k: nat, ins :| k <= |s| && k <= |t| && s[..k] == t[..k] && AllMatch(c.m.types, s[k..], ins)
                       && InstrTyped(c, Plain(RefAsNonNull), ins, t[k..]);
    assert LeafTyped(c, RefAsNonNull, ins, t[k..]);
    assert |t[k..]| == 1 && t[k..][0] == t[|t| - 1];
  }

  /** The module and function of the example below. */
  function ExampleModule(): Module {
    Module([SubType(true, [], FuncType(FunctionType([], [])))], [0], [], [], [], [], {})
  }

  function ExampleFunction(): Function {
    Function(0, [], [Unreachable, Plain(RefAsNonNull), Plain(EqZero(Int32)), Plain(Drop)])
  }

  lemma ExampleNonNull(c: Context)
    ensures CheckLeaf(c, RefAsNonNull, Operands([], true)) == Some(Operands([UnknownNonNull(c.strict)], true))
  {
    assert [] + [UnknownNonNull(c.strict)] == [UnknownNonNull(c.strict)];
  }

  lemma ExampleDrop(c: Context)
    ensures CheckLeaf(c, Drop, Operands([Known(I32)], true)) == Some(Operands([], true))
  {
    assert [Known(I32)][..0] == [];
  }

  lemma ExampleTest(c: Context)
    ensures CheckLeaf(c, EqZero(Int32), Operands([Bot], true)) == Some(Operands([Known(I32)], true))
  {
    var (dead, unknown) := (Operands([], true), Operands([Bot], true));
    assert Pop(unknown) == Some((Bot, dead)) && [I32][..0] == [];
    assert PopAll(c.m.types, dead, []) == Some(([], dead));
    assert PopExpect(c.m.types, unknown, I32) == Some((Bot, dead));
    var none: seq<OpType> := [];
    assert none + [Bot] == [Bot];
    assert PopAll(c.m.types, unknown, [I32]) == Some((none + [Bot], dead));
    assert Push(dead, [I32]) == Operands([Known(I32)], true);
    hide PopAll, Push, CheckLeaf;
    CheckLeafArrow(c, EqZero(Int32), unknown);
  }

  lemma ExampleAccepted()
    ensures CheckFunction(ExampleModule(), ExampleFunction())
  {
    var (m, body) := (ExampleModule(), ExampleFunction().body);
    var c := WithLabel(FunctionContext(m, ExampleFunction(), FunctionType([], [])), []);
    var (dead, unknown, known) := (Operands([], true), Operands([Bot], true), Operands([Known(I32)], true));
    var start := Push(Operands([], false), []);
    hide CheckLeaf, PopAll;
    ExampleNonNull(c);
    ExampleTest(c);
    ExampleDrop(c);
    ExampleSeq(c, body[3..], known, dead, dead);
    ExampleSeq(c, body[2..], unknown, known, dead);
    ExampleSeq(c, body[1..], dead, unknown, dead);
    ExampleSeq(c, body, start, dead, dead);
    PopAllExact(m.types, dead, []);
  }

  lemma ExampleSeq(c: Context, body: seq<Instr>, a: Operands, b: Operands, end: Operands)
    requires body != [] && Check(c, body[0], a) == Some(b) && CheckSeq(c, body[1..], b) == Some(end)
    ensures CheckSeq(c, body, a) == Some(end)
  {
    hide Check;
  }

  /** Testing the non-null reference for zero is a type error. */
  lemma ExampleFails(c: Context)
    requires c.strict
    ensures CheckLeaf(c, EqZero(Int32), Operands([UnknownNonNull(true)], true)) == None
  {
    var unknown := Operands([UnknownNonNull(true)], true);
    assert PopExpect(c.m.types, unknown, I32) == None;
    CheckLeafArrow(c, EqZero(Int32), unknown);
  }

  /** A function that is accepted although no rule of the standard types it. */
  lemma AcceptedNotStandard()
    ensures CheckFunction(ExampleModule(), ExampleFunction())
    ensures !FunctionTyped(true, ExampleModule(), ExampleFunction())
  {
    hide CheckLeaf, BodyTyped;
    ExampleAccepted();
    var (m, f) := (ExampleModule(), ExampleFunction());
    var c := WithLabel(Strictly(FunctionContext(m, f, FunctionType([], []))), []);
    var dead := Operands([], true);
    ExampleNonNull(c);
    ExampleFails(c);
    assert CheckSeq(c, f.body[2..], Operands([UnknownNonNull(true)], true)) == None;
    assert f.body[1..][1..] == f.body[2..];
    assert CheckSeq(c, f.body[1..], dead) == None;
    assert CheckSeq(c, f.body, Push(Operands([], false), [])) == None;
    StandardExact(m, f);
  }
}
