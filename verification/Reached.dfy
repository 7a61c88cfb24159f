/** What a run can reach. Code behind an unconditional transfer is never entered,
    although a nested block there resets the compiler's height; and wherever a
    run is, its operands are as many as the compiler's height less the arguments
    and as many as the validator counted at that instruction. */
module Reached {
  import opened Wasm
  import opened Runtime
  import opened Ir
  import opened Machine
  import opened Validation
  import opened Lowering
  import opened LoweringFacts
  import opened Simulation
  import opened FusionFacts
  import opened Fusion
  import opened Correctness
  import opened Safety
  import opened Heights

  // ----- code that is emitted behind an unconditional transfer -----

  /** No operation of the code has a recorded number of operands. */
  ghost predicate Unrecorded(code: seq<Item>) {
    forall k :: 0 <= k < |code| && code[k].Emitted? ==> code[k].line.at == -1
  }

  lemma {:induction false} DeadSeq(m: Module, blocks: seq<BlockContext>, s: Compiling, body: seq<Instr>)
    requires blocks != [] && s.dead
    ensures var e := LowerSeq(m, blocks, s, body); Unrecorded(e.code) && e.st.dead
    decreases body, 0
  {
    hide Lower;
    if body != [] {
      DeadInstr(m, blocks, s, body[0]);
      DeadSeq(m, blocks, Lower(m, blocks, s, body[0]).st, body[1..]);
    }
  }

  lemma {:induction false} DeadInstr(m: Module, blocks: seq<BlockContext>, s: Compiling, i: Instr)
    requires blocks != [] && s.dead
    ensures var e := Lower(m, blocks, s, i); Unrecorded(e.code) && e.st.dead
    decreases i, 2
  {
    hide LowerSeq;
    var (p, r) := BlockSig(m, if Structured(i) then i.bt else EmptyType);
    match i
    case Block(_, body) => DeadBlock(m, blocks, s, PlainBlock, p, r, r, body);
    case Loop(_, body) => DeadBlock(m, blocks, s, LoopBlock, p, r, p, body);
    case IfElse(_, _, _) => DeadConditional(m, blocks, s, i);
    case _ =>
  }

  lemma {:induction false} DeadBlock(m: Module, blocks: seq<BlockContext>, s: Compiling, kind: BlockKind,
                                     params: nat, results: nat, arity: nat, body: seq<Instr>)
    requires blocks != [] && s.dead
    ensures var e := LowerBlock(m, blocks, s, kind, params, results, arity, body); Unrecorded(e.code) && e.st.dead
    decreases body, 1
  {
    hide LowerSeq;
    var inner := blocks + [BlockContext(kind, EntryHeight(s.height, params), arity, s.next, s.next + 1)];
    DeadSeq(m, inner, s.(next := s.next + 2), body);
  }

  lemma {:induction false} DeadConditional(m: Module, blocks: seq<BlockContext>, s: Compiling, i: Instr)
    requires blocks != [] && s.dead && i.IfElse?
    ensures var e := LowerConditional(m, blocks, s, i); Unrecorded(e.code) && e.st.dead
    decreases i, 0
  {
    hide LowerSeq, ConditionalCode;
    var (p, r) := BlockSig(m, i.bt);
    var height := if s.height != UNREACHABLE_DEPTH then s.height - 1 else s.height;
    var inner := blocks + [BlockContext(IfElseBlock, EntryHeight(height, p), r, s.next + 2, s.next + 1)];
    var s1 := s.(height := height, next := s.next + 3);
    DeadSeq(m, inner, s1, i.thn);
    var t := LowerSeq(m, inner, s1, i.thn);
    var s2 := t.st.(height := height, dead := s.dead);
    DeadSeq(m, inner, s2, i.els);
    var skip := if i.els == [] then [] else One(blocks, t.st, Jump(s.next + 1, 0, 0));
    var els := if i.els == [] then [] else LowerSeq(m, inner, s2, i.els).code;
    UnrecordedConditional(s.next, One(blocks, s, JumpIfNot(s.next, 0, 0)), t.code, skip, els);
  }

  lemma UnrecordedConditional(n: nat, test: seq<Item>, thn: seq<Item>, skip: seq<Item>, els: seq<Item>)
    requires Unrecorded(test) && Unrecorded(thn) && Unrecorded(skip) && Unrecorded(els)
    ensures Unrecorded(ConditionalCode(n, test, thn, skip, els))
  {
  }

  predicate Transfers(i: Instr) {
    i.Unreachable? || i.Br? || i.BrTable? || i.Return? || i.ReturnCall? || i.ReturnCallIndirect?
  }

  /** Whatever follows an unconditional transfer in its block, blocks in it
      included, is emitted without a number of operands. */
  lemma BehindTransfer(m: Module, blocks: seq<BlockContext>, s: Compiling, body: seq<Instr>)
    requires blocks != [] && body != [] && Transfers(body[0]) && s.height != UNREACHABLE_DEPTH
    ensures var first := Lower(m, blocks, s, body[0]);
            && LowerSeq(m, blocks, s, body).code == first.code + LowerSeq(m, blocks, first.st, body[1..]).code
            && |first.code| == 1 && Unrecorded(LowerSeq(m, blocks, first.st, body[1..]).code)
  {
    DeadSeq(m, blocks, Lower(m, blocks, s, body[0]).st, body[1..]);
  }

  // ----- the validator's counts -----

  /** A place where validation counts operands: before an instruction that is not
      a block, at the end of a first arm, and at the end of the function. */
  datatype Point = Before(i: Instr, n: int) | ArmEnd(n: int) | End(n: int)

  /** The points of a body that is validated from the operands `a`, with `under`
      operands of enclosing blocks below; those behind an unconditional transfer
      are left out. Only validation is consulted. */
  function SeqPoints(c: Context, body: seq<Instr>, a: Operands, under: int): seq<Point>
    decreases body, 0
  {
    if body == [] || a.dead then []
    else
      var rest := match Check(c, body[0], a) case None => [] case Some(a1) => SeqPoints(c, body[1..], a1, under);
      InstrPoints(c, body[0], a, under) + rest
  }

  function InstrPoints(c: Context, i: Instr, a: Operands, under: int): seq<Point>
    decreases i, 1
  {
    var n := under + |a.ops|;
    if !Structured(i) then [Before(i, n)]
    else
      match BlockFuncType(c.m, i.bt)
      case None => []
      case Some(ft) =>
        var start := Push(Operands([], false), ft.params);
        match i
        case Block(_, body) => SeqPoints(WithLabel(c, ft.results), body, start, n - |ft.params|)
        case Loop(_, body) => SeqPoints(WithLabel(c, ft.params), body, start, n - |ft.params|)
        case IfElse(_, thn, els) =>
          var (inner, below) := (WithLabel(c, ft.results), n - 1 - |ft.params|);
          [Before(i, n)] + SeqPoints(inner, thn, start, below)
          + (if els == [] then [] else EndOfArm(CheckSeq(inner, thn, start), below))
          + SeqPoints(inner, els, start, below)
  }

  function EndOfArm(a: Option<Operands>, under: int): seq<Point> {
    if a.None? || a.value.dead then [] else [ArmEnd(under + |a.value.ops|)]
  }

  function FunctionPoints(m: Module, f: Function): seq<Point> {
    match FuncTypeAt(m.types, f.typeIndex)
    case None => []
    case Some(ft) =>
      SeqPoints(WithLabel(FunctionContext(m, f, ft), ft.results), f.body, Operands([], false), 0) + [End(|ft.results|)]
  }

  // ----- the compiler's heights are these counts -----

  /** The operations with a recorded number of operands, in order. */
  function Lines(code: seq<Item>): seq<Line> {
    if code == [] then []
    else (if code[0].Emitted? && code[0].line.at >= 0 then [code[0].line] else []) + Lines(code[1..])
  }

  lemma {:induction false} LinesAppend(a: seq<Item>, b: seq<Item>)
    ensures Lines(a + b) == Lines(a) + Lines(b)
  {
    if a == [] {
      assert a + b == b;
    } else {
      assert (a + b)[1..] == a[1..] + b;
      LinesAppend(a[1..], b);
    }
  }

  lemma {:induction false} LinesDead(code: seq<Item>)
    requires Unrecorded(code)
    ensures Lines(code) == []
  {
    if code != [] { LinesDead(code[1..]); }
  }

  /** The operation that the compiler emits for what is at a point. */
  predicate Implements(p: Point, op: Op) {
    match p
    case ArmEnd(_) => op.Jump?
    case End(_) => op == ReturnOp
    case Before(i, _) =>
      match i
      case Plain(l) => op == LeafOp(LowerLeaf(l))
      case Unreachable => op == UnreachableOp
      case Br(_) => op.Jump?
      case BrIf(_) => op.JumpIf?
      case BrTable(_, _) => op.JumpTable?
      case Return => op == ReturnOp
      case Call(f) => op == CallOp(f)
      case CallIndirect(ty, table) => op == CallIndirectOp(ty, table)
      case ReturnCall(f) => op == ReturnCallOp(f)
      case ReturnCallIndirect(ty, table) => op == ReturnCallIndirectOp(ty, table)
      case IfElse(_, _, _) => op.JumpIfNot?
      case Block(_, _) => false
      case Loop(_, _) => false
  }

  predicate Meets(p: Point, line: Line) { p.n == line.at && Implements(p, line.op) }

  /** One by one, the operations implement what is at the points, with the
      numbers that validation counted there. */
  ghost predicate Corresponds(points: seq<Point>, lines: seq<Line>) {
    |points| == |lines| && forall j :: 0 <= j < |points| ==> Meets(points[j], lines[j])
  }

  lemma CorrespondsAppend(p: seq<Point>, q: seq<Point>, a: seq<Line>, b: seq<Line>)
    requires Corresponds(p, a) && Corresponds(q, b)
    ensures Corresponds(p + q, a + b)
  {
    hide Meets;
  }

  /** Compiler and validator agree about where they are. */
  ghost predicate InStep(blocks: seq<BlockContext>, s: Compiling, a: Operands, under: int)
    requires blocks != []
  {
    && blocks[0].entry >= 0 && s.dead == a.dead
    && (!a.dead ==> under >= 0 && SameHeight(blocks, s, a, under))
  }

  lemma {:induction false} SeqCounts(c: Context, blocks: seq<BlockContext>, s: Compiling, body: seq<Instr>,
                                     a: Operands, under: int)
    requires blocks != [] && CheckSeq(c, body, a).Some? && InStep(blocks, s, a, under)
    ensures var e := LowerSeq(c.m, blocks, s, body);
            && Corresponds(SeqPoints(c, body, a, under), Lines(e.code))
            && InStep(blocks, e.st, CheckSeq(c, body, a).value, under)
    decreases body, 0
  {
    hide Check, Lower, InStep, InstrPoints, Corresponds;
    if body == [] {
      NoneCorrespond();
    } else {
      var e := Lower(c.m, blocks, s, body[0]);
      var a1 := Check(c, body[0], a).value;
      InstrCounts(c, blocks, s, body[0], a, under);
      SeqCounts(c, blocks, e.st, body[1..], a1, under);
      LinesAppend(e.code, LowerSeq(c.m, blocks, e.st, body[1..]).code);
      if a.dead {
        DeadPoints(c, blocks, s, body, a, under);
      } else {
        CorrespondsAppend(InstrPoints(c, body[0], a, under), SeqPoints(c, body[1..], a1, under),
                          Lines(e.code), Lines(LowerSeq(c.m, blocks, e.st, body[1..]).code));
      }
    }
  }

  lemma NoneCorrespond()
    ensures Corresponds([], [])
  {
  }

  lemma DeadPoints(c: Context, blocks: seq<BlockContext>, s: Compiling, body: seq<Instr>, a: Operands, under: int)
    requires blocks != [] && InStep(blocks, s, a, under) && a.dead
    ensures Corresponds(SeqPoints(c, body, a, under), Lines(LowerSeq(c.m, blocks, s, body).code))
  {
    hide LowerSeq;
    DeadSeq(c.m, blocks, s, body);
    LinesDead(LowerSeq(c.m, blocks, s, body).code);
  }

  lemma {:induction false} InstrCounts(c: Context, blocks: seq<BlockContext>, s: Compiling, i: Instr, a: Operands,
                                       under: int)
    requires blocks != [] && Check(c, i, a).Some? && InStep(blocks, s, a, under)
    ensures var e := Lower(c.m, blocks, s, i);
            && InStep(blocks, e.st, Check(c, i, a).value, under)
            && (!a.dead ==> Corresponds(InstrPoints(c, i, a, under), Lines(e.code)))
    decreases i, 2
  {
    hide Check, Lower, InstrPoints, Corresponds, Lines;
    StaysInStep(c, blocks, s, i, a, under);
    if !a.dead {
      match i
      case Block(_, _) => BlockCounts(c, blocks, s, i, a, under);
      case Loop(_, _) => BlockCounts(c, blocks, s, i, a, under);
      case IfElse(_, _, _) => ConditionalCounts(c, blocks, s, i, a, under);
      case _ => SimpleCounts(c, blocks, s, i, a, under);
    }
  }

  lemma StaysInStep(c: Context, blocks: seq<BlockContext>, s: Compiling, i: Instr, a: Operands, under: int)
    requires blocks != [] && Check(c, i, a).Some? && InStep(blocks, s, a, under)
    ensures InStep(blocks, Lower(c.m, blocks, s, i).st, Check(c, i, a).value, under)
  {
    hide Check, Lower;
    if a.dead {
      DeadStays(c, i, a);
      DeadInstr(c.m, blocks, s, i);
    } else {
      NextHeight(c, blocks, s, i, a, under);
      SameDead(c, blocks, s, i, a);
    }
  }

  /** Both make what follows dead at the same instructions. */
  lemma SameDead(c: Context, blocks: seq<BlockContext>, s: Compiling, i: Instr, a: Operands)
    requires blocks != [] && Check(c, i, a).Some? && !a.dead && !s.dead && s.height >= 0
    ensures Lower(c.m, blocks, s, i).st.dead == Check(c, i, a).value.dead
  {
    hide CheckSeq, LowerSeq, CheckTable, CheckBody;
    var types := c.m.types;
    match i
    case Plain(l) => LeafCounts(c, l, a);
    case Block(_, _) =>
      BlockTyped(c, i, a);
      StructuredKeepsDead(c.m, blocks, s, i);
    case Loop(_, _) =>
      BlockTyped(c, i, a);
      StructuredKeepsDead(c.m, blocks, s, i);
    case IfElse(_, _, _) =>
      ConditionalTyped(c, i, a);
      StructuredKeepsDead(c.m, blocks, s, i);
    case BrIf(k) => ApplyLive(types, a, LabelTypes(c, k).value + [I32], LabelTypes(c, k).value);
    case Call(f) =>
      var ft := CalleeType(c.m, f).value;
      ApplyLive(types, a, ft.params, ft.results);
    case CallIndirect(ty, table) =>
      var (ft, at) := IndirectType(c.m, ty, table).value;
      ApplyLive(types, a, ft.params + [at], ft.results);
    case _ =>
  }

  lemma StructuredKeepsDead(m: Module, blocks: seq<BlockContext>, s: Compiling, i: Instr)
    requires blocks != [] && Structured(i)
    ensures Lower(m, blocks, s, i).st.dead == s.dead
  {
    hide LowerSeq;
    assert LowerStructured(m, blocks, s, i).st.dead == s.dead;
  }

  lemma SimpleCounts(c: Context, blocks: seq<BlockContext>, s: Compiling, i: Instr, a: Operands, under: int)
    requires blocks != [] && InStep(blocks, s, a, under) && !a.dead && !Structured(i)
    ensures Corresponds(InstrPoints(c, i, a, under), Lines(Lower(c.m, blocks, s, i).code))
  {
    var code := Lower(c.m, blocks, s, i).code;
    assert |code| == 1 && code[1..] == [];
    assert Lines(code) == [code[0].line];
  }

  lemma {:induction false} BlockCounts(c: Context, blocks: seq<BlockContext>, s: Compiling, i: Instr, a: Operands,
                                       under: int)
    requires blocks != [] && Check(c, i, a).Some? && InStep(blocks, s, a, under) && !a.dead && (i.Block? || i.Loop?)
    ensures Corresponds(InstrPoints(c, i, a, under), Lines(Lower(c.m, blocks, s, i).code))
    decreases i, 1
  {
    hide Check, CheckSeq, LowerSeq, SeqPoints, Corresponds;
    BlockTyped(c, i, a);
    var ft := BlockFuncType(c.m, i.bt).value;
    BodyChecked(c, LabelOf(i, ft), ft, i.body);
    var inner := blocks + [BodyContext(s, i, ft)];
    var s1 := s.(next := s.next + 2);
    SeqCounts(WithLabel(c, LabelOf(i, ft)), inner, s1, i.body, Push(Operands([], false), ft.params),
              under + |a.ops| - |ft.params|);
    var body := LowerSeq(c.m, inner, s1, i.body).code;
    assert LowerStructured(c.m, blocks, s, i)
        == LowerBlock(c.m, blocks, s, KindOf(i), |ft.params|, |ft.results|, |LabelOf(i, ft)|, i.body);
    assert Lower(c.m, blocks, s, i).code == [Label(s.next)] + body + [Label(s.next + 1)];
    LabelsAround(s.next, body);
  }

  lemma LabelsAround(n: nat, body: seq<Item>)
    ensures Lines([Label(n)] + body + [Label(n + 1)]) == Lines(body)
  {
    LinesAppend([Label(n)] + body, [Label(n + 1)]);
    LinesAppend([Label(n)], body);
  }

  lemma {:induction false} ConditionalCounts(c: Context, blocks: seq<BlockContext>, s: Compiling, i: Instr,
                                             a: Operands, under: int)
    requires blocks != [] && Check(c, i, a).Some? && InStep(blocks, s, a, under) && !a.dead && i.IfElse?
    ensures Corresponds(InstrPoints(c, i, a, under), Lines(Lower(c.m, blocks, s, i).code))
    decreases i, 1
  {
    hide Check, CheckSeq, Lower, LowerSeq, SeqPoints, Corresponds, Lines, ConditionalCode, One;
    ConditionalTyped(c, i, a);
    var ft := BlockFuncType(c.m, i.bt).value;
    BodyChecked(c, ft.results, ft, i.thn);
    BodyChecked(c, ft.results, ft, i.els);
    var spot := Spot(c, blocks, [], []);
    ConditionalParts(spot, s, i, 0, ft);
    var x := ArmsOf(spot, s, i, 0, ft);
    var (start, below) := (Push(Operands([], false), ft.params), under + |a.ops| - 1 - |ft.params|);
    var inner := WithLabel(c, ft.results);
    SeqCounts(inner, blocks + [x.b], s.(height := s.height - 1, next := s.next + 3), i.thn, start, below);
    SeqCounts(inner, blocks + [x.b], x.t.st.(height := s.height - 1, dead := s.dead), i.els, start, below);
    var test := One(blocks, s, JumpIfNot(s.next, 0, 0));
    LinesConditional(s.next, test, x.t.code, x.skip, x.e.code);
    TestCounts(blocks, s, i, a, under);
    SkipCounts(blocks + [x.b], x.t.st, i.els == [], s.next + 1, CheckSeq(inner, i.thn, start).value, below);
    JoinCounts([Before(i, under + |a.ops|)], SeqPoints(inner, i.thn, start, below),
               if i.els == [] then [] else EndOfArm(CheckSeq(inner, i.thn, start), below),
               SeqPoints(inner, i.els, start, below), Lines(test), Lines(x.t.code), Lines(x.skip), Lines(x.e.code));
  }

  lemma LinesConditional(n: nat, test: seq<Item>, thn: seq<Item>, skip: seq<Item>, els: seq<Item>)
    ensures Lines(ConditionalCode(n, test, thn, skip, els)) == Lines(test) + Lines(thn) + Lines(skip) + Lines(els)
  {
    hide Lines;
    var (start, else_, end) := ([Label(n + 2)], [Label(n)], [Label(n + 1)]);
    LabelLines(n);
    LabelLines(n + 1);
    LabelLines(n + 2);
    LinesAppend(test, start);
    LinesAppend(test + start, thn);
    LinesAppend(test + start + thn, skip);
    LinesAppend(test + start + thn + skip, else_);
    LinesAppend(test + start + thn + skip + else_, els);
    LinesAppend(test + start + thn + skip + else_ + els, end);
  }

  lemma LabelLines(n: nat)
    ensures Lines([Label(n)]) == []
  {
  }

  lemma TestCounts(blocks: seq<BlockContext>, s: Compiling, i: Instr, a: Operands, under: int)
    requires blocks != [] && InStep(blocks, s, a, under) && !a.dead && i.IfElse?
    ensures Corresponds([Before(i, under + |a.ops|)], Lines(One(blocks, s, JumpIfNot(s.next, 0, 0))))
  {
    var test := One(blocks, s, JumpIfNot(s.next, 0, 0));
    assert test[1..] == [] && Lines(test) == [test[0].line];
  }

  lemma SkipCounts(inner: seq<BlockContext>, s: Compiling, none: bool, end: nat, a: Operands, under: int)
    requires |inner| > 1 && InStep(inner, s, a, under)
    ensures var skip := if none then [] else One(inner[..|inner| - 1], s, Jump(end, 0, 0));
            Corresponds(if none then [] else EndOfArm(Some(a), under), Lines(skip))
  {
    var skip := One(inner[..|inner| - 1], s, Jump(end, 0, 0));
    assert skip[1..] == [] && inner[..|inner| - 1][0] == inner[0];
    assert Lines(skip) == if s.dead then [] else [skip[0].line];
  }

  lemma JoinCounts(p: seq<Point>, q: seq<Point>, r: seq<Point>, t: seq<Point>,
                   a: seq<Line>, b: seq<Line>, c: seq<Line>, d: seq<Line>)
    requires Corresponds(p, a) && Corresponds(q, b) && Corresponds(r, c) && Corresponds(t, d)
    ensures Corresponds(p + q + r + t, a + b + c + d)
  {
    hide Corresponds;
    CorrespondsAppend(p, q, a, b);
    CorrespondsAppend(p + q, r, a + b, c);
    CorrespondsAppend(p + q + r, t, a + b + c, d);
  }

  /** The operations that are not behind an unconditional transfer are, one by one,
      those of the validator's points, with the numbers counted there. */
  lemma FunctionCounts(m: Module, f: Function, base: nat)
    requires CheckFunction(m, f)
    ensures Corresponds(FunctionPoints(m, f), Lines(LowerFunction(m, f, base).code))
  {
    hide CheckSeq, SeqPoints, LowerSeq, Corresponds;
    var ft := FuncTypeAt(m.types, f.typeIndex).value;
    var c := WithLabel(FunctionContext(m, f, ft), ft.results);
    assert Push(Operands([], false), []) == Operands([], false);
    BodyChecked(FunctionContext(m, f, ft), ft.results, FunctionType([], ft.results), f.body);
    var blocks := [BlockContext(FunctionBlock, |ft.params|, |ft.results|, 0, 1)];
    var s := Compiling(|ft.params|, 0, 2, base, [], false);
    SeqCounts(c, blocks, s, f.body, Operands([], false), 0);
    var code := LowerSeq(m, blocks, s, f.body).code;
    var end := [Label(1), Emitted(Line(ReturnOp, |ft.results|))];
    assert LowerFunction(m, f, base).code == [Label(0)] + code + end;
    LinesAppend([Label(0)] + code, end);
    LinesAppend([Label(0)], code);
    EndCounts(|ft.results|);
    assert Lines([Label(0)]) + Lines(code) == Lines(code);
    CorrespondsAppend(SeqPoints(c, f.body, Operands([], false), 0), [End(|ft.results|)], Lines(code), Lines(end));
  }

  lemma EndCounts(n: nat)
    ensures Lines([Label(0)]) == []
    ensures var end := [Label(1), Emitted(Line(ReturnOp, n))]; Corresponds([End(n)], Lines(end))
  {
    var end := [Label(1), Emitted(Line(ReturnOp, n))];
    assert end[1..] == [Emitted(Line(ReturnOp, n))] && end[1..][1..] == [];
  }

  // ----- where a run stands -----

  /** The optimized code's operation at position `pc` is the original's at item
      `a`, or its fusion with the operation after it. */
  ghost predicate StandsAt(e: Emission, pc: nat, a: nat) {
    exists b: nat :: Stands(e, pc, a, b)
  }

  ghost predicate Stands(e: Emission, pc: nat, a: nat, b: nat) {
    && a < |e.code| && e.code[a].Emitted? && b < |Optimized(e)| && Pos(Optimized(e), b) == pc
    && (Unfused(e, a, b) || exists a2: nat :: Fused(e, a, b, a2))
  }

  /** What the machine fetches there, with the number recorded for the original. */
  lemma StandsLine(e: Emission, pc: nat, a: nat)
    requires StandsAt(e, pc, a)
    ensures var lines := Assemble(Optimized(e), Optimized(e));
            a < |e.code| && e.code[a].Emitted? && pc < |lines| && lines[pc].at == e.code[a].line.at
  {
    hide Optimized;
    var b: nat :| Stands(e, pc, a, b);
    AssembleAt(Optimized(e), b);
  }

  /** A state of a run whose top frame has its code, and what the next step checks. */
  ghost predicate Standing(env: Env, c: Config) {
    && c.frames != []
    && var f := TopFrame(c);
    && f.mi < |env.insts| && f.fi < |env.insts[f.mi].mod.functions|
    && var e := EmissionOf(env.insts[f.mi].mod, f.fi);
    && (exists a: nat :: StandsAt(e, f.pc, a))
    && (forall a: nat :: StandsAt(e, f.pc, a) ==>
          a < |e.code| && e.code[a].Emitted? && Height(c) == e.code[a].line.at && e.code[a].line.at >= 0)
  }

  lemma RunStands(env: Env, n: nat, low: seq<Raw>, addr: nat, args: seq<Raw>, w: World)
    requires Callable(env, addr, args, w)
    ensures var r := RunCall(env, Compiled(env, true), n, low, addr, args, w);
            r.Next? && r.c.frames != [] ==> Standing(env, r.c)
  {
    hide RunCall, Callable, Compiled, Step, EmissionOf, Optimized, StandsAt, PcSync, Assemble;
    var r := RunCall(env, Compiled(env, true), n, low, addr, args, w);
    if r.Next? && r.c.frames != [] {
      NextNotWrong(env, n, low, addr, args, w);
      var m := OptimizedRun(env, n, low, addr, args, w);
      UnfusedNeverWrong(env, m, low, addr, args, w);
      StandsSomewhere(env, r.c, RunCall(env, Compiled(env, false), m, low, addr, args, w).c);
      StepChecks(env, r.c);
    }
  }

  lemma StandsSomewhere(env: Env, c1: Config, c0: Config)
    requires Rel(env, c1, c0) && c1.frames != [] && Step(env, Compiled(env, true), c1) != Wrong
    ensures var f := TopFrame(c1);
            && f.mi < |env.insts| && f.fi < |env.insts[f.mi].mod.functions|
            && exists a: nat :: StandsAt(EmissionOf(env.insts[f.mi].mod, f.fi), f.pc, a)
  {
    hide Exec, EmissionOf, Compiled, Optimized, Sync, Assemble;
    var (f1, f0) := (TopFrame(c1), TopFrame(c0));
    assert FrameRel(env, f1, f0);
    var e := EmissionOf(env.insts[f0.mi].mod, f0.fi);
    var a, b :| PcSync(e, a, b, f0.pc, f1.pc);
    CompiledAt(env, true, f1.mi, f1.fi);
    var a1, b1 := SyncNext(e, a, b);
    AssemblePrefix(Optimized(e), b1, |Optimized(e)|);
    assert Optimized(e)[..|Optimized(e)|] == Optimized(e);
    if a1 == |e.code| { assert false; }
    var a2 := SyncOp(e, a1, b1);
    assert Stands(e, f1.pc, a1, b1);
    assert StandsAt(e, f1.pc, a1);
  }

  lemma StepChecks(env: Env, c: Config)
    requires c.frames != [] && Step(env, Compiled(env, true), c) != Wrong
    requires TopFrame(c).mi < |env.insts| && TopFrame(c).fi < |env.insts[TopFrame(c).mi].mod.functions|
    ensures var f := TopFrame(c);
            var e := EmissionOf(env.insts[f.mi].mod, f.fi);
            forall a: nat :: StandsAt(e, f.pc, a) ==>
              a < |e.code| && e.code[a].Emitted? && Height(c) == e.code[a].line.at && e.code[a].line.at >= 0
  {
    hide Exec, EmissionOf, Compiled, StandsAt, Optimized, Assemble;
    var f := TopFrame(c);
    var e := EmissionOf(env.insts[f.mi].mod, f.fi);
    CompiledAt(env, true, f.mi, f.fi);
    forall a: nat | StandsAt(e, f.pc, a)
      ensures a < |e.code| && e.code[a].Emitted? && Height(c) == e.code[a].line.at && e.code[a].line.at >= 0
    {
      StandsLine(e, f.pc, a);
    }
  }

  // ----- the main results -----

  /** The run stands at item `a` of its function, in code that lowering emitted
      from a dead state. */
  ghost predicate InDeadCode(env: Env, c: Config, blocks: seq<BlockContext>, s: Compiling, body: seq<Instr>,
                             at: nat, a: nat)
  {
    && c.frames != [] && blocks != [] && s.dead
    && var f := TopFrame(c);
    && f.mi < |env.insts| && f.fi < |env.insts[f.mi].mod.functions|
    && var m := env.insts[f.mi].mod;
    && IsPlaced(EmissionOf(m, f.fi).code, at, LowerSeq(m, blocks, s, body).code, a)
    && StandsAt(EmissionOf(m, f.fi), f.pc, a)
  }

  /** `part` stands at item `at` of the code, and item `a` is in it. */
  ghost predicate IsPlaced(code: seq<Item>, at: nat, part: seq<Item>, a: nat) {
    at + |part| <= |code| && code[at..at + |part|] == part && at <= a < at + |part|
  }

  lemma PlacedUnrecorded(code: seq<Item>, at: nat, part: seq<Item>, a: nat)
    requires IsPlaced(code, at, part, a) && Unrecorded(part)
    ensures code[a].Emitted? ==> code[a].line.at == -1
  {
    assert code[at..at + |part|][a - at] == code[a];
  }

  /** Code behind an unconditional transfer is never entered, blocks in it and what
      follows them included: no run stands at any operation of it. */
  lemma DeadCodeNeverEntered(env: Env, n: nat, low: seq<Raw>, addr: nat, args: seq<Raw>, w: World,
                             blocks: seq<BlockContext>, s: Compiling, body: seq<Instr>, at: nat, a: nat)
    requires Callable(env, addr, args, w)
    ensures var r := RunCall(env, Compiled(env, true), n, low, addr, args, w);
            r.Next? ==> !InDeadCode(env, r.c, blocks, s, body, at, a)
  {
    hide RunCall, Callable, Compiled, EmissionOf, StandsAt, LowerSeq, IsPlaced, Unrecorded;
    var r := RunCall(env, Compiled(env, true), n, low, addr, args, w);
    if r.Next? && InDeadCode(env, r.c, blocks, s, body, at, a) {
      var f := TopFrame(r.c);
      var m := env.insts[f.mi].mod;
      RunStands(env, n, low, addr, args, w);
      DeadSeq(m, blocks, s, body);
      PlacedUnrecorded(EmissionOf(m, f.fi).code, at, LowerSeq(m, blocks, s, body).code, a);
    }
  }

  /** At item `a` of the running function the machine's operands, the compiler's
      height less the arguments, and the validator's count at the instruction that
      the operation implements are the same number. */
  ghost predicate ThreeAgree(env: Env, c: Config, a: nat) {
    && c.frames != []
    && var f := TopFrame(c);
    && f.mi < |env.insts| && f.fi < |env.insts[f.mi].mod.functions|
    && var m := env.insts[f.mi].mod;
    var (code, points) := (EmissionOf(m, f.fi).code, FunctionPoints(m, m.functions[f.fi]));
    && a < |code| && code[a].Emitted? && Height(c) == code[a].line.at
    && var j := |Lines(code[..a])|;
    j < |points| && points[j].n == Height(c) && Implements(points[j], code[a].line.op)
  }

  lemma LineAt(code: seq<Item>, a: nat)
    requires a < |code| && code[a].Emitted? && code[a].line.at >= 0
    ensures var j := |Lines(code[..a])|; j < |Lines(code)| && Lines(code)[j] == code[a].line
  {
    LinesAppend(code[..a], code[a..]);
    assert code[..a] + code[a..] == code;
  }

  /** The three heights agree wherever a run is, and it is somewhere. */
  lemma ThreeHeights(env: Env, n: nat, low: seq<Raw>, addr: nat, args: seq<Raw>, w: World)
    requires Callable(env, addr, args, w)
    ensures var r := RunCall(env, Compiled(env, true), n, low, addr, args, w);
            r.Next? && r.c.frames != [] ==> AgreesWherever(env, r.c)
  {
    hide RunCall, Compiled, EmissionOf, StandsAt, Linked, WorldOk, HeightsFit, CheckFunction, FunctionPoints;
    hide ThreeAgree;
    var r := RunCall(env, Compiled(env, true), n, low, addr, args, w);
    if r.Next? && r.c.frames != [] {
      RunStands(env, n, low, addr, args, w);
      var f := TopFrame(r.c);
      var m := env.insts[f.mi].mod;
      var e := EmissionOf(m, f.fi);
      assert CheckModule(m) && CheckFunction(m, m.functions[f.fi]);
      forall a: nat | StandsAt(e, f.pc, a) ensures ThreeAgree(env, r.c, a) {
        PointAt(env, r.c, a);
      }
    }
  }

  ghost predicate AgreesWherever(env: Env, c: Config) {
    && c.frames != []
    && var f := TopFrame(c);
    && f.mi < |env.insts| && f.fi < |env.insts[f.mi].mod.functions|
    && var e := EmissionOf(env.insts[f.mi].mod, f.fi);
    && (exists a: nat :: StandsAt(e, f.pc, a))
    && (forall a: nat :: StandsAt(e, f.pc, a) ==> ThreeAgree(env, c, a))
  }

  lemma PointAt(env: Env, c: Config, a: nat)
    requires Standing(env, c) && StandsAt(EmissionOf(env.insts[TopFrame(c).mi].mod, TopFrame(c).fi), TopFrame(c).pc, a)
    requires var m := env.insts[TopFrame(c).mi].mod; CheckFunction(m, m.functions[TopFrame(c).fi])
    ensures ThreeAgree(env, c, a)
  {
    hide StandsAt, LowerFunctions, LowerFunction, CheckFunction, FunctionPoints, Lines, Implements;
    var f := TopFrame(c);
    var m := env.insts[f.mi].mod;
    LowerFunctionsAt(m, |m.functions|, f.fi);
    FunctionCounts(m, m.functions[f.fi], TableCount(LowerFunctions(m, |m.functions|)[..f.fi]));
    var (code, points) := (EmissionOf(m, f.fi).code, FunctionPoints(m, m.functions[f.fi]));
    LineAt(code, a);
    var j := |Lines(code[..a])|;
    assert Meets(points[j], Lines(code)[j]);
  }
}
