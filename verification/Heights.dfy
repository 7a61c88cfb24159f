/** The validator's count of operands and the compiler's static height are the
    same at every point of a body that is not after an unconditional transfer.
    `Reached` adds the runtime's height, and that nothing else is ever entered. */
module Heights {
  import opened Wasm
  import opened Runtime
  import opened Validation
  import opened Lowering
  import opened LoweringFacts
  import opened Simulation

  /** What both passes know at a point: `under` operands of the enclosing blocks
      lie below those of the current block, and the compiler's heights count the
      function's arguments as well. */
  ghost predicate SameHeight(blocks: seq<BlockContext>, s: Compiling, a: Operands, under: nat)
    requires blocks != []
  {
    !a.dead ==> s.height == blocks[0].entry + under + |a.ops|
  }

  /** The two agree at every point of a sequence and of the blocks in it. */
  ghost predicate SeqAgrees(c: Context, blocks: seq<BlockContext>, s: Compiling, body: seq<Instr>, a: Operands,
                            under: nat)
    requires blocks != []
    decreases body, 0
  {
    && SameHeight(blocks, s, a, under)
    && (body != [] ==>
          && InstrAgrees(c, blocks, s, body[0], a, under)
          && (Check(c, body[0], a).Some? ==>
                SeqAgrees(c, blocks, Lower(c.m, blocks, s, body[0]).st, body[1..], Check(c, body[0], a).value, under)))
  }

  ghost predicate InstrAgrees(c: Context, blocks: seq<BlockContext>, s: Compiling, i: Instr, a: Operands, under: nat)
    requires blocks != []
    decreases i, 1
  {
    !a.dead && Structured(i) && BlockFuncType(c.m, i.bt).Some? ==>
      var ft := BlockFuncType(c.m, i.bt).value;
      var start := Push(Operands([], false), ft.params);
      match i
      case Block(_, body) =>
        |ft.params| <= |a.ops| &&
        SeqAgrees(WithLabel(c, ft.results), blocks + [BodyContext(s, i, ft)], s.(next := s.next + 2), body, start, under + |a.ops| - |ft.params|)
      case Loop(_, body) =>
        |ft.params| <= |a.ops| &&
        SeqAgrees(WithLabel(c, ft.params), blocks + [BodyContext(s, i, ft)], s.(next := s.next + 2), body, start, under + |a.ops| - |ft.params|)
      case IfElse(_, thn, els) =>
        |ft.params| + 1 <= |a.ops| &&
        var (inner, s1) := (blocks + [ArmContext(s, ft)], s.(height := s.height - 1, next := s.next + 3));
        && SeqAgrees(WithLabel(c, ft.results), inner, s1, thn, start, under + |a.ops| - 1 - |ft.params|)
        && SeqAgrees(WithLabel(c, ft.results), inner, LowerSeq(c.m, inner, s1, thn).st.(height := s.height - 1, dead := s.dead), els, start,
                     under + |a.ops| - 1 - |ft.params|)
  }

  function ArmContext(s: Compiling, ft: FunctionType): BlockContext {
    BlockContext(IfElseBlock, s.height - 1 - |ft.params|, |ft.results|, s.next + 2, s.next + 1)
  }

  lemma {:induction false} SeqHeights(c: Context, blocks: seq<BlockContext>, s: Compiling, body: seq<Instr>,
                                      a: Operands, under: nat)
    requires blocks != [] && blocks[0].entry >= 0 && CheckSeq(c, body, a).Some? && SameHeight(blocks, s, a, under)
    ensures SeqAgrees(c, blocks, s, body, a, under)
    decreases body, 0
  {
    hide Check, Lower, InstrAgrees;
    if body != [] {
      InstrHeights(c, blocks, s, body[0], a, under);
      NextHeight(c, blocks, s, body[0], a, under);
      SeqHeights(c, blocks, Lower(c.m, blocks, s, body[0]).st, body[1..], Check(c, body[0], a).value, under);
    }
  }

  lemma {:induction false} InstrHeights(c: Context, blocks: seq<BlockContext>, s: Compiling, i: Instr, a: Operands,
                                        under: nat)
    requires blocks != [] && blocks[0].entry >= 0 && Check(c, i, a).Some? && SameHeight(blocks, s, a, under)
    ensures InstrAgrees(c, blocks, s, i, a, under)
    decreases i, 1
  {
    hide CheckSeq;
    if !a.dead && (i.Block? || i.Loop?) {
      BlockTyped(c, i, a);
      var ft := BlockFuncType(c.m, i.bt).value;
      BodyChecked(c, LabelOf(i, ft), ft, i.body);
      SeqHeights(WithLabel(c, LabelOf(i, ft)), blocks + [BodyContext(s, i, ft)], s.(next := s.next + 2), i.body,
                 Push(Operands([], false), ft.params), under + |a.ops| - |ft.params|);
    } else if !a.dead && i.IfElse? {
      ConditionalTyped(c, i, a);
      var ft := BlockFuncType(c.m, i.bt).value;
      BodyChecked(c, ft.results, ft, i.thn);
      BodyChecked(c, ft.results, ft, i.els);
      var (inner, s1) := (blocks + [ArmContext(s, ft)], s.(height := s.height - 1, next := s.next + 3));
      SeqHeights(WithLabel(c, ft.results), inner, s1, i.thn, Push(Operands([], false), ft.params), under + |a.ops| - 1 - |ft.params|);
      SeqHeights(WithLabel(c, ft.results), inner, LowerSeq(c.m, inner, s1, i.thn).st.(height := s.height - 1, dead := s.dead), i.els,
                 Push(Operands([], false), ft.params), under + |a.ops| - 1 - |ft.params|);
    }
  }

  /** One instruction moves both counts alike, or makes what follows dead. */
  lemma NextHeight(c: Context, blocks: seq<BlockContext>, s: Compiling, i: Instr, a: Operands, under: nat)
    requires blocks != [] && blocks[0].entry >= 0 && Check(c, i, a).Some? && SameHeight(blocks, s, a, under)
    ensures SameHeight(blocks, Lower(c.m, blocks, s, i).st, Check(c, i, a).value, under)
  {
    hide CheckSeq, LowerSeq, CheckTable, CheckBody;
    var types := c.m.types;
    if a.dead {
      DeadStays(c, i, a);
    } else {
      match i
      case Plain(l) => LeafCounts(c, l, a);
      case Block(_, _) => BlockTyped(c, i, a); BlockHeight(c.m, blocks, s, i);
      case Loop(_, _) => BlockTyped(c, i, a); BlockHeight(c.m, blocks, s, i);
      case IfElse(_, _, _) => ConditionalTyped(c, i, a); ConditionalHeight(c.m, blocks, s, i);
      case BrIf(k) => ApplyLive(types, a, LabelTypes(c, k).value + [I32], LabelTypes(c, k).value);
      case Call(f) =>
        var ft := CalleeType(c.m, f).value;
        ApplyLive(types, a, ft.params, ft.results);
      case CallIndirect(ty, table) =>
        var (ft, at) := IndirectType(c.m, ty, table).value;
        ApplyLive(types, a, ft.params + [at], ft.results);
      case _ =>
    }
  }

  lemma BlockHeight(m: Module, blocks: seq<BlockContext>, s: Compiling, i: Instr)
    requires blocks != [] && (i.Block? || i.Loop?)
    ensures var (p, r) := BlockSig(m, i.bt); Lower(m, blocks, s, i).st.height == EntryHeight(s.height, p) + r
  {
    hide LowerSeq;
    var (p, r) := BlockSig(m, i.bt);
    assert LowerStructured(m, blocks, s, i) == LowerBlock(m, blocks, s, KindOf(i), p, r, if i.Loop? then p else r, i.body);
  }

  lemma ConditionalHeight(m: Module, blocks: seq<BlockContext>, s: Compiling, i: Instr)
    requires blocks != [] && i.IfElse? && s.height != UNREACHABLE_DEPTH
    ensures var (p, r) := BlockSig(m, i.bt); Lower(m, blocks, s, i).st.height == EntryHeight(s.height - 1, p) + r
  {
    hide LowerSeq;
    assert LowerStructured(m, blocks, s, i) == LowerConditional(m, blocks, s, i);
  }

  lemma {:induction false} PopAllDead(types: seq<SubType>, a: Operands, expected: seq<ValueType>)
    requires a.dead
    ensures var r := PopAll(types, a, expected); r.Some? ==> r.value.1.dead
    decreases |expected|
  {
    if expected != [] {
      var r := PopExpect(types, a, expected[|expected| - 1]);
      if r.Some? { PopAllDead(types, r.value.1, expected[..|expected| - 1]); }
    }
  }

  lemma ApplyDead(types: seq<SubType>, a: Operands)
    requires a.dead
    ensures forall params: seq<ValueType>, results: seq<ValueType> ::
              var r := Apply(types, a, params, results); r.Some? ==> r.value.dead
  {
    forall params: seq<ValueType>, results: seq<ValueType>
      ensures var r := Apply(types, a, params, results); r.Some? ==> r.value.dead
    {
      PopAllDead(types, a, params);
    }
  }

  /** After an unconditional transfer the rest of the sequence stays dead. */
  lemma DeadStays(c: Context, i: Instr, a: Operands)
    requires a.dead && Check(c, i, a).Some?
    ensures Check(c, i, a).value.dead
  {
    hide CheckTable, PopAll, CheckBody, Apply;
    ApplyDead(c.m.types, a);
  }

  /** The heights of the validator and of the compiler agree throughout every
      function that validates. */
  lemma FunctionHeights(m: Module, f: Function, base: nat)
    requires CheckFunction(m, f)
    ensures var ft := FuncTypeAt(m.types, f.typeIndex).value;
            SeqAgrees(WithLabel(FunctionContext(m, f, ft), ft.results), [BlockContext(FunctionBlock, |ft.params|, |ft.results|, 0, 1)],
                      Compiling(|ft.params|, 0, 2, base, [], false), f.body, Operands([], false), 0)
  {
    hide CheckSeq, SeqAgrees;
    var ft := FuncTypeAt(m.types, f.typeIndex).value;
    var c := FunctionContext(m, f, ft);
    assert Push(Operands([], false), []) == Operands([], false);
    BodyChecked(c, ft.results, FunctionType([], ft.results), f.body);
    SeqHeights(WithLabel(c, ft.results), [BlockContext(FunctionBlock, |ft.params|, |ft.results|, 0, 1)],
               Compiling(|ft.params|, 0, 2, base, [], false), f.body, Operands([], false), 0);
  }
}
