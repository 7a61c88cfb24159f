/** Properties of lowered and assembled code that do not depend on running it. */
module LoweringFacts {
  import opened Wasm
  import opened Ir
  import opened Lowering

  // ----- labels and heights of emitted code -----

  ghost predicate LabelsIn(code: seq<Item>, lo: nat, hi: nat) {
    forall i :: 0 <= i < |code| && code[i].Label? ==> lo <= code[i].id < hi
  }

  ghost predicate DistinctLabels(code: seq<Item>) {
    forall i, j :: 0 <= i < j < |code| && code[i].Label? && code[j].Label? ==> code[i].id != code[j].id
  }

  ghost predicate HeightsAtMost(code: seq<Item>, max: int) {
    forall i :: 0 <= i < |code| && code[i].Emitted? ==> code[i].line.at <= max
  }

  /** Branch tables named by the code are those filled while it was emitted. */
  ghost predicate TablesIn(code: seq<Item>, lo: nat, hi: nat) {
    forall i :: 0 <= i < |code| && code[i].Emitted? && code[i].line.op.JumpTable? ==> lo <= code[i].line.op.index < hi
  }

  /** The current height has been counted in the maximum, unless no instruction
      has raised it above the arguments yet. */
  ghost predicate Counted(s: Compiling, args: int) {
    s.max >= 0 && s.height <= Max(s.max, args)
  }

  /** What every emission keeps: labels are new and distinct, tables are only
      appended, and the maximum only grows. */
  ghost predicate Emits(s: Compiling, e: Emission) {
    && s.next <= e.st.next && s.base == e.st.base && s.tables <= e.st.tables && s.max <= e.st.max
    && LabelsIn(e.code, s.next, e.st.next) && DistinctLabels(e.code)
    && TablesIn(e.code, s.base + |s.tables|, s.base + |e.st.tables|)
  }

  /** The maximum bounds every height recorded in the emitted code. */
  ghost predicate Bounds(s: Compiling, e: Emission, args: int) {
    args >= 0 && Counted(s, args) ==> HeightsAtMost(e.code, e.st.max) && Counted(e.st, args)
  }

  /** The same, before the height that an instruction leaves has been counted. */
  ghost predicate BoundsCode(s: Compiling, e: Emission, args: int) {
    args >= 0 && Counted(s, args) ==> HeightsAtMost(e.code, e.st.max) && e.st.max >= 0
  }

  lemma EmitsThen(s: Compiling, a: Emission, b: Emission, args: int)
    requires Emits(s, a) && Emits(a.st, b) && Bounds(s, a, args) && Bounds(a.st, b, args)
    ensures var ab := Emission(a.code + b.code, b.st); Emits(s, ab) && Bounds(s, ab, args)
  {
  }

  lemma {:induction false} LowerSeqEmits(m: Module, blocks: seq<BlockContext>, s: Compiling, body: seq<Instr>)
    requires blocks != []
    ensures var e := LowerSeq(m, blocks, s, body); Emits(s, e) && Bounds(s, e, blocks[0].entry)
    decreases body, 0
  {
    if body != [] {
      LowerEmits(m, blocks, s, body[0]);
      var e := Lower(m, blocks, s, body[0]);
      LowerSeqEmits(m, blocks, e.st, body[1..]);
      EmitsThen(s, e, LowerSeq(m, blocks, e.st, body[1..]), blocks[0].entry);
    }
  }

  lemma {:induction false} LowerEmits(m: Module, blocks: seq<BlockContext>, s: Compiling, i: Instr)
    requires blocks != []
    ensures var e := Lower(m, blocks, s, i); Emits(s, e) && Bounds(s, e, blocks[0].entry)
    decreases i, 2
  {
    if Structured(i) {
      StructuredEmits(m, blocks, s, i);
    }
  }

  lemma {:induction false} StructuredEmits(m: Module, blocks: seq<BlockContext>, s: Compiling, i: Instr)
    requires blocks != [] && Structured(i)
    ensures var e := LowerStructured(m, blocks, s, i); Emits(s, e) && BoundsCode(s, e, blocks[0].entry)
    decreases i, 1
  {
    var (p, r) := BlockSig(m, i.bt);
    match i
    case Block(_, body) => BlockEmits(m, blocks, s, PlainBlock, p, r, r, body);
    case Loop(_, body) => BlockEmits(m, blocks, s, LoopBlock, p, r, p, body);
    case IfElse(_, _, _) => ConditionalEmits(m, blocks, s, i);
  }

  /** The labels of a conditional, around two pieces of code with later labels. */
  lemma ConditionalLabels(n: nat, test: Line, thn: seq<Item>, skip: seq<Item>, els: seq<Item>, mid: nat, hi: nat)
    requires DistinctLabels(thn) && LabelsIn(thn, n + 3, mid) && n + 3 <= mid <= hi
    requires DistinctLabels(els) && LabelsIn(els, mid, hi)
    requires forall k :: 0 <= k < |skip| ==> skip[k].Emitted?
    ensures var code := ConditionalCode(n, [Emitted(test)], thn, skip, els);
            DistinctLabels(code) && LabelsIn(code, n, hi)
  {
    hide DistinctLabels, LabelsIn, NoLabel;
    var a := [Emitted(test)] + [Label(n + 2)];
    StartLabels(n, test);
    JoinLabels(a, thn, n + 2, n + 3, n + 3, mid);
    OutOfRange(a + thn, n + 2, mid, n + 1);
    JoinOps(a + thn, skip, n + 2, mid, n + 1);
    var b := a + thn + skip;
    OneLabel(n);
    JoinLabels(b, [Label(n)], n + 2, mid, n, n + 1);
    OutOfRange([Label(n)], n, n + 1, n + 1);
    JoinAbsent(b, [Label(n)], n + 1);
    var c := b + [Label(n)];
    JoinLabels(c, els, n, mid, mid, hi);
    OutOfRange(els, mid, hi, n + 1);
    JoinAbsent(c, els, n + 1);
    LastLabel(c + els, n, hi, n + 1);
    assert ConditionalCode(n, [Emitted(test)], thn, skip, els) == c + els + [Label(n + 1)];
  }

  ghost predicate NoLabel(code: seq<Item>, id: nat) {
    forall k :: 0 <= k < |code| && code[k].Label? ==> code[k].id != id
  }

  lemma StartLabels(n: nat, test: Line)
    ensures var a := [Emitted(test)] + [Label(n + 2)]; DistinctLabels(a) && LabelsIn(a, n + 2, n + 3)
  {
  }

  lemma EmptyLabels(n: nat)
    ensures DistinctLabels([]) && LabelsIn([], n, n)
  {
  }

  lemma OneLabel(n: nat)
    ensures DistinctLabels([Label(n)]) && LabelsIn([Label(n)], n, n + 1)
  {
  }

  /** Code with labels from disjoint ranges has distinct labels. */
  lemma JoinLabels(a: seq<Item>, b: seq<Item>, la: nat, ha: nat, lb: nat, hb: nat)
    requires DistinctLabels(a) && LabelsIn(a, la, ha) && DistinctLabels(b) && LabelsIn(b, lb, hb)
    requires (ha <= lb || hb <= la) && la <= ha && lb <= hb
    ensures DistinctLabels(a + b) && LabelsIn(a + b, if la < lb then la else lb, if ha < hb then hb else ha)
  {
  }

  lemma JoinOps(a: seq<Item>, ops: seq<Item>, la: nat, ha: nat, id: nat)
    requires DistinctLabels(a) && LabelsIn(a, la, ha) && NoLabel(a, id) && forall k :: 0 <= k < |ops| ==> ops[k].Emitted?
    ensures DistinctLabels(a + ops) && LabelsIn(a + ops, la, ha) && NoLabel(a + ops, id)
  {
  }

  lemma OutOfRange(code: seq<Item>, lo: nat, hi: nat, id: nat)
    requires LabelsIn(code, lo, hi) && (id < lo || hi <= id)
    ensures NoLabel(code, id)
  {
  }

  lemma JoinAbsent(a: seq<Item>, b: seq<Item>, id: nat)
    requires NoLabel(a, id) && NoLabel(b, id)
    ensures NoLabel(a + b, id)
  {
  }

  lemma LastLabel(code: seq<Item>, lo: nat, hi: nat, id: nat)
    requires DistinctLabels(code) && LabelsIn(code, lo, hi) && lo <= id < hi && NoLabel(code, id)
    ensures DistinctLabels(code + [Label(id)]) && LabelsIn(code + [Label(id)], lo, hi)
  {
  }

  lemma ConditionalTables(n: nat, test: seq<Item>, thn: seq<Item>, skip: seq<Item>, els: seq<Item>, lo: nat, hi: nat)
    requires TablesIn(test, lo, hi) && TablesIn(thn, lo, hi) && TablesIn(skip, lo, hi) && TablesIn(els, lo, hi)
    ensures TablesIn(ConditionalCode(n, test, thn, skip, els), lo, hi)
  {
  }

  lemma ConditionalHeights(n: nat, test: seq<Item>, thn: seq<Item>, skip: seq<Item>, els: seq<Item>, max: int)
    requires HeightsAtMost(test, max) && HeightsAtMost(thn, max) && HeightsAtMost(skip, max) && HeightsAtMost(els, max)
    ensures HeightsAtMost(ConditionalCode(n, test, thn, skip, els), max)
  {
  }

  lemma {:induction false} ConditionalEmits(m: Module, blocks: seq<BlockContext>, s: Compiling, i: Instr)
    requires blocks != [] && i.IfElse?
    ensures var e := LowerConditional(m, blocks, s, i); Emits(s, e) && BoundsCode(s, e, blocks[0].entry)
    decreases i, 0
  {
    hide LowerSeq, DistinctLabels, LabelsIn, ConditionalCode;
    var (p, r) := BlockSig(m, i.bt);
    var height := if s.height != UNREACHABLE_DEPTH then s.height - 1 else s.height;
    var inner := blocks + [BlockContext(IfElseBlock, EntryHeight(height, p), r, s.next + 2, s.next + 1)];
    var s1 := s.(height := height, next := s.next + 3);
    LowerSeqEmits(m, inner, s1, i.thn);
    var t := LowerSeq(m, inner, s1, i.thn);
    var test := One(blocks, s, JumpIfNot(s.next, 0, 0));
    var counted := blocks[0].entry >= 0 && Counted(s, blocks[0].entry);
    if i.els == [] {
      EmptyLabels(t.st.next);
      ConditionalLabels(s.next, test[0].line, t.code, [], [], t.st.next, t.st.next);
      ConditionalTables(s.next, test, t.code, [], [], s.base + |s.tables|, s.base + |t.st.tables|);
      if counted { ConditionalHeights(s.next, test, t.code, [], [], t.st.max); }
    } else {
      var s2 := t.st.(height := height, dead := s.dead);
      LowerSeqEmits(m, inner, s2, i.els);
      var e := LowerSeq(m, inner, s2, i.els);
      var skip := One(blocks, t.st, Jump(s.next + 1, 0, 0));
      ConditionalLabels(s.next, test[0].line, t.code, skip, e.code, t.st.next, e.st.next);
      ConditionalTables(s.next, test, t.code, skip, e.code, s.base + |s.tables|, s.base + |e.st.tables|);
      if counted { ConditionalHeights(s.next, test, t.code, skip, e.code, e.st.max); }
    }
  }

  lemma BlockLabels(n: nat, body: seq<Item>, hi: nat, max: int, lo: nat, end: nat)
    requires DistinctLabels(body) && LabelsIn(body, n + 2, hi) && n + 2 <= hi && TablesIn(body, lo, end)
    ensures var code := [Label(n)] + body + [Label(n + 1)];
            && DistinctLabels(code) && LabelsIn(code, n, hi) && TablesIn(code, lo, end)
            && (HeightsAtMost(body, max) ==> HeightsAtMost(code, max))
  {
  }

  lemma {:induction false} BlockEmits(m: Module, blocks: seq<BlockContext>, s: Compiling, kind: BlockKind,
                                      params: nat, results: nat, arity: nat, body: seq<Instr>)
    requires blocks != []
    ensures var e := LowerBlock(m, blocks, s, kind, params, results, arity, body);
            Emits(s, e) && BoundsCode(s, e, blocks[0].entry)
    decreases body, 1
  {
    hide LowerSeq, DistinctLabels, LabelsIn, TablesIn, HeightsAtMost;
    var inner := blocks + [BlockContext(kind, EntryHeight(s.height, params), arity, s.next, s.next + 1)];
    LowerSeqEmits(m, inner, s.(next := s.next + 2), body);
    var e := LowerSeq(m, inner, s.(next := s.next + 2), body);
    BlockLabels(s.next, e.code, e.st.next, e.st.max, s.base + |s.tables|, s.base + |e.st.tables|);
  }

  /** A function's labels are distinct, and every height recorded before the
      final return is within the function's maximum. */
  lemma LowerFunctionEmits(m: Module, f: Function, base: nat)
    ensures var e := LowerFunction(m, f, base);
            && DistinctLabels(e.code)
            && LabelsIn(e.code, 0, e.st.next)
            && HeightsAtMost(e.code[..|e.code| - 1], e.st.max)
            && Counted(e.st, TypeSig(m.types, f.typeIndex).0)
            && e.st.base == base && TablesIn(e.code, base, base + |e.st.tables|)
  {
    var (p, r) := TypeSig(m.types, f.typeIndex);
    var blocks := [BlockContext(FunctionBlock, p, r, 0, 1)];
    LowerSeqEmits(m, blocks, Compiling(p, 0, 2, base, [], false), f.body);
    var e := LowerSeq(m, blocks, Compiling(p, 0, 2, base, [], false), f.body);
    var code := LowerFunction(m, f, base).code;
    assert code[..|code| - 1] == [Label(0)] + e.code + [Label(1)];
  }

  // ----- positions in assembled code -----

  /** The position of the first operation at or after item `a`. */
  function Pos(code: seq<Item>, a: nat): nat
    requires a <= |code|
  {
    OpCount(code[..a])
  }

  lemma PosNext(code: seq<Item>, a: nat)
    requires a < |code|
    ensures Pos(code, a + 1) == Pos(code, a) + (if code[a].Emitted? then 1 else 0)
  {
    assert code[..a + 1][..a] == code[..a];
  }

  lemma {:induction false} AssemblePrefix(code: seq<Item>, a: nat, b: nat)
    requires a <= b <= |code|
    ensures |Assemble(code, code[..a])| == Pos(code, a)
    ensures Assemble(code, code[..a]) <= Assemble(code, code[..b])
    decreases b
  {
    if a < b {
      AssemblePrefix(code, a, b - 1);
      assert code[..b][..b - 1] == code[..b - 1];
    } else if a > 0 {
      AssemblePrefix(code, a - 1, a - 1);
      assert code[..a][..a - 1] == code[..a - 1];
    }
  }

  /** Assembly puts each operation at its position, with its target resolved. */
  lemma AssembleAt(code: seq<Item>, a: nat)
    requires a < |code| && code[a].Emitted?
    ensures var lines := Assemble(code, code);
            Pos(code, a) < |lines| && lines[Pos(code, a)] == Line(ResolveOp(code, code[a].line.op), code[a].line.at)
  {
    PosNext(code, a);
    AssemblePrefix(code, a, a + 1);
    AssemblePrefix(code, a + 1, |code|);
    assert code[..|code|] == code && code[..a + 1][..a] == code[..a];
  }

  /** A label that occurs once resolves to the position of the item after it. */
  lemma {:induction false} LabelResolves(code: seq<Item>, a: nat)
    requires a < |code| && code[a].Label? && DistinctLabels(code)
    ensures LabelPosition(code, code[a].id) == Pos(code, a) == Pos(code, a + 1)
  {
    PosNext(code, a);
    var n := |code| - 1;
    if a == n {
      assert code[..n] == code[..a];
    } else {
      assert code[n] != Label(code[a].id);
      LabelResolves(code[..n], a);
      assert code[..n][..a] == code[..a];
    }
  }
}
