/** The compiler as the source runs it: a state that each instruction updates,
    and passes that rewrite the emitted code (src/compiler.rs). Every method is
    proved to compute what the functions of `Lowering` say. */
module Compiler {
  import opened Wasm
  import opened Ir
  import opened Lowering
  import opened LoweringFacts

  // ----- labels that jumps name -----

  ghost predicate BlocksBelow(blocks: seq<BlockContext>, hi: nat) {
    forall i :: 0 <= i < |blocks| ==> blocks[i].start < hi && blocks[i].end < hi
  }

  ghost predicate TargetsBelow(code: seq<Item>, hi: nat) {
    forall i :: 0 <= i < |code| && code[i].Emitted? && JumpTarget(code[i].line.op).Some? ==> JumpTarget(code[i].line.op).value < hi
  }

  ghost predicate EntriesBelow(tables: seq<seq<JumpTableEntry>>, hi: nat) {
    forall t, i :: 0 <= t < |tables| && 0 <= i < |tables[t]| ==> tables[t][i].target < hi
  }

  /** Whatever is emitted jumps only to labels that were handed out. */
  ghost predicate Closed(e: Emission) {
    TargetsBelow(e.code, e.st.next) && EntriesBelow(e.st.tables, e.st.next)
  }

  ghost predicate Open(blocks: seq<BlockContext>, s: Compiling) {
    blocks != [] && BlocksBelow(blocks, s.next) && EntriesBelow(s.tables, s.next)
  }

  lemma {:induction false} SeqCloses(m: Module, blocks: seq<BlockContext>, s: Compiling, body: seq<Instr>)
    requires Open(blocks, s)
    ensures Closed(LowerSeq(m, blocks, s, body)) && s.next <= LowerSeq(m, blocks, s, body).st.next
    decreases body, 0
  {
    hide Lower;
    if body != [] {
      Closes(m, blocks, s, body[0]);
      SeqCloses(m, blocks, Lower(m, blocks, s, body[0]).st, body[1..]);
    }
  }

  lemma {:induction false} Closes(m: Module, blocks: seq<BlockContext>, s: Compiling, i: Instr)
    requires Open(blocks, s)
    ensures Closed(Lower(m, blocks, s, i)) && s.next <= Lower(m, blocks, s, i).st.next
    decreases i, 1
  {
    if Structured(i) {
      var (p, r) := BlockSig(m, i.bt);
      match i
      case Block(_, body) => BlockCloses(m, blocks, s, PlainBlock, p, r, r, body);
      case Loop(_, body) => BlockCloses(m, blocks, s, LoopBlock, p, r, p, body);
      case IfElse(_, _, _) => ConditionalCloses(m, blocks, s, i);
    }
  }

  lemma {:induction false} BlockCloses(m: Module, blocks: seq<BlockContext>, s: Compiling, kind: BlockKind,
                                       params: nat, results: nat, arity: nat, body: seq<Instr>)
    requires Open(blocks, s)
    ensures var e := LowerBlock(m, blocks, s, kind, params, results, arity, body); Closed(e) && s.next <= e.st.next
    decreases body, 1
  {
    hide LowerSeq;
    SeqCloses(m, blocks + [BlockContext(kind, EntryHeight(s.height, params), arity, s.next, s.next + 1)], s.(next := s.next + 2), body);
  }

  lemma {:induction false} ConditionalCloses(m: Module, blocks: seq<BlockContext>, s: Compiling, i: Instr)
    requires Open(blocks, s) && i.IfElse?
    ensures var e := LowerConditional(m, blocks, s, i); Closed(e) && s.next <= e.st.next
    decreases i, 0
  {
    hide LowerSeq;
    var (p, r) := BlockSig(m, i.bt);
    var height := if s.height != UNREACHABLE_DEPTH then s.height - 1 else s.height;
    var inner := blocks + [BlockContext(IfElseBlock, EntryHeight(height, p), r, s.next + 2, s.next + 1)];
    var s1 := s.(height := height, next := s.next + 3);
    SeqCloses(m, inner, s1, i.thn);
    var t := LowerSeq(m, inner, s1, i.thn);
    if i.els != [] { SeqCloses(m, inner, t.st.(height := height, dead := s.dead), i.els); }
  }

  lemma FunctionCloses(m: Module, f: Function, base: nat)
    ensures Closed(LowerFunction(m, f, base))
  {
    hide LowerSeq;
    var (p, r) := TypeSig(m.types, f.typeIndex);
    SeqCloses(m, [BlockContext(FunctionBlock, p, r, 0, 1)], Compiling(p, 0, 2, base, [], false), f.body);
  }

  lemma ConditionalJoins(ops: seq<Item>, n: nat, test: seq<Item>, thn: seq<Item>, skip: seq<Item>, els: seq<Item>)
    ensures ops + test + [Label(n + 2)] + thn + skip + [Label(n)] + els + [Label(n + 1)] == ops + ConditionalCode(n, test, thn, skip, els)
    ensures skip == els == [] ==>
              ops + test + [Label(n + 2)] + thn + [Label(n)] + [Label(n + 1)] == ops + ConditionalCode(n, test, thn, skip, els)
  {
  }

  // ----- the compiler -----

  class Compiler {
    const m: Module
    var ops: seq<Item>
    var blockStack: seq<BlockContext>
    var stackHeight: int
    var maxStackHeight: int
    var nextLabel: nat
    const jumpTableBase: nat
    var jumpTables: seq<seq<JumpTableEntry>>
    /** Not in the source: what `Lowering.Compiling` keeps about dead code. */
    var dead: bool

    /** A compiler for one function, given the branch tables of earlier ones. */
    constructor (m: Module, jumpTables: seq<seq<JumpTableEntry>>)
      ensures Valid() && this.m == m && ops == [] && blockStack == []
      ensures this.jumpTables == jumpTables && jumpTableBase == |jumpTables|
      ensures stackHeight == maxStackHeight == nextLabel == 0 && !dead
    {
      this.m, this.jumpTables := m, jumpTables;
      ops, blockStack := [], [];
      stackHeight, maxStackHeight, nextLabel := 0, 0, 0;
      jumpTableBase := |jumpTables|;
      dead := false;
    }

    ghost predicate Valid()
      reads this
    {
      jumpTableBase <= |jumpTables|
    }

    /** The state that lowering threads through: tables of this function only. */
    ghost function State(): Compiling
      requires Valid()
      reads this
    {
      Compiling(stackHeight, maxStackHeight, nextLabel, jumpTableBase, jumpTables[jumpTableBase..], dead)
    }

    /** From `old` values of the code and of the tables, `e` was emitted. */
    ghost predicate Appended(ops0: seq<Item>, tables0: seq<seq<JumpTableEntry>>, blocks0: seq<BlockContext>,
                             e: Emission)
      requires Valid() && jumpTableBase <= |tables0|
      reads this
    {
      && ops == ops0 + e.code && State() == e.st
      && blockStack == blocks0 && jumpTables[..jumpTableBase] == tables0[..jumpTableBase]
    }

    method NextLabel() returns (id: nat)
      modifies this`nextLabel
      ensures id == old(nextLabel) && nextLabel == id + 1
    {
      id := nextLabel;
      nextLabel := nextLabel + 1;
    }

    method EmitLabel(id: nat)
      modifies this`ops
      ensures ops == old(ops) + [Label(id)]
    {
      ops := ops + [Label(id)];
    }

    /** Appends an operation; `height` is the static height before it runs. */
    method Emit(op: Op, height: int)
      requires blockStack != []
      modifies this`ops
      ensures ops == old(ops) + [Emitted(Line(op, Recorded(blockStack, height, dead)))]
    {
      ops := ops + [Emitted(Line(op, Recorded(blockStack, height, dead)))];
    }

    /** A jump to the label `depth` blocks out, with the counts that keep the
        label's values and discard the rest. */
    method EmitBranch(depth: nat, conditional: bool, height: int)
      requires blockStack != []
      modifies this`ops
      ensures var b := BlockAt(blockStack, depth);
              var keep := ToU16(b.arity);
              var drop := Drop16(stackHeight, b, keep);
              ops == old(ops) + [Emitted(Line(if conditional then JumpIf(BranchTarget(b), keep, drop) else Jump(BranchTarget(b), keep, drop),
                                              Recorded(blockStack, height, dead)))]
    {
      var ctx := BlockAt(blockStack, depth);
      var keep := ToU16(ctx.arity);
      var drop := ToU16(stackHeight - ctx.entry - keep);
      var target := if ctx.kind == LoopBlock then ctx.start else ctx.end;
      if conditional {
        Emit(JumpIf(target, keep, drop), height);
      } else {
        Emit(Jump(target, keep, drop), height);
      }
    }

    /** Compiles the instructions of a body one after the other. */
    method CompileAll(body: seq<Instr>)
      requires Valid() && blockStack != []
      modifies this`ops, this`blockStack, this`stackHeight, this`maxStackHeight, this`nextLabel, this`jumpTables, this`dead
      ensures Valid()
      ensures Appended(old(ops), old(jumpTables), old(blockStack), LowerSeq(m, old(blockStack), old(State()), body))
      decreases body, 0
    {
      ghost var total := LowerSeq(m, blockStack, State(), body);
      for k := 0 to |body|
        invariant Valid() && blockStack == old(blockStack) && jumpTables[..jumpTableBase] == old(jumpTables)[..jumpTableBase]
        invariant var rest := LowerSeq(m, blockStack, State(), body[k..]);
                  ops + rest.code == old(ops) + total.code && rest.st == total.st
      {
        hide Lower;
        ghost var (s, before) := (State(), ops);
        assert body[k..][0] == body[k] && body[k..][1..] == body[k + 1..];
        CompileInstruction(body[k]);
        ghost var e := Lower(m, blockStack, s, body[k]);
        ghost var rest := LowerSeq(m, blockStack, e.st, body[k + 1..]);
        assert before + (e.code + rest.code) == before + e.code + rest.code;
      }
      assert body[|body|..] == [];
    }

    /** Compiles a block: its label, its body in a context of its own, its end. */
    method CompileBlock(kind: BlockKind, params: nat, results: nat, arity: nat, body: seq<Instr>)
      requires Valid() && blockStack != []
      modifies this`ops, this`blockStack, this`stackHeight, this`maxStackHeight, this`nextLabel, this`jumpTables, this`dead
      ensures Valid()
      ensures Appended(old(ops), old(jumpTables), old(blockStack),
                       LowerBlock(m, old(blockStack), old(State()), kind, params, results, arity, body))
      decreases body, 1
    {
      hide LowerSeq;
      var wasDead := dead;
      var entry := if stackHeight != UNREACHABLE_DEPTH then stackHeight - params else 0;
      var startLabel := NextLabel();
      var endLabel := NextLabel();
      EmitLabel(startLabel);
      blockStack := blockStack + [BlockContext(kind, entry, arity, startLabel, endLabel)];
      CompileAll(body);
      blockStack := blockStack[..|blockStack| - 1];
      EmitLabel(endLabel);
      stackHeight := entry + results;
      dead := wasDead;
    }

    /** The part of a conditional after its first arm: a jump over the second arm
        when there is one, and the second arm's label. */
    method CompileElse(els: seq<Instr>, elseLabel: nat, endLabel: nat, savedHeight: int, wasDead: bool)
      requires Valid() && |blockStack| >= 1
      modifies this`ops, this`blockStack, this`stackHeight, this`maxStackHeight, this`nextLabel, this`jumpTables, this`dead
      ensures Valid() && blockStack == old(blockStack)
      ensures jumpTables[..jumpTableBase] == old(jumpTables)[..jumpTableBase]
      ensures els == [] ==> ops == old(ops) + [Label(elseLabel)] && State() == old(State())
      ensures els != [] ==>
                var e := LowerSeq(m, old(blockStack), old(State()).(height := savedHeight, dead := wasDead), els);
                && ops == old(ops) + One(old(blockStack), old(State()), Jump(endLabel, 0, 0)) + [Label(elseLabel)] + e.code
                && State() == e.st
      decreases els, 1
    {
      if els == [] {
        EmitLabel(elseLabel);
      } else {
        Emit(Jump(endLabel, 0, 0), stackHeight);
        EmitLabel(elseLabel);
        stackHeight, dead := savedHeight, wasDead;
        CompileAll(els);
      }
    }

    /** The part before a conditional's first arm: the test, and the block that
        both arms are compiled in. */
    method EnterConditional(bt: BlockType) returns (entry: int, results: nat, elseLabel: nat, endLabel: nat)
      requires Valid() && blockStack != []
      modifies this`ops, this`blockStack, this`stackHeight, this`nextLabel
      ensures Valid()
      ensures stackHeight == if old(stackHeight) != UNREACHABLE_DEPTH then old(stackHeight) - 1 else old(stackHeight)
      ensures entry == EntryHeight(stackHeight, BlockSig(m, bt).0) && results == BlockSig(m, bt).1
      ensures elseLabel == old(nextLabel) && endLabel == elseLabel + 1 && nextLabel == elseLabel + 3
      ensures blockStack == old(blockStack) + [BlockContext(IfElseBlock, entry, results, elseLabel + 2, endLabel)]
      ensures ops == old(ops) + One(old(blockStack), old(State()), JumpIfNot(elseLabel, 0, 0)) + [Label(elseLabel + 2)]
    {
      var height := stackHeight;
      if stackHeight != UNREACHABLE_DEPTH {
        stackHeight := stackHeight - 1;
      }
      var params;
      params, results := BlockSig(m, bt).0, BlockSig(m, bt).1;
      entry := if stackHeight != UNREACHABLE_DEPTH then stackHeight - params else 0;
      elseLabel := NextLabel();
      endLabel := NextLabel();
      Emit(JumpIfNot(elseLabel, 0, 0), height);
      var startLabel := NextLabel();
      EmitLabel(startLabel);
      blockStack := blockStack + [BlockContext(IfElseBlock, entry, results, startLabel, endLabel)];
    }

    method CompileConditional(i: Instr)
      requires Valid() && blockStack != [] && i.IfElse?
      modifies this`ops, this`blockStack, this`stackHeight, this`maxStackHeight, this`nextLabel, this`jumpTables, this`dead
      ensures Valid()
      ensures Appended(old(ops), old(jumpTables), old(blockStack), LowerConditional(m, old(blockStack), old(State()), i))
      decreases i, 0
    {
      hide LowerSeq, ConditionalCode, BlockSig;
      ghost var (s0, blocks, ops0) := (State(), blockStack, ops);
      var entry, results, elseLabel, endLabel := EnterConditional(i.bt);
      var (savedHeight, wasDead) := (stackHeight, dead);
      ghost var (inner, s1) := (blockStack, State());
      CompileAll(i.thn);
      ghost var t := LowerSeq(m, inner, s1, i.thn);
      CompileElse(i.els, elseLabel, endLabel, savedHeight, wasDead);
      blockStack := blockStack[..|blockStack| - 1];
      EmitLabel(endLabel);
      stackHeight, dead := entry + results, wasDead;
      ghost var skip := if i.els == [] then [] else One(blocks, t.st, Jump(endLabel, 0, 0));
      ghost var els := if i.els == [] then [] else LowerSeq(m, inner, t.st.(height := savedHeight, dead := wasDead), i.els).code;
      ConditionalJoins(ops0, s0.next, One(blocks, s0, JumpIfNot(elseLabel, 0, 0)), t.code, skip, els);
    }

    /** Compiles one instruction; after an unconditional transfer only structured
        instructions are compiled. */
    method CompileInstruction(i: Instr)
      requires Valid() && blockStack != []
      modifies this`ops, this`blockStack, this`stackHeight, this`maxStackHeight, this`nextLabel, this`jumpTables, this`dead
      ensures Valid()
      ensures Appended(old(ops), old(jumpTables), old(blockStack), Lower(m, old(blockStack), old(State()), i))
      decreases i, 2
    {
      hide LowerBlock, LowerConditional, LowerSimple, BlockSig;
      if stackHeight == UNREACHABLE_DEPTH && !Structured(i) {
        return;
      }
      match i {
        case Block(bt, body) =>
          var (params, results) := BlockSig(m, bt);
          CompileBlock(PlainBlock, params, results, results, body);
        case Loop(bt, body) =>
          var (params, results) := BlockSig(m, bt);
          CompileBlock(LoopBlock, params, results, params, body);
        case IfElse(_, _, _) => CompileConditional(i);
        case _ => CompileSimple(i);
      }
      if maxStackHeight < stackHeight {
        maxStackHeight := stackHeight;
      }
    }

    method CompileSimple(i: Instr)
      requires Valid() && blockStack != [] && !Structured(i)
      modifies this`ops, this`stackHeight, this`jumpTables, this`dead
      ensures Valid()
      ensures Appended(old(ops), old(jumpTables), old(blockStack), LowerSimple(m, old(blockStack), old(State()), i))
    {
      var height := stackHeight;
      match i {
        case Plain(l) =>
          Emit(LeafOp(LowerLeaf(l)), height);
          stackHeight := stackHeight + LeafDelta(l);
        case Unreachable =>
          Emit(UnreachableOp, height);
          stackHeight, dead := UNREACHABLE_DEPTH, true;
        case Br(depth) =>
          EmitBranch(depth, false, height);
          stackHeight, dead := UNREACHABLE_DEPTH, true;
        case BrIf(depth) =>
          stackHeight := stackHeight - 1;
          EmitBranch(depth, true, height);
        case BrTable(labels, default) => CompileTable(labels, default);
        case Return =>
          Emit(ReturnOp, height);
          stackHeight, dead := UNREACHABLE_DEPTH, true;
        case Call(func) =>
          var (params, results) := CallSig(m, func);
          Emit(CallOp(func), height);
          stackHeight := stackHeight - params;
          stackHeight := stackHeight + results;
        case CallIndirect(ty, table) =>
          var (params, results) := TypeSig(m.types, ty);
          stackHeight := stackHeight - 1;
          Emit(CallIndirectOp(ty, table), height);
          stackHeight := stackHeight - params;
          stackHeight := stackHeight + results;
        case ReturnCall(func) =>
          Emit(ReturnCallOp(func), height);
          stackHeight, dead := UNREACHABLE_DEPTH, true;
        case ReturnCallIndirect(ty, table) =>
          Emit(ReturnCallIndirectOp(ty, table), height);
          stackHeight, dead := UNREACHABLE_DEPTH, true;
      }
    }

    method CompileTable(labels: seq<nat>, default: nat)
      requires Valid() && blockStack != []
      modifies this`ops, this`stackHeight, this`jumpTables, this`dead
      ensures Valid()
      ensures Appended(old(ops), old(jumpTables), old(blockStack), LowerSimple(m, old(blockStack), old(State()), BrTable(labels, default)))
    {
      var height := stackHeight;
      stackHeight := stackHeight - 1;
      var keep := ToU16(BlockAt(blockStack, default).arity);
      var all := labels + [default];
      var entries: seq<JumpTableEntry> := [];
      for k := 0 to |all|
        invariant entries == Entries(blockStack, stackHeight, keep, all)[..k]
      {
        var ctx := BlockAt(blockStack, all[k]);
        var drop := ToU16(stackHeight - ctx.entry - keep);
        var target := if ctx.kind == LoopBlock then ctx.start else ctx.end;
        entries := entries + [JumpTableEntry(target, drop)];
      }
      assert Entries(blockStack, stackHeight, keep, all)[..|all|] == Entries(blockStack, stackHeight, keep, all);
      var index := |jumpTables|;
      jumpTables := jumpTables + [entries];
      assert jumpTables[jumpTableBase..] == old(jumpTables)[jumpTableBase..] + [entries];
      Emit(JumpTable(index, keep), height);
      stackHeight, dead := UNREACHABLE_DEPTH, true;
    }

    // ----- passes over the emitted code -----

    /** The labels of this function are the ids handed out, and its tables hold
        only such labels. */
    ghost predicate Labelled()
      requires Valid()
      reads this
    {
      && LabelsIn(ops, 0, nextLabel) && TargetsBelow(ops, nextLabel)
      && EntriesBelow(jumpTables[jumpTableBase..], nextLabel)
    }

    /** Removes the labels that nothing jumps to. */
    method StripDeadLabels()
      requires Valid() && Labelled()
      modifies this`ops
      ensures ops == StripLabels(old(ops), LiveLabels(old(ops), jumpTables[jumpTableBase..], nextLabel))
    {
      var tables := jumpTables[jumpTableBase..];
      var live := new bool[nextLabel](_ => false);
      for k := 0 to |ops|
        modifies live
        invariant forall id :: 0 <= id < nextLabel ==> (live[id] <==> Targeted(ops[..k], [], id))
      {
        var target := if ops[k].Emitted? then JumpTarget(ops[k].line.op) else None;
        TargetedNext(ops, k);
        if target.Some? {
          live[target.value] := true;
        }
      }
      assert ops[..|ops|] == ops;
      for t := 0 to |tables|
        modifies live
        invariant forall id :: 0 <= id < nextLabel ==> (live[id] <==> Targeted(ops, tables[..t], id))
      {
        for e := 0 to |tables[t]|
          modifies live
          invariant forall id :: 0 <= id < nextLabel ==>
                      (live[id] <==> Targeted(ops, tables[..t], id) || InEntries(tables[t][..e], id))
        {
          live[tables[t][e].target] := true;
        }
        assert tables[t][..|tables[t]|] == tables[t];
        TargetedTable(ops, tables, t);
      }
      assert tables[..|tables|] == tables;
      Retain(live);
      assert LiveLabels(old(ops), tables, nextLabel) == set id | 0 <= id < nextLabel && live[id];
    }

    /** Keeps the operations and the labels marked live. */
    method Retain(live: array<bool>)
      requires live.Length == nextLabel && LabelsIn(ops, 0, nextLabel)
      modifies this`ops
      ensures ops == StripLabels(old(ops), set id | 0 <= id < nextLabel && live[id])
    {
      ghost var marked := set id | 0 <= id < nextLabel && live[id];
      var out: seq<Item> := [];
      for k := 0 to |ops|
        modifies {}
        invariant out + StripLabels(ops[k..], marked) == StripLabels(ops, marked)
      {
        assert ops[k..][0] == ops[k] && ops[k..][1..] == ops[k + 1..];
        if ops[k].Emitted? || live[ops[k].id] {
          assert out + ([ops[k]] + StripLabels(ops[k + 1..], marked)) == out + [ops[k]] + StripLabels(ops[k + 1..], marked);
          out := out + [ops[k]];
        }
      }
      assert ops[|ops|..] == [] && out + [] == out;
      ops := out;
      assert marked == set id | 0 <= id < nextLabel && live[id];
    }

    /** Replaces adjacent pairs by fused operations, from left to right. */
    method FuseAdjacent()
      modifies this`ops
      ensures ops == FuseOps(old(ops))
    {
      var out: seq<Item> := [];
      var i := 0;
      while i < |ops|
        modifies {}
        invariant 0 <= i <= |ops|
        invariant out + FuseOps(ops[i..]) == FuseOps(ops)
      {
        hide FusedOp;
        var (x, rest) := (ops[i], ops[i..]);
        assert rest[0] == x && rest[1..] == ops[i + 1..];
        var pair := if i + 1 < |ops| && x.Emitted? && ops[i + 1].Emitted? then FusedOp(x.line.op, ops[i + 1].line.op) else None;
        if pair.Some? {
          assert rest[1] == ops[i + 1] && rest[2..] == ops[i + 2..];
          FusesTwo(out, rest);
          out := out + [Emitted(Line(pair.value, x.line.at))];
          i := i + 2;
        } else {
          FusesNone(out, rest);
          out := out + [x];
          i := i + 1;
        }
      }
      assert ops[|ops|..] == [] && out + [] == out;
      ops := out;
    }

    /** Drops the labels, resolving jumps and this function's branch tables to
        positions. */
    method Assemble() returns (out: seq<Line>)
      requires Valid() && Labelled()
      modifies this`ops, this`jumpTables
      ensures Valid() && out == Lowering.Assemble(old(ops), old(ops))
      ensures jumpTables == old(jumpTables)[..jumpTableBase] + ResolveTables(old(ops), old(jumpTables)[jumpTableBase..])
    {
      var positions := FindLabels();
      out := [];
      for k := 0 to |ops|
        modifies {}
        invariant out == Lowering.Assemble(ops, ops[..k])
      {
        assert ops[..k + 1][..k] == ops[..k];
        if ops[k].Emitted? {
          var (op, at) := (ops[k].line.op, ops[k].line.at);
          var target := JumpTarget(op);
          out := out + [Line(if target.Some? then Retarget(op, positions[target.value]) else op, at)];
        }
      }
      assert ops[..|ops|] == ops;
      ResolveJumpTables(positions);
      ops := [];
    }

    /** Where each label stands: the position of the operation after it. */
    method FindLabels() returns (positions: array<nat>)
      requires LabelsIn(ops, 0, nextLabel)
      ensures fresh(positions) && positions.Length == nextLabel
      ensures forall id :: 0 <= id < nextLabel ==> positions[id] == LabelPosition(ops, id)
    {
      positions := new nat[nextLabel](_ => 0);
      var pos := 0;
      for k := 0 to |ops|
        invariant pos == OpCount(ops[..k])
        invariant forall id :: 0 <= id < nextLabel ==> positions[id] == LabelPosition(ops[..k], id)
      {
        assert ops[..k + 1][..k] == ops[..k];
        match ops[k] {
          case Label(id) => positions[id] := pos;
          case Emitted(_) => pos := pos + 1;
        }
      }
      assert ops[..|ops|] == ops;
    }

    method ResolveJumpTables(positions: array<nat>)
      requires Valid() && EntriesBelow(jumpTables[jumpTableBase..], nextLabel)
      requires positions.Length == nextLabel && forall id :: 0 <= id < nextLabel ==> positions[id] == LabelPosition(ops, id)
      modifies this`jumpTables
      ensures Valid()
      ensures jumpTables == old(jumpTables)[..jumpTableBase] + ResolveTables(ops, old(jumpTables)[jumpTableBase..])
    {
      ghost var tables := jumpTables;
      var t := jumpTableBase;
      while t < |jumpTables|
        invariant jumpTableBase <= t <= |jumpTables| == |tables|
        invariant forall i :: 0 <= i < |tables| && !(jumpTableBase <= i < t) ==> jumpTables[i] == tables[i]
        invariant forall i :: jumpTableBase <= i < t ==> jumpTables[i] == ResolveTable(ops, tables[i])
      {
        var table := jumpTables[t];
        assert tables[jumpTableBase..][t - jumpTableBase] == table;
        var resolved: seq<JumpTableEntry> := [];
        for e := 0 to |table|
          invariant resolved == ResolveTable(ops, table)[..e]
        {
          resolved := resolved + [table[e].(target := positions[table[e].target])];
        }
        jumpTables := jumpTables[t := resolved];
        t := t + 1;
      }
      assert jumpTables[jumpTableBase..] == ResolveTables(ops, tables[jumpTableBase..]);
      assert jumpTables == jumpTables[..jumpTableBase] + jumpTables[jumpTableBase..];
    }

    // ----- whole functions -----

    /** Emits a function's labelled code. */
    method CompileBody(f: Function)
      requires Valid() && ops == [] && blockStack == [] && stackHeight == maxStackHeight == nextLabel == 0
      requires |jumpTables| == jumpTableBase && !dead
      modifies this
      ensures Valid() && jumpTables[..jumpTableBase] == old(jumpTables)
      ensures var e := LowerFunction(m, f, jumpTableBase); ops == e.code && State() == e.st
    {
      hide LowerSeq;
      var sig := TypeSig(m.types, f.typeIndex);
      var startLabel := NextLabel();
      var endLabel := NextLabel();
      stackHeight := sig.0;
      EmitLabel(startLabel);
      blockStack := [BlockContext(FunctionBlock, sig.0, sig.1, startLabel, endLabel)];
      assert jumpTables[jumpTableBase..] == [];
      CompileAll(f.body);
      blockStack := [];
      EmitLabel(endLabel);
      ops := ops + [Emitted(Line(ReturnOp, sig.1))];
      assert ops == LowerFunction(m, f, jumpTableBase).code;
    }

    /** Compiles one function. The branch tables of earlier functions stay as they
        are; those of this one are resolved once. */
    method CompileFunction(f: Function) returns (cf: CompiledFunction)
      requires Valid() && ops == [] && blockStack == [] && stackHeight == maxStackHeight == nextLabel == 0
      requires |jumpTables| == jumpTableBase && !dead
      modifies this
      ensures var e := LowerFunction(m, f, jumpTableBase);
              && cf == FinishFunction(Optimized(e), e, f)
              && jumpTables == old(jumpTables) + ResolveTables(Optimized(e), e.st.tables)
    {
      hide LowerFunction, FuseOps, StripLabels, Lowering.Assemble;
      ghost var e := LowerFunction(m, f, jumpTableBase);
      CompileBody(f);
      FunctionLabelled(m, f, jumpTableBase);
      StripDeadLabels();
      FuseAdjacent();
      assert ops == Optimized(e);
      var lines := Assemble();
      cf := CompiledFunction(lines, f.locals, maxStackHeight);
    }
  }

  // ----- what the passes keep -----

  lemma {:induction false} StripKeeps(code: seq<Item>, live: set<nat>, hi: nat)
    requires LabelsIn(code, 0, hi) && TargetsBelow(code, hi)
    ensures LabelsIn(StripLabels(code, live), 0, hi) && TargetsBelow(StripLabels(code, live), hi)
  {
    if code != [] {
      assert forall i :: 0 <= i < |code| - 1 ==> code[1..][i] == code[i + 1];
      StripKeeps(code[1..], live, hi);
    }
  }

  lemma {:induction false} FuseKeeps(code: seq<Item>, hi: nat)
    requires LabelsIn(code, 0, hi) && TargetsBelow(code, hi)
    ensures LabelsIn(FuseOps(code), 0, hi) && TargetsBelow(FuseOps(code), hi)
    decreases |code|
  {
    if code != [] {
      var n := if FusesAtStart(code) then 2 else 1;
      assert forall i :: 0 <= i < |code| - n ==> code[n..][i] == code[i + n];
      FuseKeeps(code[n..], hi);
      if FusesAtStart(code) { FusedTarget(code[0].line.op, code[1].line.op); }
    }
  }

  lemma FusedTarget(a: Op, b: Op)
    requires FusedOp(a, b).Some?
    ensures JumpTarget(FusedOp(a, b).value) == JumpTarget(b)
  {
  }

  /** All that the passes ask of the labels of a lowered function. */
  lemma FunctionLabelled(m: Module, f: Function, base: nat)
    ensures var e := LowerFunction(m, f, base);
            && LabelsIn(e.code, 0, e.st.next) && TargetsBelow(e.code, e.st.next) && EntriesBelow(e.st.tables, e.st.next)
            && LabelsIn(Optimized(e), 0, e.st.next) && TargetsBelow(Optimized(e), e.st.next)
  {
    hide LowerFunction, StripLabels, FuseOps;
    var e := LowerFunction(m, f, base);
    var live := LiveLabels(e.code, e.st.tables, e.st.next);
    LowerFunctionEmits(m, f, base);
    FunctionCloses(m, f, base);
    StripKeeps(e.code, live, e.st.next);
    FuseKeeps(StripLabels(e.code, live), e.st.next);
  }

  predicate InEntries(table: seq<JumpTableEntry>, id: nat) {
    exists e :: 0 <= e < |table| && table[e].target == id
  }

  lemma TargetedNext(ops: seq<Item>, k: nat)
    requires k < |ops|
    ensures forall id: nat ::
              Targeted(ops[..k + 1], [], id) <==>
              Targeted(ops[..k], [], id) || (ops[k].Emitted? && JumpTarget(ops[k].line.op) == Some(id))
  {
    forall id: nat
      ensures Targeted(ops[..k + 1], [], id) <==>
              Targeted(ops[..k], [], id) || (ops[k].Emitted? && JumpTarget(ops[k].line.op) == Some(id))
    {
      var a, b := ops[..k], ops[..k + 1];
      assert b[k] == ops[k] && forall i :: 0 <= i < k ==> b[i] == a[i];
    }
  }

  lemma TargetedTable(ops: seq<Item>, tables: seq<seq<JumpTableEntry>>, t: nat)
    requires t < |tables|
    ensures forall id: nat ::
              Targeted(ops, tables[..t + 1], id) <==> Targeted(ops, tables[..t], id) || InEntries(tables[t], id)
  {
    forall id: nat
      ensures Targeted(ops, tables[..t + 1], id) <==> Targeted(ops, tables[..t], id) || InEntries(tables[t], id)
    {
      var a, b := tables[..t], tables[..t + 1];
      assert b[t] == tables[t] && forall i :: 0 <= i < t ==> b[i] == a[i];
      if InEntries(tables[t], id) {
        var e :| 0 <= e < |tables[t]| && tables[t][e].target == id;
        assert b[t][e].target == id;
      }
    }
  }

  lemma FusesTwo(out: seq<Item>, rest: seq<Item>)
    requires FusesAtStart(rest)
    ensures out + FuseOps(rest) ==
            out + [Emitted(Line(FusedOp(rest[0].line.op, rest[1].line.op).value, rest[0].line.at))] + FuseOps(rest[2..])
  {
    hide FusedOp;
  }

  lemma FusesNone(out: seq<Item>, rest: seq<Item>)
    requires rest != [] && !FusesAtStart(rest)
    ensures out + FuseOps(rest) == out + [rest[0]] + FuseOps(rest[1..])
  {
    hide FusedOp;
  }

  /** Compiles a module's functions one after the other; branch tables are handed
      from each compiler to the next. */
  method Compile(m: Module) returns (code: ModuleCode)
    ensures code == CompileModule(m, true)
  {
    hide LowerFunction, Optimized, FinishFunction, ModuleTables, TableCount, LowerFunctions;
    var funcs: seq<CompiledFunction> := [];
    var jumpTables: seq<seq<JumpTableEntry>> := [];
    ghost var all := LowerFunctions(m, |m.functions|);
    NoTables();
    for k := 0 to |m.functions|
      invariant |all| == |m.functions| && |funcs| == k
      invariant forall i :: 0 <= i < k ==> funcs[i] == FinishFunction(Optimized(all[i]), all[i], m.functions[i])
      invariant jumpTables == ModuleTables(all[..k], true) && |jumpTables| == TableCount(all[..k])
    {
      var compiler := new Compiler(m, jumpTables);
      var cf := compiler.CompileFunction(m.functions[k]);
      LoweredAt(m, k);
      TablesNext(all, k);
      funcs := funcs + [cf];
      jumpTables := compiler.jumpTables;
    }
    assert all[..|m.functions|] == all;
    code := ModuleCode(funcs, jumpTables);
  }

  lemma NoTables()
    ensures ModuleTables([], true) == [] && TableCount([]) == 0
  {
  }

  lemma {:induction false} LoweredPrefix(m: Module, n: nat, k: nat)
    requires k <= n <= |m.functions|
    ensures LowerFunctions(m, n)[..k] == LowerFunctions(m, k)
  {
    hide LowerFunction;
    if k < n {
      LoweredPrefix(m, n - 1, k);
      assert LowerFunctions(m, n)[..k] == LowerFunctions(m, n - 1)[..k];
    }
  }

  lemma LoweredAt(m: Module, k: nat)
    requires k < |m.functions|
    ensures var all := LowerFunctions(m, |m.functions|);
            && all[..k + 1] == LowerFunctions(m, k + 1)
            && all[k] == LowerFunction(m, m.functions[k], TableCount(all[..k]))
  {
    hide LowerFunction;
    LoweredPrefix(m, |m.functions|, k + 1);
    LoweredPrefix(m, |m.functions|, k);
    assert LowerFunctions(m, |m.functions|)[k] == LowerFunctions(m, |m.functions|)[..k + 1][k];
  }

  lemma TablesNext(es: seq<Emission>, k: nat)
    requires k < |es|
    ensures ModuleTables(es[..k + 1], true) == ModuleTables(es[..k], true) + ResolveTables(Optimized(es[k]), es[k].st.tables)
    ensures TableCount(es[..k + 1]) == TableCount(es[..k]) + |es[k].st.tables|
  {
    hide Optimized;
    assert es[..k + 1][..k] == es[..k];
  }
}
