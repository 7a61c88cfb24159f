/** Running assembled code does what the structured semantics says, from every
    state in which validation and lowering agree about the operand stack. */
module Simulation {
  import opened Wasm
  import opened Runtime
  import opened Reference
  import opened Ir
  import opened Machine
  import opened Validation
  import opened Lowering
  import opened LoweringFacts
  import opened Steps

  // ----- what is assumed of a program -----

  ghost predicate Memory32(m: Module) {
    forall x :: 0 <= x < |m.mems| ==> !m.mems[x]
  }

  /** Linked instances of modules that validate and use 32-bit memories. */
  ghost predicate ValidProgram(env: Env) {
    && Linked(env)
    && forall mi :: 0 <= mi < |env.insts| ==> CheckModule(env.insts[mi].mod) && Memory32(env.insts[mi].mod)
  }

  // ----- leaf instructions in reachable code -----

  lemma ApplyLive(types: seq<SubType>, a: Operands, params: seq<ValueType>, results: seq<ValueType>)
    requires !a.dead && Apply(types, a, params, results).Some?
    ensures var a' := Apply(types, a, params, results).value;
            |params| <= |a.ops| && !a'.dead && |a'.ops| == |a.ops| - |params| + |results|
  {
    PopAllLive(types, a, params);
  }

  /** A validated leaf finds its operands, leaves as many as validation says, and
      moves the compiler's height by the same amount. */
  lemma LeafCounts(c: Context, l: Leaf, a: Operands)
    requires !a.dead && CheckLeaf(c, l, a).Some?
    ensures Pops(l) <= |a.ops|
    ensures var a' := CheckLeaf(c, l, a).value; !a'.dead && |a'.ops| == |a.ops| - Pops(l) + Pushes(l)
    ensures LeafDelta(l) == Pushes(l) - Pops(l)
  {
    var types := c.m.types;
    match l
    case Nop =>
    case Const(t, _) => ApplyLive(types, a, [], [t]);
    case LocalGet(x) => ApplyLive(types, a, [], [c.locals[x]]);
    case LocalSet(x) => ApplyLive(types, a, [c.locals[x]], []);
    case LocalTee(x) => ApplyLive(types, a, [c.locals[x]], [c.locals[x]]);
    case GlobalGet(x) => ApplyLive(types, a, [], [c.m.globals[x].valueType]);
    case GlobalSet(x) => ApplyLive(types, a, [c.m.globals[x].valueType], []);
    case Drop =>
    case Select(ts) => if ts != [] { ApplyLive(types, a, [ts[0], ts[0], I32], [ts[0]]); }
    case EqZero(t) => ApplyLive(types, a, [IntValueType(t)], [I32]);
    case Compare(cmp) => ApplyLive(types, a, [ComparedType(cmp), ComparedType(cmp)], [I32]);
    case Unary(_, from, to) => ApplyLive(types, a, [from], [to]);
    case Binary(_, t) => ApplyLive(types, a, [t, t], [t]);
    case Load(k, m) => ApplyLive(types, a, [MemArgType(c.m, m, LoadShape(k).0).value], [LoadShape(k).1]);
    case Store(k, m) => ApplyLive(types, a, [MemArgType(c.m, m, StoreShape(k).0).value, StoreShape(k).1], []);
    case MemorySize(x) => ApplyLive(types, a, [], [AddrValueType(c.m.mems[x])]);
    case RefNull(ht) => ApplyLive(types, a, [], [RefVal(Ref(true, ht))]);
    case RefIsNull =>
    case RefAsNonNull =>
    case RefFunc(x) => ApplyLive(types, a, [], [RefVal(Ref(false, HTypeIndex(c.m.funcTypes[x])))]);
  }

  /** In a linked program it also meets no bad index, and its offset survives
      lowering. */
  lemma LeafLive(env: Env, mi: nat, c: Context, l: Leaf, a: Operands, args: seq<Raw>, locals: seq<Raw>, w: World)
    requires mi < |env.insts| && c.m == env.insts[mi].mod && Memory32(c.m)
    requires InstanceLinked(env, env.insts[mi]) && InstanceWorld(env.insts[mi], w)
    requires !a.dead && CheckLeaf(c, l, a).Some? && |locals| == |c.locals|
    ensures LowerLeaf(l) == l
    ensures |args| == Pops(l) ==> !EvalLeaf(env, mi, l, args, locals, w).LeafWrong?
  {
    hide Apply;
  }

  // ----- where code is and what surrounds it -----

  /** The surroundings of a piece of code: what validation and lowering know
      about the enclosing blocks, the item each label's jump leads to, and the
      operands of the enclosing blocks that the current block cannot reach. */
  datatype Spot = Spot(c: Context, blocks: seq<BlockContext>, tgts: seq<nat>, under: seq<Raw>)

  /** The number of arguments, which the compiler's heights include. */
  function Args(p: Spot): int
    requires p.blocks != []
  {
    p.blocks[0].entry
  }

  ghost predicate BlockOk(k: Site, p: Spot, i: nat)
    requires i < |p.blocks| == |p.c.labels| == |p.tgts|
  {
    && p.blocks[i].arity == |p.c.labels[i]|
    && Args(p) <= p.blocks[i].entry <= Args(p) + |p.under|
    && p.tgts[i] < |k.code| && k.code[p.tgts[i]] == Label(BranchTarget(p.blocks[i]))
  }

  ghost predicate SpotOk(env: Env, codes: seq<ModuleCode>, k: Site, p: Spot) {
    && SiteOk(env, codes, k)
    && ValidProgram(env)
    && env.insts[k.mi].mod == p.c.m
    && |p.blocks| == |p.c.labels| == |p.tgts| >= 1
    && Args(p) >= 0
    && |p.c.results| == k.arity
    && (forall i :: 0 <= i < |p.blocks| ==> BlockOk(k, p, i))
  }

  /** Compiler, validator and semantics agree on the operands of the current
      block, which is reachable. */
  ghost predicate Agree(env: Env, k: Site, p: Spot, s: Compiling, a: Operands, st: State)
    requires p.blocks != []
  {
    && !a.dead && !s.dead
    && |st.vs| == |a.ops|
    && s.height == Args(p) + |p.under| + |a.ops|
    && s.base == k.base
    && |st.locals| == |p.c.locals|
    && WorldOk(env, st.world)
  }

  /** The emitted code stands at item `at` of the site's code, and the tables it
      filled are the site's. */
  ghost predicate Placed(k: Site, at: nat, e: Emission) {
    && at + |e.code| < |k.code|
    && k.code[at..at + |e.code|] == e.code
    && e.st.tables <= k.tables
  }

  ghost predicate Started(k: Site, p: Spot, at: nat, st: State, c: Config) {
    at <= |k.code| && c == At(k, at, p.under + st.vs, st.locals, st.world)
  }

  /** A branch arrives at its label's target with the label's values on top of
      what the label's block started with. */
  ghost predicate Lands(env: Env, k: Site, p: Spot, depth: nat, st: State, r: Result)
    requires |p.blocks| == |p.tgts| >= 1 && Args(p) >= 0
  {
    && depth < |p.blocks|
    && var j := |p.blocks| - 1 - depth;
    var (arity, entry) := (p.blocks[j].arity, p.blocks[j].entry - Args(p));
    && arity <= |st.vs| && 0 <= entry <= |p.under| && p.tgts[j] <= |k.code|
    && var vs := p.under[..entry] + Top(st.vs, arity);
    && |vs| <= k.maxHeight
    && |st.locals| == |p.c.locals| && WorldOk(env, st.world)
    && r == Next(At(k, p.tgts[j], vs, st.locals, st.world))
  }

  /** The result `r` of `n` machine steps matches the outcome of the semantics. */
  ghost predicate Matches(env: Env, codes: seq<ModuleCode>, k: Site, p: Spot, fuel: nat, o: Outcome,
                          end: nat, s: Compiling, a: Operands, n: nat, r: Result)
    requires |p.blocks| == |p.tgts| >= 1 && Args(p) >= 0
  {
    match o
    case Timeout => n >= fuel && r.Next?
    case Stuck => false
    case Stopped(fault, w) => r == Stop(fault, w)
    case Normal(st) => Agree(env, k, p, s, a, st) && r.Next? && Started(k, p, end, st, r.c)
    case Branch(depth, st) => n >= 1 && Lands(env, k, p, depth, st, r)
    case Returned(st) => n >= 1 && k.arity <= |st.vs| && WorldOk(env, st.world) && r == Next(After(k, Top(st.vs, k.arity), st.world))
    case TailCall(addr, args, w) =>
      && n >= 1 && addr < |env.funcs| && |args| == |env.funcs[addr].ft.params| && |env.funcs[addr].ft.results| == k.arity
      && WorldOk(env, w)
      && r == Answer(env, EnterCall(env, codes, After(k, args, w), addr))
  }

  // ----- instructions that take one step -----

  lemma RunOne(env: Env, codes: seq<ModuleCode>, c: Config)
    ensures Run(env, codes, 1, c) == HostStep(env, codes, c)
  {
    hide HostStep;
    assert forall c' :: Run(env, codes, 0, c') == Next(c');
  }

  /** What all simulation lemmas about one instruction assume. */
  ghost predicate Ready(env: Env, codes: seq<ModuleCode>, k: Site, p: Spot, s: Compiling, i: Instr, a: Operands,
                        at: nat, st: State)
  {
    && SpotOk(env, codes, k, p)
    && Agree(env, k, p, s, a, st)
    && Check(p.c, i, a).Some?
    && Placed(k, at, Lower(p.c.m, p.blocks, s, i))
  }

  lemma EmitsOne(k: Site, p: Spot, s: Compiling, i: Instr, at: nat)
    requires p.blocks != [] && Args(p) >= 0 && s.height >= 0 && !s.dead && !Structured(i)
    requires Placed(k, at, Lower(p.c.m, p.blocks, s, i))
    ensures var e := Lower(p.c.m, p.blocks, s, i);
            && e.code == LowerSimple(p.c.m, p.blocks, s, i).code && e.st == LowerSimple(p.c.m, p.blocks, s, i).st.(max := e.st.max)
            && |e.code| == 1 && k.code[at] == e.code[0] && at + 1 < |k.code|
            && e.code[0].Emitted? && e.code[0].line.at == s.height - Args(p) && !e.code[0].line.op.LocalGetReturn?
  {
    var e := Lower(p.c.m, p.blocks, s, i);
    assert |e.code| == 1;
    assert k.code[at..at + 1][0] == k.code[at];
  }

  /** What a valid program says of one of its instances. */
  lemma Linkage(env: Env, mi: nat, w: World)
    requires ValidProgram(env) && mi < |env.insts|
    ensures Linked(env) && InstanceLinked(env, env.insts[mi]) && Memory32(env.insts[mi].mod)
    ensures WorldOk(env, w) ==> InstanceWorld(env.insts[mi], w)
  {
  }

  /** What holds where an instruction that is not structured is about to run: one
      step executes its one operation, with its target resolved. */
  lemma ReadyFacts(env: Env, codes: seq<ModuleCode>, k: Site, p: Spot, s: Compiling, i: Instr, a: Operands, at: nat,
                   st: State)
    returns (op: Op)
    requires Ready(env, codes, k, p, s, i, a, at, st) && !Structured(i)
    ensures SpotOk(env, codes, k, p) && Placed(k, at, Lower(p.c.m, p.blocks, s, i)) && Loaded0(codes, k)
    ensures k.mi < |env.insts| && env.insts[k.mi].mod == p.c.m && |p.c.results| == k.arity
    ensures |p.blocks| == |p.c.labels| == |p.tgts| >= 1 && Args(p) >= 0
    ensures !a.dead && !s.dead && |st.vs| == |a.ops| && s.height == Args(p) + |p.under| + |a.ops| && s.base == k.base
    ensures |st.locals| == |p.c.locals| && WorldOk(env, st.world) && Check(p.c, i, a).Some?
    ensures Lower(p.c.m, p.blocks, s, i).st == LowerSimple(p.c.m, p.blocks, s, i).st.(max := Lower(p.c.m, p.blocks, s, i).st.max)
    ensures Lower(p.c.m, p.blocks, s, i).code == LowerSimple(p.c.m, p.blocks, s, i).code == One(p.blocks, s, op)
    ensures at + 1 < |k.code| && |p.under| + |st.vs| <= k.maxHeight < TWO_TO_16
    ensures HostStep(env, codes, At(k, at, p.under + st.vs, st.locals, st.world)) ==
            Answer(env, Exec(env, codes, At(k, at + 1, p.under + st.vs, st.locals, st.world), ResolveOp(k.code, op)))
    ensures Linked(env) && InstanceLinked(env, env.insts[k.mi]) && InstanceWorld(env.insts[k.mi], st.world)
    ensures Memory32(p.c.m)
  {
    hide Check, ResolveOp, HostStep, Exec, Answer, InstanceLinked, InstanceWorld, Memory32, DistinctLabels;
    hide HeightsAtMost, BlockOk, Loaded0;
    Linkage(env, k.mi, st.world);
    EmitsOne(k, p, s, i, at);
    op := LowerSimple(p.c.m, p.blocks, s, i).code[0].line.op;
    StepsIntoBody(env, codes, k, at, p.under + st.vs, st.locals, st.world);
  }

  /** What a spot knows of the label at a depth. */
  lemma SpotLabel(env: Env, codes: seq<ModuleCode>, k: Site, p: Spot, depth: nat)
    requires SpotOk(env, codes, k, p) && depth < |p.blocks|
    ensures BlockOk(k, p, |p.blocks| - 1 - depth) && DistinctLabels(k.code)
    ensures BlockAt(p.blocks, depth).arity == |p.c.labels[|p.c.labels| - 1 - depth]|
  {
  }

  lemma SimPlain(env: Env, codes: seq<ModuleCode>, k: Site, p: Spot, fuel: nat, s: Compiling, i: Instr, a: Operands,
                 at: nat, st: State)
    requires Ready(env, codes, k, p, s, i, a, at, st) && i.Plain?
    ensures var c := At(k, at, p.under + st.vs, st.locals, st.world);
            Matches(env, codes, k, p, fuel, EvalPlain(env, k.mi, i.leaf, st), at + 1,
                    Lower(p.c.m, p.blocks, s, i).st, Check(p.c, i, a).value, 1, HostStep(env, codes, c))
  {
    hide Ready, SpotOk, SiteOk, Placed, ValidProgram, Linked, InstanceLinked, InstanceWorld, WorldOk, Memory32, Loaded0;
    hide DistinctLabels, HostStep;
    hide Lower, CheckSeq, EvalSeq, EvalLeaf, CheckLeaf, LowerLeaf, LeafDelta, Landed;
    var op := ReadyFacts(env, codes, k, p, s, i, a, at, st);
    var l := i.leaf;
    LeafCounts(p.c, l, a);
    var args := Top(st.vs, Pops(l));
    LeafLive(env, k.mi, p.c, l, a, args, st.locals, st.world);
    PopsAt(k, at + 1, p.under, st.vs, st.locals, st.world, Pops(l));
    LandsAt(k, at + 1, p.under, Below(st.vs, Pops(l)), st.locals, st.world, EvalLeaf(env, k.mi, l, args, st.locals, st.world));
    LeafKeepsWorld(env, k.mi, l, args, st.locals, st.world);
  }

  lemma BranchStack(under: seq<Raw>, vs: seq<Raw>, entry: nat, arity: nat)
    requires entry <= |under| && arity <= |vs|
    ensures Top(under + vs, arity) == Top(vs, arity) && |Top(vs, arity)| == arity
    ensures (under + vs)[..entry] == under[..entry]
  {
  }

  /** The keep and drop counts of a branch are exact, so the jump lands as the
      label asks. */
  lemma BranchJumps(env: Env, k: Site, p: Spot, at: nat, st: State, depth: nat)
    requires DistinctLabels(k.code) && k.maxHeight < TWO_TO_16 && at <= |k.code|
    requires depth < |p.blocks| == |p.c.labels| == |p.tgts| && Args(p) >= 0
    requires BlockOk(k, p, |p.blocks| - 1 - depth)
    requires BlockAt(p.blocks, depth).arity <= |st.vs|
    requires |p.under| + |st.vs| <= k.maxHeight
    requires |st.locals| == |p.c.locals| && WorldOk(env, st.world)
    ensures var b := BlockAt(p.blocks, depth);
            var keep := ToU16(b.arity);
            var drop := Drop16(Args(p) + |p.under| + |st.vs|, b, keep);
            var r := JumpTo(At(k, at, p.under + st.vs, st.locals, st.world), LabelPosition(k.code, BranchTarget(b)), keep, drop);
            && keep == b.arity && r.Next? && Lands(env, k, p, depth, st, r)
  {
    hide WorldOk, DistinctLabels, JumpTo, LabelPosition, Top;
    var j := |p.blocks| - 1 - depth;
    var b := p.blocks[j];
    var entry := b.entry - Args(p);
    var vs := p.under + st.vs;
    var drop := |vs| - entry - b.arity;
    assert ToU16(b.arity) == b.arity && ToU16(drop) == drop;
    Jumps(k, at, vs, st.locals, st.world, BranchTarget(b), p.tgts[j], b.arity, drop);
    BranchStack(p.under, st.vs, entry, b.arity);
    hide ToU16;
  }

  lemma SimBr(env: Env, codes: seq<ModuleCode>, k: Site, p: Spot, fuel: nat, s: Compiling, i: Instr, a: Operands,
              at: nat, st: State)
    requires Ready(env, codes, k, p, s, i, a, at, st) && i.Br?
    ensures var c := At(k, at, p.under + st.vs, st.locals, st.world);
            Matches(env, codes, k, p, fuel, Eval(env, k.mi, |k.callers| + 1, fuel, i, st), at + 1,
                    Lower(p.c.m, p.blocks, s, i).st, Check(p.c, i, a).value, 1, HostStep(env, codes, c))
  {
    hide Ready, SpotOk, SiteOk, Placed, ValidProgram, Linked, InstanceLinked, InstanceWorld, WorldOk, Memory32, Loaded0;
    hide DistinctLabels, HostStep;
    hide Lower, CheckSeq, EvalSeq, Lands, JumpTo, Drop16, ToU16, LabelPosition, BlockOk;
    var op := ReadyFacts(env, codes, k, p, s, i, a, at, st);
    PopAllLive(p.c.m.types, a, LabelTypes(p.c, i.depth).value);
    SpotLabel(env, codes, k, p, i.depth);
    BranchJumps(env, k, p, at + 1, st, i.depth);
  }

  lemma BelowLength(vs: seq<Raw>)
    ensures |vs| >= 1 ==> |Below(vs, 1)| == |vs| - 1 && |Top(vs, 1)| == 1
  {
  }

  lemma SimBrIf(env: Env, codes: seq<ModuleCode>, k: Site, p: Spot, fuel: nat, s: Compiling, i: Instr, a: Operands,
                at: nat, st: State)
    requires Ready(env, codes, k, p, s, i, a, at, st) && i.BrIf?
    ensures var c := At(k, at, p.under + st.vs, st.locals, st.world);
            Matches(env, codes, k, p, fuel, Eval(env, k.mi, |k.callers| + 1, fuel, i, st), at + 1,
                    Lower(p.c.m, p.blocks, s, i).st, Check(p.c, i, a).value, 1, HostStep(env, codes, c))
  {
    hide Ready, SpotOk, SiteOk, Placed, ValidProgram, Linked, InstanceLinked, InstanceWorld, WorldOk, Memory32, Loaded0;
    hide DistinctLabels, HostStep;
    hide Lower, CheckSeq, EvalSeq, Lands, JumpTo, Drop16, ToU16, LabelPosition, BlockOk, Top, Below;
    var op := ReadyFacts(env, codes, k, p, s, i, a, at, st);
    var ts := LabelTypes(p.c, i.depth).value;
    ApplyLive(p.c.m.types, a, ts + [I32], ts);
    PopsAt(k, at + 1, p.under, st.vs, st.locals, st.world, 1);
    BelowLength(st.vs);
    SpotLabel(env, codes, k, p, i.depth);
    BranchJumps(env, k, p, at + 1, st.(vs := Below(st.vs, 1)), i.depth);
  }

  /** Every label of a checked table exists, takes `arity` values, and finds them. */
  lemma {:induction false} CheckTableLive(c: Context, arity: nat, ls: seq<nat>, a: Operands)
    requires !a.dead && CheckTable(c, arity, ls, a).Some?
    ensures CheckTable(c, arity, ls, a).value == a
    ensures forall j :: 0 <= j < |ls| ==> ls[j] < |c.labels| && |LabelTypes(c, ls[j]).value| == arity
  {
    if ls != [] {
      var ts := LabelTypes(c, ls[0]).value;
      PopAllLive(c.m.types, a, ts);
      assert a.ops[..|a.ops| - arity] + a.ops[|a.ops| - arity..] == a.ops;
      CheckTableLive(c, arity, ls[1..], a);
      forall j | 0 <= j < |ls| ensures ls[j] < |c.labels| && |LabelTypes(c, ls[j]).value| == arity {
        if j > 0 { assert ls[j] == ls[1..][j - 1]; }
      }
    }
  }

  /** The label that an index selects from a branch table. */
  function Selected(ls: seq<nat>, default: nat, x: nat): nat {
    if x < |ls| then ls[x] else default
  }

  /** Executing a branch table is the jump to the label its operand selects. */
  lemma TableJumps(env: Env, codes: seq<ModuleCode>, k: Site, p: Spot, s: Compiling, i: Instr, at: nat, st: State)
    requires Loaded0(codes, k) && k.mi < |env.insts| && p.blocks != [] && i.BrTable? && s.height != UNREACHABLE_DEPTH
    requires s.base == k.base
    requires Placed(k, at, Lower(p.c.m, p.blocks, s, i)) && at + 1 <= |k.code| && |st.vs| >= 1
    ensures var keep := ToU16(BlockAt(p.blocks, i.default).arity);
            var b := BlockAt(p.blocks, Selected(i.labels, i.default, BranchIndex(Top(st.vs, 1)[0])));
            Exec(env, codes, At(k, at + 1, p.under + st.vs, st.locals, st.world), JumpTable(s.base + |s.tables|, keep)) ==
            JumpTo(At(k, at + 1, p.under + Below(st.vs, 1), st.locals, st.world),
                   LabelPosition(k.code, BranchTarget(b)), keep, Drop16(s.height - 1, b, keep))
  {
    hide JumpTo, Drop16, ToU16, LabelPosition, BranchIndex, BranchTarget, Placed;
    var x := BranchIndex(Top(st.vs, 1)[0]);
    var j := if x < |i.labels| then x else |i.labels|;
    PopsAt(k, at + 1, p.under, st.vs, st.locals, st.world, 1);
    var entries := Entries(p.blocks, s.height - 1, ToU16(BlockAt(p.blocks, i.default).arity), i.labels + [i.default]);
    TableEntry(codes, k, p, s, i, at, entries, j);
  }

  /** Whatever the operand, the selected label exists and finds its values. */
  lemma SelectedLive(c: Context, a: Operands, ls: seq<nat>, default: nat, x: nat)
    requires !a.dead && Check(c, BrTable(ls, default), a).Some?
    ensures default < |c.labels| && Selected(ls, default, x) < |c.labels|
    ensures |LabelTypes(c, Selected(ls, default, x)).value| == |LabelTypes(c, default).value| < |a.ops|
  {
    hide CheckTable;
    var ts := LabelTypes(c, default).value;
    var a1 := PopExpect(c.m.types, a, I32).value.1;
    CheckTableLive(c, |ts|, ls, a1);
    PopAllLive(c.m.types, a1, ts);
  }

  lemma SimBrTable(env: Env, codes: seq<ModuleCode>, k: Site, p: Spot, fuel: nat, s: Compiling, i: Instr, a: Operands,
                   at: nat, st: State)
    requires Ready(env, codes, k, p, s, i, a, at, st) && i.BrTable?
    ensures var c := At(k, at, p.under + st.vs, st.locals, st.world);
            Matches(env, codes, k, p, fuel, Eval(env, k.mi, |k.callers| + 1, fuel, i, st), at + 1,
                    Lower(p.c.m, p.blocks, s, i).st, Check(p.c, i, a).value, 1, HostStep(env, codes, c))
  {
    hide Ready, SpotOk, SiteOk, Placed, ValidProgram, Linked, InstanceLinked, InstanceWorld, WorldOk, Memory32, Loaded0;
    hide DistinctLabels, HostStep;
    hide Lower, CheckSeq, EvalSeq, Lands, JumpTo, Drop16, ToU16, LabelPosition, BlockOk, Exec, BranchIndex, Check;
    var op := ReadyFacts(env, codes, k, p, s, i, a, at, st);
    var x := if |st.vs| >= 1 then BranchIndex(Top(st.vs, 1)[0]) else 0;
    var l := Selected(i.labels, i.default, x);
    SelectedLive(p.c, a, i.labels, i.default, x);
    SpotLabel(env, codes, k, p, i.default);
    SpotLabel(env, codes, k, p, l);
    TableJumps(env, codes, k, p, s, i, at, st);
    BranchJumps(env, k, p, at + 1, st.(vs := Below(st.vs, 1)), l);
  }

  /** The machine finds the table that lowering filled, with labels resolved. */
  lemma TableEntry(codes: seq<ModuleCode>, k: Site, p: Spot, s: Compiling, i: Instr, at: nat,
                   entries: seq<JumpTableEntry>, j: nat)
    requires Loaded0(codes, k) && p.blocks != [] && i.BrTable? && s.height != UNREACHABLE_DEPTH && s.base == k.base
    requires Placed(k, at, Lower(p.c.m, p.blocks, s, i)) && j < |entries|
    requires entries == Entries(p.blocks, s.height - 1, ToU16(BlockAt(p.blocks, i.default).arity), i.labels + [i.default])
    ensures var index := s.base + |s.tables|;
            && index < |codes[k.mi].tables| && |codes[k.mi].tables[index]| == |entries|
            && codes[k.mi].tables[index][j] == entries[j].(target := LabelPosition(k.code, entries[j].target))
  {
    var t := |s.tables|;
    assert Lower(p.c.m, p.blocks, s, i).st.tables == s.tables + [entries];
    assert k.tables[t] == (s.tables + [entries])[t];
    assert codes[k.mi].tables[k.base + t] == ResolveTable(k.code, k.tables[t]);
  }

  lemma SimReturn(env: Env, codes: seq<ModuleCode>, k: Site, p: Spot, fuel: nat, s: Compiling, i: Instr, a: Operands,
                  at: nat, st: State)
    requires Ready(env, codes, k, p, s, i, a, at, st) && i.Return?
    ensures var c := At(k, at, p.under + st.vs, st.locals, st.world);
            Matches(env, codes, k, p, fuel, Returned(st), at + 1,
                    Lower(p.c.m, p.blocks, s, i).st, Check(p.c, i, a).value, 1, HostStep(env, codes, c))
  {
    hide Ready, SpotOk, SiteOk, Placed, ValidProgram, Linked, InstanceLinked, InstanceWorld, WorldOk, Memory32, Loaded0;
    hide DistinctLabels, HostStep;
    hide Lower, CheckSeq, EvalSeq, Top, Below;
    var op := ReadyFacts(env, codes, k, p, s, i, a, at, st);
    PopAllLive(p.c.m.types, a, p.c.results);
    ReturnsFrom(k, at + 1, p.under, st.vs, st.locals, st.world);
  }

  /** The address a direct call uses names a function of the type validation saw. */
  lemma CalleeLinked(env: Env, mi: nat, f: nat)
    requires Linked(env) && mi < |env.insts| && CalleeType(env.insts[mi].mod, f).Some?
    ensures var inst := env.insts[mi];
            && f < |inst.funcAddrs| && inst.funcAddrs[f] < |env.funcs|
            && env.funcs[inst.funcAddrs[f]].ft == CalleeType(inst.mod, f).value
  {
    assert InstanceLinked(env, env.insts[mi]);
  }

  /** An indirect call never meets an index outside its instance or the store. */
  lemma IndirectLinked(env: Env, mi: nat, ty: nat, table: nat, r: Raw, w: World)
    requires Linked(env) && mi < |env.insts| && WorldOk(env, w) && IndirectType(env.insts[mi].mod, ty, table).Some?
    ensures var callee := ResolveIndirect(env, mi, ty, table, r, w);
            && !callee.CalleeWrong?
            && (callee.CalleeAt? ==> env.funcs[callee.addr].ft == IndirectType(env.insts[mi].mod, ty, table).value.0)
  {
    assert InstanceLinked(env, env.insts[mi]) && InstanceWorld(env.insts[mi], w);
  }

  lemma SimReturnCall(env: Env, codes: seq<ModuleCode>, k: Site, p: Spot, fuel: nat, s: Compiling, i: Instr,
                      a: Operands, at: nat, st: State)
    requires Ready(env, codes, k, p, s, i, a, at, st) && i.ReturnCall?
    ensures var c := At(k, at, p.under + st.vs, st.locals, st.world);
            Matches(env, codes, k, p, fuel, Eval(env, k.mi, |k.callers| + 1, fuel, i, st), at + 1,
                    Lower(p.c.m, p.blocks, s, i).st, Check(p.c, i, a).value, 1, HostStep(env, codes, c))
  {
    hide Ready, SpotOk, SiteOk, Placed, ValidProgram, Linked, InstanceLinked, InstanceWorld, WorldOk, Memory32, Loaded0;
    hide DistinctLabels, HostStep;
    hide Lower, CheckSeq, EvalSeq, EnterCall, ReplaceCall;
    var op := ReadyFacts(env, codes, k, p, s, i, a, at, st);
    CalleeLinked(env, k.mi, i.func);
    var addr := env.insts[k.mi].funcAddrs[i.func];
    PopAllLive(p.c.m.types, a, env.funcs[addr].ft.params);
    ReplacesAt(env, codes, k, at + 1, p.under, st.vs, st.locals, st.world, addr);
  }

  lemma SimReturnCallIndirect(env: Env, codes: seq<ModuleCode>, k: Site, p: Spot, fuel: nat, s: Compiling, i: Instr,
                              a: Operands, at: nat, st: State)
    requires Ready(env, codes, k, p, s, i, a, at, st) && i.ReturnCallIndirect?
    ensures var c := At(k, at, p.under + st.vs, st.locals, st.world);
            Matches(env, codes, k, p, fuel, Eval(env, k.mi, |k.callers| + 1, fuel, i, st), at + 1,
                    Lower(p.c.m, p.blocks, s, i).st, Check(p.c, i, a).value, 1, HostStep(env, codes, c))
  {
    hide Ready, SpotOk, SiteOk, Placed, ValidProgram, Linked, InstanceLinked, InstanceWorld, WorldOk, Memory32, Loaded0;
    hide DistinctLabels, HostStep;
    hide Lower, CheckSeq, EvalSeq, EnterCall, ReplaceCall, ResolveIndirect;
    var op := ReadyFacts(env, codes, k, p, s, i, a, at, st);
    var (ft, t) := IndirectType(p.c.m, i.ty, i.table).value;
    PopAllLive(p.c.m.types, a, ft.params + [t]);
    PopsAt(k, at + 1, p.under, st.vs, st.locals, st.world, 1);
    IndirectLinked(env, k.mi, i.ty, i.table, Top(st.vs, 1)[0], st.world);
    var callee := ResolveIndirect(env, k.mi, i.ty, i.table, Top(st.vs, 1)[0], st.world);
    if callee.CalleeAt? {
      ReplacesAt(env, codes, k, at + 1, p.under, Below(st.vs, 1), st.locals, st.world, callee.addr);
    }
  }

  // ----- composition -----

  /** Steps before a matched run; each of them pays for one unit of fuel. */
  lemma MatchesThen(env: Env, codes: seq<ModuleCode>, k: Site, p: Spot, fuel: nat, fuel': nat, o: Outcome,
                    end: nat, s: Compiling, a: Operands, n: nat, n': nat, c: Config)
    requires |p.blocks| == |p.tgts| >= 1 && Args(p) >= 0 && fuel <= fuel' + n
    requires var r := Run(env, codes, n, c);
             r.Next? && Matches(env, codes, k, p, fuel', o, end, s, a, n', Run(env, codes, n', r.c))
    ensures Matches(env, codes, k, p, fuel, o, end, s, a, n + n', Run(env, codes, n + n', c))
  {
    RunThen(env, codes, n, n', c);
  }

  /** Code placed in two parts is placed part by part. */
  lemma PlacedParts(k: Site, p: Spot, s: Compiling, body: seq<Instr>, at: nat)
    requires p.blocks != [] && body != [] && Placed(k, at, LowerSeq(p.c.m, p.blocks, s, body))
    ensures var e := Lower(p.c.m, p.blocks, s, body[0]);
            Placed(k, at, e) && Placed(k, at + |e.code|, LowerSeq(p.c.m, p.blocks, e.st, body[1..]))
  {
    var e := Lower(p.c.m, p.blocks, s, body[0]);
    assert e.st.tables <= LowerSeq(p.c.m, p.blocks, e.st, body[1..]).st.tables by {
      LowerSeqEmits(p.c.m, p.blocks, e.st, body[1..]);
    }
    PlacedBoth(k, at, e, LowerSeq(p.c.m, p.blocks, e.st, body[1..]));
  }

  lemma PlacedBoth(k: Site, at: nat, e: Emission, rest: Emission)
    requires Placed(k, at, Emission(e.code + rest.code, rest.st)) && e.st.tables <= rest.st.tables
    ensures Placed(k, at, e) && Placed(k, at + |e.code|, rest)
  {
    var whole := k.code[at..at + |e.code| + |rest.code|];
    assert whole == e.code + rest.code;
    assert k.code[at..at + |e.code|] == whole[..|e.code|];
    assert k.code[at + |e.code|..at + |e.code| + |rest.code|] == whole[|e.code|..];
  }

  lemma PlacedSlice(k: Site, at: nat, code: seq<Item>, lo: nat, hi: nat)
    requires at + |code| < |k.code| && k.code[at..at + |code|] == code && lo <= hi <= |code|
    ensures k.code[at + lo..at + hi] == code[lo..hi]
    ensures forall j :: lo <= j < hi ==> k.code[at + j] == code[j]
  {
    assert k.code[at + lo..at + hi] == k.code[at..at + |code|][lo..hi];
    forall j | lo <= j < hi ensures k.code[at + j] == code[j] {
      assert k.code[at..at + |code|][j] == k.code[at + j];
    }
  }

  // ----- blocks -----

  /** The surroundings inside a block whose label is at item `tgt`. */
  function Inside(p: Spot, label_: seq<ValueType>, b: BlockContext, tgt: nat, below: seq<Raw>): Spot {
    Spot(WithLabel(p.c, label_), p.blocks + [b], p.tgts + [tgt], p.under + below)
  }

  lemma InsideOk(env: Env, codes: seq<ModuleCode>, k: Site, p: Spot, ts: seq<ValueType>, b: BlockContext, tgt: nat,
                 below: seq<Raw>)
    requires SpotOk(env, codes, k, p)
    requires b.arity == |ts| && b.entry == Args(p) + |p.under| + |below|
    requires tgt < |k.code| && k.code[tgt] == Label(BranchTarget(b))
    ensures SpotOk(env, codes, k, Inside(p, ts, b, tgt, below))
  {
    hide SiteOk, ValidProgram;
    var p' := Inside(p, ts, b, tgt, below);
    forall i | 0 <= i < |p'.blocks| ensures BlockOk(k, p', i) {
      if i < |p.blocks| { assert BlockOk(k, p, i); }
    }
  }

  /** A branch past the innermost block lands as it does seen from outside. */
  lemma LandsOutside(env: Env, k: Site, p: Spot, ts: seq<ValueType>, b: BlockContext, tgt: nat, below: seq<Raw>,
                     depth: nat, st: State, r: Result)
    requires |p.blocks| == |p.c.labels| == |p.tgts| >= 1 && Args(p) >= 0
    requires forall i :: 0 <= i < |p.blocks| ==> BlockOk(k, p, i)
    requires Lands(env, k, Inside(p, ts, b, tgt, below), depth, st, r) && depth > 0
    ensures Lands(env, k, p, depth - 1, st, r)
  {
    hide WorldOk;
    var j := |p.blocks| - depth;
    assert BlockOk(k, p, j);
    var entry := p.blocks[j].entry - Args(p);
    assert (p.under + below)[..entry] == p.under[..entry];
  }

  /** A body that ends, or branches to its own label, leaves the block at item
      `end` with the block's results on the operands below it. */
  lemma LeavesWith(env: Env, k: Site, p: Spot, below: seq<Raw>, results: seq<Raw>, st: State,
                   from: nat, end: nat, s: Compiling, a: Operands)
    requires p.blocks != [] && from <= end <= |k.code| && (forall j :: from <= j < end ==> k.code[j].Label?)
    requires s.base == k.base && !a.dead && !s.dead && |a.ops| == |below| + |results| && s.height == Args(p) + |p.under| + |a.ops|
    requires |st.locals| == |p.c.locals| && WorldOk(env, st.world)
    ensures var st' := st.(vs := below + results);
            Agree(env, k, p, s, a, st') && Started(k, p, end, st', At(k, from, p.under + below + results, st.locals, st.world))
  {
    hide WorldOk;
    SkipLabels(k, from, end, p.under + below + results, st.locals, st.world);
    assert p.under + below + results == p.under + (below + results);
  }

  /** Leaving a block: from the outcome of its body to the outcome of the block.
      Only labels stand between the body's end and item `end`. */
  lemma MatchesLeave(env: Env, codes: seq<ModuleCode>, k: Site, p: Spot, fuel: nat,
                     ts: seq<ValueType>, b: BlockContext, tgt: nat, below: seq<Raw>, o: Outcome, results: nat,
                     bodyEnd: nat, s': Compiling, a': Operands, end: nat, s: Compiling, a: Operands, n: nat, r: Result)
    requires SpotOk(env, codes, k, p)
    requires Matches(env, codes, k, Inside(p, ts, b, tgt, below), fuel, o, bodyEnd, s', a', n, r)
    requires bodyEnd < end <= |k.code| && (forall j :: bodyEnd <= j < end ==> k.code[j].Label?)
    requires !a'.dead ==> |a'.ops| == results
    requires s.base == k.base && !a.dead && !s.dead && |a.ops| == |below| + results && s.height == Args(p) + |p.under| + |a.ops|
    requires o.Branch? && o.depth == 0 ==> b.arity == results && b.entry == Args(p) + |p.under| + |below| && bodyEnd <= tgt < end
    ensures Matches(env, codes, k, p, fuel, Leave(results, below, o), end, s, a, n, r)
  {
    hide WorldOk, SiteOk, ValidProgram, At, BlockOk;
    match o
    case Normal(st) =>
      LeavesWith(env, k, p, below, st.vs, st, bodyEnd, end, s, a);
    case Branch(depth, st) =>
      if depth > 0 {
        LandsOutside(env, k, p, ts, b, tgt, below, depth, st, r);
      } else {
        assert (p.under + below)[..|p.under| + |below|] == p.under + below;
        LeavesWith(env, k, p, below, Top(st.vs, results), st, tgt, end, s, a);
      }
    case _ =>
  }

  lemma {:induction false} SkipLabels(k: Site, at: nat, end: nat, vs: seq<Raw>, locals: seq<Raw>, w: World)
    requires at <= end <= |k.code| && forall j :: at <= j < end ==> k.code[j].Label?
    ensures At(k, at, vs, locals, w) == At(k, end, vs, locals, w)
    decreases end - at
  {
    if at < end {
      AtLabel(k, at, vs, locals, w);
      SkipLabels(k, at + 1, end, vs, locals, w);
    }
  }

  // ----- calls -----

  /** The code of every function of every instance is loaded, unfused, and its
      heights fit the 16-bit keep and drop counts. */
  ghost predicate AllLoaded(env: Env, codes: seq<ModuleCode>) {
    && |codes| == |env.insts|
    && forall mi, fi :: 0 <= mi < |env.insts| && 0 <= fi < |env.insts[mi].mod.functions| ==> LoadedFunction(env, codes, mi, fi)
  }

  ghost predicate LoadedFunction(env: Env, codes: seq<ModuleCode>, mi: nat, fi: nat)
    requires mi < |env.insts| && fi < |env.insts[mi].mod.functions|
  {
    exists base: nat :: LoadedFrom(env, codes, mi, fi, base)
  }

  ghost predicate LoadedFrom(env: Env, codes: seq<ModuleCode>, mi: nat, fi: nat, base: nat)
    requires mi < |env.insts| && fi < |env.insts[mi].mod.functions|
  {
    var f := env.insts[mi].mod.functions[fi];
    var e := LowerFunction(env.insts[mi].mod, f, base);
    && Loaded0(codes, SiteOf(mi, fi, e, [], [], 0))
    && codes[mi].funcs[fi].localTypes == f.locals
    && e.st.max < TWO_TO_16
  }

  function SiteOf(mi: nat, fi: nat, e: Emission, low: seq<Raw>, callers: seq<Frame>, arity: nat): Site {
    Site(mi, fi, e.code, e.st.tables, e.st.base, e.st.max, low, callers, arity)
  }

  /** The result of `n` steps from a step's result. */
  function RunFrom(env: Env, codes: seq<ModuleCode>, n: nat, r: Result): Result {
    if r.Next? then Run(env, codes, n, r.c) else r
  }

  ghost predicate CallMatches(env: Env, fuel: nat, o: CallOutcome, results: nat, low: seq<Raw>, callers: seq<Frame>,
                              n: nat, r: Result)
  {
    match o
    case CallTimeout => n >= fuel && r.Next?
    case CallStuck => false
    case CallStopped(fault, w) => r == Stop(fault, w)
    case CallDone(vs, w) => |vs| == results && WorldOk(env, w) && r == Next(Config(low + vs, callers, w))
  }

  lemma CallFromCall(k: Site, at: nat, under: seq<Raw>, vs: seq<Raw>, locals: seq<Raw>, w: World, n: nat)
    requires at <= |k.code| && n <= |vs|
    ensures var c := At(k, at, under + vs, locals, w);
            var low := k.low + under + Below(vs, n);
            && c == Config(low + Top(vs, n), c.frames, w)
            && |c.frames| == |k.callers| + 1
            && CallersBelow(c.frames, |low|)
    ensures forall results: seq<Raw>, w': World ::
              Config(k.low + under + Below(vs, n) + results, At(k, at, under + vs, locals, w).frames, w') ==
              At(k, at, under + (Below(vs, n) + results), locals, w')
  {
    assert vs == Below(vs, n) + Top(vs, n);
    assert k.low + (under + vs) == k.low + under + Below(vs, n) + Top(vs, n);
    forall results: seq<Raw>, w': World
      ensures Config(k.low + under + Below(vs, n) + results, At(k, at, under + vs, locals, w).frames, w') ==
              At(k, at, under + (Below(vs, n) + results), locals, w')
    {
      assert k.low + under + Below(vs, n) + results == k.low + (under + (Below(vs, n) + results));
    }
  }

  lemma {:induction false} SimCallFrom(env: Env, codes: seq<ModuleCode>, k: Site, p: Spot, fuel: nat, addr: nat,
                                       at: nat, st: State, s: Compiling, a: Operands)
    returns (n: nat)
    requires SpotOk(env, codes, k, p) && AllLoaded(env, codes) && at <= |k.code| && fuel > 0
    requires addr < |env.funcs| && |env.funcs[addr].ft.params| <= |st.vs|
    requires |st.locals| == |p.c.locals| && WorldOk(env, st.world)
    requires !a.dead && |a.ops| == |st.vs| - |env.funcs[addr].ft.params| + |env.funcs[addr].ft.results|
    requires s.height == Args(p) + |p.under| + |a.ops| && s.base == k.base && !s.dead
    ensures var c := At(k, at, p.under + st.vs, st.locals, st.world);
            Matches(env, codes, k, p, fuel, CallFrom(env, |k.callers| + 1, fuel, addr, st), at, s, a, n + 1,
                    RunFrom(env, codes, n, Answer(env, EnterCall(env, codes, c, addr))))
    decreases fuel, 0
  {
    hide EnterCall, Answer, WorldOk, ValidProgram, SiteOk, CallFunction, Exec;
    var m := |env.funcs[addr].ft.params|;
    CallFromCall(k, at, p.under, st.vs, st.locals, st.world, m);
    var c := At(k, at, p.under + st.vs, st.locals, st.world);
    n := SimCall(env, codes, fuel - 1, addr, Top(st.vs, m), k.low + p.under + Below(st.vs, m), c.frames, st.world);
  }

  /** The outcome of an instruction sequence, by the semantics, is matched by `n`
      steps of the machine on the sequence's code. */
  ghost predicate SeqSimulated(env: Env, codes: seq<ModuleCode>, k: Site, p: Spot, fuel: nat, s: Compiling,
                               body: seq<Instr>, a: Operands, at: nat, st: State, n: nat)
  {
    && SeqReady(env, codes, k, p, s, body, a, at, st)
    && var e := LowerSeq(p.c.m, p.blocks, s, body);
    Matches(env, codes, k, p, fuel, EvalSeq(env, k.mi, |k.callers| + 1, fuel, body, st), at + |e.code|, e.st,
            CheckSeq(p.c, body, a).value, n, Run(env, codes, n, At(k, at, p.under + st.vs, st.locals, st.world)))
  }

  ghost predicate SeqReady(env: Env, codes: seq<ModuleCode>, k: Site, p: Spot, s: Compiling, body: seq<Instr>,
                           a: Operands, at: nat, st: State)
  {
    && SpotOk(env, codes, k, p) && AllLoaded(env, codes)
    && Agree(env, k, p, s, a, st)
    && CheckSeq(p.c, body, a).Some?
    && Placed(k, at, LowerSeq(p.c.m, p.blocks, s, body))
  }

  ghost predicate Simulated(env: Env, codes: seq<ModuleCode>, k: Site, p: Spot, fuel: nat, s: Compiling, i: Instr,
                            a: Operands, at: nat, st: State, n: nat)
  {
    && Ready(env, codes, k, p, s, i, a, at, st)
    && var e := Lower(p.c.m, p.blocks, s, i);
    Matches(env, codes, k, p, fuel, Eval(env, k.mi, |k.callers| + 1, fuel, i, st), at + |e.code|, e.st,
            Check(p.c, i, a).value, n, Run(env, codes, n, At(k, at, p.under + st.vs, st.locals, st.world)))
  }

  lemma {:induction false} SimSeq(env: Env, codes: seq<ModuleCode>, k: Site, p: Spot, fuel: nat, s: Compiling,
                                  body: seq<Instr>, a: Operands, at: nat, st: State)
    returns (n: nat)
    requires SeqReady(env, codes, k, p, s, body, a, at, st)
    ensures SeqSimulated(env, codes, k, p, fuel, s, body, a, at, st, n)
    decreases fuel, 1, body, 0
  {
    hide *;
    SeqParts(env, codes, k, p, s, body, a, at, st);
    n := 0;
    if body == [] {
      SeqEnds(env, codes, k, p, fuel, s, a, at, st);
    } else {
      PlacedSeq(env, codes, k, p, s, body, a, at, st);
      n := SimInstr(env, codes, k, p, fuel, s, body[0], a, at, st);
      var o := Eval(env, k.mi, |k.callers| + 1, fuel, body[0], st);
      if o.Normal? {
        var (e, a1) := (Lower(p.c.m, p.blocks, s, body[0]), FirstChecked(p.c, body, a));
        FirstLeads(env, k, p, fuel, s, body, a, st);
        RestReady(env, codes, k, p, fuel, s, body, a, at, st, n, e, a1, o.st);
        var n2 := SimSeq(env, codes, k, p, fuel, e.st, body[1..], a1, at + |e.code|, o.st);
        SeqGoesOn(env, codes, k, p, fuel, s, body, a, at, st, n, n2, e, a1, o.st);
        n := n + n2;
      } else {
        SeqStops(env, codes, k, p, fuel, s, body, a, at, st, n);
      }
    }
  }

  lemma SeqParts(env: Env, codes: seq<ModuleCode>, k: Site, p: Spot, s: Compiling, body: seq<Instr>, a: Operands,
                 at: nat, st: State)
    requires SeqReady(env, codes, k, p, s, body, a, at, st)
    ensures AllLoaded(env, codes) && SpotOk(env, codes, k, p) && CheckSeq(p.c, body, a).Some?
    ensures |p.blocks| == |p.tgts| >= 1 && Args(p) >= 0 && k.mi < |env.insts| && at <= |k.code|
  {
    hide SpotOk, AllLoaded, Agree, CheckSeq, LowerSeq;
    SpotHasBlocks(env, codes, k, p);
  }

  lemma SeqEnds(env: Env, codes: seq<ModuleCode>, k: Site, p: Spot, fuel: nat, s: Compiling, a: Operands, at: nat,
                st: State)
    requires SeqReady(env, codes, k, p, s, [], a, at, st)
    ensures SeqSimulated(env, codes, k, p, fuel, s, [], a, at, st, 0)
  {
    hide Step, HostStep, SpotOk, Lands, ValidProgram, AllLoaded, Agree;
    SpotHasBlocks(env, codes, k, p);
  }

  /** Where a simulated first instruction goes on, the rest can be simulated. */
  lemma RestReady(env: Env, codes: seq<ModuleCode>, k: Site, p: Spot, fuel: nat, s: Compiling, body: seq<Instr>,
                  a: Operands, at: nat, st: State, n: nat, e: Emission, a1: Operands, st1: State)
    requires SeqReady(env, codes, k, p, s, body, a, at, st) && body != []
    requires Ready(env, codes, k, p, s, body[0], a, at, st)
    requires Simulated(env, codes, k, p, fuel, s, body[0], a, at, st, n)
    requires Leads(env, k, p, fuel, s, body[0], a, st, e, a1, st1)
    ensures SeqReady(env, codes, k, p, e.st, body[1..], a1, at + |e.code|, st1)
    ensures Reaches(env, codes, k, p, at, st, n, at + |e.code|, st1)
  {
    hide SpotOk, AllLoaded, Agree, Placed, Lower, Check, Run, Eval;
    SeqParts(env, codes, k, p, s, body, a, at, st);
    PlacedSeq(env, codes, k, p, s, body, a, at, st);
  }

  /** The instruction's code, the operand types after it and the state it leads to. */
  ghost predicate Leads(env: Env, k: Site, p: Spot, fuel: nat, s: Compiling, i: Instr, a: Operands, st: State,
                        e: Emission, a1: Operands, st1: State)
  {
    && p.blocks != [] && k.mi < |env.insts|
    && e == Lower(p.c.m, p.blocks, s, i) && Check(p.c, i, a) == Some(a1)
    && Eval(env, k.mi, |k.callers| + 1, fuel, i, st) == Normal(st1)
  }

  /** The operand types after the first instruction. */
  function FirstChecked(c: Context, body: seq<Instr>, a: Operands): Operands
    requires body != [] && CheckSeq(c, body, a).Some?
  {
    Check(c, body[0], a).value
  }

  lemma FirstLeads(env: Env, k: Site, p: Spot, fuel: nat, s: Compiling, body: seq<Instr>, a: Operands, st: State)
    requires body != [] && CheckSeq(p.c, body, a).Some? && p.blocks != [] && k.mi < |env.insts|
    requires Eval(env, k.mi, |k.callers| + 1, fuel, body[0], st).Normal?
    ensures Leads(env, k, p, fuel, s, body[0], a, st, Lower(p.c.m, p.blocks, s, body[0]), FirstChecked(p.c, body, a),
                  Eval(env, k.mi, |k.callers| + 1, fuel, body[0], st).st)
  {
    hide Lower, Check, Eval;
  }

  /** `n` steps lead from `st` at position `at` to `st1` at position `end`. */
  ghost predicate Reaches(env: Env, codes: seq<ModuleCode>, k: Site, p: Spot, at: nat, st: State, n: nat, end: nat,
                          st1: State)
  {
    && at <= |k.code| && end <= |k.code|
    && Run(env, codes, n, At(k, at, p.under + st.vs, st.locals, st.world)) ==
       Next(At(k, end, p.under + st1.vs, st1.locals, st1.world))
  }

  lemma SeqGoesOn(env: Env, codes: seq<ModuleCode>, k: Site, p: Spot, fuel: nat, s: Compiling, body: seq<Instr>,
                  a: Operands, at: nat, st: State, n1: nat, n2: nat, e: Emission, a1: Operands, st1: State)
    requires SeqReady(env, codes, k, p, s, body, a, at, st) && body != []
    requires Leads(env, k, p, fuel, s, body[0], a, st, e, a1, st1)
    requires Reaches(env, codes, k, p, at, st, n1, at + |e.code|, st1)
    requires SeqReady(env, codes, k, p, e.st, body[1..], a1, at + |e.code|, st1)
    requires SeqSimulated(env, codes, k, p, fuel, e.st, body[1..], a1, at + |e.code|, st1, n2)
    ensures SeqSimulated(env, codes, k, p, fuel, s, body, a, at, st, n1 + n2)
  {
    hide Step, HostStep, SpotOk, Lands, ValidProgram, AllLoaded, Agree, Lower, Check, Eval, Matches, Placed, Run, At;
    SeqParts(env, codes, k, p, s, body, a, at, st);
    var rest := LowerSeq(p.c.m, p.blocks, e.st, body[1..]);
    MatchesThen(env, codes, k, p, fuel, fuel, EvalSeq(env, k.mi, |k.callers| + 1, fuel, body[1..], st1), at + |e.code| + |rest.code|, rest.st,
                CheckSeq(p.c, body[1..], a1).value, n1, n2, At(k, at, p.under + st.vs, st.locals, st.world));
  }

  /** Where the first instruction does not go on, neither does the sequence. */
  lemma SeqStops(env: Env, codes: seq<ModuleCode>, k: Site, p: Spot, fuel: nat, s: Compiling, body: seq<Instr>,
                 a: Operands, at: nat, st: State, n: nat)
    requires SeqReady(env, codes, k, p, s, body, a, at, st) && body != []
    requires Ready(env, codes, k, p, s, body[0], a, at, st)
    requires Simulated(env, codes, k, p, fuel, s, body[0], a, at, st, n)
    requires !Eval(env, k.mi, |k.callers| + 1, fuel, body[0], st).Normal?
    ensures SeqSimulated(env, codes, k, p, fuel, s, body, a, at, st, n)
  {
    hide Step, HostStep, SpotOk, Lands, ValidProgram, AllLoaded, Agree, Lower, Check, Eval, Matches, Placed, Run, At;
    SeqParts(env, codes, k, p, s, body, a, at, st);
    var e := Lower(p.c.m, p.blocks, s, body[0]);
    var rest := LowerSeq(p.c.m, p.blocks, e.st, body[1..]);
    MatchesEarly(env, codes, k, p, fuel, Eval(env, k.mi, |k.callers| + 1, fuel, body[0], st), at + |e.code|, e.st,
                 Check(p.c, body[0], a).value, at + |e.code| + |rest.code|, rest.st,
                 CheckSeq(p.c, body, a).value, n, Run(env, codes, n, At(k, at, p.under + st.vs, st.locals, st.world)));
  }

  /** Unless execution goes on, what comes after makes no difference. */
  lemma MatchesEarly(env: Env, codes: seq<ModuleCode>, k: Site, p: Spot, fuel: nat, o: Outcome,
                     end: nat, s: Compiling, a: Operands, end': nat, s': Compiling, a': Operands, n: nat, r: Result)
    requires |p.blocks| == |p.tgts| >= 1 && Args(p) >= 0 && !o.Normal?
    ensures Matches(env, codes, k, p, fuel, o, end, s, a, n, r) == Matches(env, codes, k, p, fuel, o, end', s', a', n, r)
  {
  }

  lemma PlacedSeq(env: Env, codes: seq<ModuleCode>, k: Site, p: Spot, s: Compiling, body: seq<Instr>, a: Operands,
                  at: nat, st: State)
    requires SeqReady(env, codes, k, p, s, body, a, at, st) && body != []
    ensures Ready(env, codes, k, p, s, body[0], a, at, st)
    ensures var e := Lower(p.c.m, p.blocks, s, body[0]);
            Placed(k, at + |e.code|, LowerSeq(p.c.m, p.blocks, e.st, body[1..]))
  {
    hide SpotOk, AllLoaded, Agree, Placed, Lower, Check;
    assert p.blocks != [] by { SpotHasBlocks(env, codes, k, p); }
    PlacedParts(k, p, s, body, at);
  }

  lemma SpotHasBlocks(env: Env, codes: seq<ModuleCode>, k: Site, p: Spot)
    requires SpotOk(env, codes, k, p)
    ensures |p.blocks| == |p.tgts| >= 1 && Args(p) >= 0 && k.mi < |env.insts|
  {
  }

  lemma {:induction false} SimInstr(env: Env, codes: seq<ModuleCode>, k: Site, p: Spot, fuel: nat, s: Compiling,
                                    i: Instr, a: Operands, at: nat, st: State)
    returns (n: nat)
    requires Ready(env, codes, k, p, s, i, a, at, st) && AllLoaded(env, codes)
    ensures Simulated(env, codes, k, p, fuel, s, i, a, at, st, n)
    decreases fuel, 1, i, 1
  {
    hide Step, HostStep, Lands, ValidProgram, AllLoaded, Lower, Check, SiteOk, WorldOk, BlockOk, Matches;
    SpotHasBlocks(env, codes, k, p);
    match i
    case Block(_, _) => n := SimBlock(env, codes, k, p, fuel, s, i, a, at, st);
    case Loop(_, _) => n := SimLoop(env, codes, k, p, fuel, s, i, a, at, st);
    case IfElse(_, _, _) => n := SimConditional(env, codes, k, p, fuel, s, i, a, at, st);
    case Call(_) => n := SimDirectCall(env, codes, k, p, fuel, s, i, a, at, st);
    case CallIndirect(_, _) => n := SimIndirectCall(env, codes, k, p, fuel, s, i, a, at, st);
    case _ =>
      n := 1;
      RunOne(env, codes, At(k, at, p.under + st.vs, st.locals, st.world));
      EmitsOne(k, p, s, i, at);
      match i {
        case Plain(_) => SimPlain(env, codes, k, p, fuel, s, i, a, at, st);
        case Unreachable => SimUnreachable(env, codes, k, p, fuel, s, i, a, at, st);
        case Br(_) => SimBr(env, codes, k, p, fuel, s, i, a, at, st);
        case BrIf(_) => SimBrIf(env, codes, k, p, fuel, s, i, a, at, st);
        case BrTable(_, _) => SimBrTable(env, codes, k, p, fuel, s, i, a, at, st);
        case Return => SimReturn(env, codes, k, p, fuel, s, i, a, at, st);
        case ReturnCall(_) => SimReturnCall(env, codes, k, p, fuel, s, i, a, at, st);
        case ReturnCallIndirect(_, _) => SimReturnCallIndirect(env, codes, k, p, fuel, s, i, a, at, st);
      }
  }

  lemma SimUnreachable(env: Env, codes: seq<ModuleCode>, k: Site, p: Spot, fuel: nat, s: Compiling, i: Instr,
                       a: Operands, at: nat, st: State)
    requires Ready(env, codes, k, p, s, i, a, at, st) && i.Unreachable?
    ensures var c := At(k, at, p.under + st.vs, st.locals, st.world);
            Matches(env, codes, k, p, fuel, Stopped(UnreachableExecuted, st.world), at + 1,
                    Lower(p.c.m, p.blocks, s, i).st, Check(p.c, i, a).value, 1, HostStep(env, codes, c))
  {
    hide Ready, SpotOk, SiteOk, Placed, HostStep, Lower;
    var op := ReadyFacts(env, codes, k, p, s, i, a, at, st);
  }

  // ----- blocks and loops -----

  /** The operands a block starts with, and that its body ends with its results. */
  lemma BodyChecked(c: Context, entered: seq<ValueType>, ft: FunctionType, body: seq<Instr>)
    requires CheckBody(c, entered, ft, body)
    ensures var start := Push(Operands([], false), ft.params);
            var r := CheckSeq(WithLabel(c, entered), body, start);
            && |start.ops| == |ft.params|
            && r.Some? && (!r.value.dead ==> |r.value.ops| == |ft.results|)
  {
    var start := Push(Operands([], false), ft.params);
    assert start.ops == Known1(ft.params);
    var a := CheckSeq(WithLabel(c, entered), body, start).value;
    if !a.dead {
      PopAllLive(c.m.types, a, ft.results);
    }
  }

  /** The pieces of a lowered block. */
  lemma BlockPlaced(k: Site, at: nat, start: nat, e: Emission, code: seq<Item>)
    requires code == [Label(start)] + e.code + [Label(start + 1)]
    requires at + |code| < |k.code| && k.code[at..at + |code|] == code && e.st.tables <= k.tables
    ensures k.code[at] == Label(start) && Placed(k, at + 1, e) && k.code[at + 1 + |e.code|] == Label(start + 1)
  {
    PlacedSlice(k, at, code, 0, |code|);
    PlacedSlice(k, at, code, 1, 1 + |e.code|);
    assert code[0] == Label(start) && code[1 + |e.code|] == Label(start + 1) && code[1..1 + |e.code|] == e.code;
  }

  /** The types a block's label expects: a loop's label starts it again. */
  function LabelOf(i: Instr, ft: FunctionType): seq<ValueType> {
    if i.Loop? then ft.params else ft.results
  }

  function KindOf(i: Instr): BlockKind {
    if i.Loop? then LoopBlock else PlainBlock
  }

  lemma BlockTyped(c: Context, i: Instr, a: Operands)
    requires i.Block? || i.Loop?
    requires !a.dead && Check(c, i, a).Some?
    ensures BlockFuncType(c.m, i.bt).Some?
    ensures var ft := BlockFuncType(c.m, i.bt).value;
            && BlockSig(c.m, i.bt) == (|ft.params|, |ft.results|)
            && CheckBody(c, LabelOf(i, ft), ft, i.body)
            && |ft.params| <= |a.ops|
            && var a' := Check(c, i, a).value; !a'.dead && |a'.ops| == |a.ops| - |ft.params| + |ft.results|
  {
    hide CheckBody;
    var ft := BlockFuncType(c.m, i.bt).value;
    ApplyLive(c.m.types, a, ft.params, ft.results);
  }

  /** The context of a block's body, the state its lowering starts in, and what
      is emitted for it. */
  function BodyContext(s: Compiling, i: Instr, ft: FunctionType): BlockContext {
    BlockContext(KindOf(i), s.height - |ft.params|, |LabelOf(i, ft)|, s.next, s.next + 1)
  }

  function BodyEmission(m: Module, blocks: seq<BlockContext>, s: Compiling, i: Instr, ft: FunctionType): Emission
    requires i.Block? || i.Loop?
  {
    LowerSeq(m, blocks + [BodyContext(s, i, ft)], s.(next := s.next + 2), i.body)
  }

  lemma BlockLowered(k: Site, p: Spot, s: Compiling, i: Instr, at: nat, ft: FunctionType)
    requires p.blocks != [] && s.height >= 0 && (i.Block? || i.Loop?)
    requires BlockSig(p.c.m, i.bt) == (|ft.params|, |ft.results|)
    requires Placed(k, at, Lower(p.c.m, p.blocks, s, i))
    ensures var e := BodyEmission(p.c.m, p.blocks, s, i, ft);
            var e' := Lower(p.c.m, p.blocks, s, i);
            var end := at + 1 + |e.code|;
            && Placed(k, at + 1, e)
            && k.code[at] == Label(s.next) && k.code[end] == Label(s.next + 1) && end + 1 < |k.code|
            && at + |e'.code| == end + 1
            && e'.st.base == s.base && e'.st.dead == s.dead && e'.st.height == s.height - |ft.params| + |ft.results|
  {
    var e := BodyEmission(p.c.m, p.blocks, s, i, ft);
    var e' := Lower(p.c.m, p.blocks, s, i);
    assert LowerStructured(p.c.m, p.blocks, s, i)
        == LowerBlock(p.c.m, p.blocks, s, KindOf(i), |ft.params|, |ft.results|, |LabelOf(i, ft)|, i.body);
    assert e'.code == [Label(s.next)] + e.code + [Label(s.next + 1)];
    BlockPlaced(k, at, s.next, e, e'.code);
    assert e.st.base == s.base by {
      LowerSeqEmits(p.c.m, p.blocks + [BodyContext(s, i, ft)], s.(next := s.next + 2), i.body);
    }
  }

  /** The surroundings of a block's body. */
  function BodySpot(p: Spot, s: Compiling, i: Instr, ft: FunctionType, at: nat, vs: seq<Raw>): Spot
    requires (i.Block? || i.Loop?) && |ft.params| <= |vs|
  {
    var end := at + 1 + |BodyEmission(p.c.m, p.blocks, s, i, ft).code|;
    Inside(p, LabelOf(i, ft), BodyContext(s, i, ft), if i.Loop? then at else end, Below(vs, |ft.params|))
  }

  lemma BlockEntered(env: Env, codes: seq<ModuleCode>, k: Site, p: Spot, s: Compiling, i: Instr, a: Operands, at: nat,
                     st: State, ft: FunctionType)
    requires Ready(env, codes, k, p, s, i, a, at, st) && AllLoaded(env, codes) && (i.Block? || i.Loop?)
    requires BlockFuncType(p.c.m, i.bt) == Some(ft)
    ensures |ft.params| <= |st.vs|
    ensures SeqReady(env, codes, k, BodySpot(p, s, i, ft, at, st.vs), s.(next := s.next + 2), i.body,
                     Push(Operands([], false), ft.params), at + 1, st.(vs := Top(st.vs, |ft.params|)))
  {
    hide ValidProgram, SiteOk, BlockOk, WorldOk, Check, Lower, LowerSeq, Placed, AllLoaded;
    SpotHasBlocks(env, codes, k, p);
    BlockTyped(p.c, i, a);
    BodyChecked(p.c, LabelOf(i, ft), ft, i.body);
    BlockLowered(k, p, s, i, at, ft);
    var end := at + 1 + |BodyEmission(p.c.m, p.blocks, s, i, ft).code|;
    InsideOk(env, codes, k, p, LabelOf(i, ft), BodyContext(s, i, ft), if i.Loop? then at else end, Below(st.vs, |ft.params|));
  }

  /** From the outcome of a block's body, already matched, to that of the block. */
  lemma BlockLeft(env: Env, codes: seq<ModuleCode>, k: Site, p: Spot, fuel: nat, s: Compiling, i: Instr, a: Operands,
                  at: nat, st: State, ft: FunctionType, o: Outcome, n: nat)
    requires Ready(env, codes, k, p, s, i, a, at, st) && (i.Block? || i.Loop?)
    requires BlockFuncType(p.c.m, i.bt) == Some(ft) && |ft.params| <= |st.vs|
    requires i.Loop? && o.Branch? ==> o.depth > 0
    requires var p' := BodySpot(p, s, i, ft, at, st.vs);
             var e := BodyEmission(p.c.m, p.blocks, s, i, ft);
             var r := CheckSeq(p'.c, i.body, Push(Operands([], false), ft.params));
             && |p'.blocks| == |p'.tgts| >= 1 && Args(p') >= 0 && r.Some? && at + 1 <= |k.code|
             && Matches(env, codes, k, p', fuel, o, at + 1 + |e.code|, e.st, r.value, n,
                        Run(env, codes, n, At(k, at + 1, p'.under + Top(st.vs, |ft.params|), st.locals, st.world)))
    ensures var e' := Lower(p.c.m, p.blocks, s, i);
            Matches(env, codes, k, p, fuel, Leave(|ft.results|, Below(st.vs, |ft.params|), o), at + |e'.code|, e'.st, Check(p.c, i, a).value, n,
                    Run(env, codes, n, At(k, at, p.under + st.vs, st.locals, st.world)))
  {
    hide ValidProgram, SiteOk, BlockOk, WorldOk, Check, Lower, LowerSeq, Placed, Lands, Run, Step, HostStep;
    SpotHasBlocks(env, codes, k, p);
    BlockTyped(p.c, i, a);
    BodyChecked(p.c, LabelOf(i, ft), ft, i.body);
    BlockLowered(k, p, s, i, at, ft);
    AtLabel(k, at, p.under + st.vs, st.locals, st.world);
    var p' := BodySpot(p, s, i, ft, at, st.vs);
    var e := BodyEmission(p.c.m, p.blocks, s, i, ft);
    var below := Below(st.vs, |ft.params|);
    var end := at + 1 + |e.code|;
    assert p'.under + Top(st.vs, |ft.params|) == p.under + st.vs;
    MatchesLeave(env, codes, k, p, fuel, LabelOf(i, ft), BodyContext(s, i, ft), if i.Loop? then at else end, below, o, |ft.results|,
                 end, e.st, CheckSeq(p'.c, i.body, Push(Operands([], false), ft.params)).value,
                 end + 1, Lower(p.c.m, p.blocks, s, i).st, Check(p.c, i, a).value,
                 n, Run(env, codes, n, At(k, at, p.under + st.vs, st.locals, st.world)));
  }

  lemma {:induction false} SimBlock(env: Env, codes: seq<ModuleCode>, k: Site, p: Spot, fuel: nat, s: Compiling,
                                    i: Instr, a: Operands, at: nat, st: State)
    returns (n: nat)
    requires Ready(env, codes, k, p, s, i, a, at, st) && AllLoaded(env, codes) && i.Block?
    ensures Simulated(env, codes, k, p, fuel, s, i, a, at, st, n)
    decreases fuel, 1, i, 0
  {
    hide Step, HostStep, Run, Lands, ValidProgram, AllLoaded, Lower, LowerSeq, Check, SiteOk, WorldOk, BlockOk, At;
    SpotHasBlocks(env, codes, k, p);
    BlockTyped(p.c, i, a);
    var ft := BlockFuncType(p.c.m, i.bt).value;
    BlockEntered(env, codes, k, p, s, i, a, at, st, ft);
    var st1 := st.(vs := Top(st.vs, |ft.params|));
    n := SimSeq(env, codes, k, BodySpot(p, s, i, ft, at, st.vs), fuel, s.(next := s.next + 2), i.body,
                Push(Operands([], false), ft.params), at + 1, st1);
    BlockLeft(env, codes, k, p, fuel, s, i, a, at, st, ft, EvalSeq(env, k.mi, |k.callers| + 1, fuel, i.body, st1), n);
  }

  lemma {:induction false} SimLoop(env: Env, codes: seq<ModuleCode>, k: Site, p: Spot, fuel: nat, s: Compiling,
                                   i: Instr, a: Operands, at: nat, st: State)
    returns (n: nat)
    requires Ready(env, codes, k, p, s, i, a, at, st) && AllLoaded(env, codes) && i.Loop?
    ensures Simulated(env, codes, k, p, fuel, s, i, a, at, st, n)
    decreases fuel, 1, i, 0
  {
    hide Step, HostStep, Run, Lands, ValidProgram, AllLoaded, Placed, Lower, LowerSeq, Check, SiteOk, WorldOk, BlockOk;
    hide At;
    SpotHasBlocks(env, codes, k, p);
    BlockTyped(p.c, i, a);
    var ft := BlockFuncType(p.c.m, i.bt).value;
    BlockEntered(env, codes, k, p, s, i, a, at, st, ft);
    BlockLowered(k, p, s, i, at, ft);
    var st1 := st.(vs := Top(st.vs, |ft.params|));
    n := SimIterate(env, codes, k, BodySpot(p, s, i, ft, at, st.vs), |ft.params|, fuel, s.(next := s.next + 2), i.body,
                    Push(Operands([], false), ft.params), at + 1, st1);
    BlockLeft(env, codes, k, p, fuel, s, i, a, at, st, ft, EvalLoop(env, k.mi, |k.callers| + 1, fuel, |ft.params|, i.body, st1), n);
  }

  /** Iterating a loop's body. Its label is the item before the body. */
  lemma {:induction false} SimIterate(env: Env, codes: seq<ModuleCode>, k: Site, p: Spot, params: nat, fuel: nat,
                                      s: Compiling, body: seq<Instr>, a: Operands, at: nat, st: State)
    returns (n: nat)
    requires SeqReady(env, codes, k, p, s, body, a, at, st)
    requires |a.ops| == params && at >= 1 && k.code[at - 1].Label?
    requires var j := |p.blocks| - 1;
             p.tgts[j] == at - 1 && p.blocks[j].arity == params && p.blocks[j].entry == Args(p) + |p.under|
    ensures var o := EvalLoop(env, k.mi, |k.callers| + 1, fuel, params, body, st);
            var e := LowerSeq(p.c.m, p.blocks, s, body);
            && (o.Branch? ==> o.depth > 0)
            && Matches(env, codes, k, p, fuel, o, at + |e.code|, e.st, CheckSeq(p.c, body, a).value, n,
                       Run(env, codes, n, At(k, at, p.under + st.vs, st.locals, st.world)))
    decreases fuel, 1, body, 1
  {
    hide Step, HostStep, ValidProgram, AllLoaded, LowerSeq, CheckSeq, EvalSeq, SiteOk, WorldOk, BlockOk, Run;
    SpotHasBlocks(env, codes, k, p);
    n := SimSeq(env, codes, k, p, fuel, s, body, a, at, st);
    var o := EvalSeq(env, k.mi, |k.callers| + 1, fuel, body, st);
    if o.Branch? && o.depth == 0 && fuel > 0 {
      var st' := o.st.(vs := Top(o.st.vs, params));
      assert p.under[..|p.under|] == p.under;
      AtLabel(k, at - 1, p.under + st'.vs, st'.locals, st'.world);
      var n' := SimIterate(env, codes, k, p, params, fuel - 1, s, body, a, at, st');
      var e := LowerSeq(p.c.m, p.blocks, s, body);
      MatchesThen(env, codes, k, p, fuel, fuel - 1, EvalLoop(env, k.mi, |k.callers| + 1, fuel - 1, params, body, st'),
                  at + |e.code|, e.st, CheckSeq(p.c, body, a).value, n, n', At(k, at, p.under + st.vs, st.locals, st.world));
      n := n + n';
    }
  }

  // ----- call instructions -----

  lemma RunStep(env: Env, codes: seq<ModuleCode>, n: nat, c: Config)
    ensures Run(env, codes, n + 1, c) == RunFrom(env, codes, n, HostStep(env, codes, c))
  {
    hide HostStep;
  }

  lemma {:induction false} SimDirectCall(env: Env, codes: seq<ModuleCode>, k: Site, p: Spot, fuel: nat, s: Compiling,
                                         i: Instr, a: Operands, at: nat, st: State)
    returns (n: nat)
    requires Ready(env, codes, k, p, s, i, a, at, st) && AllLoaded(env, codes) && i.Call?
    ensures Simulated(env, codes, k, p, fuel, s, i, a, at, st, n)
    decreases fuel, 1, i, 0
  {
    hide Ready, SpotOk, SiteOk, Placed, ValidProgram, Linked, InstanceLinked, InstanceWorld, WorldOk, Memory32, Loaded0;
    hide DistinctLabels;
    hide AllLoaded, BlockOk, EnterCall, Answer, CallFrom, HostStep, Lower;
    var op := ReadyFacts(env, codes, k, p, s, i, a, at, st);
    CalleeLinked(env, k.mi, i.func);
    var addr := env.insts[k.mi].funcAddrs[i.func];
    var ft := env.funcs[addr].ft;
    ApplyLive(p.c.m.types, a, ft.params, ft.results);
    var c := At(k, at, p.under + st.vs, st.locals, st.world);
    if fuel == 0 {
      n := 0;
      assert CallFrom(env, |k.callers| + 1, fuel, addr, st) == Timeout by { NoFuel(env, |k.callers| + 1, addr, st); }
    } else {
      n := SimCallFrom(env, codes, k, p, fuel, addr, at + 1, st, Lower(p.c.m, p.blocks, s, i).st, Check(p.c, i, a).value);
      RunStep(env, codes, n, c);
      n := n + 1;
    }
  }

  lemma NoFuel(env: Env, depth: nat, addr: nat, st: State)
    requires addr < |env.funcs| && |env.funcs[addr].ft.params| <= |st.vs|
    ensures CallFrom(env, depth, 0, addr, st) == Timeout
  {
  }

  lemma {:induction false} SimIndirectCall(env: Env, codes: seq<ModuleCode>, k: Site, p: Spot, fuel: nat, s: Compiling,
                                           i: Instr, a: Operands, at: nat, st: State)
    returns (n: nat)
    requires Ready(env, codes, k, p, s, i, a, at, st) && AllLoaded(env, codes) && i.CallIndirect?
    ensures Simulated(env, codes, k, p, fuel, s, i, a, at, st, n)
    decreases fuel, 1, i, 0
  {
    hide Ready, SpotOk, SiteOk, Placed, ValidProgram, Linked, InstanceLinked, InstanceWorld, WorldOk, Memory32, Loaded0;
    hide DistinctLabels;
    hide AllLoaded, BlockOk, EnterCall, CallFrom, HostStep, ResolveIndirect, Lower;
    var op := ReadyFacts(env, codes, k, p, s, i, a, at, st);
    var (ft, t) := IndirectType(p.c.m, i.ty, i.table).value;
    ApplyLive(p.c.m.types, a, ft.params + [t], ft.results);
    var c := At(k, at, p.under + st.vs, st.locals, st.world);
    PopsAt(k, at + 1, p.under, st.vs, st.locals, st.world, 1);
    IndirectLinked(env, k.mi, i.ty, i.table, Top(st.vs, 1)[0], st.world);
    var callee := ResolveIndirect(env, k.mi, i.ty, i.table, Top(st.vs, 1)[0], st.world);
    var st' := st.(vs := Below(st.vs, 1));
    if callee.CalleeAt? && fuel == 0 {
      n := 0;
      NoFuel(env, |k.callers| + 1, callee.addr, st');
    } else if callee.CalleeAt? {
      n := SimCallFrom(env, codes, k, p, fuel, callee.addr, at + 1, st', Lower(p.c.m, p.blocks, s, i).st, Check(p.c, i, a).value);
      RunStep(env, codes, n, c);
      n := n + 1;
    } else {
      n := 1;
      RunOne(env, codes, c);
    }
  }

  // ----- conditionals -----

  lemma ConditionalTyped(c: Context, i: Instr, a: Operands)
    requires i.IfElse? && !a.dead && Check(c, i, a).Some?
    ensures BlockFuncType(c.m, i.bt).Some?
    ensures var ft := BlockFuncType(c.m, i.bt).value;
            && BlockSig(c.m, i.bt) == (|ft.params|, |ft.results|)
            && CheckBody(c, ft.results, ft, i.thn) && CheckBody(c, ft.results, ft, i.els)
            && |ft.params| + 1 <= |a.ops|
            && var a' := Check(c, i, a).value; !a'.dead && |a'.ops| == |a.ops| - 1 - |ft.params| + |ft.results|
  {
    hide CheckBody;
    var ft := BlockFuncType(c.m, i.bt).value;
    ApplyLive(c.m.types, a, ft.params + [I32], ft.results);
  }

  /** A lowered conditional, taken apart: the two arms' emissions, the jump over
      the alternative, and the items where the arms and the end label stand. */
  datatype Arms = Arms(b: BlockContext, t: Emission, skip: seq<Item>, e: Emission, skipAt: nat, elseAt: nat, end: nat)

  function ArmsOf(p: Spot, s: Compiling, i: Instr, at: nat, ft: FunctionType): Arms
    requires i.IfElse? && p.blocks != []
  {
    var b := BlockContext(IfElseBlock, s.height - 1 - |ft.params|, |ft.results|, s.next + 2, s.next + 1);
    var t := LowerSeq(p.c.m, p.blocks + [b], s.(height := s.height - 1, next := s.next + 3), i.thn);
    var e := LowerSeq(p.c.m, p.blocks + [b], t.st.(height := s.height - 1, dead := s.dead), i.els);
    var skip := if i.els == [] then [] else One(p.blocks, t.st, Jump(s.next + 1, 0, 0));
    var skipAt := at + 2 + |t.code|;
    var elseAt := skipAt + |skip| + 1;
    Arms(b, t, skip, e, skipAt, elseAt, elseAt + |e.code|)
  }

  ghost predicate ArmsPlaced(k: Site, p: Spot, s: Compiling, i: Instr, at: nat, x: Arms)
    requires p.blocks != [] && i.IfElse?
  {
    && Placed(k, at + 2, x.t) && Placed(k, x.elseAt, x.e) && x.end + 1 < |k.code|
    && x.skipAt <= x.elseAt - 1 && x.elseAt <= x.end
    && k.code[at] == Emitted(Line(JumpIfNot(s.next, 0, 0), Recorded(p.blocks, s.height, s.dead)))
    && k.code[at + 1].Label?
    && k.code[x.elseAt - 1] == Label(s.next)
    && k.code[x.end] == Label(s.next + 1)
    && (if i.els == [] then x.skipAt + 1 == x.elseAt == x.end
        else
          && x.skipAt + 2 == x.elseAt
          && k.code[x.skipAt] == Emitted(Line(Jump(s.next + 1, 0, 0), Recorded(p.blocks, x.t.st.height, x.t.st.dead))))
  }

  lemma ConditionalAt(n: nat, test: seq<Item>, thn: seq<Item>, skip: seq<Item>, els: seq<Item>)
    requires |test| == 1
    ensures var code := ConditionalCode(n, test, thn, skip, els);
            var (lt, ls, le) := (|thn|, |skip|, |els|);
            && |code| == 4 + lt + ls + le
            && code[0] == test[0] && code[1] == Label(n + 2)
            && code[2..2 + lt] == thn && code[2 + lt..2 + lt + ls] == skip
            && code[2 + lt + ls] == Label(n)
            && code[3 + lt + ls..3 + lt + ls + le] == els
            && code[3 + lt + ls + le] == Label(n + 1)
  {
  }

  lemma ConditionalPlaced(k: Site, p: Spot, s: Compiling, i: Instr, at: nat, x: Arms, code: seq<Item>)
    requires i.IfElse? && p.blocks != [] && at + 3 + |x.t.code| + |x.skip| + |x.e.code| == x.end
    requires code == ConditionalCode(s.next, One(p.blocks, s, JumpIfNot(s.next, 0, 0)), x.t.code, x.skip, x.e.code)
    requires at + |code| < |k.code| && k.code[at..at + |code|] == code
    requires x.skipAt == at + 2 + |x.t.code| && x.elseAt == x.skipAt + |x.skip| + 1
    requires x.t.st.tables <= x.e.st.tables <= k.tables
    requires x.skip == (if i.els == [] then [] else One(p.blocks, x.t.st, Jump(s.next + 1, 0, 0)))
    requires i.els == [] ==> x.e.code == []
    ensures ArmsPlaced(k, p, s, i, at, x) && at + |code| == x.end + 1
  {
    hide ConditionalCode;
    CodePlaced(k, at, s.next, One(p.blocks, s, JumpIfNot(s.next, 0, 0)), x.t.code, x.skip, x.e.code);
  }

  /** Where the parts of a conditional's code stand. */
  lemma CodePlaced(k: Site, at: nat, n: nat, test: seq<Item>, thn: seq<Item>, skip: seq<Item>, els: seq<Item>)
    requires |test| == 1 && |skip| <= 1
    requires var code := ConditionalCode(n, test, thn, skip, els); at + |code| < |k.code| && k.code[at..at + |code|] == code
    ensures var (lt, ls, le) := (|thn|, |skip|, |els|);
            && at + 4 + lt + ls + le < |k.code|
            && k.code[at] == test[0] && k.code[at + 1] == Label(n + 2)
            && k.code[at + 2..at + 2 + lt] == thn && (skip != [] ==> k.code[at + 2 + lt] == skip[0])
            && k.code[at + 2 + lt + ls] == Label(n)
            && k.code[at + 3 + lt + ls..at + 3 + lt + ls + le] == els
            && k.code[at + 3 + lt + ls + le] == Label(n + 1)
            && |ConditionalCode(n, test, thn, skip, els)| == 4 + lt + ls + le
  {
    var code := ConditionalCode(n, test, thn, skip, els);
    hide ConditionalCode;
    var (lt, ls, le) := (|thn|, |skip|, |els|);
    ConditionalAt(n, test, thn, skip, els);
    PlacedSlice(k, at, code, 2, 2 + lt);
    PlacedSlice(k, at, code, 3 + lt + ls, 3 + lt + ls + le);
    PlacedItem(k, at, code, 0);
    PlacedItem(k, at, code, 1);
    PlacedItem(k, at, code, 2 + lt + ls);
    PlacedItem(k, at, code, 3 + lt + ls + le);
    if ls > 0 {
      PlacedItem(k, at, code, 2 + lt);
      assert code[2 + lt..2 + lt + ls][0] == code[2 + lt];
    }
  }

  lemma PlacedItem(k: Site, at: nat, code: seq<Item>, j: nat)
    requires at + |code| < |k.code| && k.code[at..at + |code|] == code && j < |code|
    ensures k.code[at + j] == code[j]
  {
    assert k.code[at..at + |code|][j] == k.code[at + j];
  }

  /** What the code of a conditional consists of. */
  lemma ConditionalParts(p: Spot, s: Compiling, i: Instr, at: nat, ft: FunctionType)
    requires p.blocks != [] && s.height - 1 >= 0 && i.IfElse?
    requires BlockSig(p.c.m, i.bt) == (|ft.params|, |ft.results|)
    ensures var (x, e') := (ArmsOf(p, s, i, at, ft), Lower(p.c.m, p.blocks, s, i));
            && e'.code == ConditionalCode(s.next, One(p.blocks, s, JumpIfNot(s.next, 0, 0)), x.t.code, x.skip, x.e.code)
            && e'.st.height == s.height - 1 - |ft.params| + |ft.results| && e'.st.dead == s.dead
            && (i.els == [] ==> x.e.code == [] && e'.st.tables == x.t.st.tables == x.e.st.tables && e'.st.base == x.t.st.base)
            && (i.els != [] ==> e'.st.tables == x.e.st.tables && e'.st.base == x.e.st.base)
  {
    hide One, ConditionalCode;
    assert LowerStructured(p.c.m, p.blocks, s, i) == LowerConditional(p.c.m, p.blocks, s, i);
  }

  /** The arms keep the base of the branch tables and add to them. */
  lemma ArmsKeep(p: Spot, s: Compiling, i: Instr, at: nat, ft: FunctionType)
    requires p.blocks != [] && i.IfElse?
    ensures var x := ArmsOf(p, s, i, at, ft); x.t.st.base == x.e.st.base == s.base && x.t.st.tables <= x.e.st.tables
  {
    hide LowerSeq, One;
    var x := ArmsOf(p, s, i, at, ft);
    var inner := p.blocks + [x.b];
    LowerSeqEmits(p.c.m, inner, s.(height := s.height - 1, next := s.next + 3), i.thn);
    LowerSeqEmits(p.c.m, inner, x.t.st.(height := s.height - 1, dead := s.dead), i.els);
  }

  lemma ConditionalLowered(k: Site, p: Spot, s: Compiling, i: Instr, at: nat, ft: FunctionType)
    requires p.blocks != [] && s.height - 1 >= 0 && i.IfElse?
    requires BlockSig(p.c.m, i.bt) == (|ft.params|, |ft.results|)
    requires Placed(k, at, Lower(p.c.m, p.blocks, s, i))
    ensures var x := ArmsOf(p, s, i, at, ft);
            var e' := Lower(p.c.m, p.blocks, s, i);
            && ArmsPlaced(k, p, s, i, at, x) && at + |e'.code| == x.end + 1
            && x.t.st.base == s.base
            && e'.st.base == s.base && e'.st.dead == s.dead
            && e'.st.height == s.height - 1 - |ft.params| + |ft.results|
  {
    hide Lower, LowerSeq, One, ConditionalCode, ArmsPlaced;
    ConditionalParts(p, s, i, at, ft);
    ArmsKeep(p, s, i, at, ft);
    var (x, e') := (ArmsOf(p, s, i, at, ft), Lower(p.c.m, p.blocks, s, i));
    CodeLength(s.next, One(p.blocks, s, JumpIfNot(s.next, 0, 0)), x.t.code, x.skip, x.e.code);
    ConditionalPlaced(k, p, s, i, at, x, e'.code);
  }

  lemma CodeLength(n: nat, test: seq<Item>, thn: seq<Item>, skip: seq<Item>, els: seq<Item>)
    ensures |ConditionalCode(n, test, thn, skip, els)| == |test| + 3 + |thn| + |skip| + |els|
  {
  }

  /** The test enters the first arm on a nonzero operand and the second on zero. */
  lemma TestJumps(env: Env, codes: seq<ModuleCode>, k: Site, p: Spot, s: Compiling, i: Instr, at: nat, x: Arms,
                  st: State)
    requires SiteOk(env, codes, k) && p.blocks != [] && i.IfElse? && ArmsPlaced(k, p, s, i, at, x)
    requires |st.vs| >= 1 && s.height == Args(p) + |p.under| + |st.vs| && !s.dead
    ensures var vs := p.under + Below(st.vs, 1);
            HostStep(env, codes, At(k, at, p.under + st.vs, st.locals, st.world)) ==
            Next(At(k, if AsI32(Top(st.vs, 1)[0]) != 0 then at + 2 else x.elseAt, vs, st.locals, st.world))
  {
    hide JumpTo, LabelPosition, Loaded0, HeightsAtMost, HostStep, DistinctLabels;
    StepsIntoBody(env, codes, k, at, p.under + st.vs, st.locals, st.world);
    PopsAt(k, at + 1, p.under, st.vs, st.locals, st.world, 1);
    var vs := p.under + Below(st.vs, 1);
    AtLabel(k, at + 1, vs, st.locals, st.world);
    Jumps(k, at + 1, vs, st.locals, st.world, s.next, x.elseAt - 1, 0, 0);
    assert vs[..|vs|] + Top(vs, 0) == vs;
    AtLabel(k, x.elseAt - 1, vs, st.locals, st.world);
  }

  /** The jump at the end of the first arm passes over the second. */
  lemma SkipJumps(env: Env, codes: seq<ModuleCode>, k: Site, p: Spot, s: Compiling, i: Instr, at: nat, x: Arms,
                  vs: seq<Raw>, locals: seq<Raw>, w: World)
    requires SiteOk(env, codes, k) && p.blocks != [] && i.IfElse? && i.els != [] && ArmsPlaced(k, p, s, i, at, x)
    requires x.t.st.height == Args(p) + |vs| && !x.t.st.dead
    ensures HostStep(env, codes, At(k, x.skipAt, vs, locals, w)) == Next(At(k, x.end, vs, locals, w))
  {
    StepsIntoBody(env, codes, k, x.skipAt, vs, locals, w);
    Jumps(k, x.skipAt + 1, vs, locals, w, s.next + 1, x.end, 0, 0);
    assert vs[..|vs|] + Top(vs, 0) == vs;
  }

  /** The surroundings of both arms. */
  function ArmSpot(p: Spot, x: Arms, ft: FunctionType, vs: seq<Raw>): Spot
    requires |ft.params| + 1 <= |vs|
  {
    Inside(p, ft.results, x.b, x.end, Below(Below(vs, 1), |ft.params|))
  }

  function ArmState(ft: FunctionType, st: State): State
    requires |ft.params| + 1 <= |st.vs|
  {
    st.(vs := Top(Below(st.vs, 1), |ft.params|))
  }

  lemma ConditionalEntered(env: Env, codes: seq<ModuleCode>, k: Site, p: Spot, s: Compiling, i: Instr, a: Operands,
                           at: nat, st: State, ft: FunctionType)
    requires Ready(env, codes, k, p, s, i, a, at, st) && AllLoaded(env, codes) && i.IfElse?
    requires BlockFuncType(p.c.m, i.bt) == Some(ft)
    ensures |ft.params| + 1 <= |st.vs| && ArmsPlaced(k, p, s, i, at, ArmsOf(p, s, i, at, ft))
    ensures var x := ArmsOf(p, s, i, at, ft);
            var start := Push(Operands([], false), ft.params);
            && SeqReady(env, codes, k, ArmSpot(p, x, ft, st.vs), s.(height := s.height - 1, next := s.next + 3), i.thn, start, at + 2, ArmState(ft, st))
            && SeqReady(env, codes, k, ArmSpot(p, x, ft, st.vs), x.t.st.(height := s.height - 1, dead := s.dead), i.els, start, x.elseAt, ArmState(ft, st))
  {
    hide ValidProgram, SiteOk, BlockOk, WorldOk, Check, Lower, LowerSeq, Placed, AllLoaded;
    SpotHasBlocks(env, codes, k, p);
    ConditionalTyped(p.c, i, a);
    BodyChecked(p.c, ft.results, ft, i.thn);
    BodyChecked(p.c, ft.results, ft, i.els);
    ConditionalLowered(k, p, s, i, at, ft);
    var x := ArmsOf(p, s, i, at, ft);
    InsideOk(env, codes, k, p, ft.results, x.b, x.end, Below(Below(st.vs, 1), |ft.params|));
  }

  /** From the matched outcome of the arm that was taken to that of the conditional. */
  lemma ArmLeft(env: Env, codes: seq<ModuleCode>, k: Site, p: Spot, fuel: nat, s: Compiling, i: Instr, a: Operands,
                at: nat, st: State, ft: FunctionType, o: Outcome, bodyEnd: nat, s': Compiling, a': Operands, n: nat,
                r: Result)
    requires Ready(env, codes, k, p, s, i, a, at, st) && i.IfElse?
    requires BlockFuncType(p.c.m, i.bt) == Some(ft) && |ft.params| + 1 <= |st.vs|
    requires var x := ArmsOf(p, s, i, at, ft);
             && (bodyEnd == x.end || (i.els == [] && bodyEnd == x.skipAt))
             && Matches(env, codes, k, ArmSpot(p, x, ft, st.vs), fuel, o, bodyEnd, s', a', n, r)
    requires !a'.dead ==> |a'.ops| == |ft.results|
    ensures var e' := Lower(p.c.m, p.blocks, s, i);
            Matches(env, codes, k, p, fuel, Leave(|ft.results|, Below(Below(st.vs, 1), |ft.params|), o), at + |e'.code|, e'.st,
                    Check(p.c, i, a).value, n, r)
  {
    hide ValidProgram, SiteOk, BlockOk, WorldOk, Check, Lower, LowerSeq, Placed, Lands, Run, Step, HostStep;
    SpotHasBlocks(env, codes, k, p);
    ConditionalTyped(p.c, i, a);
    ConditionalLowered(k, p, s, i, at, ft);
    var x := ArmsOf(p, s, i, at, ft);
    MatchesLeave(env, codes, k, p, fuel, ft.results, x.b, x.end, Below(Below(st.vs, 1), |ft.params|), o, |ft.results|,
                 bodyEnd, s', a', x.end + 1, Lower(p.c.m, p.blocks, s, i).st, Check(p.c, i, a).value, n, r);
  }

  lemma {:induction false} SimConditional(env: Env, codes: seq<ModuleCode>, k: Site, p: Spot, fuel: nat, s: Compiling,
                                          i: Instr, a: Operands, at: nat, st: State)
    returns (n: nat)
    requires Ready(env, codes, k, p, s, i, a, at, st) && AllLoaded(env, codes) && i.IfElse?
    ensures Simulated(env, codes, k, p, fuel, s, i, a, at, st, n)
    decreases fuel, 1, i, 0
  {
    hide Step, HostStep, Run, Lands, ValidProgram, AllLoaded, Placed, Lower, LowerSeq, Check, CheckSeq, SiteOk, WorldOk;
    hide BlockOk, At, Matches;
    SpotHasBlocks(env, codes, k, p);
    ConditionalTyped(p.c, i, a);
    var ft := BlockFuncType(p.c.m, i.bt).value;
    ConditionalEntered(env, codes, k, p, s, i, a, at, st, ft);
    var x := ArmsOf(p, s, i, at, ft);
    TestJumps(env, codes, k, p, s, i, at, x, st);
    var c := At(k, at, p.under + st.vs, st.locals, st.world);
    RunOne(env, codes, c);
    var p' := ArmSpot(p, x, ft, st.vs);
    var (start, st1) := (Push(Operands([], false), ft.params), ArmState(ft, st));
    assert p'.under + st1.vs == p.under + Below(st.vs, 1);
    var taken := AsI32(Top(st.vs, 1)[0]) != 0;
    if taken {
      n := SimFirstArm(env, codes, k, p, p', fuel, s, i, at, x, start, st1);
    } else {
      n := SimSeq(env, codes, k, p', fuel, x.t.st.(height := s.height - 1, dead := s.dead), i.els, start, x.elseAt, st1);
    }
    var body := if taken then i.thn else i.els;
    var s1 := if taken then s.(height := s.height - 1, next := s.next + 3) else x.t.st.(height := s.height - 1, dead := s.dead);
    BodyChecked(p.c, ft.results, ft, body);
    var o := EvalSeq(env, k.mi, |k.callers| + 1, fuel, body, st1);
    var bodyEnd := if taken && i.els == [] then x.skipAt else x.end;
    var (s', a') := (LowerSeq(p.c.m, p'.blocks, s1, body).st, CheckSeq(p'.c, body, start).value);
    MatchesThen(env, codes, k, p', fuel, fuel, o, bodyEnd, s', a', 1, n, c);
    n := 1 + n;
    ArmLeft(env, codes, k, p, fuel, s, i, a, at, st, ft, o, bodyEnd, s', a', n, Run(env, codes, n, c));
  }

  /** The first arm, with the jump over the second when there is one. */
  lemma {:induction false} SimFirstArm(env: Env, codes: seq<ModuleCode>, k: Site, p: Spot, p': Spot, fuel: nat,
                                       s: Compiling, i: Instr, at: nat, x: Arms, start: Operands, st: State)
    returns (n: nat)
    requires i.IfElse? && p.blocks != [] && ArmsPlaced(k, p, s, i, at, x)
    requires SeqReady(env, codes, k, p', s.(height := s.height - 1, next := s.next + 3), i.thn, start, at + 2, st)
    requires Args(p') == Args(p)
    requires x.t == LowerSeq(p'.c.m, p'.blocks, s.(height := s.height - 1, next := s.next + 3), i.thn)
    requires x.skipAt == at + 2 + |x.t.code|
    ensures Matches(env, codes, k, p', fuel, EvalSeq(env, k.mi, |k.callers| + 1, fuel, i.thn, st), if i.els == [] then x.skipAt else x.end,
                    x.t.st, CheckSeq(p'.c, i.thn, start).value, n, Run(env, codes, n, At(k, at + 2, p'.under + st.vs, st.locals, st.world)))
    decreases fuel, 1, i.thn, 1
  {
    hide Step, HostStep, Lands, ValidProgram, AllLoaded, LowerSeq, CheckSeq, EvalSeq, WorldOk, BlockOk;
    hide SiteOk, Placed, Run;
    SpotHasBlocks(env, codes, k, p');
    var c := At(k, at + 2, p'.under + st.vs, st.locals, st.world);
    n := SimSeq(env, codes, k, p', fuel, s.(height := s.height - 1, next := s.next + 3), i.thn, start, at + 2, st);
    var o := EvalSeq(env, k.mi, |k.callers| + 1, fuel, i.thn, st);
    if o.Normal? && i.els != [] {
      var c' := Run(env, codes, n, c).c;
      SkipJumps(env, codes, k, p, s, i, at, x, p'.under + o.st.vs, o.st.locals, o.st.world);
      RunOne(env, codes, c');
      RunThen(env, codes, n, 1, c);
      n := n + 1;
    }
  }

  // ----- calls of functions -----

  /** The surroundings of a function's body: its own label leads to the final return. */
  function FunctionSpot(m: Module, f: Function, ft: FunctionType, e: Emission): Spot {
    Spot(WithLabel(FunctionContext(m, f, ft), ft.results),
         [BlockContext(FunctionBlock, |ft.params|, |ft.results|, 0, 1)],
         [if |e.code| >= 2 then |e.code| - 2 else 0], [])
  }

  lemma FunctionEntered(env: Env, codes: seq<ModuleCode>, mi: nat, fi: nat, base: nat, ft: FunctionType,
                        args: seq<Raw>, low: seq<Raw>, callers: seq<Frame>, w: World)
    requires ValidProgram(env) && AllLoaded(env, codes) && WorldOk(env, w)
    requires mi < |env.insts| && fi < |env.insts[mi].mod.functions| && LoadedFrom(env, codes, mi, fi, base)
    requires FuncTypeAt(env.insts[mi].mod.types, env.insts[mi].mod.functions[fi].typeIndex) == Some(ft)
    requires |args| == |ft.params| && CallersBelow(callers, |low|) && |callers| < MAX_CALL_DEPTH
    ensures var (m, f) := (env.insts[mi].mod, env.insts[mi].mod.functions[fi]);
            var e := LowerFunction(m, f, base);
            var k := SiteOf(mi, fi, e, low, callers, |ft.results|);
            var p := FunctionSpot(m, f, ft, e);
            var s := Compiling(|ft.params|, 0, 2, base, [], false);
            var st := State([], args + Zeros(|f.locals|), w);
            var body := LowerSeq(m, p.blocks, s, f.body);
            var n := |e.code|;
            && SeqReady(env, codes, k, p, s, f.body, Operands([], false), 1, st)
            && n >= 3 && 1 + |body.code| == n - 2 && e.code[0].Label? && e.code[n - 2].Label? && e.code[n - 1] == Emitted(Line(ReturnOp, |ft.results|))
            && body.st.max == k.maxHeight && Counted(body.st, |ft.params|)
            && (var a := CheckSeq(p.c, f.body, Operands([], false)).value; !a.dead ==> |a.ops| == |ft.results|)
  {
    hide WorldOk, AllLoaded, LoadedFunction, LowerSeq, CheckSeq, CheckFunction, ValidProgram, DistinctLabels;
    hide HeightsAtMost, Counted;
    var (m, f) := (env.insts[mi].mod, env.insts[mi].mod.functions[fi]);
    FunctionLowered(m, f, base, ft);
    FunctionChecked(env, mi, fi, ft);
    var e := LowerFunction(m, f, base);
    assert BlockOk(SiteOf(mi, fi, e, low, callers, |ft.results|), FunctionSpot(m, f, ft, e), 0);
  }

  /** A function's code is its body's between two labels and before a return. */
  lemma FunctionLowered(m: Module, f: Function, base: nat, ft: FunctionType)
    requires FuncTypeAt(m.types, f.typeIndex) == Some(ft)
    ensures var e := LowerFunction(m, f, base);
            var body := LowerSeq(m, FunctionSpot(m, f, ft, e).blocks, Compiling(|ft.params|, 0, 2, base, [], false), f.body);
            var n := |e.code|;
            && n >= 3 && 1 + |body.code| == n - 2 && e.code[1..1 + |body.code|] == body.code && body.st == e.st
            && e.code[0].Label? && e.code[n - 2] == Label(1) && e.code[n - 1] == Emitted(Line(ReturnOp, |ft.results|))
            && DistinctLabels(e.code) && HeightsAtMost(e.code[..n - 1], e.st.max) && Counted(e.st, |ft.params|) && e.st.base == base
  {
    hide LowerSeq, DistinctLabels, HeightsAtMost, Counted;
    LowerFunctionEmits(m, f, base);
  }

  lemma FunctionChecked(env: Env, mi: nat, fi: nat, ft: FunctionType)
    requires ValidProgram(env) && mi < |env.insts| && fi < |env.insts[mi].mod.functions|
    requires FuncTypeAt(env.insts[mi].mod.types, env.insts[mi].mod.functions[fi].typeIndex) == Some(ft)
    ensures var (m, f) := (env.insts[mi].mod, env.insts[mi].mod.functions[fi]);
            var a := CheckSeq(WithLabel(FunctionContext(m, f, ft), ft.results), f.body, Operands([], false));
            a.Some? && (!a.value.dead ==> |a.value.ops| == |ft.results|)
  {
    hide CheckSeq, Linked;
    var (m, f) := (env.insts[mi].mod, env.insts[mi].mod.functions[fi]);
    assert CheckFunction(m, f);
    BodyChecked(FunctionContext(m, f, ft), ft.results, FunctionType([], ft.results), f.body);
    assert Push(Operands([], false), []) == Operands([], false);
  }

  lemma {:induction false} SimCall(env: Env, codes: seq<ModuleCode>, fuel: nat, addr: nat, args: seq<Raw>,
                                   low: seq<Raw>, callers: seq<Frame>, w: World) returns (n: nat)
    requires ValidProgram(env) && AllLoaded(env, codes) && WorldOk(env, w)
    requires addr < |env.funcs| && |args| == |env.funcs[addr].ft.params|
    requires CallersBelow(callers, |low|)
    ensures CallMatches(env, fuel, CallFunction(env, |callers|, fuel, addr, args, w), |env.funcs[addr].ft.results|, low, callers, n,
                        RunFrom(env, codes, n, Answer(env, EnterCall(env, codes, Config(low + args, callers, w), addr))))
    decreases fuel, 3
  {
    hide AllLoaded, WorldOk;
    var c := Config(low + args, callers, w);
    assert Top(c.stack, |args|) == args && Below(c.stack, |args|) == low;
    n := 0;
    if |callers| < MAX_CALL_DEPTH {
      match env.funcs[addr]
      case HostFunc(ft, m, f) =>
        assert HostKeepsWorld(env);
        assert WorldOk(env, env.host(m, f, args, w).world);
      case LocalFunc(_, _, _) =>
        n := SimLocal(env, codes, fuel, addr, args, low, callers, w);
    }
  }

  lemma EntersLocal(env: Env, codes: seq<ModuleCode>, addr: nat, args: seq<Raw>, low: seq<Raw>, callers: seq<Frame>,
                    w: World, k: Site, locals: seq<ValueType>)
    requires addr < |env.funcs| && env.funcs[addr].LocalFunc? && |args| == |env.funcs[addr].ft.params|
    requires CallersBelow(callers, |low|) && |callers| < MAX_CALL_DEPTH
    requires k.mi == env.funcs[addr].mi && k.fi == env.funcs[addr].fi && k.low == low && k.callers == callers
    requires k.arity == |env.funcs[addr].ft.results|
    requires k.mi < |codes| && k.fi < |codes[k.mi].funcs| && codes[k.mi].funcs[k.fi].localTypes == locals
    ensures EnterCall(env, codes, Config(low + args, callers, w), addr) == Next(At(k, 0, [], args + Zeros(|locals|), w))
  {
    var c := Config(low + args, callers, w);
    assert Top(c.stack, |args|) == args && Below(c.stack, |args|) == low && low + [] == low;
    assert k.code[..0] == [];
  }

  lemma FinalReturn(env: Env, codes: seq<ModuleCode>, k: Site, vs: seq<Raw>, locals: seq<Raw>, w: World)
    requires SiteOk(env, codes, k) && |k.code| >= 2 && |vs| == k.arity <= k.maxHeight
    requires k.code[|k.code| - 2].Label? && k.code[|k.code| - 1] == Emitted(Line(ReturnOp, k.arity))
    ensures Run(env, codes, 1, At(k, |k.code| - 2, vs, locals, w)) == Next(After(k, vs, w))
  {
    var last := |k.code| - 1;
    AtLabel(k, last - 1, vs, locals, w);
    StepsInto(env, codes, k, last, vs, locals, w);
    assert [] + vs == vs && Top(vs, k.arity) == vs;
    ReturnsFrom(k, last + 1, [], vs, locals, w);
    RunOne(env, codes, At(k, last, vs, locals, w));
  }

  /** The last two items of a function's code, and what its body leaves for them. */
  ghost predicate BodyEnds(env: Env, codes: seq<ModuleCode>, k: Site, p: Spot, s: Compiling, a: Operands) {
    && SiteOk(env, codes, k) && |k.code| >= 3
    && k.code[|k.code| - 2].Label? && k.code[|k.code| - 1] == Emitted(Line(ReturnOp, k.arity))
    && p.under == [] && |p.blocks| == |p.tgts| == 1 && Args(p) >= 0 && p.blocks[0].arity == k.arity && p.tgts[0] == |k.code| - 2
    && Counted(s, Args(p)) && s.max == k.maxHeight && (!a.dead ==> |a.ops| == k.arity)
  }

  /** A function body that ends, or branches to the function's own label, returns. */
  lemma BodyReturns(env: Env, codes: seq<ModuleCode>, k: Site, p: Spot, fuel: nat, o: Outcome, s: Compiling,
                    a: Operands, n: nat, c: Config)
    returns (vs: seq<Raw>)
    requires BodyEnds(env, codes, k, p, s, a)
    requires (o.Normal? || o.Branch?) && Matches(env, codes, k, p, fuel, o, |k.code| - 2, s, a, n, Run(env, codes, n, c))
    ensures o.Branch? ==> o.depth == 0 && k.arity <= |o.st.vs|
    ensures vs == (if o.Normal? then o.st.vs else Top(o.st.vs, k.arity))
    ensures |vs| == k.arity && WorldOk(env, o.st.world) && Run(env, codes, n + 1, c) == Next(After(k, vs, o.st.world))
  {
    hide SiteOk, WorldOk, At, Run, EnterCall, Answer, Step, HostStep;
    vs := if o.Normal? then o.st.vs else Top(o.st.vs, k.arity);
    assert [] + vs == vs && p.under[..0] == [];
    FinalReturn(env, codes, k, vs, o.st.locals, o.st.world);
    RunThen(env, codes, n, 1, c);
  }

  /** A call of a local function starts its body, and the body is simulated. */
  lemma {:induction false} SimBody(env: Env, codes: seq<ModuleCode>, fuel: nat, addr: nat, args: seq<Raw>,
                                   low: seq<Raw>, callers: seq<Frame>, w: World)
    returns (k: Site, p: Spot, s: Compiling, a: Operands, n: nat)
    requires ValidProgram(env) && AllLoaded(env, codes) && WorldOk(env, w)
    requires addr < |env.funcs| && env.funcs[addr].LocalFunc? && |args| == |env.funcs[addr].ft.params|
    requires CallersBelow(callers, |low|) && |callers| < MAX_CALL_DEPTH
    ensures BodyEnds(env, codes, k, p, s, a) && k.low == low && k.callers == callers
    ensures k.arity == |env.funcs[addr].ft.results|
    ensures var (mi, fi) := (env.funcs[addr].mi, env.funcs[addr].fi);
            && mi < |env.insts| && fi < |env.insts[mi].mod.functions|
            && var f := env.insts[mi].mod.functions[fi];
            var st := State([], args + Zeros(|f.locals|), w);
            var c := At(k, 1, [], st.locals, w);
            && Answer(env, EnterCall(env, codes, Config(low + args, callers, w), addr)) == Next(c)
            && Matches(env, codes, k, p, fuel, EvalSeq(env, mi, |callers| + 1, fuel, f.body, st), |k.code| - 2, s, a, n, Run(env, codes, n, c))
    decreases fuel, 2, 0
  {
    hide EnterCall, Step, HostStep, ValidProgram, WorldOk, Run, SiteOk, LowerFunction, LowerSeq, EvalSeq, CheckSeq, At;
    hide AllLoaded, LoadedFrom, Matches;
    var func := env.funcs[addr];
    var (mi, fi, ft) := (func.mi, func.fi, func.ft);
    LocalLinked(env, codes, addr);
    var base :| LoadedFrom(env, codes, mi, fi, base);
    var (m, f) := (env.insts[mi].mod, env.insts[mi].mod.functions[fi]);
    var e := LowerFunction(m, f, base);
    k := SiteOf(mi, fi, e, low, callers, |ft.results|);
    p := FunctionSpot(m, f, ft, e);
    var start := Compiling(|ft.params|, 0, 2, base, [], false);
    var st := State([], args + Zeros(|f.locals|), w);
    FunctionEntered(env, codes, mi, fi, base, ft, args, low, callers, w);
    HasCode(env, codes, mi, fi, base);
    EntersLocal(env, codes, addr, args, low, callers, w, k, f.locals);
    AtLabel(k, 0, [], st.locals, w);
    n := SimSeq(env, codes, k, p, fuel, start, f.body, Operands([], false), 1, st);
    assert p.under + st.vs == [];
    s := LowerSeq(m, p.blocks, start, f.body).st;
    a := CheckSeq(p.c, f.body, Operands([], false)).value;
  }

  lemma {:induction false} SimLocal(env: Env, codes: seq<ModuleCode>, fuel: nat, addr: nat, args: seq<Raw>,
                                    low: seq<Raw>, callers: seq<Frame>, w: World) returns (n: nat)
    requires ValidProgram(env) && AllLoaded(env, codes) && WorldOk(env, w)
    requires addr < |env.funcs| && env.funcs[addr].LocalFunc? && |args| == |env.funcs[addr].ft.params|
    requires CallersBelow(callers, |low|) && |callers| < MAX_CALL_DEPTH
    ensures CallMatches(env, fuel, CallFunction(env, |callers|, fuel, addr, args, w), |env.funcs[addr].ft.results|, low, callers, n,
                        RunFrom(env, codes, n, Answer(env, EnterCall(env, codes, Config(low + args, callers, w), addr))))
    decreases fuel, 2
  {
    hide EnterCall, Answer, ValidProgram, WorldOk, Run, SiteOk, EvalSeq, At, AllLoaded;
    var k, p, s, a, n1 := SimBody(env, codes, fuel, addr, args, low, callers, w);
    var (mi, fi) := (env.funcs[addr].mi, env.funcs[addr].fi);
    var f := env.insts[mi].mod.functions[fi];
    var st := State([], args + Zeros(|f.locals|), w);
    var c := At(k, 1, [], st.locals, w);
    var o := EvalSeq(env, mi, |callers| + 1, fuel, f.body, st);
    n := n1;
    if o.Normal? || o.Branch? {
      var vs := BodyReturns(env, codes, k, p, fuel, o, s, a, n1, c);
      n := n1 + 1;
    } else if o.TailCall? && fuel > 0 {
      var n2 := SimCall(env, codes, fuel - 1, o.addr, o.args, low, callers, o.world);
      RunThen(env, codes, n1, n2, c);
      n := n1 + n2;
    } else if o.TailCall? {
      n := 0;
      RunNone(env, codes, c);
    }
  }

  lemma RunNone(env: Env, codes: seq<ModuleCode>, c: Config)
    ensures Run(env, codes, 0, c) == Next(c)
  {
  }

  lemma HasCode(env: Env, codes: seq<ModuleCode>, mi: nat, fi: nat, base: nat)
    requires mi < |env.insts| && fi < |env.insts[mi].mod.functions| && LoadedFrom(env, codes, mi, fi, base)
    ensures mi < |codes| && fi < |codes[mi].funcs|
    ensures codes[mi].funcs[fi].localTypes == env.insts[mi].mod.functions[fi].locals
  {
  }

  lemma LocalLinked(env: Env, codes: seq<ModuleCode>, addr: nat)
    requires ValidProgram(env) && AllLoaded(env, codes) && addr < |env.funcs| && env.funcs[addr].LocalFunc?
    ensures var func := env.funcs[addr];
            && func.mi < |env.insts| && func.fi < |env.insts[func.mi].mod.functions|
            && FuncTypeAt(env.insts[func.mi].mod.types, env.insts[func.mi].mod.functions[func.fi].typeIndex) == Some(func.ft)
            && LoadedFunction(env, codes, func.mi, func.fi)
  {
    assert FuncLinked(env, env.funcs[addr]);
  }
}