/** Stripping dead labels and fusing adjacent operations preserves every run:
    each step of optimized code is one or two steps of the code it came from. */
module Fusion {
  import opened Wasm
  import opened Runtime
  import opened Ir
  import opened Machine
  import opened Lowering
  import opened LoweringFacts
  import opened FusionFacts

  // ----- the two compilations of a program -----

  /** The compiled code of every instance's module, with or without the passes
      that strip labels and fuse operations. */
  function Compiled(env: Env, optimize: bool): (codes: seq<ModuleCode>)
    ensures |codes| == |env.insts|
  {
    seq(|env.insts|, i requires 0 <= i < |env.insts| => CompileModule(env.insts[i].mod, optimize))
  }

  function EmissionOf(m: Module, fi: nat): Emission
    requires fi < |m.functions|
  {
    LowerFunctions(m, |m.functions|)[fi]
  }

  function CodeOf(e: Emission, optimize: bool): seq<Item> {
    if optimize then Optimized(e) else e.code
  }

  lemma {:induction false} LowerFunctionsAt(m: Module, n: nat, i: nat)
    requires i < n <= |m.functions|
    ensures var es := LowerFunctions(m, n);
            es[i] == LowerFunction(m, m.functions[i], TableCount(es[..i]))
  {
    var es := LowerFunctions(m, n);
    var prior := LowerFunctions(m, n - 1);
    if i < n - 1 {
      LowerFunctionsAt(m, n - 1, i);
      assert es[..i] == prior[..i];
    } else {
      assert es[..i] == prior;
    }
  }

  lemma {:induction false} ModuleTablesCount(es: seq<Emission>, optimize: bool)
    ensures |ModuleTables(es, optimize)| == TableCount(es)
  {
    hide Optimized, ResolveTable;
    if es != [] {
      ModuleTablesCount(es[..|es| - 1], optimize);
    }
  }

  lemma {:induction false} ModuleTablesAt(es: seq<Emission>, optimize: bool, i: nat)
    requires i < |es|
    ensures |ModuleTables(es, optimize)| == TableCount(es)
    ensures TableCount(es[..i]) + |es[i].st.tables| <= TableCount(es)
    ensures forall t :: 0 <= t < |es[i].st.tables| ==>
              ModuleTables(es, optimize)[TableCount(es[..i]) + t] == ResolveTable(CodeOf(es[i], optimize), es[i].st.tables[t])
  {
    hide Optimized, ResolveTable;
    var n := |es| - 1;
    var (prior, last) := (ModuleTables(es[..n], optimize), ResolveTables(CodeOf(es[n], optimize), es[n].st.tables));
    assert ModuleTables(es, optimize) == prior + last;
    ModuleTablesCount(es, optimize);
    ModuleTablesCount(es[..n], optimize);
    if i < n {
      ModuleTablesAt(es[..n], optimize, i);
      assert es[..n][..i] == es[..i];
    }
  }

  /** Each function's code, and each branch table resolved in the code of its own
      function, are where the function's operations look for them. */
  lemma CompiledAt(env: Env, optimize: bool, mi: nat, fi: nat)
    requires mi < |env.insts| && fi < |env.insts[mi].mod.functions|
    ensures var m := env.insts[mi].mod;
            var code := Compiled(env, optimize)[mi];
            var e := EmissionOf(m, fi);
            && |code.funcs| == |m.functions|
            && code.funcs[fi] == FinishFunction(CodeOf(e, optimize), e, m.functions[fi])
            && e == LowerFunction(m, m.functions[fi], e.st.base)
            && e.st.base + |e.st.tables| <= |code.tables|
            && (forall t :: 0 <= t < |e.st.tables| ==> code.tables[e.st.base + t] == ResolveTable(CodeOf(e, optimize), e.st.tables[t]))
  {
    var m := env.insts[mi].mod;
    var es := LowerFunctions(m, |m.functions|);
    LowerFunctionsAt(m, |m.functions|, fi);
    ModuleTablesAt(es, optimize, fi);
    LowerFunctionEmits(m, m.functions[fi], TableCount(es[..fi]));
  }

  // ----- corresponding configurations -----

  ghost predicate PcSync(e: Emission, a: nat, b: nat, pc0: nat, pc1: nat) {
    Sync(e, a, b) && pc0 == Pos(e.code, a) && pc1 == Pos(Optimized(e), b)
  }

  /** The same activation, at corresponding places of the two codes. */
  ghost predicate FrameRel(env: Env, f1: Frame, f0: Frame) {
    && f1 == f0.(pc := f1.pc)
    && f0.mi < |env.insts| && f0.fi < |env.insts[f0.mi].mod.functions|
    && exists a, b :: PcSync(EmissionOf(env.insts[f0.mi].mod, f0.fi), a, b, f0.pc, f1.pc)
  }

  ghost predicate Rel(env: Env, c1: Config, c0: Config) {
    && c1.stack == c0.stack && c1.world == c0.world && |c1.frames| == |c0.frames|
    && forall i :: 0 <= i < |c0.frames| ==> FrameRel(env, c1.frames[i], c0.frames[i])
  }

  /** The optimized code's result `r1` against the original's `r0`, of which
      nothing is claimed when it is `Wrong`. */
  ghost predicate ResultRel(env: Env, r1: Result, r0: Result) {
    match r0
    case Wrong => true
    case Next(c0) => r1.Next? && Rel(env, r1.c, c0)
    case Suspend(m, f, args, expected, c0) => r1.Suspend? && r1 == Suspend(m, f, args, expected, r1.c) && Rel(env, r1.c, c0)
    case Done(c0) => r1.Done? && Rel(env, r1.c, c0)
    case Stop(_, _) => r1 == r0
  }

  lemma RelWithTop(env: Env, c1: Config, c0: Config, f1: Frame, f0: Frame)
    requires Rel(env, c1, c0) && c0.frames != [] && FrameRel(env, f1, f0)
    ensures Rel(env, WithTop(c1, f1), WithTop(c0, f0))
  {
  }

  lemma RelTop(env: Env, c1: Config, c0: Config)
    requires Rel(env, c1, c0) && c0.frames != []
    ensures FrameRel(env, TopFrame(c1), TopFrame(c0)) && Height(c1) == Height(c0)
  {
  }

  lemma RelAnswer(env: Env, r1: Result, r0: Result)
    requires ResultRel(env, r1, r0)
    ensures ResultRel(env, Answer(env, r1), Answer(env, r0))
  {
  }

  // ----- executing corresponding operations -----

  /** The emission of the function that a frame runs. */
  function RunningEmission(env: Env, f: Frame): Emission
    requires f.mi < |env.insts| && f.fi < |env.insts[f.mi].mod.functions|
  {
    EmissionOf(env.insts[f.mi].mod, f.fi)
  }

  /** The top frame runs the function that `e` was emitted for. */
  ghost predicate RunsIn(env: Env, c: Config, e: Emission) {
    && c.frames != []
    && TopFrame(c).mi < |env.insts| && TopFrame(c).fi < |env.insts[TopFrame(c).mi].mod.functions|
    && e == RunningEmission(env, TopFrame(c))
  }

  ghost predicate TopRuns(env: Env, c1: Config, c0: Config, e: Emission) {
    Rel(env, c1, c0) && RunsIn(env, c0, e) && Height(c0) >= 0
  }

  lemma RelJumpTo(env: Env, c1: Config, c0: Config, t1: nat, t0: nat, keep: nat, drop: nat,
      e: Emission, a: nat, b: nat)
    requires Rel(env, c1, c0) && RunsIn(env, c0, e) && PcSync(e, a, b, t0, t1)
    ensures c1.frames != []
    ensures ResultRel(env, JumpTo(c1, t1, keep, drop), JumpTo(c0, t0, keep, drop))
  {
    hide PcSync, EmissionOf;
    RelTop(env, c1, c0);
    var r := JumpTo(c0, t0, keep, drop);
    if r.Next? {
      var stack := KeepTop(c0.stack, keep, drop);
      RelWithTop(env, c1.(stack := stack), c0.(stack := stack), TopFrame(c1).(pc := t1), TopFrame(c0).(pc := t0));
    }
  }

  lemma RelJumpWhen(env: Env, c1: Config, c0: Config, taken: bool, t1: nat, t0: nat, keep: nat, drop: nat,
      e: Emission, a: nat, b: nat)
    requires Rel(env, c1, c0) && RunsIn(env, c0, e) && PcSync(e, a, b, t0, t1)
    ensures c1.frames != []
    ensures ResultRel(env, JumpWhen(c1, taken, t1, keep, drop), JumpWhen(c0, taken, t0, keep, drop))
  {
    hide PcSync, EmissionOf, JumpTo;
    RelJumpTo(env, c1, c0, t1, t0, keep, drop, e, a, b);
  }

  lemma RelLanded(env: Env, c1: Config, c0: Config, r: LeafResult)
    requires Rel(env, c1, c0) && c0.frames != []
    ensures ResultRel(env, Landed(c1, r), Landed(c0, r))
  {
    hide PcSync, EmissionOf;
    RelTop(env, c1, c0);
    if r.LeafOk? {
      RelWithTop(env, Config(c1.stack + r.results, c1.frames, r.world), Config(c0.stack + r.results, c0.frames, r.world),
                 TopFrame(c1).(locals := r.locals), TopFrame(c0).(locals := r.locals));
    }
  }

  lemma RelReturn(env: Env, c1: Config, c0: Config)
    requires Rel(env, c1, c0) && c0.frames != []
    ensures ResultRel(env, DoReturn(c1), DoReturn(c0))
  {
    hide PcSync, EmissionOf;
    RelTop(env, c1, c0);
  }

  lemma RelEnterCall(env: Env, c1: Config, c0: Config, addr: nat)
    requires Rel(env, c1, c0)
    ensures ResultRel(env, EnterCall(env, Compiled(env, true), c1, addr), EnterCall(env, Compiled(env, false), c0, addr))
  {
    hide PcSync, EmissionOf, CompileModule;
    if c0.frames != [] {
      RelTop(env, c1, c0);
    }
    var r := EnterCall(env, Compiled(env, false), c0, addr);
    if r.Next? {
      var func := env.funcs[addr];
      RelNewFrame(env, func.mi, func.fi);
    }
  }

  /** A callee starts at the beginning of either code, with the same locals. */
  lemma RelNewFrame(env: Env, mi: nat, fi: nat)
    requires mi < |env.insts| && fi < |Compiled(env, false)[mi].funcs|
    ensures |Compiled(env, true)[mi].funcs| == |Compiled(env, false)[mi].funcs|
    ensures |Compiled(env, true)[mi].funcs[fi].localTypes| == |Compiled(env, false)[mi].funcs[fi].localTypes|
    ensures forall locals: seq<Raw>, base: nat, arity: nat ::
              FrameRel(env, Frame(mi, fi, 0, locals, base, arity), Frame(mi, fi, 0, locals, base, arity))
  {
    assert |Compiled(env, false)[mi].funcs| == |env.insts[mi].mod.functions|;
    CompiledAt(env, true, mi, fi);
    CompiledAt(env, false, mi, fi);
    var e := EmissionOf(env.insts[mi].mod, fi);
    SyncStart(e);
    assert e.code[..0] == [] && Optimized(e)[..0] == [];
    assert PcSync(e, 0, 0, 0, 0);
  }

  lemma RelReplaceCall(env: Env, c1: Config, c0: Config, addr: nat)
    requires Rel(env, c1, c0) && c0.frames != []
    ensures ResultRel(env, ReplaceCall(env, Compiled(env, true), c1, addr), ReplaceCall(env, Compiled(env, false), c0, addr))
  {
    hide PcSync, EmissionOf, EnterCall, Compiled;
    RelTop(env, c1, c0);
    var base := TopFrame(c0).base;
    if addr < |env.funcs| && base + |env.funcs[addr].ft.params| <= |c0.stack| {
      var stack := c0.stack[..base] + Top(c0.stack, |env.funcs[addr].ft.params|);
      RelEnterCall(env, Config(stack, c1.frames[..|c1.frames| - 1], c1.world), Config(stack, c0.frames[..|c0.frames| - 1], c0.world), addr);
    }
  }

  lemma EmissionLabels(env: Env, mi: nat, fi: nat)
    requires mi < |env.insts| && fi < |env.insts[mi].mod.functions|
    ensures var e := EmissionOf(env.insts[mi].mod, fi);
            && DistinctLabels(e.code) && LabelsIn(e.code, 0, e.st.next)
            && TablesIn(e.code, e.st.base, e.st.base + |e.st.tables|)
  {
    hide LowerFunction, LowerFunctions, CompileModule, Compiled;
    CompiledAt(env, false, mi, fi);
    var e := EmissionOf(env.insts[mi].mod, fi);
    LowerFunctionEmits(env.insts[mi].mod, env.insts[mi].mod.functions[fi], e.st.base);
  }

  /** A jump of the code, taken in both codes. */
  lemma TargetRel(env: Env, c1: Config, c0: Config, e: Emission, id: nat)
    returns (a: nat, b: nat)
    requires TopRuns(env, c1, c0, e) && Targeted(e.code, e.st.tables, id)
    ensures PcSync(e, a, b, LabelPosition(e.code, id), LabelPosition(Optimized(e), id))
  {
    hide Rel, EmissionOf;
    EmissionLabels(env, TopFrame(c0).mi, TopFrame(c0).fi);
    a, b := TargetsSync(e, id);
  }

  /** Two operations at corresponding places that differ only in how their
      target was resolved. */
  lemma RelExec(env: Env, c1: Config, c0: Config, e: Emission, op: Op)
    requires TopRuns(env, c1, c0, e)
    requires JumpTarget(op).Some? ==> Targeted(e.code, e.st.tables, JumpTarget(op).value)
    requires op.JumpTable? ==> e.st.base <= op.index < e.st.base + |e.st.tables|
    ensures Height(c1) >= 0 && TopFrame(c1).mi < |env.insts|
    ensures ResultRel(env, Exec(env, Compiled(env, true), c1, ResolveOp(Optimized(e), op)),
                      Exec(env, Compiled(env, false), c0, ResolveOp(e.code, op)))
  {
    RelTop(env, c1, c0);
    if JumpTarget(op).Some? {
      RelJumpOp(env, c1, c0, e, op);
    } else if op.JumpTable? {
      RelJumpTable(env, c1, c0, e, op);
    } else {
      RelPlainOp(env, c1, c0, op);
    }
  }

  lemma RelPopped(env: Env, c1: Config, c0: Config, n: nat)
    requires Rel(env, c1, c0) && n <= |c0.stack|
    ensures Rel(env, Popped(c1, n), Popped(c0, n)) && c1.stack == c0.stack
  {
  }

  lemma RelJumpOp(env: Env, c1: Config, c0: Config, e: Emission, op: Op)
    requires TopRuns(env, c1, c0, e) && JumpTarget(op).Some? && Targeted(e.code, e.st.tables, JumpTarget(op).value)
    requires Height(c1) == Height(c0) && FrameRel(env, TopFrame(c1), TopFrame(c0))
    ensures ResultRel(env, Exec(env, Compiled(env, true), c1, ResolveOp(Optimized(e), op)),
                      Exec(env, Compiled(env, false), c0, ResolveOp(e.code, op)))
  {
    hide PcSync, EmissionOf, JumpWhen, JumpTo, Compiled, Rel, LabelPosition, Targeted, Optimized, FrameRel;
    var id := JumpTarget(op).value;
    var a, b := TargetRel(env, c1, c0, e, id);
    var n := if op.Jump? then 0 else if op.CompareJumpIf? then 2 else 1;
    var (t1, t0) := (LabelPosition(Optimized(e), id), LabelPosition(e.code, id));
    assert c1.stack == c0.stack && c1.frames != [] by { RelShape(env, c1, c0); }
    if Height(c0) >= n && n <= |c0.stack| {
      RelPopped(env, c1, c0, n);
      var (d1, d0) := (Popped(c1, n), Popped(c0, n));
      if op.Jump? {
        assert d1 == c1 && d0 == c0;
        RelJumpTo(env, c1, c0, t1, t0, op.keep, op.drop, e, a, b);
      } else {
        RelJumpWhen(env, d1, d0, true, t1, t0, op.keep, op.drop, e, a, b);
        RelJumpWhen(env, d1, d0, false, t1, t0, op.keep, op.drop, e, a, b);
      }
    }
  }

  lemma RelShape(env: Env, c1: Config, c0: Config)
    requires Rel(env, c1, c0)
    ensures c1.stack == c0.stack && c1.world == c0.world && |c1.frames| == |c0.frames|
  {
  }

  lemma RelJumpTable(env: Env, c1: Config, c0: Config, e: Emission, op: Op)
    requires TopRuns(env, c1, c0, e) && op.JumpTable? && e.st.base <= op.index < e.st.base + |e.st.tables|
    requires Height(c1) == Height(c0) && FrameRel(env, TopFrame(c1), TopFrame(c0))
    ensures ResultRel(env, Exec(env, Compiled(env, true), c1, op), Exec(env, Compiled(env, false), c0, op))
  {
    hide PcSync, EmissionOf, JumpTo, Compiled, LabelPosition, Optimized, LowerFunction, CompileModule;
    var f := TopFrame(c0);
    CompiledAt(env, true, f.mi, f.fi);
    CompiledAt(env, false, f.mi, f.fi);
    var t := op.index - e.st.base;
    var table := e.st.tables[t];
    assert Compiled(env, true)[f.mi].tables[e.st.base + t] == ResolveTable(Optimized(e), table);
    assert Compiled(env, false)[f.mi].tables[e.st.base + t] == ResolveTable(e.code, table);
    if Height(c0) >= 1 && |c0.stack| >= 1 && table != [] {
      RelPopped(env, c1, c0, 1);
      var i := BranchIndex(Top(c0.stack, 1)[0]);
      var j := if i < |table| - 1 then i else |table| - 1;
      var entry := table[j];
      assert Targeted(e.code, e.st.tables, entry.target);
      var a, b := TargetRel(env, c1, c0, e, entry.target);
      RelJumpTo(env, Popped(c1, 1), Popped(c0, 1), LabelPosition(Optimized(e), entry.target), LabelPosition(e.code, entry.target),
                op.keep, entry.drop, e, a, b);
    }
  }

  lemma RelPlainOp(env: Env, c1: Config, c0: Config, op: Op)
    requires Rel(env, c1, c0) && c0.frames != [] && Height(c0) >= 0 && TopFrame(c0).mi < |env.insts|
    requires Height(c1) == Height(c0) && FrameRel(env, TopFrame(c1), TopFrame(c0))
    requires JumpTarget(op).None? && !op.JumpTable?
    ensures ResultRel(env, Exec(env, Compiled(env, true), c1, op), Exec(env, Compiled(env, false), c0, op))
  {
    hide PcSync, EmissionOf, Compiled, EnterCall, ReplaceCall, DoReturn, Landed, EvalLeaf, LoadFrom, StoreTo;
    hide ResolveIndirect;
    var (codes1, codes0) := (Compiled(env, true), Compiled(env, false));
    RelShape(env, c1, c0);
    var (h, f, inst) := (Height(c0), TopFrame(c0), env.insts[TopFrame(c0).mi]);
    match op
    case LeafOp(l) =>
      if h >= Pops(l) && |c0.stack| >= Pops(l) {
        RelPopped(env, c1, c0, Pops(l));
        RelLanded(env, Popped(c1, Pops(l)), Popped(c0, Pops(l)),
                  EvalLeaf(env, f.mi, l, Top(c0.stack, Pops(l)), f.locals, c0.world));
      }
    case UnreachableOp =>
    case ReturnOp => RelReturn(env, c1, c0);
    case CallOp(func) => if func < |inst.funcAddrs| { RelEnterCall(env, c1, c0, inst.funcAddrs[func]); }
    case CallIndirectOp(ty, table) =>
      if h >= 1 && |c0.stack| >= 1 {
        RelPopped(env, c1, c0, 1);
        var callee := ResolveIndirect(env, f.mi, ty, table, Top(c0.stack, 1)[0], c0.world);
        if callee.CalleeAt? { RelEnterCall(env, Popped(c1, 1), Popped(c0, 1), callee.addr); }
      }
    case ReturnCallOp(func) => if func < |inst.funcAddrs| { RelReplaceCall(env, c1, c0, inst.funcAddrs[func]); }
    case ReturnCallIndirectOp(ty, table) =>
      if h >= 1 && |c0.stack| >= 1 {
        RelPopped(env, c1, c0, 1);
        var callee := ResolveIndirect(env, f.mi, ty, table, Top(c0.stack, 1)[0], c0.world);
        if callee.CalleeAt? { RelReplaceCall(env, Popped(c1, 1), Popped(c0, 1), callee.addr); }
      }
    case LocalGet2(a, b) =>
    case LocalGetReturn(x) =>
      if x < |f.locals| {
        var stack := c0.stack + [f.locals[x]];
        RelReturn(env, c1.(stack := stack), c0.(stack := stack));
      }
    case LocalGetLoad(x, k, m) =>
      if x < |f.locals| { RelLanded(env, c1, c0, LoadFrom(inst, k, m, f.locals[x], f.locals, c0.world)); }
    case LocalGetStore(x, k, m) =>
      if h >= 1 && x < |f.locals| && |c0.stack| >= 1 {
        RelPopped(env, c1, c0, 1);
        RelLanded(env, Popped(c1, 1), Popped(c0, 1), StoreTo(inst, k, m, Top(c0.stack, 1)[0], f.locals[x], f.locals, c0.world));
      }
    case LocalGetLocalSet(from, to) =>
      if from < |f.locals| && to < |f.locals| {
        var locals := f.locals[to := f.locals[from]];
        RelWithTop(env, c1, c0, TopFrame(c1).(locals := locals), f.(locals := locals));
      }
  }

  // ----- fused pairs -----

  /** A first operation of a fused pair, and the value it pushes. */
  ghost predicate Pushing(l: Leaf) {
    l.LocalGet? || l.EqZero? || l.Compare?
  }

  function Pushed(env: Env, l: Leaf, args: seq<Raw>, locals: seq<Raw>): Raw
    requires Pushing(l) && |args| == Pops(l) && (l.LocalGet? ==> l.x < |locals|)
  {
    match l
    case LocalGet(x) => locals[x]
    case EqZero(t) => BoolRaw(AsInt(t, args[0]) == 0)
    case Compare(c) => BoolRaw(Holds(env.platform, c, args[0], args[1]))
  }

  /** Executing a first operation just pushes its value. */
  lemma FirstPushes(env: Env, codes: seq<ModuleCode>, c: Config, l: Leaf)
    requires c.frames != [] && TopFrame(c).mi < |env.insts| && TopFrame(c).mi < |codes| && Height(c) >= 0 && Pushing(l)
    ensures var f := TopFrame(c);
            Exec(env, codes, c, LeafOp(l)) ==
            if Pops(l) <= Height(c) && Pops(l) <= |c.stack| && (l.LocalGet? ==> l.x < |f.locals|)
            then Next(c.(stack := Below(c.stack, Pops(l)) + [Pushed(env, l, Top(c.stack, Pops(l)), f.locals)]))
            else Wrong
  {
    var f := TopFrame(c);
    assert WithTop(c, f) == c;
    assert WithTop(c, f.(locals := f.locals)).frames == c.frames;
  }

  lemma BelowNone(stack: seq<Raw>, l: Leaf)
    requires l.LocalGet?
    ensures Pops(l) == 0 && Below(stack, Pops(l)) == stack
  {
  }

  lemma PushedLocal(env: Env, l: Leaf, args: seq<Raw>, locals: seq<Raw>)
    requires l.LocalGet? && |args| == Pops(l) && l.x < |locals|
    ensures Pushing(l) && Pushed(env, l, args, locals) == locals[l.x]
  {
  }

  lemma TestTop(env: Env, c1: Config, c0: Config, e: Emission)
    requires TopRuns(env, c1, c0, e)
    ensures Rel(env, c1, c0) && c1.frames != [] && c0.frames != [] && TopFrame(c1).mi == TopFrame(c0).mi < |env.insts|
    ensures Height(c1) == Height(c0) >= 0 && FrameRel(env, TopFrame(c1), TopFrame(c0))
  {
    RelTop(env, c1, c0);
  }

  lemma RelStack(env: Env, c1: Config, c0: Config, stack: seq<Raw>)
    requires Rel(env, c1, c0)
    ensures Rel(env, c1.(stack := stack), c0.(stack := stack))
  {
  }

  // What the second operation of a pair does right after local.get pushed `v`.

  lemma GetThenSet(env: Env, codes: seq<ModuleCode>, c: Config, v: Raw, y: nat)
    requires c.frames != [] && TopFrame(c).mi < |env.insts| && TopFrame(c).mi < |codes| && Height(c) >= 0
    ensures var f := TopFrame(c);
            Exec(env, codes, c.(stack := c.stack + [v]), LeafOp(LocalSet(y))) ==
            if y < |f.locals| then Next(WithTop(c, f.(locals := f.locals[y := v]))) else Wrong
  {
    var d := c.(stack := c.stack + [v]);
    assert Top(d.stack, 1) == [v] && Below(d.stack, 1) == c.stack && c.stack + [] == c.stack;
  }

  lemma GetThenLoad(env: Env, codes: seq<ModuleCode>, c: Config, v: Raw, k: LoadKind, m: MemArg)
    requires c.frames != [] && TopFrame(c).mi < |env.insts| && TopFrame(c).mi < |codes| && Height(c) >= 0
    ensures var f := TopFrame(c);
            Exec(env, codes, c.(stack := c.stack + [v]), LeafOp(Load(k, m))) ==
            Landed(c, LoadFrom(env.insts[f.mi], k, m, v, f.locals, c.world))
  {
    hide LoadFrom, Landed;
    var d := c.(stack := c.stack + [v]);
    assert Top(d.stack, 1) == [v] && Popped(d, 1) == c;
  }

  lemma GetThenStore(env: Env, codes: seq<ModuleCode>, c: Config, v: Raw, k: StoreKind, m: MemArg)
    requires c.frames != [] && TopFrame(c).mi < |env.insts| && TopFrame(c).mi < |codes| && Height(c) >= 0
    ensures var f := TopFrame(c);
            Exec(env, codes, c.(stack := c.stack + [v]), LeafOp(Store(k, m))) ==
            if Height(c) >= 1 && |c.stack| >= 1
            then Landed(Popped(c, 1), StoreTo(env.insts[f.mi], k, m, Top(c.stack, 1)[0], v, f.locals, c.world))
            else Wrong
  {
    hide StoreTo, Landed;
    var d := c.(stack := c.stack + [v]);
    if Height(c) >= 1 && |c.stack| >= 1 {
      assert d.stack == Below(c.stack, 1) + [Top(c.stack, 1)[0], v];
      assert Popped(d, 2) == Popped(c, 1);
    }
  }

  /** The fused operation does what its second operation does on the value that
      the first one would have pushed. */
  lemma RelGetPair(env: Env, c1: Config, c0: Config, l: Leaf, second: Op)
    requires Rel(env, c1, c0) && c0.frames != [] && Height(c0) >= 0 && TopFrame(c0).mi < |env.insts|
    requires Height(c1) == Height(c0) && FrameRel(env, TopFrame(c1), TopFrame(c0))
    requires l.LocalGet? && l.x < |TopFrame(c0).locals| && FusedOp(LeafOp(l), second).Some?
    ensures ResultRel(env, Exec(env, Compiled(env, true), c1, FusedOp(LeafOp(l), second).value),
                      Exec(env, Compiled(env, false), c0.(stack := c0.stack + [TopFrame(c0).locals[l.x]]), second))
  {
    hide PcSync, EmissionOf, Compiled, DoReturn, Landed, LoadFrom, StoreTo, ExecLeaf;
    RelShape(env, c1, c0);
    var (f, inst, h) := (TopFrame(c0), env.insts[TopFrame(c0).mi], Height(c0));
    var v := f.locals[l.x];
    var (d1, d0) := (c1.(stack := c1.stack + [v]), c0.(stack := c0.stack + [v]));
    var codes0 := Compiled(env, false);
    match second
    case ReturnOp => RelReturn(env, d1, d0);
    case LeafOp(LocalSet(y)) =>
      GetThenSet(env, codes0, c0, v, y);
      if y < |f.locals| {
        RelWithTop(env, c1, c0, TopFrame(c1).(locals := f.locals[y := v]), f.(locals := f.locals[y := v]));
      }
    case LeafOp(LocalGet(y)) =>
      FirstPushes(env, codes0, d0, LocalGet(y));
      if y < |f.locals| {
        PushedLocal(env, LocalGet(y), Top(d0.stack, 0), f.locals);
        var stack := c1.stack + [v, f.locals[y]];
        assert stack == Below(d0.stack, 0) + [f.locals[y]];
        RelStack(env, c1, c0, stack);
      }
    case LeafOp(Load(k, m)) =>
      GetThenLoad(env, codes0, c0, v, k, m);
      RelLanded(env, c1, c0, LoadFrom(inst, k, m, v, f.locals, c0.world));
    case LeafOp(Store(k, m)) =>
      GetThenStore(env, codes0, c0, v, k, m);
      if h >= 1 && |c0.stack| >= 1 {
        RelPopped(env, c1, c0, 1);
        RelLanded(env, Popped(c1, 1), Popped(c0, 1), StoreTo(inst, k, m, Top(c0.stack, 1)[0], v, f.locals, c0.world));
      }
  }

  /** A test pushed as 0 or 1 and tested again is the test. */
  lemma BoolTest(b: bool)
    ensures (AsI32(BoolRaw(b)) != 0) == b
  {
  }

  /** The test of a fused comparison and jump. */
  ghost predicate TestHolds(env: Env, l: Leaf, second: Op, args: seq<Raw>)
    requires (l.EqZero? || l.Compare?) && |args| == Pops(l)
  {
    var holds := if l.EqZero? then AsInt(l.zt, args[0]) == 0 else Holds(env.platform, l.cmp, args[0], args[1]);
    if second.JumpIfNot? then !holds else holds
  }

  lemma FusedTest(env: Env, codes: seq<ModuleCode>, c: Config, code: seq<Item>, l: Leaf, second: Op)
    requires c.frames != [] && TopFrame(c).mi < |env.insts| && TopFrame(c).mi < |codes| && Height(c) >= 0
    requires (l.EqZero? || l.Compare?) && FusedOp(LeafOp(l), second).Some? && Pops(l) <= Height(c) && Pops(l) <= |c.stack|
    ensures Exec(env, codes, c, ResolveOp(code, FusedOp(LeafOp(l), second).value)) ==
            JumpWhen(Popped(c, Pops(l)), TestHolds(env, l, second, Top(c.stack, Pops(l))),
                     LabelPosition(code, JumpTarget(second).value), second.keep, second.drop)
  {
    hide JumpWhen, LabelPosition, AsI32, AsI64, Holds;
    hide AsInt;
    if second.JumpIfNot? {
      AsInt32(Top(c.stack, Pops(l))[0]);
    }
  }

  lemma AsInt32(r: Raw)
    ensures AsInt(Int32, r) == AsI32(r)
  {
  }

  lemma PlainTest(env: Env, codes: seq<ModuleCode>, c: Config, code: seq<Item>, l: Leaf, second: Op)
    requires c.frames != [] && TopFrame(c).mi < |env.insts| && TopFrame(c).mi < |codes| && Height(c) >= 0
    requires (l.EqZero? || l.Compare?) && FusedOp(LeafOp(l), second).Some? && Pops(l) <= Height(c) && Pops(l) <= |c.stack|
    ensures var v := Pushed(env, l, Top(c.stack, Pops(l)), TopFrame(c).locals);
            Exec(env, codes, c.(stack := Below(c.stack, Pops(l)) + [v]), ResolveOp(code, second)) ==
            JumpWhen(Popped(c, Pops(l)), TestHolds(env, l, second, Top(c.stack, Pops(l))),
                     LabelPosition(code, JumpTarget(second).value), second.keep, second.drop)
  {
    hide JumpWhen, LabelPosition, AsI32, AsInt, Holds;
    var v := Pushed(env, l, Top(c.stack, Pops(l)), TopFrame(c).locals);
    var d := c.(stack := Below(c.stack, Pops(l)) + [v]);
    assert Top(d.stack, 1) == [v] && Popped(d, 1) == Popped(c, Pops(l));
    BoolTest(true);
    BoolTest(false);
  }

  lemma RunsPopped(env: Env, c: Config, e: Emission, n: nat)
    requires RunsIn(env, c, e) && n <= |c.stack|
    ensures RunsIn(env, Popped(c, n), e)
  {
  }

  /** Both ways of testing and jumping lead to corresponding places. */
  lemma RelTests(env: Env, c1: Config, c0: Config, e: Emission, l: Leaf, second: Op, taken: bool)
    requires TopRuns(env, c1, c0, e) && (second.JumpIf? || second.JumpIfNot?)
    requires Targeted(e.code, e.st.tables, second.target) && Pops(l) <= |c0.stack| && c1.stack == c0.stack
    ensures c1.frames != []
    ensures ResultRel(env, JumpWhen(Popped(c1, Pops(l)), taken, LabelPosition(Optimized(e), second.target), second.keep, second.drop),
                      JumpWhen(Popped(c0, Pops(l)), taken, LabelPosition(e.code, second.target), second.keep, second.drop))
  {
    hide PcSync, EmissionOf, JumpWhen, Compiled, Rel, LabelPosition, Targeted, Optimized, FrameRel, ResultRel, Pops;
    RelShape(env, c1, c0);
    var a, b := TargetRel(env, c1, c0, e, second.target);
    RelPopped(env, c1, c0, Pops(l));
    RunsPopped(env, c0, e, Pops(l));
    RelJumpWhen(env, Popped(c1, Pops(l)), Popped(c0, Pops(l)), taken,
                LabelPosition(Optimized(e), second.target), LabelPosition(e.code, second.target), second.keep, second.drop, e, a, b);
  }

  // ----- steps and runs -----

  /** What a step does in a frame at an operation of its code. */
  lemma StepAt(env: Env, optimize: bool, c: Config, e: Emission, i: nat)
    requires c.frames != [] && TopFrame(c).mi < |env.insts|
    requires TopFrame(c).fi < |env.insts[TopFrame(c).mi].mod.functions|
    requires e == RunningEmission(env, TopFrame(c))
    requires var code := CodeOf(e, optimize); i < |code| && code[i].Emitted? && TopFrame(c).pc == Pos(code, i)
    ensures var code := CodeOf(e, optimize);
            var line := code[i].line;
            Step(env, Compiled(env, optimize), c) ==
            if Height(c) != line.at || line.at < 0 || Peak(line) > e.st.max then Wrong
            else Exec(env, Compiled(env, optimize), WithTop(c, TopFrame(c).(pc := Pos(code, i + 1))), ResolveOp(code, line.op))
  {
    hide Exec, Compiled, Optimized, EmissionOf, LowerFunction, LowerFunctions, CompileModule;
    CompiledAt(env, optimize, TopFrame(c).mi, TopFrame(c).fi);
    AssembleAt(CodeOf(e, optimize), i);
    PosNext(CodeOf(e, optimize), i);
  }

  /** The step that a pair of original operations takes together: the second one
      on what the first one pushed. */
  lemma PairSteps(env: Env, c: Config, e: Emission, a: nat, a2: nat)
    requires RunsIn(env, c, e)
    requires a < a2 < |e.code| && e.code[a].Emitted? && e.code[a2].Emitted? && Pos(e.code, a2) == Pos(e.code, a) + 1
    requires TopFrame(c).pc == Pos(e.code, a) && e.code[a].line.op.LeafOp? && Pushing(e.code[a].line.op.leaf)
    ensures var l := e.code[a].line.op.leaf;
            var f := TopFrame(c);
            var d := WithTop(c, f.(pc := Pos(e.code, a2 + 1)));
            var r := Run(env, Compiled(env, false), 2, c);
            || r == Wrong
            || (&& 0 <= e.code[a].line.at == Height(c) <= e.st.max && Height(c) - Pops(l) + 1 <= e.st.max && f.mi < |env.insts|
                && Pops(l) <= Height(c) && Pops(l) <= |c.stack| && (l.LocalGet? ==> l.x < |f.locals|)
                && r == Answer(env, Exec(env, Compiled(env, false),
                                         d.(stack := Below(c.stack, Pops(l)) + [Pushed(env, l, Top(c.stack, Pops(l)), f.locals)]),
                                         ResolveOp(e.code, e.code[a2].line.op))))
  {
    hide Exec, Compiled, EmissionOf, Pushed, Step;
    var codes := Compiled(env, false);
    var l := e.code[a].line.op.leaf;
    var f := TopFrame(c);
    StepAt(env, false, c, e, a);
    PosNext(e.code, a);
    PosNext(e.code, a2);
    var c' := WithTop(c, f.(pc := Pos(e.code, a + 1)));
    if 0 <= e.code[a].line.at == Height(c) && Peak(e.code[a].line) <= e.st.max {
      FirstPushes(env, codes, c', l);
      var r := Exec(env, codes, c', LeafOp(l));
      assert ResolveOp(e.code, LeafOp(l)) == LeafOp(l);
      if r.Next? {
        StepAt(env, false, r.c, e, a2);
        var d := WithTop(c, f.(pc := Pos(e.code, a2 + 1)));
        assert WithTop(r.c, TopFrame(r.c).(pc := Pos(e.code, a2 + 1))) == d.(stack := r.c.stack);
        RunTwo(env, codes, c, r.c);
      }
    }
  }

  lemma RunTwo(env: Env, codes: seq<ModuleCode>, c: Config, c': Config)
    requires HostStep(env, codes, c) == Next(c')
    ensures Run(env, codes, 2, c) == HostStep(env, codes, c')
  {
    hide HostStep;
    assert Run(env, codes, 1, c') == HostStep(env, codes, c') by {
      assert forall d :: Run(env, codes, 0, d) == Next(d);
    }
  }

  /** Moving both frames on, to corresponding places. */
  lemma RelAdvance(env: Env, c1: Config, c0: Config, e: Emission, a: nat, b: nat)
    requires Rel(env, c1, c0) && RunsIn(env, c0, e) && Sync(e, a, b)
    ensures c1.frames != []
    ensures var d1 := WithTop(c1, TopFrame(c1).(pc := Pos(Optimized(e), b)));
            var d0 := WithTop(c0, TopFrame(c0).(pc := Pos(e.code, a)));
            Rel(env, d1, d0) && RunsIn(env, d0, e) && Height(d1) == Height(d0) == Height(c0) == Height(c1)
  {
    RelTop(env, c1, c0);
    assert PcSync(e, a, b, Pos(e.code, a), Pos(Optimized(e), b));
    RelWithTop(env, c1, c0, TopFrame(c1).(pc := Pos(Optimized(e), b)), TopFrame(c0).(pc := Pos(e.code, a)));
  }

  lemma PastEnd(env: Env, c: Config, e: Emission)
    requires RunsIn(env, c, e) && TopFrame(c).pc == Pos(e.code, |e.code|)
    ensures Step(env, Compiled(env, false), c) == Wrong
  {
    hide Exec, LowerFunction, LowerFunctions, CompileModule;
    CompiledAt(env, false, TopFrame(c).mi, TopFrame(c).fi);
    AssemblePrefix(e.code, |e.code|, |e.code|);
    assert e.code[..|e.code|] == e.code;
  }

  /** An operation that was not fused makes the same step in both codes. */
  lemma UnfusedStep(env: Env, c1: Config, c0: Config, e: Emission, a: nat, b: nat)
    requires Rel(env, c1, c0) && RunsIn(env, c0, e) && RunsIn(env, c1, e) && a < |e.code| && e.code[a].Emitted?
    requires Unfused(e, a, b)
    requires TopFrame(c0).pc == Pos(e.code, a) && TopFrame(c1).pc == Pos(Optimized(e), b)
    ensures ResultRel(env, HostStep(env, Compiled(env, true), c1), HostStep(env, Compiled(env, false), c0))
  {
    hide Exec, Compiled, EmissionOf, Rel, Optimized, Answer, ResultRel, Sync, FrameRel, Step;
    RelAdvance(env, c1, c0, e, a + 1, b + 1);
    StepAt(env, false, c0, e, a);
    StepAt(env, true, c1, e, b);
    var op := e.code[a].line.op;
    if 0 <= e.code[a].line.at == Height(c0) && Peak(e.code[a].line) <= e.st.max {
      var d1 := WithTop(c1, TopFrame(c1).(pc := Pos(Optimized(e), b + 1)));
      var d0 := WithTop(c0, TopFrame(c0).(pc := Pos(e.code, a + 1)));
      EmissionLabels(env, TopFrame(c0).mi, TopFrame(c0).fi);
      RelExec(env, d1, d0, e, op);
    } else {
      WrongRel(env, Step(env, Compiled(env, true), c1));
    }
    RelAnswer(env, Step(env, Compiled(env, true), c1), Step(env, Compiled(env, false), c0));
  }

  lemma WrongRel(env: Env, r: Result)
    ensures ResultRel(env, r, Wrong)
  {
  }

  /** A fused operation makes in one step what its originals make in two. */
  lemma FusedPairStep(env: Env, c1: Config, c0: Config, e: Emission, a: nat, b: nat, a2: nat)
    requires Rel(env, c1, c0) && RunsIn(env, c0, e) && RunsIn(env, c1, e) && a < |e.code| && e.code[a].Emitted?
    requires Fused(e, a, b, a2)
    requires TopFrame(c0).pc == Pos(e.code, a) && TopFrame(c1).pc == Pos(Optimized(e), b)
    ensures ResultRel(env, HostStep(env, Compiled(env, true), c1), Run(env, Compiled(env, false), 2, c0))
  {
    hide Exec, Compiled, EmissionOf, Rel, Optimized, Answer, ResultRel, Sync, FrameRel, Step, Run, Pushed;
    hide LabelPosition;
    var (first, second) := (e.code[a].line.op, e.code[a2].line.op);
    var l := first.leaf;
    var (codes1, codes0) := (Compiled(env, true), Compiled(env, false));
    PairSteps(env, c0, e, a, a2);
    var r := Run(env, codes0, 2, c0);
    if r == Wrong {
      WrongRel(env, HostStep(env, codes1, c1));
    } else {
      RelAdvance(env, c1, c0, e, a2 + 1, b + 1);
      StepAt(env, true, c1, e, b);
      var d1 := WithTop(c1, TopFrame(c1).(pc := Pos(Optimized(e), b + 1)));
      var d0 := WithTop(c0, TopFrame(c0).(pc := Pos(e.code, a2 + 1)));
      var after := d0.(stack := Below(c0.stack, Pops(l)) + [Pushed(env, l, Top(c0.stack, Pops(l)), TopFrame(c0).locals)]);
      var r1 := Exec(env, codes1, d1, ResolveOp(Optimized(e), FusedOp(first, second).value));
      var r0 := Exec(env, codes0, after, ResolveOp(e.code, second));
      TestTop(env, d1, d0, e);
      RelShape(env, d1, d0);
      if l.LocalGet? {
        PushedLocal(env, l, Top(c0.stack, Pops(l)), TopFrame(c0).locals);
        BelowNone(c0.stack, l);
        RelGetPair(env, d1, d0, l, second);
      } else {
        FusedTest(env, codes1, d1, Optimized(e), l, second);
        PlainTest(env, codes0, d0, e.code, l, second);
        RelTests(env, d1, d0, e, l, second, TestHolds(env, l, second, Top(c0.stack, Pops(l))));
      }
      assert ResultRel(env, r1, r0);
      RelAnswer(env, r1, r0);
    }
  }

  /** One step of the optimized code is one or two steps of the original. */
  lemma FusedStep(env: Env, c1: Config, c0: Config) returns (k: nat)
    requires Rel(env, c1, c0)
    ensures 1 <= k <= 2
    ensures ResultRel(env, HostStep(env, Compiled(env, true), c1), Run(env, Compiled(env, false), k, c0))
  {
    hide Exec, Compiled, EmissionOf, Optimized, Sync, HostStep, Run;
    k := 1;
    RunFirst(env, Compiled(env, false), c0);
    if c0.frames == [] {
      DoneRel(env, c1, c0);
    } else {
      RelTop(env, c1, c0);
      var f := TopFrame(c0);
      var e := EmissionOf(env.insts[f.mi].mod, f.fi);
      var a, b :| PcSync(e, a, b, f.pc, TopFrame(c1).pc);
      a, b := SyncNext(e, a, b);
      if a == |e.code| {
        PastEnd(env, c0, e);
        assert HostStep(env, Compiled(env, false), c0) == Wrong by { StepWrong(env, Compiled(env, false), c0); }
      } else {
        var a2 := SyncOp(e, a, b);
        if Unfused(e, a, b) {
          UnfusedStep(env, c1, c0, e, a, b);
        } else {
          k := 2;
          FusedPairStep(env, c1, c0, e, a, b, a2);
        }
      }
    }
  }

  lemma StepWrong(env: Env, codes: seq<ModuleCode>, c: Config)
    requires Step(env, codes, c) == Wrong
    ensures HostStep(env, codes, c) == Wrong
  {
  }

  lemma DoneRel(env: Env, c1: Config, c0: Config)
    requires Rel(env, c1, c0) && c0.frames == []
    ensures ResultRel(env, HostStep(env, Compiled(env, true), c1), HostStep(env, Compiled(env, false), c0))
  {
  }

  lemma RunFirst(env: Env, codes: seq<ModuleCode>, c: Config)
    ensures Run(env, codes, 1, c) == HostStep(env, codes, c)
  {
    hide HostStep;
    assert forall d :: Run(env, codes, 0, d) == Next(d);
  }

  /** Every run of the optimized code is a run of the original, at most twice as
      long and at least as long, with the same result. */
  lemma {:induction false} FusedRun(env: Env, n: nat, c1: Config, c0: Config) returns (m: nat)
    requires Rel(env, c1, c0)
    ensures n <= m <= 2 * n
    ensures ResultRel(env, Run(env, Compiled(env, true), n, c1), Run(env, Compiled(env, false), m, c0))
    decreases n
  {
    hide HostStep, Compiled, Rel;
    m := 0;
    if n > 0 {
      var (codes1, codes0) := (Compiled(env, true), Compiled(env, false));
      var k := FusedStep(env, c1, c0);
      var r1 := HostStep(env, codes1, c1);
      var r0 := Run(env, codes0, k, c0);
      var m' := n - 1;
      if r0.Next? {
        m' := FusedRun(env, n - 1, r1.c, r0.c);
      }
      m := k + m';
      RunThen(env, codes0, k, m', c0);
    }
  }
}
