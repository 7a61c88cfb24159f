/** A tail call does what a call followed by a return does, in one frame less
    (src/runtime/store.rs: ReturnCall, push_function_call, do_return). */
module TailCalls {
  import opened Runtime
  import opened Ir
  import opened Machine
  import opened Simulation
  import opened Fusion
  import opened Correctness

  // ----- a run on top of other frames -----

  function Rebased(fs: seq<Frame>, d: nat): (r: seq<Frame>)
    ensures |r| == |fs|
  {
    seq(|fs|, i requires 0 <= i < |fs| => fs[i].(base := fs[i].base + d))
  }

  /** The configuration `c` on top of the values `low` and the frames `under`. */
  function Over(low: seq<Raw>, under: seq<Frame>, c: Config): Config {
    Config(low + c.stack, under + Rebased(c.frames, |low|), c.world)
  }

  function OverResult(low: seq<Raw>, under: seq<Frame>, r: Result): Result {
    match r
    case Next(c) => Next(Over(low, under, c))
    case Suspend(m, f, args, expected, c) => Suspend(m, f, args, expected, Over(low, under, c))
    case Done(c) => Done(Over(low, under, c))
    case Stop(_, _) => r
    case Wrong => r
  }

  lemma TopOver(low: seq<Raw>, under: seq<Frame>, c: Config)
    requires c.frames != []
    ensures var d := Over(low, under, c);
            && TopFrame(d) == TopFrame(c).(base := TopFrame(c).base + |low|) && Height(d) == Height(c)
            && d.frames[..|d.frames| - 1] == under + Rebased(c.frames[..|c.frames| - 1], |low|)
  {
    assert Rebased(c.frames, |low|)[..|c.frames| - 1] == Rebased(c.frames[..|c.frames| - 1], |low|);
  }

  lemma WithTopOver(low: seq<Raw>, under: seq<Frame>, c: Config, f: Frame)
    requires c.frames != []
    ensures WithTop(Over(low, under, c), f.(base := f.base + |low|)) == Over(low, under, WithTop(c, f))
  {
    TopOver(low, under, c);
    var fs := c.frames[..|c.frames| - 1];
    assert Rebased(fs + [f], |low|) == Rebased(fs, |low|) + [f.(base := f.base + |low|)];
  }

  lemma PopOver(low: seq<Raw>, under: seq<Frame>, c: Config, n: nat)
    requires n <= |c.stack|
    ensures Top(Over(low, under, c).stack, n) == Top(c.stack, n)
    ensures Popped(Over(low, under, c), n) == Over(low, under, Popped(c, n))
  {
  }

  lemma JumpOver(low: seq<Raw>, under: seq<Frame>, c: Config, t: nat, keep: nat, drop: nat)
    requires c.frames != []
    ensures JumpTo(Over(low, under, c), t, keep, drop) == OverResult(low, under, JumpTo(c, t, keep, drop))
  {
    TopOver(low, under, c);
    if keep + drop <= |c.stack| {
      var stack := KeepTop(c.stack, keep, drop);
      assert KeepTop(low + c.stack, keep, drop) == low + stack;
      WithTopOver(low, under, c.(stack := stack), TopFrame(c).(pc := t));
    }
  }

  lemma JumpWhenOver(low: seq<Raw>, under: seq<Frame>, c: Config, t: nat, keep: nat, drop: nat)
    requires c.frames != []
    ensures forall taken: bool ::
              JumpWhen(Over(low, under, c), taken, t, keep, drop) == OverResult(low, under, JumpWhen(c, taken, t, keep, drop))
  {
    hide JumpTo;
    JumpOver(low, under, c, t, keep, drop);
  }

  lemma LandedOver(low: seq<Raw>, under: seq<Frame>, c: Config, r: LeafResult)
    requires c.frames != []
    ensures Landed(Over(low, under, c), r) == OverResult(low, under, Landed(c, r))
  {
    TopOver(low, under, c);
    if r.LeafOk? {
      assert low + c.stack + r.results == low + (c.stack + r.results);
      WithTopOver(low, under, Config(c.stack + r.results, c.frames, r.world), TopFrame(c).(locals := r.locals));
    }
  }

  lemma ReturnOver(low: seq<Raw>, under: seq<Frame>, c: Config)
    requires c.frames != []
    ensures DoReturn(Over(low, under, c)) == OverResult(low, under, DoReturn(c))
  {
    TopOver(low, under, c);
    var f := TopFrame(c);
    if f.base + f.arity <= |c.stack| {
      assert (low + c.stack)[..|low| + f.base] == low + c.stack[..f.base];
      assert Top(low + c.stack, f.arity) == Top(c.stack, f.arity);
      assert low + c.stack[..f.base] + Top(c.stack, f.arity) == low + (c.stack[..f.base] + Top(c.stack, f.arity));
    }
  }

  // ----- calls: the only operations that look at the depth -----

  ghost predicate Exhausted(r: Result) { r.Stop? && r.fault == CallStackExhausted }

  /** The operands that a call sees are those of the configuration on top. */
  ghost predicate Separate(env: Env, low: seq<Raw>, under: seq<Frame>, c: Config, addr: nat) {
    c.frames == [] ==>
      && (under == [] || under[|under| - 1].base <= |low|)
      && (addr < |env.funcs| ==> |env.funcs[addr].ft.params| <= |c.stack|)
  }

  /** Entering a function on top of other frames is entering it, unless the
      frames are too many. */
  lemma EnterOver(env: Env, codes: seq<ModuleCode>, low: seq<Raw>, under: seq<Frame>, c: Config, addr: nat)
    requires |under| + |c.frames| < MAX_CALL_DEPTH && Separate(env, low, under, c, addr)
    ensures EnterCall(env, codes, Over(low, under, c), addr) == OverResult(low, under, EnterCall(env, codes, c, addr))
  {
    if c.frames != [] { TopOver(low, under, c); }
    if addr < |env.funcs| {
      var n := |env.funcs[addr].ft.params|;
      if n <= |c.stack| {
        PopOver(low, under, c, n);
        var r := EnterCall(env, codes, c, addr);
        if r.Next? {
          var f := r.c.frames[|c.frames|];
          assert r.c.frames == c.frames + [f];
          assert Rebased(c.frames + [f], |low|) == Rebased(c.frames, |low|) + [f.(base := f.base + |low|)];
        }
      }
    }
  }

  lemma ReplaceOver(env: Env, codes: seq<ModuleCode>, low: seq<Raw>, under: seq<Frame>, c: Config, addr: nat)
    requires c.frames != [] && |under| + |c.frames| <= MAX_CALL_DEPTH
    requires under == [] || under[|under| - 1].base <= |low|
    ensures ReplaceCall(env, codes, Over(low, under, c), addr) == OverResult(low, under, ReplaceCall(env, codes, c, addr))
  {
    hide EnterCall;
    TopOver(low, under, c);
    var base := TopFrame(c).base;
    if addr < |env.funcs| && base + |env.funcs[addr].ft.params| <= |c.stack| {
      var n := |env.funcs[addr].ft.params|;
      var d := Config(c.stack[..base] + Top(c.stack, n), c.frames[..|c.frames| - 1], c.world);
      assert (low + c.stack)[..|low| + base] + Top(low + c.stack, n) == low + d.stack;
      EnterOver(env, codes, low, under, d, addr);
    }
  }

  // ----- steps and runs -----

  ghost predicate IsCall(op: Op) { op.CallOp? || op.CallIndirectOp? || op.ReturnCallOp? || op.ReturnCallIndirectOp? }

  lemma ExecOver(env: Env, codes: seq<ModuleCode>, low: seq<Raw>, under: seq<Frame>, c: Config, op: Op)
    requires c.frames != [] && TopFrame(c).mi < |env.insts| && TopFrame(c).mi < |codes| && Height(c) >= 0 && !IsCall(op)
    ensures Over(low, under, c).frames != [] && TopFrame(Over(low, under, c)).mi == TopFrame(c).mi
    ensures Height(Over(low, under, c)) == Height(c)
    ensures Exec(env, codes, Over(low, under, c), op) == OverResult(low, under, Exec(env, codes, c, op))
  {
    hide LoadFrom, StoreTo, EvalLeaf, AsI32, AsInt, Holds, BranchIndex, Over, Landed, JumpTo, JumpWhen, DoReturn;
    hide EnterCall, ReplaceCall, ResolveIndirect;
    TopOver(low, under, c);
    SplitOver(low, under, c);
    var (f, h, inst) := (TopFrame(c), Height(c), env.insts[TopFrame(c).mi]);
    if h >= 1 { PopOver(low, under, c, 1); }
    if h >= 2 { PopOver(low, under, c, 2); }
    match op
    case LeafOp(l) =>
      if h >= Pops(l) {
        PopOver(low, under, c, Pops(l));
        LandedOver(low, under, Popped(c, Pops(l)), EvalLeaf(env, f.mi, l, Top(c.stack, Pops(l)), f.locals, c.world));
      }
    case UnreachableOp =>
    case ReturnOp => ReturnOver(low, under, c);
    case Jump(t, keep, drop) => JumpOver(low, under, c, t, keep, drop);
    case JumpIf(t, keep, drop) => if h >= 1 { JumpWhenOver(low, under, Popped(c, 1), t, keep, drop); }
    case JumpIfNot(t, keep, drop) => if h >= 1 { JumpWhenOver(low, under, Popped(c, 1), t, keep, drop); }
    case JumpTable(index, keep) =>
      if h >= 1 && index < |codes[f.mi].tables| && codes[f.mi].tables[index] != [] {
        var table := codes[f.mi].tables[index];
        var i := BranchIndex(Top(c.stack, 1)[0]);
        var entry := if i < |table| - 1 then table[i] else table[|table| - 1];
        JumpOver(low, under, Popped(c, 1), entry.target, keep, entry.drop);
      }
    case EqZeroJumpIf(_, t, keep, drop) => if h >= 1 { JumpWhenOver(low, under, Popped(c, 1), t, keep, drop); }
    case EqZeroJumpIfNot(t, keep, drop) => if h >= 1 { JumpWhenOver(low, under, Popped(c, 1), t, keep, drop); }
    case CompareJumpIf(_, t, keep, drop) => if h >= 2 { JumpWhenOver(low, under, Popped(c, 2), t, keep, drop); }
    case LocalGet2(a, b) => if a < |f.locals| && b < |f.locals| { PushOver(low, under, c, [f.locals[a], f.locals[b]]); }
    case LocalGetReturn(x) =>
      if x < |f.locals| {
        PushOver(low, under, c, [f.locals[x]]);
        ReturnOver(low, under, c.(stack := c.stack + [f.locals[x]]));
      }
    case LocalGetLoad(x, k, m) =>
      if x < |f.locals| { LandedOver(low, under, c, LoadFrom(inst, k, m, f.locals[x], f.locals, c.world)); }
    case LocalGetStore(x, k, m) =>
      if h >= 1 && x < |f.locals| {
        LandedOver(low, under, Popped(c, 1), StoreTo(inst, k, m, Top(c.stack, 1)[0], f.locals[x], f.locals, c.world));
      }
    case LocalGetLocalSet(from, to) =>
      if from < |f.locals| && to < |f.locals| {
        WithTopOver(low, under, c, f.(locals := f.locals[to := f.locals[from]]));
      }
  }

  lemma SplitOver(low: seq<Raw>, under: seq<Frame>, c: Config)
    ensures var d := Over(low, under, c);
            |d.stack| == |low| + |c.stack| && d.world == c.world && |d.frames| == |under| + |c.frames|
  {
  }

  lemma PushOver(low: seq<Raw>, under: seq<Frame>, c: Config, vs: seq<Raw>)
    ensures var d := Over(low, under, c); d.(stack := d.stack + vs) == Over(low, under, c.(stack := c.stack + vs))
  {
    assert low + c.stack + vs == low + (c.stack + vs);
  }

  ghost predicate Below0(low: seq<Raw>, under: seq<Frame>) {
    under == [] || under[|under| - 1].base <= |low|
  }

  /** On top of at most `depth` frames the call does the same, or on top of
      `depth` frames it is refused. */
  lemma CallOver(env: Env, codes: seq<ModuleCode>, low: seq<Raw>, under: seq<Frame>, depth: nat, c: Config, op: Op)
    requires c.frames != [] && TopFrame(c).mi < |env.insts| && TopFrame(c).mi < |codes| && Height(c) >= 0 && IsCall(op)
    requires |under| <= depth && Below0(low, under)
    ensures Over(low, under, c).frames != [] && TopFrame(Over(low, under, c)).mi == TopFrame(c).mi
    ensures Height(Over(low, under, c)) == Height(c)
    ensures || Exec(env, codes, Over(low, under, c), op) == OverResult(low, under, Exec(env, codes, c, op))
            || Refused(env, c, op, depth)
  {
    hide Over, EnterCall, ReplaceCall, ResolveIndirect;
    TopOver(low, under, c);
    SplitOver(low, under, c);
    var (f, inst) := (TopFrame(c), env.insts[TopFrame(c).mi]);
    if Height(c) >= 1 { PopOver(low, under, c, 1); }
    match op
    case CallOp(func) =>
      if func < |inst.funcAddrs| && depth + |c.frames| < MAX_CALL_DEPTH {
        EnterOver(env, codes, low, under, c, inst.funcAddrs[func]);
      }
    case CallIndirectOp(ty, table) =>
      if Height(c) >= 1 {
        var callee := ResolveIndirect(env, f.mi, ty, table, Top(c.stack, 1)[0], c.world);
        if callee.CalleeAt? && depth + |c.frames| < MAX_CALL_DEPTH {
          EnterOver(env, codes, low, under, Popped(c, 1), callee.addr);
        }
      }
    case ReturnCallOp(func) =>
      if func < |inst.funcAddrs| && depth + |c.frames| <= MAX_CALL_DEPTH {
        ReplaceOver(env, codes, low, under, c, inst.funcAddrs[func]);
      }
    case ReturnCallIndirectOp(ty, table) =>
      if Height(c) >= 1 {
        var callee := ResolveIndirect(env, f.mi, ty, table, Top(c.stack, 1)[0], c.world);
        if callee.CalleeAt? && depth + |c.frames| <= MAX_CALL_DEPTH {
          ReplaceOver(env, codes, low, under, Popped(c, 1), callee.addr);
        }
      }
  }

  /** The call is resolved, and `depth` more frames are too many for it. */
  ghost predicate Refused(env: Env, c: Config, op: Op, depth: nat)
    requires c.frames != [] && TopFrame(c).mi < |env.insts| && IsCall(op)
  {
    var (f, inst) := (TopFrame(c), env.insts[TopFrame(c).mi]);
    match op
    case CallOp(func) => func < |inst.funcAddrs| && depth + |c.frames| >= MAX_CALL_DEPTH
    case ReturnCallOp(func) => func < |inst.funcAddrs| && depth + |c.frames| > MAX_CALL_DEPTH
    case CallIndirectOp(ty, table) =>
      && Height(c) >= 1 && |c.stack| >= 1 && ResolveIndirect(env, f.mi, ty, table, Top(c.stack, 1)[0], c.world).CalleeAt?
      && depth + |c.frames| >= MAX_CALL_DEPTH
    case ReturnCallIndirectOp(ty, table) =>
      && Height(c) >= 1 && |c.stack| >= 1 && ResolveIndirect(env, f.mi, ty, table, Top(c.stack, 1)[0], c.world).CalleeAt?
      && depth + |c.frames| > MAX_CALL_DEPTH
  }

  /** A refused call does not go on. */
  lemma RefusedStops(env: Env, codes: seq<ModuleCode>, low: seq<Raw>, under: seq<Frame>, c: Config, op: Op)
    requires c.frames != [] && TopFrame(c).mi < |env.insts| && TopFrame(c).mi < |codes| && Height(c) >= 0 && IsCall(op)
    requires Refused(env, c, op, |under|)
    ensures Over(low, under, c).frames != [] && TopFrame(Over(low, under, c)).mi == TopFrame(c).mi
    ensures Height(Over(low, under, c)) == Height(c)
    ensures var r := Exec(env, codes, Over(low, under, c), op); Exhausted(r) || r.Wrong?
  {
    hide Over, ResolveIndirect;
    TopOver(low, under, c);
    SplitOver(low, under, c);
    if Height(c) >= 1 { PopOver(low, under, c, 1); SplitOver(low, under, Popped(c, 1)); }
  }

  /** A step that neither goes wrong nor meets the depth limit. */
  ghost predicate Unlimited(r: Result) {
    r.Next? || r.Suspend? || (r.Stop? && !Exhausted(r))
  }

  /** A step that does not meet the depth limit over `under` does the same over
      at most as many frames. */
  lemma StepOver(env: Env, codes: seq<ModuleCode>, low: seq<Raw>, under: seq<Frame>, low': seq<Raw>, under': seq<Frame>,
                 c: Config)
    requires c.frames != [] && |under'| <= |under| && Below0(low, under) && Below0(low', under')
    requires Unlimited(Step(env, codes, Over(low, under, c)))
    ensures Step(env, codes, Over(low, under, c)) == OverResult(low, under, Step(env, codes, c))
    ensures Step(env, codes, Over(low', under', c)) == OverResult(low', under', Step(env, codes, c))
  {
    hide Exec, Over;
    TopOver(low, under, c);
    TopOver(low', under', c);
    SplitOver(low, under, c);
    SplitOver(low', under', c);
    var f := TopFrame(c);
    var line := Fetch(codes, f).value;
    WithTopOver(low, under, c, f.(pc := f.pc + 1));
    WithTopOver(low', under', c, f.(pc := f.pc + 1));
    var d := WithTop(c, f.(pc := f.pc + 1));
    if IsCall(line.op) {
      CallOver(env, codes, low, under, |under|, d, line.op);
      CallOver(env, codes, low', under', |under|, d, line.op);
      if Refused(env, d, line.op, |under|) { RefusedStops(env, codes, low, under, d, line.op); }
    } else {
      ExecOver(env, codes, low, under, d, line.op);
      ExecOver(env, codes, low', under', d, line.op);
    }
  }

  lemma AnswerOver(env: Env, low: seq<Raw>, under: seq<Frame>, r: Result)
    ensures Answer(env, OverResult(low, under, r)) == OverResult(low, under, Answer(env, r))
  {
    if r.Suspend? {
      var o := env.host(r.moduleName, r.funcName, r.args, r.c.world);
      if o.HostReturn? { assert low + r.c.stack + o.results == low + (r.c.stack + o.results); }
    }
  }

  lemma HostStepOver(env: Env, codes: seq<ModuleCode>, low: seq<Raw>, under: seq<Frame>, low': seq<Raw>,
                     under': seq<Frame>, c: Config)
    requires c.frames != [] && |under'| <= |under| && Below0(low, under) && Below0(low', under')
    requires Unlimited(HostStep(env, codes, Over(low, under, c)))
    ensures HostStep(env, codes, Over(low, under, c)) == OverResult(low, under, HostStep(env, codes, c))
    ensures HostStep(env, codes, Over(low', under', c)) == OverResult(low', under', HostStep(env, codes, c))
  {
    hide Step, Over;
    StepOver(env, codes, low, under, low', under', c);
    AnswerOver(env, low, under, Step(env, codes, c));
    AnswerOver(env, low', under', Step(env, codes, c));
  }

  /** The run goes on for `k` steps without giving up a frame of `under`. */
  ghost predicate GoesOnOver(env: Env, codes: seq<ModuleCode>, k: nat, r: Result, depth: nat) {
    && RunFrom(env, codes, k, r).Next?
    && forall j :: 0 <= j < k ==> RunFrom(env, codes, j, r).Next? && |RunFrom(env, codes, j, r).c.frames| > depth
  }

  lemma {:induction false} RunOver(env: Env, codes: seq<ModuleCode>, k: nat, low: seq<Raw>, under: seq<Frame>,
                                   low': seq<Raw>, under': seq<Frame>, c: Config)
    requires |under'| <= |under| && Below0(low, under) && Below0(low', under')
    requires GoesOnOver(env, codes, k, Next(Over(low, under, c)), |under|)
    ensures var r := Run(env, codes, k, c);
            && r.Next? && Run(env, codes, k, Over(low, under, c)) == Next(Over(low, under, r.c))
            && Run(env, codes, k, Over(low', under', c)) == Next(Over(low', under', r.c))
    decreases k
  {
    hide HostStep, Over;
    var r := Next(Over(low, under, c));
    if k > 0 {
      SplitOver(low, under, c);
      assert |RunFrom(env, codes, 0, r).c.frames| > |under|;
      assert Run(env, codes, k, Over(low, under, c)).Next?;
      HostStepOver(env, codes, low, under, low', under', c);
      var c1 := HostStep(env, codes, c).c;
      forall j | 0 <= j < k - 1
        ensures var r1 := RunFrom(env, codes, j, Next(Over(low, under, c1))); r1.Next? && |r1.c.frames| > |under|
      {
        assert RunFrom(env, codes, j + 1, r) == Run(env, codes, j, Over(low, under, c1));
      }
      RunOver(env, codes, k - 1, low, under, low', under', c1);
    }
  }

  // ----- the main results -----

  /** The call returns after `k` steps: for the first time no frame is above the
      caller's. */
  ghost predicate ReturnsAfter(env: Env, codes: seq<ModuleCode>, k: nat, c: Config, addr: nat) {
    var r := Answer(env, EnterCall(env, codes, c, addr));
    GoesOnOver(env, codes, k, r, |c.frames|) && |RunFrom(env, codes, k, r).c.frames| == |c.frames|
  }

  /** Whenever a call returns with as many values as the caller's arity, the tail
      call, in as many steps and one frame less, reaches what returning from the
      caller would then reach. */
  lemma TailCallIsCallThenReturn(env: Env, codes: seq<ModuleCode>, k: nat, c: Config, addr: nat)
    requires c.frames != [] && addr < |env.funcs| && |env.funcs[addr].ft.params| <= Height(c)
    requires Below0(c.stack[..|c.stack| - Height(c)], c.frames[..|c.frames| - 1])
    requires ReturnsAfter(env, codes, k, c, addr)
    requires var r := RunFrom(env, codes, k, Answer(env, EnterCall(env, codes, c, addr)));
             |r.c.stack| == |c.stack| - |env.funcs[addr].ft.params| + TopFrame(c).arity
    ensures var r := RunFrom(env, codes, k, Answer(env, EnterCall(env, codes, c, addr)));
            && r.c.frames == c.frames
            && RunFrom(env, codes, k, Answer(env, ReplaceCall(env, codes, c, addr))) == DoReturn(r.c)
  {
    hide EnterCall, Over, Run, HostStep;
    var n := |env.funcs[addr].ft.params|;
    var f := TopFrame(c);
    var (low, callers) := (c.stack[..f.base], c.frames[..|c.frames| - 1]);
    var below := Below(c.stack, n);
    var args := Config(Top(c.stack, n), [], c.world);
    assert Over(below, c.frames, args) == c && Over(low, callers, args) == Config(low + args.stack, callers, c.world) by {
      OverStart(c, n);
    }
    NotRefused(env, codes, c, addr);
    EnterOver(env, codes, below, c.frames, args, addr);
    EnterOver(env, codes, low, callers, args, addr);
    var s := EnterCall(env, codes, args, addr);
    AnswerOver(env, below, c.frames, s);
    AnswerOver(env, low, callers, s);
    var s' := Answer(env, s);
    assert ReplaceCall(env, codes, c, addr) == EnterCall(env, codes, Config(low + args.stack, callers, c.world), addr);
    RunOver(env, codes, k, below, c.frames, low, callers, s'.c);
    var e := Run(env, codes, k, s'.c).c;
    SplitOver(below, c.frames, e);
    OverEnd(below, c.frames, e);
    OverEnd(low, callers, e);
    ReturnKeeps(c, below, e, low);
  }

  lemma OverStart(c: Config, n: nat)
    requires c.frames != [] && n <= Height(c)
    ensures var (low, callers) := (c.stack[..TopFrame(c).base], c.frames[..|c.frames| - 1]);
            var args := Config(Top(c.stack, n), [], c.world);
            Over(Below(c.stack, n), c.frames, args) == c && Over(low, callers, args) == Config(low + args.stack, callers, c.world)
  {
    assert Below(c.stack, n) + Top(c.stack, n) == c.stack;
    assert Rebased([], |Below(c.stack, n)|) == [] && Rebased([], TopFrame(c).base) == [];
  }

  lemma OverEnd(low: seq<Raw>, under: seq<Frame>, c: Config)
    requires c.frames == []
    ensures Over(low, under, c) == Config(low + c.stack, under, c.world)
  {
  }

  /** A call that goes on was not refused. */
  lemma NotRefused(env: Env, codes: seq<ModuleCode>, c: Config, addr: nat)
    requires var r := Answer(env, EnterCall(env, codes, c, addr)); r.Next?
    ensures |c.frames| < MAX_CALL_DEPTH
  {
  }

  lemma ReturnKeeps(c: Config, below: seq<Raw>, e: Config, low: seq<Raw>)
    requires c.frames != [] && TopFrame(c).base <= |below| && low == below[..TopFrame(c).base]
    requires |e.stack| == TopFrame(c).arity
    ensures DoReturn(Config(below + e.stack, c.frames, e.world)) == Next(Config(low + e.stack, c.frames[..|c.frames| - 1], e.world))
  {
    assert (below + e.stack)[..TopFrame(c).base] == low && Top(below + e.stack, TopFrame(c).arity) == e.stack;
  }

  /** In a validated program every callee leaves as many values as its type says,
      which validation compares with the caller's results. So every tail call
      whose call returns is that call and a return. */
  lemma ValidTailCall(env: Env, k: nat, c: Config, addr: nat)
    requires c.frames != [] && addr < |env.funcs| && |env.funcs[addr].ft.params| <= Height(c)
    requires Below0(c.stack[..|c.stack| - Height(c)], c.frames[..|c.frames| - 1])
    requires Callable(env, addr, Top(c.stack, |env.funcs[addr].ft.params|), c.world)
    requires |env.funcs[addr].ft.results| == TopFrame(c).arity
    requires ReturnsAfter(env, Compiled(env, true), k, c, addr)
    ensures var codes := Compiled(env, true);
            var r := RunFrom(env, codes, k, Answer(env, EnterCall(env, codes, c, addr)));
            && r.c.frames == c.frames
            && RunFrom(env, codes, k, Answer(env, ReplaceCall(env, codes, c, addr))) == DoReturn(r.c)
  {
    hide EnterCall, Over, Run, HostStep, Callable, Compiled;
    var codes := Compiled(env, true);
    var n := |env.funcs[addr].ft.params|;
    var below := Below(c.stack, n);
    var args := Config(Top(c.stack, n), [], c.world);
    assert Over(below, c.frames, args) == c by { OverStart(c, n); }
    NotRefused(env, codes, c, addr);
    EnterOver(env, codes, below, c.frames, args, addr);
    AnswerOver(env, below, c.frames, EnterCall(env, codes, args, addr));
    var s := Answer(env, EnterCall(env, codes, args, addr));
    RunOver(env, codes, k, below, c.frames, below, c.frames, s.c);
    var e := Run(env, codes, k, s.c).c;
    SplitOver(below, c.frames, e);
    assert RunCall(env, codes, k, [], addr, args.stack, c.world) == Next(e) by { assert [] + args.stack == args.stack; }
    ReturnsResults(env, k, [], addr, args.stack, c.world);
    TailCallIsCallThenReturn(env, codes, k, c, addr);
  }

  /** The call stops after `k` steps with a fault or an exit, while its frames are
      above the caller's, and not because of the depth limit. */
  ghost predicate StopsAfter(env: Env, codes: seq<ModuleCode>, k: nat, c: Config, addr: nat, fault: Fault, w: World) {
    var r := Answer(env, EnterCall(env, codes, c, addr));
    && fault != CallStackExhausted && RunFrom(env, codes, k, r) == Stop(fault, w)
    && (k > 0 ==> GoesOnOver(env, codes, k - 1, r, |c.frames|) && |RunFrom(env, codes, k - 1, r).c.frames| > |c.frames|)
  }

  /** Whenever a call stops, the tail call stops so too, after as many steps. */
  lemma TailCallStopsAlike(env: Env, codes: seq<ModuleCode>, k: nat, c: Config, addr: nat, fault: Fault, w: World)
    requires c.frames != [] && addr < |env.funcs| && |env.funcs[addr].ft.params| <= Height(c)
    requires Below0(c.stack[..|c.stack| - Height(c)], c.frames[..|c.frames| - 1])
    requires StopsAfter(env, codes, k, c, addr, fault, w)
    ensures RunFrom(env, codes, k, Answer(env, ReplaceCall(env, codes, c, addr))) == Stop(fault, w)
  {
    hide EnterCall, Over, Run, HostStep;
    var n := |env.funcs[addr].ft.params|;
    var (low, callers) := (c.stack[..TopFrame(c).base], c.frames[..|c.frames| - 1]);
    var below := Below(c.stack, n);
    var args := Config(Top(c.stack, n), [], c.world);
    assert Over(below, c.frames, args) == c && Over(low, callers, args) == Config(low + args.stack, callers, c.world) by {
      OverStart(c, n);
    }
    StoppedBelow(env, codes, c, addr);
    EnterOver(env, codes, below, c.frames, args, addr);
    EnterOver(env, codes, low, callers, args, addr);
    var s := EnterCall(env, codes, args, addr);
    AnswerOver(env, below, c.frames, s);
    AnswerOver(env, low, callers, s);
    assert ReplaceCall(env, codes, c, addr) == EnterCall(env, codes, Config(low + args.stack, callers, c.world), addr);
    if k == 0 {
      if Answer(env, s).Next? { RunNone(env, codes, Over(below, c.frames, Answer(env, s).c)); }
    } else {
      var s' := Answer(env, s).c;
      RunOver(env, codes, k - 1, below, c.frames, low, callers, s');
      var e := Run(env, codes, k - 1, s').c;
      SplitOver(below, c.frames, e);
      OneStepMore(env, codes, k - 1, Over(below, c.frames, s'));
      OneStepMore(env, codes, k - 1, Over(low, callers, s'));
      HostStepOver(env, codes, below, c.frames, low, callers, e);
    }
  }

  /** A call that goes on, or stops for another reason, was not refused. */
  lemma StoppedBelow(env: Env, codes: seq<ModuleCode>, c: Config, addr: nat)
    requires var r := Answer(env, EnterCall(env, codes, c, addr)); r.Next? || (r.Stop? && !Exhausted(r))
    ensures |c.frames| < MAX_CALL_DEPTH
  {
  }

  lemma OneStepMore(env: Env, codes: seq<ModuleCode>, k: nat, c: Config)
    requires Run(env, codes, k, c).Next?
    ensures Run(env, codes, k + 1, c) == HostStep(env, codes, Run(env, codes, k, c).c)
  {
    hide Run, HostStep;
    RunThen(env, codes, k, 1, c);
    RunOne(env, codes, Run(env, codes, k, c).c);
  }

  /** A tail call into a local function runs it at the depth and on the base of
      its caller, so a chain of tail calls uses one frame however long it is. */
  lemma TailCallKeepsDepth(env: Env, codes: seq<ModuleCode>, c: Config, addr: nat)
    requires c.frames != []
    ensures var r := ReplaceCall(env, codes, c, addr);
            r.Next? ==> |r.c.frames| == |c.frames| && TopFrame(r.c).base == TopFrame(c).base
                        && r.c.stack == c.stack[..TopFrame(c).base] && r.c.frames[..|c.frames| - 1] == c.frames[..|c.frames| - 1]
  {
    var base := TopFrame(c).base;
    if addr < |env.funcs| && base + |env.funcs[addr].ft.params| <= |c.stack| {
      var n := |env.funcs[addr].ft.params|;
      assert Below(c.stack[..base] + Top(c.stack, n), n) == c.stack[..base];
    }
  }
}
