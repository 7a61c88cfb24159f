/** The value stack is allocated once, for the largest function times the
    maximal call depth (src/runtime/store.rs, ensure_stack_capacity). How far
    that is enough. */
module Capacity {
  import opened Wasm
  import opened Runtime
  import opened Reference
  import opened Ir
  import opened Machine
  import opened Subtyping
  import opened Validation
  import opened Lowering
  import opened Steps
  import opened Simulation
  import opened Fusion
  import opened Correctness
  import opened Safety

  // ----- the capacity -----

  function FuncsMax(fs: seq<CompiledFunction>): Option<int> {
    if fs == [] then None
    else
      var (last, rest) := (fs[|fs| - 1].maxHeight, FuncsMax(fs[..|fs| - 1]));
      if rest.Some? then Some(Max(rest.value, last)) else Some(last)
  }

  function AllFuncs(codes: seq<ModuleCode>): seq<CompiledFunction> {
    if codes == [] then [] else AllFuncs(codes[..|codes| - 1]) + codes[|codes| - 1].funcs
  }

  function MaxFuncStack(codes: seq<ModuleCode>): int {
    var m := FuncsMax(AllFuncs(codes));
    if m.Some? then m.value else 1024
  }

  function StackCapacity(codes: seq<ModuleCode>): int {
    Max(MaxFuncStack(codes) * MAX_CALL_DEPTH, 1024)
  }

  lemma {:induction false} FuncsMaxBounds(fs: seq<CompiledFunction>, i: nat)
    requires i < |fs|
    ensures FuncsMax(fs).Some? && fs[i].maxHeight <= FuncsMax(fs).value
  {
    if i < |fs| - 1 {
      FuncsMaxBounds(fs[..|fs| - 1], i);
    }
  }

  lemma {:induction false} AllFuncsHas(codes: seq<ModuleCode>, mi: nat, fi: nat)
    requires mi < |codes| && fi < |codes[mi].funcs|
    ensures codes[mi].funcs[fi] in AllFuncs(codes)
  {
    if mi < |codes| - 1 {
      AllFuncsHas(codes[..|codes| - 1], mi, fi);
    }
  }

  /** No function's maximal height exceeds the one the capacity is computed from. */
  lemma MaxFuncStackBounds(codes: seq<ModuleCode>, mi: nat, fi: nat)
    requires mi < |codes| && fi < |codes[mi].funcs|
    ensures codes[mi].funcs[fi].maxHeight <= MaxFuncStack(codes)
  {
    AllFuncsHas(codes, mi, fi);
    var i :| 0 <= i < |AllFuncs(codes)| && AllFuncs(codes)[i] == codes[mi].funcs[fi];
    FuncsMaxBounds(AllFuncs(codes), i);
  }

  // ----- what every step keeps -----

  /** There are at most 1024 frames, and the base of each is at most `m` above
      the bound for the frame under it. */
  ghost predicate Layered(c: Config, low: nat, m: nat) {
    && |c.frames| <= MAX_CALL_DEPTH
    && forall i :: 0 <= i < |c.frames| ==> c.frames[i].base <= low + i * m
  }

  lemma EnterLayered(env: Env, codes: seq<ModuleCode>, c: Config, addr: nat, low: nat, m: nat)
    requires Layered(c, low, m)
    requires addr < |env.funcs| ==> |c.stack| - |env.funcs[addr].ft.params| <= low + |c.frames| * m
    ensures var r := EnterCall(env, codes, c, addr); r.Next? || r.Suspend? ==> Layered(r.c, low, m)
  {
  }

  lemma DropLayered(c: Config, low: nat, m: nat, stack: seq<Raw>)
    requires Layered(c, low, m) && c.frames != []
    ensures Layered(Config(stack, c.frames[..|c.frames| - 1], c.world), low, m)
  {
  }

  lemma TopLayered(c: Config, low: nat, m: nat, f: Frame)
    requires Layered(c, low, m) && c.frames != [] && f.base == TopFrame(c).base
    ensures Layered(WithTop(c, f), low, m)
  {
  }

  /** Executing an operation at a height of at most `m` keeps the layering. */
  lemma ExecLayered(env: Env, codes: seq<ModuleCode>, c: Config, op: Op, low: nat, m: nat)
    requires c.frames != [] && TopFrame(c).mi < |env.insts| && TopFrame(c).mi < |codes| && 0 <= Height(c) <= m
    requires Layered(c, low, m)
    ensures var r := Exec(env, codes, c, op); r.Next? || r.Suspend? ==> Layered(r.c, low, m)
  {
    hide EnterCall, LoadFrom, StoreTo, EvalLeaf, ResolveIndirect, AsI32, AsInt, Holds, BranchIndex, Layered;
    var f := TopFrame(c);
    BaseLayered(c, low, m);
    match op
    case CallOp(func) =>
      if func < |env.insts[f.mi].funcAddrs| { EnterLayered(env, codes, c, env.insts[f.mi].funcAddrs[func], low, m); }
    case CallIndirectOp(ty, table) =>
      if Height(c) >= 1 {
        var callee := ResolveIndirect(env, f.mi, ty, table, Top(c.stack, 1)[0], c.world);
        StackLayered(c, low, m, Below(c.stack, 1));
        if callee.CalleeAt? { EnterLayered(env, codes, Popped(c, 1), callee.addr, low, m); }
      }
    case ReturnCallOp(func) =>
      if func < |env.insts[f.mi].funcAddrs| { ReplaceLayered(env, codes, c, env.insts[f.mi].funcAddrs[func], low, m); }
    case ReturnCallIndirectOp(ty, table) =>
      if Height(c) >= 1 {
        var callee := ResolveIndirect(env, f.mi, ty, table, Top(c.stack, 1)[0], c.world);
        StackLayered(c, low, m, Below(c.stack, 1));
        if callee.CalleeAt? { ReplaceLayered(env, codes, Popped(c, 1), callee.addr, low, m); }
      }
    case _ => OthersLayered(env, codes, c, op, low, m);
  }

  /** The result of an operation other than a call is within the layers. */
  ghost predicate Stays(r: Result, low: nat, m: nat) {
    !r.Suspend? && (r.Next? ==> Layered(r.c, low, m))
  }

  lemma JumpLayered(c: Config, taken: bool, target: nat, keep: nat, drop: nat, low: nat, m: nat)
    requires c.frames != [] && Layered(c, low, m)
    ensures Stays(JumpTo(c, target, keep, drop), low, m) && Stays(JumpWhen(c, taken, target, keep, drop), low, m)
  {
    hide Layered, Top, Below, KeepTop, WithTop;
    if keep + drop <= Height(c) && keep + drop <= |c.stack| {
      var stack := KeepTop(c.stack, keep, drop);
      StackLayered(c, low, m, stack);
      TopLayered(c.(stack := stack), low, m, TopFrame(c).(pc := target));
    }
  }

  lemma LandedLayered(c: Config, r: LeafResult, low: nat, m: nat)
    requires c.frames != [] && Layered(c, low, m)
    ensures Stays(Landed(c, r), low, m)
  {
    hide Layered;
    match r
    case LeafOk(results, locals, w) =>
      assert Layered(Config(c.stack + results, c.frames, w), low, m) by {
        FramesLayered(c, Config(c.stack + results, c.frames, w), low, m);
      }
      TopLayered(Config(c.stack + results, c.frames, w), low, m, TopFrame(c).(locals := locals));
    case _ =>
  }

  lemma ReturnLayered(c: Config, low: nat, m: nat)
    requires c.frames != [] && Layered(c, low, m)
    ensures Stays(DoReturn(c), low, m)
  {
    hide Layered, Top;
    if DoReturn(c).Next? { DropLayered(c, low, m, DoReturn(c).c.stack); }
  }

  lemma OthersLayered(env: Env, codes: seq<ModuleCode>, c: Config, op: Op, low: nat, m: nat)
    requires c.frames != [] && TopFrame(c).mi < |env.insts| && TopFrame(c).mi < |codes| && Height(c) >= 0
    requires Layered(c, low, m)
    requires !op.CallOp? && !op.CallIndirectOp? && !op.ReturnCallOp? && !op.ReturnCallIndirectOp?
    ensures Stays(Exec(env, codes, c, op), low, m)
  {
    hide LoadFrom, StoreTo, EvalLeaf, AsI32, AsInt, Holds, BranchIndex, Layered, JumpTo, JumpWhen, DoReturn, Landed;
    hide WithTop, Top, Below;
    var f := TopFrame(c);
    var h := Height(c);
    forall n: nat | n <= |c.stack| ensures Layered(Popped(c, n), low, m) && Popped(c, n).frames == c.frames {
      StackLayered(c, low, m, Below(c.stack, n));
    }
    forall d: Config, taken: bool, t: nat, keep: nat, drop: nat | d.frames == c.frames && Layered(d, low, m)
      ensures Stays(JumpWhen(d, taken, t, keep, drop), low, m)
    {
      JumpLayered(d, taken, t, keep, drop, low, m);
    }
    forall d: Config, t: nat, keep: nat, drop: nat | d.frames == c.frames && Layered(d, low, m)
      ensures Stays(JumpTo(d, t, keep, drop), low, m)
    {
      JumpLayered(d, true, t, keep, drop, low, m);
    }
    forall d: Config, r: LeafResult | d.frames == c.frames && Layered(d, low, m) ensures Stays(Landed(d, r), low, m) {
      LandedLayered(d, r, low, m);
    }
    match op
    case ReturnOp => ReturnLayered(c, low, m);
    case LocalGetReturn(x) =>
      if x < |f.locals| {
        StackLayered(c, low, m, c.stack + [f.locals[x]]);
        ReturnLayered(c.(stack := c.stack + [f.locals[x]]), low, m);
      }
    case LocalGet2(a, b) =>
      if a < |f.locals| && b < |f.locals| { StackLayered(c, low, m, c.stack + [f.locals[a], f.locals[b]]); }
    case LocalGetLocalSet(from, to) =>
      if from < |f.locals| && to < |f.locals| { TopLayered(c, low, m, f.(locals := f.locals[to := f.locals[from]])); }
    case _ =>
  }

  lemma BaseLayered(c: Config, low: nat, m: nat)
    requires Layered(c, low, m) && c.frames != [] && 0 <= Height(c) <= m
    ensures TopFrame(c).base + m <= low + |c.frames| * m && |c.stack| <= low + |c.frames| * m
  {
    var d := |c.frames| - 1;
    assert d * m + m == |c.frames| * m;
  }

  lemma FramesLayered(c: Config, d: Config, low: nat, m: nat)
    requires Layered(c, low, m) && d.frames == c.frames
    ensures Layered(d, low, m)
  {
  }

  lemma StackLayered(c: Config, low: nat, m: nat, stack: seq<Raw>)
    requires Layered(c, low, m)
    ensures Layered(c.(stack := stack), low, m)
  {
  }

  lemma ReplaceLayered(env: Env, codes: seq<ModuleCode>, c: Config, addr: nat, low: nat, m: nat)
    requires Layered(c, low, m) && c.frames != []
    ensures var r := ReplaceCall(env, codes, c, addr); r.Next? || r.Suspend? ==> Layered(r.c, low, m)
  {
    hide EnterCall;
    var base := TopFrame(c).base;
    if addr < |env.funcs| && base + |env.funcs[addr].ft.params| <= |c.stack| {
      var d := Config(c.stack[..base] + Top(c.stack, |env.funcs[addr].ft.params|), c.frames[..|c.frames| - 1], c.world);
      DropLayered(c, low, m, d.stack);
      EnterLayered(env, codes, d, addr, low, m);
    }
  }

  // ----- the capacity of whole runs -----

  /** A step from a state within the bounds leads to one. */
  lemma StepLayered(env: Env, codes: seq<ModuleCode>, c: Config, low: nat)
    requires Step(env, codes, c) != Wrong && MaxFuncStack(codes) >= 0 && Layered(c, low, MaxFuncStack(codes))
    ensures var r := HostStep(env, codes, c); r.Next? ==> Layered(r.c, low, MaxFuncStack(codes))
  {
    hide Exec, Layered, MaxFuncStack;
    if c.frames != [] {
      var f := TopFrame(c);
      var line := Fetch(codes, f).value;
      var d := WithTop(c, f.(pc := f.pc + 1));
      var m := MaxFuncStack(codes);
      MaxFuncStackBounds(codes, f.mi, f.fi);
      TopLayered(c, low, m, f.(pc := f.pc + 1));
      ExecLayered(env, codes, d, line.op, low, m);
      AnswerLayered(env, Exec(env, codes, d, line.op), low, m);
    }
  }

  lemma AnswerLayered(env: Env, r: Result, low: nat, m: nat)
    requires r.Next? || r.Suspend? ==> Layered(r.c, low, m)
    ensures var r' := Answer(env, r); r'.Next? ==> Layered(r'.c, low, m)
  {
  }

  lemma {:induction false} RunLayered(env: Env, n: nat, low: seq<Raw>, addr: nat, args: seq<Raw>, w: World)
    requires Callable(env, addr, args, w) && MaxFuncStack(Compiled(env, true)) >= 0
    ensures var r := RunCall(env, Compiled(env, true), n, low, addr, args, w);
            r.Next? ==> Layered(r.c, |low|, MaxFuncStack(Compiled(env, true)))
  {
    hide EnterCall, Answer, Compiled, Run, Step, HostStep, Layered, Callable, MaxFuncStack;
    var codes := Compiled(env, true);
    var m := MaxFuncStack(codes);
    var start := Config(low + args, [], w);
    var r0 := Answer(env, EnterCall(env, codes, start, addr));
    if n == 0 {
      CallableArgs(env, addr, args, w);
      StartLayered(start, |low|, m);
      EnterLayered(env, codes, start, addr, |low|, m);
      AnswerLayered(env, EnterCall(env, codes, start, addr), |low|, m);
      if r0.Next? { RunNone(env, codes, r0.c); }
    } else {
      RunGoesBack(env, codes, n - 1, r0);
      var r := RunCall(env, codes, n - 1, low, addr, args, w);
      RunLayered(env, n - 1, low, addr, args, w);
      if r.Next? {
        RunOne(env, codes, r.c);
        NextNotWrong(env, n - 1, low, addr, args, w);
        StepLayered(env, codes, r.c, |low|);
      }
    }
  }

  lemma StartLayered(c: Config, low: nat, m: nat)
    requires c.frames == []
    ensures Layered(c, low, m)
  {
  }

  lemma CallableArgs(env: Env, addr: nat, args: seq<Raw>, w: World)
    requires Callable(env, addr, args, w)
    ensures addr < |env.funcs| && |args| == |env.funcs[addr].ft.params|
  {
  }

  lemma RunGoesBack(env: Env, codes: seq<ModuleCode>, n: nat, r: Result)
    ensures var r' := RunFrom(env, codes, n, r);
            RunFrom(env, codes, n + 1, r) == if r'.Next? then Run(env, codes, 1, r'.c) else r'
  {
    hide Run;
    if r.Next? { RunThen(env, codes, n, 1, r.c); }
  }

  /** The highest that the value stack gets in the next step of a run. */
  function PeakOf(codes: seq<ModuleCode>, c: Config): int {
    if c.frames == [] then |c.stack|
    else
      match Fetch(codes, TopFrame(c))
      case Some(line) => TopFrame(c).base + Peak(line)
      case None => |c.stack|
  }

  /** As long as the call has an active frame, the stack it started with empty
      stays within its capacity; before, the stack holds the arguments, and after,
      the results. */
  lemma StaysWithinCapacity(env: Env, n: nat, addr: nat, args: seq<Raw>, w: World)
    requires Callable(env, addr, args, w)
    ensures PeakOf(Compiled(env, true), Config(args, [], w)) == |env.funcs[addr].ft.params|
    ensures var codes := Compiled(env, true);
            var r := RunCall(env, codes, n, [], addr, args, w);
            && (r.Next? && r.c.frames != [] ==> |r.c.stack| <= PeakOf(codes, r.c) <= StackCapacity(codes))
            && (r.Next? && r.c.frames == [] ==> PeakOf(codes, r.c) == |env.funcs[addr].ft.results|)
  {
    hide EnterCall, Answer, Compiled, Run, Step, Callable, RunCall, MaxFuncStack, OperandsTouched;
    var codes := Compiled(env, true);
    var r := RunCall(env, codes, n, [], addr, args, w);
    CallableArgs(env, addr, args, w);
    ReturnsResults(env, n, [], addr, args, w);
    if r.Next? && r.c.frames != [] {
      var f := TopFrame(r.c);
      var m := MaxFuncStack(codes);
      EveryStepStays(env, n, [], addr, args, w);
      MaxFuncStackBounds(codes, f.mi, f.fi);
      RunLayered(env, n, [], addr, args, w);
      var d := |r.c.frames| - 1;
      assert f.base <= d * m && d * m + m <= MAX_CALL_DEPTH * m by { Multiples(d, m); }
    }
  }

  lemma {:induction false} TimesMonotone(a: nat, b: nat, m: nat)
    requires a <= b
    ensures a * m <= b * m
  {
    if a < b {
      TimesMonotone(a, b - 1, m);
      assert b * m == (b - 1) * m + m;
    }
  }

  lemma Multiples(d: nat, m: nat)
    requires d < MAX_CALL_DEPTH
    ensures d * m + m <= MAX_CALL_DEPTH * m
  {
    assert d * m + m == (d + 1) * m;
    TimesMonotone(d + 1, MAX_CALL_DEPTH, m);
  }

  /** Every state of the call fits the stack's capacity: the one that holds the
      arguments, and those of the run. */
  ghost predicate AlwaysFits(env: Env, addr: nat, args: seq<Raw>, w: World) {
    && PeakOf(Compiled(env, true), Config(args, [], w)) <= StackCapacity(Compiled(env, true))
    && forall n: nat :: FitsAfter(env, n, addr, args, w)
  }

  ghost predicate FitsAfter(env: Env, n: nat, addr: nat, args: seq<Raw>, w: World) {
    var codes := Compiled(env, true);
    var r := RunCall(env, codes, n, [], addr, args, w);
    r.Next? ==> PeakOf(codes, r.c) <= StackCapacity(codes)
  }

  ghost predicate Returns(env: Env, addr: nat, args: seq<Raw>, w: World) {
    exists results: seq<Raw>, w': World :: Evaluates(env, addr, args, w, CallDone(results, w'))
  }

  /** The capacity is enough for a call exactly when it is enough for the call's
      arguments, and for its results unless the call does not return. */
  lemma CapacityExact(env: Env, addr: nat, args: seq<Raw>, w: World)
    requires Callable(env, addr, args, w)
    ensures AlwaysFits(env, addr, args, w) <==>
            && |env.funcs[addr].ft.params| <= StackCapacity(Compiled(env, true))
            && (Returns(env, addr, args, w) ==> |env.funcs[addr].ft.results| <= StackCapacity(Compiled(env, true)))
  {
    StaysWithinCapacity(env, 0, addr, args, w);
    hide EnterCall, Answer, Compiled, Run, Step, Callable, RunCall, MaxFuncStack, Evaluates, StackCapacity, PeakOf;
    var codes := Compiled(env, true);
    CallableArgs(env, addr, args, w);
    if Returns(env, addr, args, w) && AlwaysFits(env, addr, args, w) {
      var results: seq<Raw>, w': World :| Evaluates(env, addr, args, w, CallDone(results, w'));
      var n := LastState(env, addr, args, w, results, w');
      assert FitsAfter(env, n, addr, args, w);
      StaysWithinCapacity(env, n, addr, args, w);
    }
    if Returns(env, addr, args, w) ==> |env.funcs[addr].ft.results| <= StackCapacity(codes) {
      forall n: nat ensures FitsAfter(env, n, addr, args, w) {
        StaysWithinCapacity(env, n, addr, args, w);
        var r := RunCall(env, codes, n, [], addr, args, w);
        if r.Next? && r.c.frames == [] { EmptyReturns(env, n, addr, args, w); }
      }
    }
  }

  /** A call that returns passes through the state that holds just its results. */
  lemma LastState(env: Env, addr: nat, args: seq<Raw>, w: World, results: seq<Raw>, w': World) returns (n: nat)
    requires Callable(env, addr, args, w) && Evaluates(env, addr, args, w, CallDone(results, w'))
    ensures RunCall(env, Compiled(env, true), n, [], addr, args, w) == Next(Config(results, [], w'))
  {
    hide EnterCall, Answer, Compiled, Run, Step, HostStep, Callable, CallFunction;
    var codes := Compiled(env, true);
    var fuel: nat :| CallFunction(env, 0, fuel, addr, args, w) == CallDone(results, w');
    var k := OptimizedCall(env, fuel, [], addr, args, w);
    assert [] + results == results;
    var r0 := Answer(env, EnterCall(env, codes, Config([] + args, [], w), addr));
    StartsRunning(env, codes, Config([] + args, [], w), addr);
    n := BeforeDone(env, codes, k, r0, Config(results, [], w'));
  }

  lemma StartsRunning(env: Env, codes: seq<ModuleCode>, c: Config, addr: nat)
    ensures !Answer(env, EnterCall(env, codes, c, addr)).Done?
  {
  }

  /** A run that is done was, one step earlier, where it is done. */
  lemma {:induction false} BeforeDone(env: Env, codes: seq<ModuleCode>, k: nat, r: Result, c: Config) returns (n: nat)
    requires RunFrom(env, codes, k, r) == Done(c) && !r.Done?
    ensures RunFrom(env, codes, n, r) == Next(c)
  {
    hide Run, HostStep;
    if k == 0 {
      RunNone(env, codes, r.c);
    }
    RunGoesBack(env, codes, k - 1, r);
    var r' := RunFrom(env, codes, k - 1, r);
    if r'.Next? {
      RunOne(env, codes, r'.c);
      DoneOnly(env, codes, r'.c);
      n := k - 1;
    } else {
      n := BeforeDone(env, codes, k - 1, r, c);
    }
  }

  lemma DoneOnly(env: Env, codes: seq<ModuleCode>, c: Config)
    ensures HostStep(env, codes, c).Done? ==> HostStep(env, codes, c) == Done(c)
  {
    hide Exec;
    if c.frames != [] && Fetch(codes, TopFrame(c)).Some? && TopFrame(c).mi < |env.insts| && Height(c) >= 0 {
      var f := TopFrame(c);
      NeverDone(env, codes, WithTop(c, f.(pc := f.pc + 1)), Fetch(codes, f).value.op);
    }
  }

  lemma NeverDone(env: Env, codes: seq<ModuleCode>, c: Config, op: Op)
    requires c.frames != [] && TopFrame(c).mi < |env.insts| && TopFrame(c).mi < |codes| && Height(c) >= 0
    ensures !Answer(env, Exec(env, codes, c, op)).Done?
  {
    hide LoadFrom, StoreTo, EvalLeaf, AsI32, AsInt, Holds, BranchIndex, ResolveIndirect, KeepTop;
  }

  lemma EmptyReturns(env: Env, n: nat, addr: nat, args: seq<Raw>, w: World)
    requires Callable(env, addr, args, w)
    requires var r := RunCall(env, Compiled(env, true), n, [], addr, args, w); r.Next? && r.c.frames == []
    ensures Returns(env, addr, args, w)
  {
    hide EnterCall, Answer, Compiled, Run, Callable, RunCall, CallFunction, Evaluates;
    var codes := Compiled(env, true);
    var d := Done(RunCall(env, codes, n, [], addr, args, w).c);
    DoneNext(env, codes, n, [], addr, args, w);
    assert HaltsWith(env, codes, [], addr, args, w, d);
    CompilerCorrect(env, [], addr, args, w, d);
    var o: CallOutcome :| Evaluates(env, addr, args, w, o) && ResultFor([], o) == d;
    assert o == CallDone(o.results, o.world);
  }

  // ----- a call whose results do not fit -----

  const MANY: nat := 2000

  /** A program whose only function passes control to an import by a tail call;
      the import gives 2000 values. */
  function TailProgram(platform: Platform): Env {
    var ft := FunctionType([], seq(MANY, _ => I64));
    var m := Module([SubType(true, [], FuncType(ft))], [0, 0], [Function(0, [], [ReturnCall(0)])], [], [], [], {});
    Env([HostFunc(ft, [], []), LocalFunc(ft, 0, 0)], [Instance(m, [0, 1], [], [], [])], platform,
        (m, f, args, w) => HostReturn(Zeros(MANY), w))
  }

  /** Code after a jump can end with any results. */
  lemma {:induction false} DeadEnds(types: seq<SubType>, results: seq<ValueType>)
    ensures Ends(types, Operands([], true), results)
    ensures PopAll(types, Operands([], true), results).value.1 == Operands([], true)
    decreases |results|
  {
    if results != [] {
      DeadEnds(types, results[..|results| - 1]);
    }
  }

  lemma TailProgramValid(platform: Platform, w: World)
    requires w.tables == []
    ensures Callable(TailProgram(platform), 1, [], w)
  {
    TailProgramLinked(platform);
    TailProgramChecks(platform);
    TailProgramHeights(platform);
    hide LowerFunctions, EmissionOf, Linked, CheckFunction;
  }

  lemma TailProgramLinked(platform: Platform)
    ensures Linked(TailProgram(platform))
  {
    var env := TailProgram(platform);
    assert env.insts == [Instance(env.insts[0].mod, [0, 1], [], [], [])];
    assert InstanceLinked(env, env.insts[0]);
    assert FuncLinked(env, env.funcs[0]) && FuncLinked(env, env.funcs[1]);
  }

  lemma TailProgramChecks(platform: Platform)
    ensures var m := TailProgram(platform).insts[0].mod; CheckFunction(m, m.functions[0])
  {
    var m := TailProgram(platform).insts[0].mod;
    var ft := m.types[0].composite.ft;
    var c := WithLabel(FunctionContext(m, m.functions[0], ft), ft.results);
    var start := Push(Operands([], false), []);
    assert AllSubtypes(m.types, ft.results, ft.results);
    assert Check(c, ReturnCall(0), start) == Some(Operands([], true));
    assert CheckSeq(c, [], Operands([], true)) == Some(Operands([], true));
    assert CheckSeq(c, [ReturnCall(0)], start) == Some(Operands([], true));
    DeadEnds(m.types, ft.results);
  }

  lemma TailProgramHeights(platform: Platform)
    ensures var env := TailProgram(platform); EmissionOf(env.insts[0].mod, 0).st.max == 0
  {
    var m := TailProgram(platform).insts[0].mod;
    var f := m.functions[0];
    var ft := m.types[0].composite.ft;
    assert TypeSig(m.types, 0) == (0, MANY);
    var blocks := [BlockContext(FunctionBlock, 0, MANY, 0, 1)];
    var s := Compiling(0, 0, 2, 0, [], false);
    assert LowerSeq(m, blocks, s.(height := UNREACHABLE_DEPTH, dead := true), []).st.max == 0;
    assert LowerSeq(m, blocks, s, [ReturnCall(0)]).st.max == 0;
    LowerFunctionsAt(m, 1, 0);
  }

  /** The guarantee fails for this validated program: its call returns 2000 values
      on a stack with room for 1024. */
  lemma TailCallOverflows(platform: Platform, w: World)
    requires w.tables == []
    ensures var env := TailProgram(platform);
            && Callable(env, 1, [], w)
            && StackCapacity(Compiled(env, true)) == 1024
            && !AlwaysFits(env, 1, [], w)
  {
    hide AlwaysFits, Callable;
    var env := TailProgram(platform);
    TailProgramValid(platform, w);
    TailProgramHeights(platform);
    OneFunction(env);
    TailProgramReturns(platform, w);
    CapacityExact(env, 1, [], w);
  }

  lemma TailProgramReturns(platform: Platform, w: World)
    ensures Returns(TailProgram(platform), 1, [], w)
  {
    var env := TailProgram(platform);
    var body := env.insts[0].mod.functions[0].body;
    assert [] + Zeros(0) == [];
    assert EvalSeq(env, 0, 1, 1, body, State([], [], w)) == TailCall(0, [], w);
    assert CallFunction(env, 0, 0, 0, [], w) == CallDone(Zeros(MANY), w);
    assert CallFunction(env, 0, 1, 1, [], w) == CallDone(Zeros(MANY), w);
    assert Evaluates(env, 1, [], w, CallDone(Zeros(MANY), w));
  }

  // ----- a call whose arguments do not fit -----

  /** A program whose only function takes 2000 values and does nothing. */
  function ArgumentProgram(platform: Platform): Env {
    var ft := FunctionType(seq(MANY, _ => I64), []);
    var m := Module([SubType(true, [], FuncType(ft))], [0], [Function(0, [], [])], [], [], [], {});
    Env([LocalFunc(ft, 0, 0)], [Instance(m, [0], [], [], [])], platform, (m, f, args, w) => HostReturn([], w))
  }

  lemma ArgumentProgramValid(platform: Platform, w: World)
    requires w.tables == []
    ensures Callable(ArgumentProgram(platform), 0, Zeros(MANY), w)
  {
    hide LowerFunctions, EmissionOf;
    var env := ArgumentProgram(platform);
    var m := env.insts[0].mod;
    assert Linked(env) by {
      assert env.insts == [Instance(m, [0], [], [], [])];
      assert InstanceLinked(env, env.insts[0]) && FuncLinked(env, env.funcs[0]);
    }
    assert CheckModule(m) by {
      assert Ends(m.types, Operands([], false), []);
      assert CheckFunction(m, m.functions[0]);
      assert |m.functions| == 1;
    }
    ArgumentProgramHeights(platform);
  }

  /** The height is counted after instructions only, and there are none. */
  lemma ArgumentProgramHeights(platform: Platform)
    ensures var env := ArgumentProgram(platform); EmissionOf(env.insts[0].mod, 0).st.max == 0
  {
    var m := ArgumentProgram(platform).insts[0].mod;
    assert TypeSig(m.types, 0) == (MANY, 0);
    LowerFunctionsAt(m, 1, 0);
  }

  /** The guarantee fails for this validated program: 2000 arguments go onto a
      stack with room for 1024. */
  lemma ArgumentsOverflow(platform: Platform, w: World)
    requires w.tables == []
    ensures var env := ArgumentProgram(platform);
            && Callable(env, 0, Zeros(MANY), w)
            && StackCapacity(Compiled(env, true)) == 1024
            && !AlwaysFits(env, 0, Zeros(MANY), w)
  {
    var env := ArgumentProgram(platform);
    ArgumentProgramValid(platform, w);
    ArgumentProgramHeights(platform);
    hide AlwaysFits, Callable;
    OneFunction(env);
    CapacityExact(env, 0, Zeros(MANY), w);
  }

  lemma OneModuleFuncs(codes: seq<ModuleCode>)
    requires |codes| == 1
    ensures AllFuncs(codes) == codes[0].funcs
  {
    assert codes[..0] == [];
  }

  lemma OneFuncMax(fs: seq<CompiledFunction>)
    requires |fs| == 1
    ensures FuncsMax(fs) == Some(fs[0].maxHeight)
  {
    assert fs[..0] == [];
  }

  /** The capacity for a single function of height 0. */
  lemma OneFunction(env: Env)
    requires |env.insts| == 1 && |env.insts[0].mod.functions| == 1 && EmissionOf(env.insts[0].mod, 0).st.max == 0
    ensures StackCapacity(Compiled(env, true)) == 1024
  {
    hide Compiled, EmissionOf, AllFuncs, FuncsMax, CodeOf, LowerFunction;
    CompiledAt(env, true, 0, 0);
    var codes := Compiled(env, true);
    OneModuleFuncs(codes);
    OneFuncMax(codes[0].funcs);
  }
}
