/** The main results about compiled programs: what running optimized code does,
    and what no run of it ever does. */
module Correctness {
  import opened Wasm
  import opened Runtime
  import opened Reference
  import opened Ir
  import opened Machine
  import opened Lowering
  import opened LoweringFacts
  import opened Steps
  import opened Simulation
  import opened FusionFacts
  import opened Fusion

  /** No function's maximal height, as the compiler computes it, exceeds what the
      16-bit keep and drop counts can express. */
  ghost predicate HeightsFit(env: Env) {
    forall mi, fi :: 0 <= mi < |env.insts| && 0 <= fi < |env.insts[mi].mod.functions| ==>
      EmissionOf(env.insts[mi].mod, fi).st.max < TWO_TO_16
  }

  lemma UnfusedLoaded(env: Env)
    requires HeightsFit(env)
    ensures AllLoaded(env, Compiled(env, false))
  {
    hide LowerFunction, LowerFunctions, CompileModule, Compiled;
    forall mi, fi | 0 <= mi < |env.insts| && 0 <= fi < |env.insts[mi].mod.functions|
      ensures LoadedFunction(env, Compiled(env, false), mi, fi)
    {
      CompiledAt(env, false, mi, fi);
      var e := EmissionOf(env.insts[mi].mod, fi);
      assert LoadedFrom(env, Compiled(env, false), mi, fi, e.st.base);
    }
  }

  // ----- results of calls -----

  /** The result of running a call from outside for at most `n` steps, with `low`
      on the value stack below its arguments. */
  function RunCall(env: Env, codes: seq<ModuleCode>, n: nat, low: seq<Raw>, addr: nat, args: seq<Raw>, w: World): Result {
    RunFrom(env, codes, n, Answer(env, EnterCall(env, codes, Config(low + args, [], w), addr)))
  }

  /** The call's run comes to an end with this result. */
  ghost predicate HaltsWith(env: Env, codes: seq<ModuleCode>, low: seq<Raw>, addr: nat, args: seq<Raw>, w: World,
                            r: Result)
  {
    !r.Next? && exists n: nat :: RunCall(env, codes, n, low, addr, args, w) == r
  }

  /** The semantics gives the call this outcome, with enough fuel. */
  ghost predicate Evaluates(env: Env, addr: nat, args: seq<Raw>, w: World, o: CallOutcome) {
    o != CallTimeout && exists fuel: nat :: CallFunction(env, 0, fuel, addr, args, w) == o
  }

  /** The machine result that stands for an outcome: results on top of the stack
      that was there, or the fault, and in both cases the same world. */
  function ResultFor(low: seq<Raw>, o: CallOutcome): Result {
    match o
    case CallDone(results, w) => Done(Config(low + results, [], w))
    case CallStopped(fault, w) => Stop(fault, w)
    case CallTimeout => Wrong
    case CallStuck => Wrong
  }

  // ----- runs are deterministic and monotone -----

  lemma {:induction false} RunStays(env: Env, codes: seq<ModuleCode>, n: nat, m: nat, r: Result)
    requires n <= m && !RunFrom(env, codes, n, r).Next?
    ensures RunFrom(env, codes, m, r) == RunFrom(env, codes, n, r)
  {
    hide Run;
    if r.Next? {
      RunThen(env, codes, n, m - n, r.c);
    }
  }

  lemma {:induction false} RunGoes(env: Env, codes: seq<ModuleCode>, n: nat, m: nat, r: Result)
    requires m <= n && RunFrom(env, codes, n, r).Next?
    ensures RunFrom(env, codes, m, r).Next?
  {
    hide Run;
    if !RunFrom(env, codes, m, r).Next? {
      RunStays(env, codes, m, n, r);
    }
  }

  lemma RunEnds(env: Env, codes: seq<ModuleCode>, n: nat, r: Result)
    requires RunFrom(env, codes, n, r).Next? && RunFrom(env, codes, n, r).c.frames == []
    ensures RunFrom(env, codes, n + 1, r) == Done(RunFrom(env, codes, n, r).c)
  {
    hide Run;
    RunThen(env, codes, n, 1, r.c);
    RunOne(env, codes, RunFrom(env, codes, n, r).c);
  }

  // ----- from unfused to optimized code -----

  lemma StartRel(env: Env, low: seq<Raw>, addr: nat, args: seq<Raw>, w: World)
    ensures var c := Config(low + args, [], w);
            ResultRel(env, Answer(env, EnterCall(env, Compiled(env, true), c, addr)), Answer(env, EnterCall(env, Compiled(env, false), c, addr)))
  {
    hide EnterCall, Answer, Compiled, ResultRel;
    var c := Config(low + args, [], w);
    assert Rel(env, c, c);
    RelEnterCall(env, c, c, addr);
    RelAnswer(env, EnterCall(env, Compiled(env, true), c, addr), EnterCall(env, Compiled(env, false), c, addr));
  }

  /** After `n` steps of optimized code the original has made between `n` and
      `2 * n` steps and stands at the corresponding place. */
  lemma OptimizedRun(env: Env, n: nat, low: seq<Raw>, addr: nat, args: seq<Raw>, w: World) returns (m: nat)
    ensures n <= m <= 2 * n
    ensures ResultRel(env, RunCall(env, Compiled(env, true), n, low, addr, args, w), RunCall(env, Compiled(env, false), m, low, addr, args, w))
  {
    hide EnterCall, Answer, Compiled, Rel;
    StartRel(env, low, addr, args, w);
    var c := Config(low + args, [], w);
    var r0 := Answer(env, EnterCall(env, Compiled(env, false), c, addr));
    var r1 := Answer(env, EnterCall(env, Compiled(env, true), c, addr));
    m := n;
    if r0.Next? {
      m := FusedRun(env, n, r1.c, r0.c);
    }
  }

  // ----- compiler correctness -----

  /** A call that may be made: its program is valid, its heights fit, and it has
      as many arguments as the function has parameters. */
  ghost predicate Callable(env: Env, addr: nat, args: seq<Raw>, w: World) {
    && ValidProgram(env) && HeightsFit(env) && WorldOk(env, w)
    && addr < |env.funcs| && |args| == |env.funcs[addr].ft.params|
  }

  /** With any amount of fuel the semantics is never stuck, and the unfused code
      either reaches its outcome or outlasts its fuel. */
  lemma UnfusedCall(env: Env, fuel: nat, low: seq<Raw>, addr: nat, args: seq<Raw>, w: World) returns (n: nat)
    requires Callable(env, addr, args, w)
    ensures var o := CallFunction(env, 0, fuel, addr, args, w);
            var r := RunCall(env, Compiled(env, false), n, low, addr, args, w);
            && o != CallStuck
            && (o == CallTimeout ==> n >= fuel && r.Next?)
            && (o != CallTimeout ==> r == ResultFor(low, o))
            && (o.CallDone? ==> |o.results| == |env.funcs[addr].ft.results|)
  {
    hide EnterCall, Answer, Compiled, CallFunction, Run, ValidProgram, HeightsFit, WorldOk, AllLoaded;
    UnfusedLoaded(env);
    n := SimCall(env, Compiled(env, false), fuel, addr, args, low, [], w);
    var o := CallFunction(env, 0, fuel, addr, args, w);
    if o.CallDone? {
      RunEnds(env, Compiled(env, false), n, Answer(env, EnterCall(env, Compiled(env, false), Config(low + args, [], w), addr)));
      n := n + 1;
    }
  }

  /** The same for optimized code, which may need only half as many steps. */
  lemma OptimizedCall(env: Env, fuel: nat, low: seq<Raw>, addr: nat, args: seq<Raw>, w: World) returns (n: nat)
    requires Callable(env, addr, args, w)
    ensures var o := CallFunction(env, 0, fuel, addr, args, w);
            var r := RunCall(env, Compiled(env, true), n, low, addr, args, w);
            && o != CallStuck
            && (o == CallTimeout ==> 2 * n + 1 >= fuel && r.Next?)
            && (o != CallTimeout ==> r == ResultFor(low, o))
            && (o.CallDone? ==> |o.results| == |env.funcs[addr].ft.results|)
  {
    hide EnterCall, Answer, Compiled, CallFunction, Run, Callable, Rel;
    var k := UnfusedCall(env, fuel, low, addr, args, w);
    var o := CallFunction(env, 0, fuel, addr, args, w);
    var codes0 := Compiled(env, false);
    var r0 := Answer(env, EnterCall(env, codes0, Config(low + args, [], w), addr));
    n := if o == CallTimeout then k / 2 else k;
    var m := OptimizedRun(env, n, low, addr, args, w);
    if o == CallTimeout {
      RunGoes(env, codes0, k, m, r0);
    } else {
      RunStays(env, codes0, k, m, r0);
      RelDone(env, RunCall(env, Compiled(env, true), n, low, addr, args, w), RunCall(env, codes0, m, low, addr, args, w));
    }
  }

  lemma RelDone(env: Env, r1: Result, r0: Result)
    requires ResultRel(env, r1, r0)
    ensures r0.Done? && r0.c.frames == [] ==> r1 == r0
  {
  }

  /** Compiler correctness. Calling a function of a validated program through the
      optimized code halts with a result exactly when the structured semantics
      gives the call the outcome that the result stands for: the same returned
      values, the same fault, the same globals, memories and tables. It runs
      forever exactly when the semantics has no outcome. */
  lemma CompilerCorrect(env: Env, low: seq<Raw>, addr: nat, args: seq<Raw>, w: World, r: Result)
    requires Callable(env, addr, args, w)
    ensures HaltsWith(env, Compiled(env, true), low, addr, args, w, r) <==>
            exists o: CallOutcome :: Evaluates(env, addr, args, w, o) && r == ResultFor(low, o)
  {
    hide EnterCall, Answer, Compiled, CallFunction, Run, Callable, RunCall;
    var codes := Compiled(env, true);
    if HaltsWith(env, codes, low, addr, args, w, r) {
      var n: nat :| RunCall(env, codes, n, low, addr, args, w) == r;
      var fuel := 2 * n + 2;
      var k := OptimizedCall(env, fuel, low, addr, args, w);
      var o := CallFunction(env, 0, fuel, addr, args, w);
      CallHalts(env, codes, n, k, low, addr, args, w);
      assert Evaluates(env, addr, args, w, o);
    }
    if exists o: CallOutcome :: Evaluates(env, addr, args, w, o) && r == ResultFor(low, o) {
      var o: CallOutcome :| Evaluates(env, addr, args, w, o) && r == ResultFor(low, o);
      var fuel: nat :| CallFunction(env, 0, fuel, addr, args, w) == o;
      var n := OptimizedCall(env, fuel, low, addr, args, w);
      assert RunCall(env, codes, n, low, addr, args, w) == r;
    }
  }

  /** A run has one end: a halted run stays as it is, and was going before. */
  lemma CallHalts(env: Env, codes: seq<ModuleCode>, n: nat, k: nat, low: seq<Raw>, addr: nat, args: seq<Raw>, w: World)
    requires !RunCall(env, codes, n, low, addr, args, w).Next?
    ensures var r := RunCall(env, codes, k, low, addr, args, w);
            if k >= n then r == RunCall(env, codes, n, low, addr, args, w)
            else r.Next? || r == RunCall(env, codes, n, low, addr, args, w)
  {
    hide EnterCall, Answer, Run;
    var r0 := Answer(env, EnterCall(env, codes, Config(low + args, [], w), addr));
    if k >= n {
      RunStays(env, codes, n, k, r0);
    } else if !RunFrom(env, codes, k, r0).Next? {
      RunStays(env, codes, k, n, r0);
    }
  }

  /** No step of any run of a validated program is `Wrong`. */
  lemma NeverWrong(env: Env, n: nat, low: seq<Raw>, addr: nat, args: seq<Raw>, w: World)
    requires Callable(env, addr, args, w)
    ensures RunCall(env, Compiled(env, true), n, low, addr, args, w) != Wrong
  {
    hide EnterCall, Answer, Compiled, CallFunction, Run, Callable, RunCall;
    var codes := Compiled(env, true);
    if RunCall(env, codes, n, low, addr, args, w) == Wrong {
      assert HaltsWith(env, codes, low, addr, args, w, Wrong);
      CompilerCorrect(env, low, addr, args, w, Wrong);
      var o: CallOutcome :| Evaluates(env, addr, args, w, o) && ResultFor(low, o) == Wrong;
      var fuel: nat :| CallFunction(env, 0, fuel, addr, args, w) == o;
      var k := OptimizedCall(env, fuel, low, addr, args, w);
    }
  }

  /** The same for code before the passes. */
  lemma UnfusedNeverWrong(env: Env, n: nat, low: seq<Raw>, addr: nat, args: seq<Raw>, w: World)
    requires Callable(env, addr, args, w)
    ensures RunCall(env, Compiled(env, false), n, low, addr, args, w) != Wrong
  {
    hide EnterCall, Answer, Compiled, CallFunction, Run, Callable, RunCall;
    var codes := Compiled(env, false);
    var k := UnfusedCall(env, n, low, addr, args, w);
    if RunCall(env, codes, n, low, addr, args, w) == Wrong {
      CallHalts(env, codes, n, k, low, addr, args, w);
      if RunCall(env, codes, k, low, addr, args, w) != Wrong {
        CallHalts(env, codes, k, n, low, addr, args, w);
      }
    }
  }

  /** A run that has left its last frame holds, above what was there, exactly as
      many values as the called function's type says. */
  lemma ReturnsResults(env: Env, n: nat, low: seq<Raw>, addr: nat, args: seq<Raw>, w: World)
    requires Callable(env, addr, args, w)
    ensures var r := RunCall(env, Compiled(env, true), n, low, addr, args, w);
            (r.Next? && r.c.frames == []) || r.Done? ==>
              r.c.frames == [] && |r.c.stack| == |low| + |env.funcs[addr].ft.results|
  {
    hide EnterCall, Answer, Compiled, CallFunction, Run, Callable, RunCall;
    var codes := Compiled(env, true);
    var r := RunCall(env, codes, n, low, addr, args, w);
    if (r.Next? && r.c.frames == []) || r.Done? {
      var d := Done(r.c);
      if r.Next? { DoneNext(env, codes, n, low, addr, args, w); }
      assert HaltsWith(env, codes, low, addr, args, w, d) by {
        assert RunCall(env, codes, if r.Next? then n + 1 else n, low, addr, args, w) == d;
      }
      CompilerCorrect(env, low, addr, args, w, d);
      var o: CallOutcome :| Evaluates(env, addr, args, w, o) && ResultFor(low, o) == d;
      var fuel: nat :| CallFunction(env, 0, fuel, addr, args, w) == o;
      var k := OptimizedCall(env, fuel, low, addr, args, w);
    }
  }

  lemma DoneNext(env: Env, codes: seq<ModuleCode>, n: nat, low: seq<Raw>, addr: nat, args: seq<Raw>, w: World)
    requires var r := RunCall(env, codes, n, low, addr, args, w); r.Next? && r.c.frames == []
    ensures RunCall(env, codes, n + 1, low, addr, args, w) == Done(RunCall(env, codes, n, low, addr, args, w).c)
  {
    hide EnterCall, Answer, Run;
    RunEnds(env, codes, n, Answer(env, EnterCall(env, codes, Config(low + args, [], w), addr)));
  }
}
