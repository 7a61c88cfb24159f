/** Host imports by name, and the loop that answers a suspended run
    (src/linker.rs). */
module Linker {
  import opened Wasm
  import opened Runtime
  import opened Reference
  import opened Ir
  import opened Machine
  import opened Metering
  import opened Simulation
  import opened Fusion
  import opened Correctness
  import opened Capacity
  import opened Execution

  // ----- safety of runs whose host calls are answered -----

  ghost predicate AtomicSafeAfter(env: Env, codes: seq<ModuleCode>, cap: nat, n: nat, c: Config, results: nat) {
    var r := Machine.Run(env, codes, n, c);
    && r != Wrong
    && (r.Next? ==> |r.c.stack| <= cap && PeakOf(codes, r.c) <= cap && (r.c.frames == [] ==> |r.c.stack| >= results))
  }

  /** Every state of the run, host calls answered, is safe on a stack of `cap`
      values, and the run leaves at least `results` values. */
  ghost predicate AtomicSafe(env: Env, codes: seq<ModuleCode>, cap: nat, c: Config, results: nat) {
    forall n: nat :: AtomicSafeAfter(env, codes, cap, n, c, results)
  }

  ghost predicate AtomicEnded(env: Env, codes: seq<ModuleCode>, n: nat, c: Config) {
    var r := Machine.Run(env, codes, n, c);
    !r.Next? || r.c.frames == []
  }

  ghost predicate AtomicHalts(env: Env, codes: seq<ModuleCode>, c: Config) {
    exists n: nat :: AtomicEnded(env, codes, n, c)
  }

  lemma {:induction false} AdvanceIsRun(env: Env, codes: seq<ModuleCode>, n: nat, c: Config)
    ensures var r := Advance(env, codes, n, c);
            && (r.Next? ==> Machine.Run(env, codes, n, c) == r)
            && (r == Wrong ==> Machine.Run(env, codes, n, c) == Wrong)
    decreases n
  {
    hide Step;
    if n > 0 && Step(env, codes, c).Next? {
      AdvanceIsRun(env, codes, n - 1, Step(env, codes, c).c);
    }
  }

  /** What the run is up to its next suspension. */
  lemma SafeUntilPause(env: Env, codes: seq<ModuleCode>, cap: nat, c: Config, results: nat)
    requires AtomicSafe(env, codes, cap, c, results)
    ensures RunsSafely(env, codes, cap, c)
    ensures forall n: nat :: LeavesAfter(env, codes, n, c, results)
  {
    hide Advance, Machine.Run, PeakOf;
    forall n: nat ensures SafeAfter(env, codes, cap, n, c) && LeavesAfter(env, codes, n, c, results) {
      assert AtomicSafeAfter(env, codes, cap, n, c, results);
      AdvanceIsRun(env, codes, n, c);
    }
  }

  lemma HaltsUntilPause(env: Env, codes: seq<ModuleCode>, c: Config)
    requires AtomicHalts(env, codes, c)
    ensures Halts(env, codes, c)
  {
    hide Advance, Machine.Run;
    var n: nat :| AtomicEnded(env, codes, n, c);
    AdvanceIsRun(env, codes, n, c);
    assert Ended(env, codes, n, c);
  }

  // ----- a suspension in the run with answered host calls -----

  /** A loop that suspends has made `n` steps, the last of them the host call. */
  lemma {:induction false} SuspendedRun(env: Env, codes: seq<ModuleCode>, n: nat, fuel: Option<nat>, c: Config)
    requires var h := RunLoop(env, codes, n, fuel, c); h.pause.Suspended? && h.left == 0
    ensures n >= 1 && c.frames != []
    ensures var h' := Continue(env, RunLoop(env, codes, n, fuel, c));
            Machine.Run(env, codes, n, c) ==
            if h'.pause.Running? then Next(h'.c) else Stop(if h'.pause.Trapped? then h'.pause.fault else HostError, h'.c.world)
    ensures fuel.Some? ==> RunLoop(env, codes, n, fuel, c).fuel.Some? && RunLoop(env, codes, n, fuel, c).fuel.value < fuel.value
    ensures fuel.None? ==> RunLoop(env, codes, n, fuel, c).fuel.None?
    decreases n
  {
    hide Step;
    var r := Step(env, codes, c);
    if r.Next? {
      SuspendedRun(env, codes, n - 1, Spend(fuel), r.c);
    } else {
      assert forall d: Config :: Machine.Run(env, codes, 0, d) == Next(d);
      assert HostStep(env, codes, c) == Answer(env, r);
    }
  }

  /** The atomic loop runs through the suspension. */
  lemma {:induction false} AtomicThrough(env: Env, codes: seq<ModuleCode>, n: nat, k: nat, fuel: Option<nat>, c: Config)
    requires var h := RunLoop(env, codes, n, fuel, c); h.pause.Suspended? && h.left == 0
    ensures var h' := Continue(env, RunLoop(env, codes, n, fuel, c));
            AtomicLoop(env, codes, n + k, fuel, c) ==
            if h'.pause.Running? then AtomicLoop(env, codes, k, h'.fuel, h'.c) else Halt(h'.pause, Config([], [], h'.c.world), h'.fuel, k)
    decreases n
  {
    hide Step;
    var r := Step(env, codes, c);
    if r.Next? {
      AtomicThrough(env, codes, n - 1, k, Spend(fuel), r.c);
    } else {
      assert HostStep(env, codes, c) == Answer(env, r);
    }
  }

  /** A loop that ends otherwise is atomic already. */
  lemma {:induction false} AtomicPlain(env: Env, codes: seq<ModuleCode>, n: nat, fuel: Option<nat>, c: Config)
    requires !RunLoop(env, codes, n, fuel, c).pause.Suspended?
    ensures AtomicLoop(env, codes, n, fuel, c) == RunLoop(env, codes, n, fuel, c)
    decreases n
  {
    hide Step;
    if n > 0 && c.frames != [] && fuel != Some(0) && Step(env, codes, c).Next? {
      AtomicPlain(env, codes, n - 1, Spend(fuel), Step(env, codes, c).c);
    }
  }

  /** After `n` steps the run with answered host calls is at `c`. */
  ghost predicate Follows(env: Env, codes: seq<ModuleCode>, n: nat, f0: Option<nat>, c0: Config, fuel: Option<nat>,
                          c: Config)
  {
    && Machine.Run(env, codes, n, c0) == Next(c)
    && f0.Some? == fuel.Some?
    && forall k: nat :: AtomicLoop(env, codes, n + k, f0, c0) == AtomicLoop(env, codes, k, fuel, c)
  }

  lemma FollowsStart(env: Env, codes: seq<ModuleCode>, f0: Option<nat>, c0: Config)
    ensures Follows(env, codes, 0, f0, c0, f0, c0)
  {
  }

  lemma FollowsThrough(env: Env, codes: seq<ModuleCode>, n: nat, m: nat, f0: Option<nat>, c0: Config, fuel: Option<nat>,
                       c: Config)
    requires Follows(env, codes, n, f0, c0, fuel, c)
    requires var h := RunLoop(env, codes, m, fuel, c); h.pause.Suspended? && h.left == 0 && Continue(env, h).pause.Running?
    ensures var h' := Continue(env, RunLoop(env, codes, m, fuel, c));
            Follows(env, codes, n + m, f0, c0, h'.fuel, h'.c)
  {
    hide RunLoop, AtomicLoop, Machine.Run;
    var h' := Continue(env, RunLoop(env, codes, m, fuel, c));
    SuspendedRun(env, codes, m, fuel, c);
    RunThen(env, codes, n, m, c0);
    forall k: nat ensures AtomicLoop(env, codes, (n + m) + k, f0, c0) == AtomicLoop(env, codes, k, h'.fuel, h'.c) {
      assert (n + m) + k == n + (m + k);
      assert AtomicLoop(env, codes, n + (m + k), f0, c0) == AtomicLoop(env, codes, m + k, fuel, c);
      AtomicThrough(env, codes, m, k, fuel, c);
    }
  }

  /** Where a safe run is later, it is safe. */
  lemma SafeLater(env: Env, codes: seq<ModuleCode>, cap: nat, n: nat, c0: Config, c: Config, results: nat)
    requires AtomicSafe(env, codes, cap, c0, results) && Machine.Run(env, codes, n, c0) == Next(c)
    ensures AtomicSafe(env, codes, cap, c, results)
  {
    hide Machine.Run, PeakOf;
    forall k: nat ensures AtomicSafeAfter(env, codes, cap, k, c, results) {
      RunThen(env, codes, n, k, c0);
      assert AtomicSafeAfter(env, codes, cap, n + k, c0, results);
    }
  }

  lemma RunEmpty(env: Env, codes: seq<ModuleCode>, n: nat, r: Result)
    requires n > 0
    ensures r.Next? && r.c.frames == [] ==> Machine.Run(env, codes, n, r.c) == Done(r.c)
  {
  }

  /** A run that goes on ends later. */
  lemma HaltsLater(env: Env, codes: seq<ModuleCode>, n: nat, end: nat, c0: Config, c: Config)
    requires AtomicEnded(env, codes, end, c0) && Machine.Run(env, codes, n, c0) == Next(c)
    ensures n <= end && AtomicEnded(env, codes, end - n, c)
    ensures c.frames != [] ==> n < end
  {
    hide Machine.Run;
    if end < n {
      RunThen(env, codes, end, n - end, c0);
      RunEmpty(env, codes, n - end, Machine.Run(env, codes, end, c0));
    } else {
      RunThen(env, codes, n, end - n, c0);
      assert end == n ==> Machine.Run(env, codes, 0, c) == Next(c) by { RunNone(env, codes, c); }
    }
  }

  // ----- the linker -----

  class Linker {
    /** The types of the imports that are defined, by module and name; what they
        do is the environment's `host`. */
    const funcs: map<(Name, Name), FunctionType>

    constructor (funcs: map<(Name, Name), FunctionType>)
      ensures this.funcs == funcs
    {
      this.funcs := funcs;
    }

    /** Every import of the store was resolved here, with its own type. */
    ghost predicate Defines(env: Env) {
      forall a :: 0 <= a < |env.funcs| && env.funcs[a].HostFunc? ==>
        var f := env.funcs[a];
        (f.moduleName, f.funcName) in funcs && funcs[(f.moduleName, f.funcName)] == f.ft
    }

    /** What came of the run, as the loop `h` with atomic host calls has it. After
        an import failed or exited the store is left as it was suspended. */
    ghost predicate Dispatched(store: Store, r: Reply, results: nat, h: Halt)
      requires store.Valid()
      reads store, store.stack, store.stack.inner
    {
      && store.fuel == h.fuel && store.world == h.c.world && store.pendingSuspension == None
      && match r
         case Ok(Returned(vs)) =>
           && h.pause == Completed && |h.c.stack| >= results && vs == Top(h.c.stack, results)
           && store.Cfg() == Popped(h.c, results) && store.pendingArity == None
         case Ok(OutOfFuel) => h.pause == FuelExhausted && store.Cfg() == h.c && store.pendingArity == Some(results)
         case Ok(SuspendedOn(_, _, _)) => false
         case Ok(ExitedWith(code)) => h.pause == Trapped(Exited(code)) && store.pendingArity == Some(results)
         case Err(HostResultCount) => h.pause == Trapped(HostError) && store.pendingArity == Some(results)
         case Err(HostFailure) => h.pause == Trapped(HostError) && store.pendingArity == Some(results)
         case Err(FaultError(fault)) => h.pause == Trapped(fault) && store.callStack == [] && store.pendingArity == None
         case Err(_) => false
    }

    /** Asks the import that the run is suspended on, and resumes with its results. */
    method AnswerOne(store: Store, s: ExecutionState, ghost results: nat, ghost m: nat, ghost fuel: Option<nat>,
                     ghost c: Config)
      returns (r: Reply, ghost m': nat)
      requires store.Valid() && Defines(store.env) && s.SuspendedOn?
      requires store.Finished(Ok(s), results, RunLoop(store.env, store.codes, m, fuel, c))
      requires AtomicSafe(store.env, store.codes, store.stack.inner.Length, c, results)
      requires fuel.None? ==> AtomicHalts(store.env, store.codes, c)
      modifies store`callStack, store`world, store`fuel, store`pendingArity, store`pendingSuspension
      modifies store.stack`cursor, store.stack.inner
      ensures store.Valid()
      ensures var h := RunLoop(store.env, store.codes, m, fuel, c);
              && h.pause.Suspended? && h.left == 0
              && var h' := Continue(store.env, h);
              if h'.pause.Running? then store.Finished(r, results, RunLoop(store.env, store.codes, m', h'.fuel, h'.c))
              else Dispatched(store, r, results, Halt(h'.pause, Config([], [], h'.c.world), h'.fuel, 0)) && (r.Ok? ==> r.state.ExitedWith?)
    {
      hide RunLoop, Machine.Run, AtomicSafe, AtomicHalts, RunsSafely, LeavesAfter, Halts;
      ghost var h := RunLoop(store.env, store.codes, m, fuel, c);
      m' := 0;
      LoopSuspends(store.env, store.codes, m, fuel, c);
      var (moduleName, funcName, args) := (s.moduleName, s.funcName, s.args);
      if (moduleName, funcName) !in funcs {
        return Err(UnknownImport), m';
      }
      var ft := funcs[(moduleName, funcName)];
      if |args| != |ft.params| {
        return Err(HostArgumentCount), m';
      }
      var answer := store.env.host(moduleName, funcName, args, store.world);
      store.world := answer.world;
      match answer
      case HostExit(code, _) => return Ok(ExitedWith(code)), m';
      case HostFail(_) => return Err(HostFailure), m';
      case HostReturn(values, _) =>
        if |values| != |ft.results| {
          return Err(HostResultCount), m';
        }
        ContinuesSafely(store.env, store.codes, store.stack.inner.Length, m, fuel, c, results);
        r, m' := store.ResumeWith(values);
    }

    /** Answers suspensions until the run completes, runs out of fuel or fails.
        The run started at `c0` with fuel `f0`; `n0` rounds led to `state`. */
    method Dispatch(store: Store, state: ExecutionState, ghost results: nat, ghost f0: Option<nat>, ghost c0: Config,
                    ghost n0: nat)
      returns (r: Reply, ghost n: nat)
      requires store.Valid() && Defines(store.env)
      requires store.Finished(Ok(state), results, RunLoop(store.env, store.codes, n0, f0, c0))
      requires AtomicSafe(store.env, store.codes, store.stack.inner.Length, c0, results)
      requires f0.None? ==> AtomicHalts(store.env, store.codes, c0)
      modifies store`callStack, store`world, store`fuel, store`pendingArity, store`pendingSuspension
      modifies store.stack`cursor, store.stack.inner
      ensures store.Valid() && Dispatched(store, r, results, AtomicLoop(store.env, store.codes, n, f0, c0))
    {
      r := Ok(state);
      ghost var g := Progress(0, f0, c0, n0, f0, c0, false);
      ghost var end: nat := 0;
      FollowsStart(store.env, store.codes, f0, c0);
      if f0.None? { end :| AtomicEnded(store.env, store.codes, end, c0); }
      assert Invariant(store, r, results, g, end);
      while r.Ok? && r.state.SuspendedOn?
        invariant store.Valid() && Invariant(store, r, results, g, end) && g.f0 == f0 && g.c0 == c0
        decreases r.Ok? && r.state.SuspendedOn?, g.Distance(end)
      {
        hide *;
        r, g := Round(store, r.state, results, g, end);
      }
      hide *;
      n := Concluded(store, r, results, g, end);
    }

    /** Calls a local function of a validated program on an idle store. Unmetered,
        the call does what the structured semantics says; metered, it does so or
        pauses with its fuel spent. No read or write of the stack is checked. */
    method Invoke(store: Store, addr: nat, args: seq<Raw>) returns (r: Reply, ghost o: CallOutcome)
      requires store.Valid() && store.Cfg() == Config([], [], store.world)
      requires store.pendingArity == None && store.pendingSuspension == None
      requires store.codes == Compiled(store.env, true) && store.stack.inner.Length == StackCapacity(store.codes)
      requires Callable(store.env, addr, args, store.world) && store.env.funcs[addr].LocalFunc?
      requires |args| <= store.stack.inner.Length && |store.env.funcs[addr].ft.results| <= store.stack.inner.Length
      requires Defines(store.env)
      requires store.fuel.None? ==> exists o: CallOutcome :: Evaluates(store.env, addr, args, store.world, o)
      modifies store`callStack, store`world, store`fuel, store`pendingArity, store`pendingSuspension
      modifies store.stack`cursor, store.stack.inner
      ensures store.Valid()
      ensures r != Ok(OutOfFuel) ==>
                && Evaluates(store.env, addr, args, old(store.world), o) && Stands(r, o)
                && store.world == WorldAfter(o, old(store.world))
                && (o.CallDone? ==> store.Cfg() == Config([], [], o.world) && store.pendingArity == None)
      ensures r == Ok(OutOfFuel) ==>
                && old(store.fuel).Some? && store.fuel == Some(0) && store.pendingArity == Some(|store.env.funcs[addr].ft.results|)
                && Machine.Run(store.env, store.codes, old(store.fuel).value,
                               Entered(store.env, store.codes, addr, args, old(store.world))) == Next(store.Cfg())
    {
      hide Compiled, Machine.Run, RunCall, EnterCall, Callable, Entered, Evaluates, AtomicLoop, RunLoop, AtomicSafe;
      hide StackCapacity;
      CallableArgs(store.env, addr, args, store.world);
      ghost var (env, codes, w, f0, results) := (store.env, store.codes, store.world, store.fuel, |store.env.funcs[addr].ft.results|);
      ghost var c0 := Entered(env, codes, addr, args, w);
      assert store.stack.Contents() + args == args;
      PrepareCall(env, addr, args, w, f0);
      ghost var n;
      r, n := store.InvokeByAddr(addr, args);
      if r.Ok? {
        r, n := Dispatch(store, r.state, results, f0, c0, n);
      } else {
        AtomicPlain(env, codes, n, f0, c0);
      }
      o := CallReported(env, n, f0, addr, args, w);
      if r == Ok(OutOfFuel) {
        ghost var k := AtomicIsRun(env, codes, n, f0, c0);
      }
    }

    /** Where the dispatch loop ends, the whole run ends. */
    lemma Concluded(store: Store, r: Reply, results: nat, g: Progress, end: nat) returns (n: nat)
      requires store.Valid() && Invariant(store, r, results, g, end) && !(r.Ok? && r.state.SuspendedOn?)
      ensures Dispatched(store, r, results, AtomicLoop(store.env, store.codes, n, g.f0, g.c0))
    {
      hide RunLoop, AtomicLoop, Machine.Run, AtomicSafe, AtomicEnded, Follows;
      n := g.n;
      if !g.failed {
        LoopEnds(store.env, store.codes, g.n, g.m, g.f0, g.c0, g.fuel, g.c);
        n := n + g.m;
      }
    }

    /** What the dispatch loop keeps: the reply is that of a loop which continues
        the run where its answered part has led, or of the whole run. */
    ghost predicate Invariant(store: Store, r: Reply, results: nat, g: Progress, end: nat)
      requires store.Valid()
      reads store, store.stack, store.stack.inner
    {
      && Defines(store.env)
      && AtomicSafe(store.env, store.codes, store.stack.inner.Length, g.c, results)
      && (g.f0.None? ==> AtomicEnded(store.env, store.codes, end, g.c0))
      && if g.failed then
           && (r.Ok? ==> !r.state.SuspendedOn?)
           && Dispatched(store, r, results, AtomicLoop(store.env, store.codes, g.n, g.f0, g.c0))
         else
           && store.Finished(r, results, RunLoop(store.env, store.codes, g.m, g.fuel, g.c))
           && Follows(store.env, store.codes, g.n, g.f0, g.c0, g.fuel, g.c)
    }

    method Round(store: Store, s: ExecutionState, ghost results: nat, ghost g: Progress, ghost end: nat)
      returns (r: Reply, ghost g': Progress)
      requires store.Valid() && s.SuspendedOn? && Invariant(store, Ok(s), results, g, end)
      modifies store`callStack, store`world, store`fuel, store`pendingArity, store`pendingSuspension
      modifies store.stack`cursor, store.stack.inner
      ensures store.Valid() && Invariant(store, r, results, g', end) && g'.f0 == g.f0 && g'.c0 == g.c0
      ensures r.Ok? && r.state.SuspendedOn? ==> 0 <= g'.Distance(end) < g.Distance(end)
    {
      hide RunLoop, AtomicLoop, Machine.Run, AtomicSafe, AtomicEnded, Dispatched, Follows;
      ghost var h' := Continue(store.env, RunLoop(store.env, store.codes, g.m, g.fuel, g.c));
      RoundFacts(store.env, store.codes, store.stack.inner.Length, results, g.n, g.m, g.f0, g.c0, g.fuel, g.c, end);
      ghost var m;
      r, m := AnswerOne(store, s, results, g.m, g.fuel, g.c);
      if h'.pause.Running? {
        g' := Progress(g.n + g.m, g.f0, g.c0, m, h'.fuel, h'.c, false);
        if r.Ok? && r.state.SuspendedOn? {
          RoundFacts(store.env, store.codes, store.stack.inner.Length, results, g'.n, m, g.f0, g.c0, h'.fuel, h'.c, end);
        }
      } else {
        g' := g.(n := g.n + g.m, failed := true);
      }
    }
  }

  // ----- calls of validated programs -----

  /** The state in which a call of a local function starts. */
  function Entered(env: Env, codes: seq<ModuleCode>, addr: nat, args: seq<Raw>, w: World): Config {
    var e := EnterCall(env, codes, Config(args, [], w), addr);
    if e.Next? then e.c else Config([], [], w)
  }

  lemma EntersLocally(env: Env, addr: nat, args: seq<Raw>, w: World)
    requires Callable(env, addr, args, w) && env.funcs[addr].LocalFunc?
    ensures var codes := Compiled(env, true);
            && EnterCall(env, codes, Config(args, [], w), addr) == Next(Entered(env, codes, addr, args, w))
            && |Entered(env, codes, addr, args, w).stack| == 0
    ensures forall n: nat :: RunCall(env, Compiled(env, true), n, [], addr, args, w)
                          == Machine.Run(env, Compiled(env, true), n, Entered(env, Compiled(env, true), addr, args, w))
  {
    hide Compiled, Machine.Run;
    var codes := Compiled(env, true);
    var none: seq<Raw> := [];
    assert none + args == args;
    NeverWrong(env, 0, [], addr, args, w);
    LocalEnters(env, codes, Config(args, [], w), addr);
  }

  lemma LocalEnters(env: Env, codes: seq<ModuleCode>, c: Config, addr: nat)
    requires addr < |env.funcs| && env.funcs[addr].LocalFunc? && |c.stack| == |env.funcs[addr].ft.params|
    requires c.frames == []
    ensures var e := EnterCall(env, codes, c, addr); e == Wrong || (e.Next? && e.c.stack == [])
  {
  }

  /** A call of a validated program is safe on a stack of the capacity computed
      for it, from the arguments on, when its arguments and results fit there. */
  lemma CallIsSafe(env: Env, addr: nat, args: seq<Raw>, w: World)
    requires Callable(env, addr, args, w) && env.funcs[addr].LocalFunc?
    requires |env.funcs[addr].ft.params| <= StackCapacity(Compiled(env, true))
    requires |env.funcs[addr].ft.results| <= StackCapacity(Compiled(env, true))
    ensures AlwaysFits(env, addr, args, w)
    ensures var codes := Compiled(env, true);
            AtomicSafe(env, codes, StackCapacity(codes), Entered(env, codes, addr, args, w), |env.funcs[addr].ft.results|)
  {
    hide Compiled, Machine.Run, RunCall, PeakOf, StackCapacity, EnterCall, Callable, Entered;
    CallableArgs(env, addr, args, w);
    CapacityExact(env, addr, args, w);
    hide AlwaysFits;
    var codes := Compiled(env, true);
    var c := Entered(env, codes, addr, args, w);
    var results := |env.funcs[addr].ft.results|;
    EntersLocally(env, addr, args, w);
    forall n: nat ensures AtomicSafeAfter(env, codes, StackCapacity(codes), n, c, results) {
      assert RunCall(env, codes, n, [], addr, args, w) == Machine.Run(env, codes, n, c);
      NeverWrong(env, n, [], addr, args, w);
      StaysWithinCapacity(env, n, addr, args, w);
      ReturnsResults(env, n, [], addr, args, w);
      var r := Machine.Run(env, codes, n, c);
      if r.Next? && r.c.frames == [] { PeakEmpty(codes, r.c); }
    }
  }

  lemma PeakEmpty(codes: seq<ModuleCode>, c: Config)
    requires c.frames == []
    ensures PeakOf(codes, c) == |c.stack|
  {
  }

  lemma CallHaltsAtomic(env: Env, addr: nat, args: seq<Raw>, w: World, o: CallOutcome)
    requires Callable(env, addr, args, w) && env.funcs[addr].LocalFunc? && Evaluates(env, addr, args, w, o)
    ensures AtomicHalts(env, Compiled(env, true), Entered(env, Compiled(env, true), addr, args, w))
  {
    hide Compiled, Machine.Run, RunCall, EnterCall, Callable, Entered, Evaluates;
    var codes := Compiled(env, true);
    EntersLocally(env, addr, args, w);
    var r := ResultFor([], o);
    CompilerCorrect(env, [], addr, args, w, r);
    var n: nat :| RunCall(env, codes, n, [], addr, args, w) == r;
    assert AtomicEnded(env, codes, n, Entered(env, codes, addr, args, w));
  }

  /** Everything that entering the call relies on. */
  lemma PrepareCall(env: Env, addr: nat, args: seq<Raw>, w: World, fuel: Option<nat>)
    requires Callable(env, addr, args, w) && env.funcs[addr].LocalFunc?
    requires |env.funcs[addr].ft.params| <= StackCapacity(Compiled(env, true))
    requires |env.funcs[addr].ft.results| <= StackCapacity(Compiled(env, true))
    requires fuel.None? ==> exists o: CallOutcome :: Evaluates(env, addr, args, w, o)
    ensures |args| == |env.funcs[addr].ft.params|
    ensures var codes := Compiled(env, true);
            var c := Entered(env, codes, addr, args, w);
            var (cap, results) := (StackCapacity(codes), |env.funcs[addr].ft.results|);
            && EnterCall(env, codes, Config(args, [], w), addr) == Next(c) && c.stack == []
            && AtomicSafe(env, codes, cap, c, results) && RunsSafely(env, codes, cap, c)
            && (forall n: nat :: LeavesAfter(env, codes, n, c, results))
            && (fuel.None? ==> AtomicHalts(env, codes, c) && Halts(env, codes, c))
  {
    hide Compiled, EnterCall, Callable, Entered, Evaluates, AtomicSafe, StackCapacity, RunsSafely, LeavesAfter;
    hide AtomicHalts, Halts;
    hide AlwaysFits;
    CallableArgs(env, addr, args, w);
    EntersLocally(env, addr, args, w);
    CallIsSafe(env, addr, args, w);
    var codes := Compiled(env, true);
    var c := Entered(env, codes, addr, args, w);
    SafeUntilPause(env, codes, StackCapacity(codes), c, |env.funcs[addr].ft.results|);
    if fuel.None? {
      var o: CallOutcome :| Evaluates(env, addr, args, w, o);
      CallHaltsAtomic(env, addr, args, w, o);
      HaltsUntilPause(env, codes, c);
    }
  }

  /** What the atomic loop reports is a state of the run. */
  lemma {:induction false} AtomicIsRun(env: Env, codes: seq<ModuleCode>, n: nat, fuel: Option<nat>, c: Config)
    returns (k: nat)
    ensures var h := AtomicLoop(env, codes, n, fuel, c);
            var r := Machine.Run(env, codes, k, c);
            match h.pause
            case Completed => r == Done(h.c)
            case FuelExhausted => fuel == Some(k) && h.fuel == Some(0) && r == Next(h.c)
            case Trapped(fault) => r == Stop(fault, h.c.world)
            case _ => true
    decreases n
  {
    hide Step;
    k := 0;
    if c.frames == [] {
      k := 1;
      RunEmpty(env, codes, 1, Next(c));
    } else if fuel != Some(0) && n > 0 {
      var r := HostStep(env, codes, c);
      k := 1;
      if r.Next? {
        k := AtomicIsRun(env, codes, n - 1, Spend(fuel), r.c);
        k := k + 1;
      }
    }
  }

  /** The reply that stands for an outcome of the semantics. */
  ghost predicate Stands(r: Reply, o: CallOutcome) {
    match o
    case CallDone(vs, _) => r == Ok(ExecutionState.Returned(vs))
    case CallStopped(fault, _) =>
      || r == Err(FaultError(fault))
      || (fault.Exited? && r == Ok(ExitedWith(fault.code)))
      || (fault == HostError && r in {Err(HostResultCount), Err(HostFailure)})
    case CallTimeout => false
    case CallStuck => false
  }

  function WorldAfter(o: CallOutcome, w: World): World {
    if o.CallDone? || o.CallStopped? then o.world else w
  }

  /** What the loop reports of a call is what the structured semantics says. */
  lemma CallReported(env: Env, n: nat, fuel: Option<nat>, addr: nat, args: seq<Raw>, w: World) returns (o: CallOutcome)
    requires Callable(env, addr, args, w) && env.funcs[addr].LocalFunc?
    ensures var codes := Compiled(env, true);
            var h := AtomicLoop(env, codes, n, fuel, Entered(env, codes, addr, args, w));
            && (h.pause == Completed ==>
                  && o.CallDone? && Evaluates(env, addr, args, w, o) && h.c == Config(o.results, [], o.world)
                  && |o.results| == |env.funcs[addr].ft.results|)
            && (h.pause.Trapped? ==> o == CallStopped(h.pause.fault, h.c.world) && Evaluates(env, addr, args, w, o))
  {
    hide Compiled, Machine.Run, RunCall, EnterCall, Callable, Entered, Evaluates, AtomicLoop;
    var codes := Compiled(env, true);
    var c := Entered(env, codes, addr, args, w);
    var h := AtomicLoop(env, codes, n, fuel, c);
    EntersLocally(env, addr, args, w);
    CallableArgs(env, addr, args, w);
    var k := AtomicIsRun(env, codes, n, fuel, c);
    o := CallTimeout;
    if h.pause == Completed || h.pause.Trapped? {
      var r := RunCall(env, codes, k, [], addr, args, w);
      assert r == Machine.Run(env, codes, k, c);
      assert HaltsWith(env, codes, [], addr, args, w, r);
      CompilerCorrect(env, [], addr, args, w, r);
      o :| Evaluates(env, addr, args, w, o) && r == ResultFor([], o);
      ReturnsResults(env, k, [], addr, args, w);
      if o.CallDone? {
        var none: seq<Raw> := [];
        assert none + o.results == o.results;
      }
    }
  }

  /** How far dispatching has come: `n` steps of the run from `c0` with fuel `f0`
      led to `c`, from where the loop went round `m` times; or the run failed in
      a host call after `n` steps. */
  datatype Progress = Progress(n: nat, f0: Option<nat>, c0: Config, m: nat, fuel: Option<nat>, c: Config, failed: bool) {
    ghost function Distance(end: nat): int {
      if fuel.Some? then fuel.value else end - n
    }
  }

  /** What one round of the dispatch loop does to the run it stands for. */
  lemma RoundFacts(env: Env, codes: seq<ModuleCode>, cap: nat, results: nat, n: nat, m: nat, f0: Option<nat>,
                   c0: Config, fuel: Option<nat>, c: Config, end: nat)
    requires var h := RunLoop(env, codes, m, fuel, c); h.pause.Suspended? && h.left == 0
    requires Follows(env, codes, n, f0, c0, fuel, c) && AtomicSafe(env, codes, cap, c, results)
    requires f0.None? ==> AtomicEnded(env, codes, end, c0)
    ensures m >= 1 && f0.Some? == fuel.Some? && (fuel.None? ==> AtomicHalts(env, codes, c))
    ensures f0.None? ==> n < end
    ensures var h' := Continue(env, RunLoop(env, codes, m, fuel, c));
            && h'.fuel.Some? == fuel.Some? && (fuel.Some? ==> h'.fuel.value < fuel.value)
            && if h'.pause.Running? then
                 && Follows(env, codes, n + m, f0, c0, h'.fuel, h'.c) && AtomicSafe(env, codes, cap, h'.c, results)
                 && (f0.None? ==> n + m <= end)
               else AtomicLoop(env, codes, n + m, f0, c0) == Halt(h'.pause, Config([], [], h'.c.world), h'.fuel, 0)
  {
    hide RunLoop, AtomicLoop, Machine.Run, AtomicEnded, AtomicSafe;
    var h' := Continue(env, RunLoop(env, codes, m, fuel, c));
    SuspendedRun(env, codes, m, fuel, c);
    AtomicThrough(env, codes, m, 0, fuel, c);
    assert AtomicLoop(env, codes, n + m, f0, c0) == AtomicLoop(env, codes, m + 0, fuel, c);
    if f0.None? {
      HaltsLater(env, codes, n, end, c0, c);
    }
    if h'.pause.Running? {
      FollowsThrough(env, codes, n, m, f0, c0, fuel, c);
      SafeLater(env, codes, cap, m, c, h'.c, results);
      if f0.None? { HaltsLater(env, codes, n + m, end, c0, h'.c); }
    }
  }

  /** The last round, which does not end in a suspension. */
  lemma LoopEnds(env: Env, codes: seq<ModuleCode>, n: nat, m: nat, f0: Option<nat>, c0: Config, fuel: Option<nat>,
                 c: Config)
    requires Follows(env, codes, n, f0, c0, fuel, c) && !RunLoop(env, codes, m, fuel, c).pause.Suspended?
    ensures var h := RunLoop(env, codes, m, fuel, c);
            AtomicLoop(env, codes, n + m, f0, c0) == h && (h.pause.Trapped? ==> h.c == Config([], [], h.c.world))
  {
    hide RunLoop, AtomicLoop;
    AtomicPlain(env, codes, m, fuel, c);
    assert AtomicLoop(env, codes, n + m, f0, c0) == AtomicLoop(env, codes, m, fuel, c);
    if RunLoop(env, codes, m, fuel, c).pause.Trapped? { TrappedEmpty(env, codes, m, fuel, c); }
  }

  /** The import at `a` has this name, and this many parameters and results. */
  ghost predicate ImportAt(env: Env, a: nat, moduleName: Name, funcName: Name, params: nat, results: nat) {
    && a < |env.funcs| && env.funcs[a].HostFunc?
    && env.funcs[a].moduleName == moduleName && env.funcs[a].funcName == funcName
    && params == |env.funcs[a].ft.params| && results == |env.funcs[a].ft.results|
  }

  ghost predicate AsksImport(env: Env, r: Result)
    requires r.Suspend?
  {
    exists a: nat :: ImportAt(env, a, r.moduleName, r.funcName, |r.args|, r.expected)
  }

  lemma EnterSuspends(env: Env, codes: seq<ModuleCode>, c: Config, addr: nat)
    ensures var r := EnterCall(env, codes, c, addr); r.Suspend? ==> AsksImport(env, r)
  {
    var r := EnterCall(env, codes, c, addr);
    if r.Suspend? { assert ImportAt(env, addr, r.moduleName, r.funcName, |r.args|, r.expected); }
  }

  lemma StepSuspends(env: Env, codes: seq<ModuleCode>, c: Config)
    requires Step(env, codes, c).Suspend?
    ensures AsksImport(env, Step(env, codes, c))
  {
    hide EnterCall, LoadFrom, StoreTo, EvalLeaf, AsI32, AsInt, Holds, BranchIndex, ResolveIndirect, KeepTop;
    forall d: Config, addr: nat ensures var r := EnterCall(env, codes, d, addr); r.Suspend? ==> AsksImport(env, r) {
      EnterSuspends(env, codes, d, addr);
    }
  }

  /** What a suspended loop asks for is an import of the store, called with as
      many arguments as its type says. */
  lemma {:induction false} LoopSuspends(env: Env, codes: seq<ModuleCode>, n: nat, fuel: Option<nat>, c: Config)
    requires RunLoop(env, codes, n, fuel, c).pause.Suspended?
    ensures var p := RunLoop(env, codes, n, fuel, c).pause;
            exists a: nat :: ImportAt(env, a, p.moduleName, p.funcName, |p.args|, p.expected)
    decreases n
  {
    hide Step;
    var r := Step(env, codes, c);
    if r.Next? {
      LoopSuspends(env, codes, n - 1, Spend(fuel), r.c);
    } else {
      StepSuspends(env, codes, c);
    }
  }

  /** The state in which a suspended run continues is safe again. */
  lemma ContinuesSafely(env: Env, codes: seq<ModuleCode>, cap: nat, n: nat, fuel: Option<nat>, c: Config, results: nat)
    requires var h := RunLoop(env, codes, n, fuel, c); h.pause.Suspended? && h.left == 0 && Continue(env, h).pause.Running?
    requires AtomicSafe(env, codes, cap, c, results) && (fuel.None? ==> AtomicHalts(env, codes, c))
    ensures var h' := Continue(env, RunLoop(env, codes, n, fuel, c));
            && AtomicSafe(env, codes, cap, h'.c, results) && RunsSafely(env, codes, cap, h'.c) && |h'.c.stack| <= cap
            && (forall k: nat :: LeavesAfter(env, codes, k, h'.c, results))
            && (h'.fuel.None? ==> fuel.None? && AtomicHalts(env, codes, h'.c) && Halts(env, codes, h'.c))
  {
    hide RunLoop, Machine.Run, PeakOf, AtomicEnded, LeavesAfter, RunsSafely, Halts;
    var h' := Continue(env, RunLoop(env, codes, n, fuel, c));
    SuspendedRun(env, codes, n, fuel, c);
    SafeLater(env, codes, cap, n, c, h'.c, results);
    SafeUntilPause(env, codes, cap, h'.c, results);
    assert AtomicSafeAfter(env, codes, cap, n, c, results);
    if fuel.None? {
      var end: nat :| AtomicEnded(env, codes, end, c);
      HaltsLater(env, codes, n, end, c, h'.c);
      HaltsUntilPause(env, codes, h'.c);
    }
  }
}
