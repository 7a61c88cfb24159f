/** The interpreter's loop with fuel, its pauses, and the loop that answers host
    calls, as functions (src/runtime/store.rs: run, finish_run; src/linker.rs:
    dispatch). The classes `Execution.Store` and `Linker.Linker` run them on
    mutable state. */
module Metering {
  import opened Wasm
  import opened Runtime
  import opened Ir
  import opened Machine
  import opened Capacity

  /** Why the loop handed control back. `Running` only says that the bound on the
      number of iterations was reached. */
  datatype Pause =
    | Completed
    | FuelExhausted
    | Suspended(moduleName: Name, funcName: Name, args: seq<Raw>, expected: nat)
    | Trapped(fault: Fault)
    | Crashed
    | Running

  /** `left` iterations remained of the bound. */
  datatype Halt = Halt(pause: Pause, c: Config, fuel: Option<nat>, left: nat)

  function Spend(fuel: Option<nat>): Option<nat>
    requires fuel != Some(0)
  {
    if fuel.Some? then Some(fuel.value - 1) else None
  }

  /** At most `n` iterations of the loop; with `fuel`, each of them costs one. An
      error leaves empty stacks. */
  function RunLoop(env: Env, codes: seq<ModuleCode>, n: nat, fuel: Option<nat>, c: Config): Halt
    decreases n
  {
    if c.frames == [] then Halt(Completed, c, fuel, n)
    else if fuel == Some(0) then Halt(FuelExhausted, c, fuel, n)
    else if n == 0 then Halt(Running, c, fuel, 0)
    else
      match Step(env, codes, c)
      case Next(c') => RunLoop(env, codes, n - 1, Spend(fuel), c')
      case Suspend(m, f, args, expected, c') => Halt(Suspended(m, f, args, expected), c', Spend(fuel), n - 1)
      case Done(c') => Halt(Completed, c', Spend(fuel), n - 1)
      case Stop(fault, w) => Halt(Trapped(fault), Config([], [], w), Spend(fuel), n - 1)
      case Wrong => Halt(Crashed, c, Spend(fuel), n - 1)
  }

  // ----- metered runs are prefixes of unmetered ones -----

  /** Exactly `n` steps, without fuel and without answering host calls. */
  function Advance(env: Env, codes: seq<ModuleCode>, n: nat, c: Config): Result {
    if n == 0 then Next(c)
    else
      match Step(env, codes, c)
      case Next(c') => Advance(env, codes, n - 1, c')
      case r => r
  }

  function Metered(env: Env, codes: seq<ModuleCode>, fuel: nat, c: Config): Halt {
    RunLoop(env, codes, fuel, Some(fuel), c)
  }

  /** The result of a step, as the loop reports it. */
  ghost predicate Reports(h: Halt, r: Result) {
    match h.pause
    case Completed => r == Next(h.c) && h.c.frames == []
    case FuelExhausted => r == Next(h.c) && h.c.frames != []
    case Suspended(m, f, args, expected) => r == Suspend(m, f, args, expected, h.c)
    case Trapped(fault) => r == Stop(fault, h.c.world) && h.c.stack == [] && h.c.frames == []
    case Crashed => r == Wrong
    case Running => false
  }

  /** A metered run stops in a state of the unmetered run: where that run ends,
      or after as many steps as there was fuel, with nothing of the next step
      done. The fuel spent is the number of operations executed. */
  lemma {:induction false} MeteredIsPrefix(env: Env, codes: seq<ModuleCode>, fuel: nat, c: Config)
    ensures var h := Metered(env, codes, fuel, c);
            && h.fuel.Some? && h.fuel.value <= fuel && h.left == h.fuel.value
            && var spent := fuel - h.fuel.value;
            && Reports(h, Advance(env, codes, spent, c))
            && (h.pause == FuelExhausted ==> spent == fuel)
            && forall j :: 0 <= j < spent ==> Advance(env, codes, j, c).Next? && Advance(env, codes, j, c).c.frames != []
    decreases fuel
  {
    hide Step;
    var h := Metered(env, codes, fuel, c);
    if fuel > 0 && c.frames != [] {
      var r := Step(env, codes, c);
      NotDone(env, codes, c);
      if r.Next? {
        MeteredIsPrefix(env, codes, fuel - 1, r.c);
        forall j | 0 <= j < fuel - h.fuel.value ensures Advance(env, codes, j, c).Next? && Advance(env, codes, j, c).c.frames != [] {
          if j > 0 { assert Advance(env, codes, j, c) == Advance(env, codes, j - 1, r.c); }
        }
      } else {
        assert h.fuel == Some(fuel - 1) && Advance(env, codes, 1, c) == r;
      }
    }
  }

  lemma NotDone(env: Env, codes: seq<ModuleCode>, c: Config)
    requires c.frames != []
    ensures !Step(env, codes, c).Done?
  {
    hide Exec;
  }

  // ----- fuel in slices -----

  function Total(slices: seq<nat>): nat {
    if slices == [] then 0 else slices[0] + Total(slices[1..])
  }

  /** A run that is given fuel piece by piece: whenever it is out of fuel it is
      resumed with the next piece. */
  function Sliced(env: Env, codes: seq<ModuleCode>, slices: seq<nat>, c: Config): Halt {
    if slices == [] then Metered(env, codes, 0, c)
    else
      var h := Metered(env, codes, slices[0], c);
      if h.pause == FuelExhausted then Sliced(env, codes, slices[1..], h.c)
      else Halt(h.pause, h.c, AddFuel(h.fuel, Total(slices[1..])), h.left + Total(slices[1..]))
  }

  function AddFuel(fuel: Option<nat>, n: nat): Option<nat> {
    if fuel.Some? then Some(fuel.value + n) else None
  }

  /** Continuing an exhausted run is the run that had all the fuel at once, and a
      run that ends otherwise ends so with any more fuel. */
  lemma {:induction false} FuelAdds(env: Env, codes: seq<ModuleCode>, f: nat, g: nat, c: Config)
    ensures var h := Metered(env, codes, f, c);
            Metered(env, codes, f + g, c) ==
            if h.pause == FuelExhausted then Metered(env, codes, g, h.c)
            else Halt(h.pause, h.c, AddFuel(h.fuel, g), h.left + g)
    decreases f
  {
    hide Step;
    if f > 0 && c.frames != [] {
      var r := Step(env, codes, c);
      if r.Next? { FuelAdds(env, codes, f - 1, g, r.c); }
    }
  }

  /** However fuel is split over pauses, the run ends in the same state with the
      same fuel left. */
  lemma {:induction false} FuelSlicing(env: Env, codes: seq<ModuleCode>, slices: seq<nat>, c: Config)
    ensures Sliced(env, codes, slices, c) == Metered(env, codes, Total(slices), c)
  {
    hide RunLoop;
    if slices != [] {
      FuelAdds(env, codes, slices[0], Total(slices[1..]), c);
      var h := Metered(env, codes, slices[0], c);
      if h.pause == FuelExhausted { FuelSlicing(env, codes, slices[1..], h.c); }
    }
  }

  // ----- host calls -----

  /** What the loop that answers host calls makes of a pause: it asks the import
      and resumes with its results. The store stays as suspended when the import
      fails or exits. */
  function Continue(env: Env, h: Halt): Halt
    requires h.pause.Suspended?
  {
    match env.host(h.pause.moduleName, h.pause.funcName, h.pause.args, h.c.world)
    case HostReturn(results, w) =>
      if |results| == h.pause.expected then h.(pause := Running, c := Resumed(h.c, results, w))
      else h.(pause := Trapped(HostError), c := h.c.(world := w))
    case HostExit(code, w) => h.(pause := Trapped(Exited(code)), c := h.c.(world := w))
    case HostFail(w) => h.(pause := Trapped(HostError), c := h.c.(world := w))
  }

  function Dispatch(env: Env, codes: seq<ModuleCode>, h: Halt): Halt
    decreases h.left
  {
    if !h.pause.Suspended? then h
    else
      var h' := Continue(env, h);
      if !h'.pause.Running? then h'
      else
        var again := RunLoop(env, codes, h'.left, h'.fuel, h'.c);
        if again.left < h.left then Dispatch(env, codes, again) else again
  }

  /** The loop in which every import is one atomic operation. */
  function AtomicLoop(env: Env, codes: seq<ModuleCode>, n: nat, fuel: Option<nat>, c: Config): Halt
    decreases n
  {
    if c.frames == [] then Halt(Completed, c, fuel, n)
    else if fuel == Some(0) then Halt(FuelExhausted, c, fuel, n)
    else if n == 0 then Halt(Running, c, fuel, 0)
    else
      match HostStep(env, codes, c)
      case Next(c') => AtomicLoop(env, codes, n - 1, Spend(fuel), c')
      case Suspend(m, f, args, expected, c') => Halt(Suspended(m, f, args, expected), c', Spend(fuel), n - 1)
      case Done(c') => Halt(Completed, c', Spend(fuel), n - 1)
      case Stop(fault, w) => Halt(Trapped(fault), Config([], [], w), Spend(fuel), n - 1)
      case Wrong => Halt(Crashed, c, Spend(fuel), n - 1)
  }

  /** Equal but for the stacks that a failed run leaves behind. */
  ghost predicate SameOutcome(h: Halt, h': Halt) {
    && h.pause == h'.pause && h.fuel == h'.fuel && h.left == h'.left
    && (if h.pause.Trapped? then h.c.world == h'.c.world else h.c == h'.c)
  }

  /** Running, suspending, asking the import, resuming and running on has the
      outcome of a run in which imports are atomic operations. */
  lemma {:induction false} DispatchIsAtomic(env: Env, codes: seq<ModuleCode>, n: nat, fuel: Option<nat>, c: Config)
    ensures SameOutcome(Dispatch(env, codes, RunLoop(env, codes, n, fuel, c)), AtomicLoop(env, codes, n, fuel, c))
    ensures !AtomicLoop(env, codes, n, fuel, c).pause.Suspended?
    decreases n
  {
    hide Step;
    if c.frames != [] && fuel != Some(0) && n > 0 {
      var r := Step(env, codes, c);
      if r.Next? {
        DispatchIsAtomic(env, codes, n - 1, Spend(fuel), r.c);
      } else if r.Suspend? {
        var h := RunLoop(env, codes, n, fuel, c);
        var h' := Continue(env, h);
        if h'.pause.Running? {
          assert HostStep(env, codes, c) == Next(h'.c);
          assert h.left == n - 1;
          DispatchIsAtomic(env, codes, n - 1, Spend(fuel), h'.c);
          LoopSpends(env, codes, n - 1, Spend(fuel), h'.c);
        } else {
          assert HostStep(env, codes, c) == Stop(h'.pause.fault, h'.c.world);
          assert Dispatch(env, codes, h) == h';
        }
      }
    }
  }

  lemma {:induction false} LoopSpends(env: Env, codes: seq<ModuleCode>, n: nat, fuel: Option<nat>, c: Config)
    ensures var h := RunLoop(env, codes, n, fuel, c); h.left <= n && (h.pause.Suspended? ==> h.left < n)
    decreases n
  {
    hide Step;
    if c.frames != [] && fuel != Some(0) && n > 0 && Step(env, codes, c).Next? {
      LoopSpends(env, codes, n - 1, Spend(fuel), Step(env, codes, c).c);
    }
  }

  // ----- what running without checks relies on -----

  /** After `n` steps nothing has gone wrong, and the next step fits a stack of
      `cap` values. */
  ghost predicate SafeAfter(env: Env, codes: seq<ModuleCode>, cap: nat, n: nat, c: Config) {
    var r := Advance(env, codes, n, c);
    && r != Wrong
    && (r.Next? ==> |r.c.stack| <= cap && PeakOf(codes, r.c) <= cap)
  }

  ghost predicate RunsSafely(env: Env, codes: seq<ModuleCode>, cap: nat, c: Config) {
    forall n: nat :: SafeAfter(env, codes, cap, n, c)
  }

  /** The unmetered run has ended after `n` steps. */
  ghost predicate Ended(env: Env, codes: seq<ModuleCode>, n: nat, c: Config) {
    var r := Advance(env, codes, n, c);
    !r.Next? || r.c.frames == []
  }

  ghost predicate Halts(env: Env, codes: seq<ModuleCode>, c: Config) {
    exists n: nat :: Ended(env, codes, n, c)
  }

  lemma {:induction false} AdvanceThen(env: Env, codes: seq<ModuleCode>, n: nat, m: nat, c: Config)
    ensures var r := Advance(env, codes, n, c);
            Advance(env, codes, n + m, c) == if r.Next? then Advance(env, codes, m, r.c) else r
    decreases n
  {
    hide Step;
    if n > 0 && Step(env, codes, c).Next? {
      AdvanceThen(env, codes, n - 1, m, Step(env, codes, c).c);
    }
  }

  /** One more step of a run, and of the loop that makes it. */
  lemma OneMore(env: Env, codes: seq<ModuleCode>, n: nat, c: Config)
    requires Advance(env, codes, n, c).Next?
    ensures Advance(env, codes, n + 1, c) == Step(env, codes, Advance(env, codes, n, c).c)
  {
    hide Step;
    var c' := Advance(env, codes, n, c).c;
    AdvanceThen(env, codes, n, 1, c);
    assert forall d: Config :: Advance(env, codes, 0, d) == Next(d);
  }

  /** The run goes on for at least `n` steps. */
  ghost predicate GoesOn(env: Env, codes: seq<ModuleCode>, n: nat, c: Config) {
    forall j :: 0 <= j < n ==> !Ended(env, codes, j, c)
  }

  /** A run that goes on where it is ends later. */
  lemma EndsLater(env: Env, codes: seq<ModuleCode>, n: nat, end: nat, c: Config)
    requires Ended(env, codes, end, c) && GoesOn(env, codes, n, c)
    requires Advance(env, codes, n, c).Next? && Advance(env, codes, n, c).c.frames != []
    ensures n < end
  {
  }

  function Less(fuel: Option<nat>, n: nat): Option<nat>
    requires fuel.Some? ==> n <= fuel.value
  {
    if fuel.Some? then Some(fuel.value - n) else None
  }

  /** What the loop reports where a step's result `r` leaves it with `fuel`. */
  function Report(r: Result, fuel: Option<nat>): Halt {
    match r
    case Next(c) => Halt(if c.frames == [] then Completed else if fuel == Some(0) then FuelExhausted else Running, c, fuel, 0)
    case Suspend(m, f, args, expected, c) => Halt(Suspended(m, f, args, expected), c, fuel, 0)
    case Done(c) => Halt(Completed, c, fuel, 0)
    case Stop(fault, w) => Halt(Trapped(fault), Config([], [], w), fuel, 0)
    case Wrong => Halt(Crashed, Config([], [], World([], [], [], [])), fuel, 0)
  }

  /** `n` iterations of the loop are `n` steps. */
  lemma {:induction false} LoopIsAdvance(env: Env, codes: seq<ModuleCode>, n: nat, fuel: Option<nat>, c: Config)
    requires fuel.Some? ==> n <= fuel.value
    requires GoesOn(env, codes, n, c) && Advance(env, codes, n, c) != Wrong
    ensures RunLoop(env, codes, n, fuel, c) == Report(Advance(env, codes, n, c), Less(fuel, n))
    decreases n
  {
    hide Step;
    if n > 0 {
      assert !Ended(env, codes, 0, c);
      NotDone(env, codes, c);
      var r := Step(env, codes, c);
      assert Advance(env, codes, 1, c) == r;
      if n > 1 { assert !Ended(env, codes, 1, c); }
      if r.Next? {
        forall j | 0 <= j < n - 1 ensures !Ended(env, codes, j, r.c) {
          assert !Ended(env, codes, j + 1, c);
        }
        LoopIsAdvance(env, codes, n - 1, Spend(fuel), r.c);
      }
    }
  }
}
