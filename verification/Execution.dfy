/** The store's execution state and the interpreter's loop over it
    (src/runtime/store.rs: run, push_function_call, do_return, finish_run,
    resume, resume_with, invoke_by_addr). The stack is read and written without
    checks; that each access is in bounds is proved here from what `Safety` and
    `Capacity` say about validated programs. */
module Execution {
  import opened Wasm
  import opened Runtime
  import opened Ir
  import opened Machine
  import opened Metering
  import opened Capacity
  import opened Stack

  /** How executing one operation ended. */
  datatype OpOutcome = Going | Suspending | Failing(fault: Fault)

  class Store {
    const env: Env
    const codes: seq<ModuleCode>
    const stack: ValueStack
    var callStack: seq<Frame>
    var world: World
    var fuel: Option<nat>
    var pendingArity: Option<nat>
    var pendingSuspension: Option<(Name, Name, seq<Raw>)>

    ghost predicate Valid()
      reads this, stack
    {
      stack.Valid()
    }

    /** The machine's view of the store. */
    ghost function Cfg(): Config
      requires Valid()
      reads this, stack, stack.inner
    {
      Config(stack.Contents(), callStack, world)
    }

    /** The result of an operation agrees with what the machine's step function
        says, from the configuration `c` before it. */
    ghost predicate Agrees(o: OpOutcome, r: Result)
      requires Valid()
      reads this, stack, stack.inner
    {
      match r
      case Next(c) => o == Going && Cfg() == c
      case Suspend(m, f, args, _, c) => o == Suspending && Cfg() == c && pendingSuspension == Some((m, f, args))
      case Done(_) => false
      case Stop(fault, w) => o == Failing(fault) && world == w
      case Wrong => false
    }

    /** The values a result leaves on the stack fit its buffer. */
    ghost predicate Fits(r: Result)
      reads this
    {
      r.Next? ==> |r.c.stack| <= stack.inner.Length
    }

    /** A store whose stack has the capacity computed from its code. */
    constructor (env: Env, codes: seq<ModuleCode>, world: World)
      ensures Valid() && this.env == env && this.codes == codes && Cfg() == Config([], [], world)
      ensures fuel == None && pendingArity == None && pendingSuspension == None
      ensures fresh(stack) && fresh(stack.inner) && stack.inner.Length == StackCapacity(codes)
    {
      this.env, this.codes := env, codes;
      callStack, this.world := [], world;
      fuel, pendingArity, pendingSuspension := None, None, None;
      stack := new ValueStack.WithCapacity(StackCapacity(codes));
    }

    /** A store restored from a snapshot. Its stack has room for the live values
        and at least 1024, whatever the code needs. */
    constructor Restored(env: Env, codes: seq<ModuleCode>, world: World, live: seq<Raw>, frames: seq<Frame>,
                         fuel: Option<nat>, pendingArity: Option<nat>)
      ensures Valid() && this.env == env && this.codes == codes && Cfg() == Config(live, frames, world)
      ensures this.fuel == fuel && this.pendingArity == pendingArity && pendingSuspension == None
      ensures fresh(stack) && fresh(stack.inner) && stack.inner.Length == if |live| < 1024 then 1024 else |live|
    {
      this.env, this.codes := env, codes;
      callStack, this.world := frames, world;
      this.fuel, this.pendingArity, pendingSuspension := fuel, pendingArity, None;
      stack := new ValueStack.FromSnapshot(live);
    }

    // ----- pieces of the loop's body -----

    method SetTop(f: Frame)
      requires Valid() && callStack != []
      modifies this`callStack
      ensures Cfg() == WithTop(old(Cfg()), f)
    {
      callStack := callStack[|callStack| - 1 := f];
      assert callStack == old(callStack)[..|callStack| - 1] + [f];
    }

    method JumpTo(target: nat, keep: nat, drop: nat)
      requires Valid() && callStack != [] && Machine.JumpTo(Cfg(), target, keep, drop) != Wrong
      modifies this`callStack, stack`cursor, stack.inner
      ensures Valid() && Next(Cfg()) == Machine.JumpTo(old(Cfg()), target, keep, drop)
    {
      stack.KeepTop(keep, drop);
      SetTop(callStack[|callStack| - 1].(pc := target));
    }

    method JumpWhen(taken: bool, target: nat, keep: nat, drop: nat)
      requires Valid() && callStack != [] && Machine.JumpWhen(Cfg(), taken, target, keep, drop) != Wrong
      modifies this`callStack, stack`cursor, stack.inner
      ensures Valid() && Next(Cfg()) == Machine.JumpWhen(old(Cfg()), taken, target, keep, drop)
    {
      if taken {
        JumpTo(target, keep, drop);
      }
    }

    /** Moves the frame's results to its base and drops the frame. */
    method DoReturn()
      requires Valid() && callStack != [] && Machine.DoReturn(Cfg()) != Wrong
      modifies this`callStack, stack`cursor, stack.inner
      ensures Valid() && Next(Cfg()) == Machine.DoReturn(old(Cfg()))
    {
      var f := callStack[|callStack| - 1];
      MoveToBase(f.base, f.arity);
      callStack := callStack[..|callStack| - 1];
    }

    /** Moves the `n` topmost values down to `base` and discards what was between. */
    method MoveToBase(base: nat, n: nat)
      requires Valid() && base + n <= stack.cursor
      modifies stack`cursor, stack.inner
      ensures Valid() && stack.Contents() == old(stack.Contents())[..base] + Top(old(stack.Contents()), n)
    {
      var len := stack.cursor;
      if n > 0 {
        stack.CopyWithin(len - n, len, base);
      }
      stack.Truncate(base + n);
      assert stack.Contents() == stack.inner[..base] + stack.inner[base..base + n];
      assert stack.inner[..base] == old(stack.inner[..base]);
    }

    /** Starts the function at `addr`, or suspends when it is an import. */
    method PushFunctionCall(addr: nat) returns (o: OpOutcome)
      requires Valid() && EnterCall(env, codes, Cfg(), addr) != Wrong
      modifies this`callStack, this`pendingSuspension, stack`cursor, stack.inner
      ensures Valid() && Agrees(o, EnterCall(env, codes, old(Cfg()), addr))
      ensures !o.Suspending? ==> pendingSuspension == old(pendingSuspension)
    {
      if |callStack| >= MAX_CALL_DEPTH {
        return Failing(CallStackExhausted);
      }
      var numArgs := |env.funcs[addr].ft.params|;
      match env.funcs[addr]
      case HostFunc(_, moduleName, funcName) =>
        var args := stack.PopN(numArgs);
        pendingSuspension := Some((moduleName, funcName, args));
        return Suspending;
      case LocalFunc(ft, mi, fi) =>
        var argsStart := stack.cursor - numArgs;
        var locals := stack.SliceFrom(argsStart);
        stack.Truncate(argsStart);
        locals := locals + Zeros(|codes[mi].funcs[fi].localTypes|);
        callStack := callStack + [Frame(mi, fi, 0, locals, stack.cursor, |ft.results|)];
        return Going;
    }

    /** A tail call: the arguments take the place of the frame's operands. */
    method ReplaceFunctionCall(addr: nat) returns (o: OpOutcome)
      requires Valid() && callStack != [] && ReplaceCall(env, codes, Cfg(), addr) != Wrong
      modifies this`callStack, this`pendingSuspension, stack`cursor, stack.inner
      ensures Valid() && Agrees(o, ReplaceCall(env, codes, old(Cfg()), addr))
      ensures !o.Suspending? ==> pendingSuspension == old(pendingSuspension)
    {
      hide EnterCall;
      var numArgs := |env.funcs[addr].ft.params|;
      MoveToBase(callStack[|callStack| - 1].base, numArgs);
      callStack := callStack[..|callStack| - 1];
      o := PushFunctionCall(addr);
    }

    /** Pushes what a leaf instruction gave, or reports its fault. */
    method Land(r: LeafResult) returns (o: OpOutcome)
      requires Valid() && callStack != [] && Landed(Cfg(), r) != Wrong && Fits(Landed(Cfg(), r))
      modifies this`callStack, this`world, stack`cursor, stack.inner
      ensures Valid() && Agrees(o, Landed(old(Cfg()), r))
    {
      match r
      case LeafOk(results, locals, w) =>
        stack.ExtendFromSlice(results);
        world := w;
        SetTop(callStack[|callStack| - 1].(locals := locals));
        o := Going;
      case LeafFault(fault, w) =>
        world := w;
        o := Failing(fault);
    }

    // ----- one operation -----

    /** What executing an operation assumes: the machine finds nothing wrong with
        it, and its results fit the buffer. */
    ghost predicate CanExec(op: Op)
      requires Valid()
      reads this, stack, stack.inner
    {
      && callStack != [] && TopFrame(Cfg()).mi < |env.insts| && TopFrame(Cfg()).mi < |codes| && Height(Cfg()) >= 0
      && Exec(env, codes, Cfg(), op) != Wrong && Fits(Exec(env, codes, Cfg(), op))
      && (op.LocalGetReturn? ==> stack.cursor < stack.inner.Length)
    }

    method ExecLeaf(l: Leaf) returns (o: OpOutcome)
      requires Valid() && CanExec(LeafOp(l))
      modifies this`callStack, this`world, stack`cursor, stack.inner
      ensures Valid() && Agrees(o, Exec(env, codes, old(Cfg()), LeafOp(l)))
    {
      hide Landed, EvalLeaf;
      var f := callStack[|callStack| - 1];
      var args := stack.PopN(Pops(l));
      o := Land(EvalLeaf(env, f.mi, l, args, f.locals, world));
    }

    method ExecJump(op: Op) returns (o: OpOutcome)
      requires Valid() && CanExec(op) && JumpTarget(op).Some? && !op.CompareJumpIf?
      modifies this`callStack, stack`cursor, stack.inner
      ensures Valid() && Agrees(o, Exec(env, codes, old(Cfg()), op))
    {
      hide Machine.JumpTo, Machine.JumpWhen, AsI32, AsInt;
      o := Going;
      match op {
        case Jump(target, keep, drop) => JumpTo(target, keep, drop);
        case JumpIf(target, keep, drop) =>
          var cond := PopOperand();
          JumpWhen(AsI32(cond) != 0, target, keep, drop);
        case JumpIfNot(target, keep, drop) =>
          var cond := PopOperand();
          JumpWhen(AsI32(cond) == 0, target, keep, drop);
        case EqZeroJumpIf(t, target, keep, drop) =>
          var a := PopOperand();
          JumpWhen(AsInt(t, a) == 0, target, keep, drop);
        case EqZeroJumpIfNot(target, keep, drop) =>
          var a := PopOperand();
          JumpWhen(AsI32(a) != 0, target, keep, drop);
      }
    }

    method ExecCompareJump(op: Op) returns (o: OpOutcome)
      requires Valid() && CanExec(op) && op.CompareJumpIf?
      modifies this`callStack, stack`cursor, stack.inner
      ensures Valid() && Agrees(o, Exec(env, codes, old(Cfg()), op))
    {
      hide Machine.JumpTo, Machine.JumpWhen, Holds;
      ghost var c := Cfg();
      assert Top(c.stack, 2) == [Top(Below(c.stack, 1), 1)[0], Top(c.stack, 1)[0]];
      var a := PopOperand();
      var b := PopOperand();
      assert Cfg() == Popped(c, 2);
      JumpWhen(Holds(env.platform, op.cmp, b, a), op.target, op.keep, op.drop);
      o := Going;
    }

    method ExecJumpTable(op: Op) returns (o: OpOutcome)
      requires Valid() && CanExec(op) && op.JumpTable?
      modifies this`callStack, stack`cursor, stack.inner
      ensures Valid() && Agrees(o, Exec(env, codes, old(Cfg()), op))
    {
      hide Machine.JumpTo, BranchIndex;
      var i := PopOperand();
      var table := codes[callStack[|callStack| - 1].mi].tables[op.index];
      var entry := if BranchIndex(i) < |table| - 1 then table[BranchIndex(i)] else table[|table| - 1];
      JumpTo(entry.target, op.keep, entry.drop);
      o := Going;
    }

    method PopOperand() returns (v: Raw)
      requires Valid() && stack.cursor > 0
      modifies stack`cursor
      ensures Valid() && v == Top(old(Cfg()).stack, 1)[0] && Cfg() == Popped(old(Cfg()), 1)
    {
      v := stack.Pop();
      assert old(stack.Contents()) == stack.Contents() + [v];
    }

    method ExecCall(op: Op) returns (o: OpOutcome)
      requires Valid() && CanExec(op) && (op.CallOp? || op.CallIndirectOp? || op.ReturnCallOp? || op.ReturnCallIndirectOp?)
      modifies this`callStack, this`pendingSuspension, stack`cursor, stack.inner
      ensures Valid() && Agrees(o, Exec(env, codes, old(Cfg()), op))
      ensures !o.Suspending? ==> pendingSuspension == old(pendingSuspension)
    {
      hide EnterCall, ReplaceCall, ResolveIndirect;
      var mi := callStack[|callStack| - 1].mi;
      match op {
        case CallOp(func) => o := PushFunctionCall(env.insts[mi].funcAddrs[func]);
        case ReturnCallOp(func) => o := ReplaceFunctionCall(env.insts[mi].funcAddrs[func]);
        case CallIndirectOp(ty, table) =>
          var i := PopOperand();
          match ResolveIndirect(env, mi, ty, table, i, world) {
            case CalleeFault(fault) => o := Failing(fault);
            case CalleeAt(addr) => o := PushFunctionCall(addr);
          }
        case ReturnCallIndirectOp(ty, table) =>
          var i := PopOperand();
          match ResolveIndirect(env, mi, ty, table, i, world) {
            case CalleeFault(fault) => o := Failing(fault);
            case CalleeAt(addr) => o := ReplaceFunctionCall(addr);
          }
      }
    }

    method ExecFused(op: Op) returns (o: OpOutcome)
      requires Valid() && CanExec(op)
      requires op.LocalGet2? || op.LocalGetReturn? || op.LocalGetLoad? || op.LocalGetStore? || op.LocalGetLocalSet?
      modifies this`callStack, this`world, stack`cursor, stack.inner
      ensures Valid() && Agrees(o, Exec(env, codes, old(Cfg()), op))
    {
      hide Machine.DoReturn, LoadFrom, StoreTo, Landed;
      var f := callStack[|callStack| - 1];
      var inst := env.insts[f.mi];
      o := Going;
      match op {
        case LocalGet2(a, b) => stack.ExtendFromSlice([f.locals[a], f.locals[b]]);
        case LocalGetReturn(x) =>
          stack.Push(f.locals[x]);
          DoReturn();
        case LocalGetLoad(x, k, m) => o := Land(LoadFrom(inst, k, m, f.locals[x], f.locals, world));
        case LocalGetStore(x, k, m) =>
          var base := PopOperand();
          o := Land(StoreTo(inst, k, m, base, f.locals[x], f.locals, world));
        case LocalGetLocalSet(from, to) => SetTop(f.(locals := f.locals[to := f.locals[from]]));
      }
    }

    /** Executes one operation as the machine does. */
    method ExecOp(op: Op) returns (o: OpOutcome)
      requires Valid() && CanExec(op)
      modifies this`callStack, this`world, this`pendingSuspension, stack`cursor, stack.inner
      ensures Valid() && Agrees(o, Exec(env, codes, old(Cfg()), op))
      ensures !o.Suspending? ==> pendingSuspension == old(pendingSuspension)
    {
      if op.CompareJumpIf? {
        o := ExecCompareJump(op);
      } else if JumpTarget(op).Some? {
        o := ExecJump(op);
      } else if op.JumpTable? {
        o := ExecJumpTable(op);
      } else if op.CallOp? || op.CallIndirectOp? || op.ReturnCallOp? || op.ReturnCallIndirectOp? {
        o := ExecCall(op);
      } else if op.LeafOp? {
        o := ExecLeaf(op.leaf);
      } else if op.UnreachableOp? {
        o := Failing(UnreachableExecuted);
      } else if op.ReturnOp? {
        DoReturn();
        o := Going;
      } else {
        o := ExecFused(op);
      }
    }

    // ----- the loop -----

    /** The run from here can be made on this stack without checks, and comes to
        a pause: it is metered, or it would end anyway. */
    ghost predicate CanRun()
      requires Valid()
      reads this, stack, stack.inner
    {
      && RunsSafely(env, codes, stack.inner.Length, Cfg())
      && (fuel.None? ==> Halts(env, codes, Cfg()))
    }

    /** One round of the loop. The program counter moves on before fuel is looked
        at, and back when there is none. */
    method Iterate() returns (exhausted: bool, o: OpOutcome)
      requires Valid() && callStack != [] && Step(env, codes, Cfg()) != Wrong
      requires PeakOf(codes, Cfg()) <= stack.inner.Length && Fits(Step(env, codes, Cfg()))
      modifies this`callStack, this`world, this`fuel, this`pendingSuspension, stack`cursor, stack.inner
      ensures Valid() && exhausted == (old(fuel) == Some(0))
      ensures exhausted ==> Cfg() == old(Cfg()) && fuel == old(fuel) && pendingSuspension == old(pendingSuspension)
      ensures !exhausted ==> fuel == Spend(old(fuel)) && Agrees(o, Step(env, codes, old(Cfg())))
      ensures !o.Suspending? ==> pendingSuspension == old(pendingSuspension)
    {
      hide Step, Exec;
      StepRuns(env, codes, Cfg());
      var f := callStack[|callStack| - 1];
      var op := codes[f.mi].funcs[f.fi].lines[f.pc].op;
      SetTop(f.(pc := f.pc + 1));
      if fuel.Some? {
        if fuel.value == 0 {
          SetTop(f);
          return true, Going;
        }
        fuel := Some(fuel.value - 1);
      }
      exhausted := false;
      o := ExecOp(op);
    }

    /** The interpreter's loop. `n` is how often it went round. */
    method Run() returns (o: RunOutcome, ghost n: nat)
      requires Valid() && CanRun()
      modifies this`callStack, this`world, this`fuel, this`pendingSuspension, stack`cursor, stack.inner
      ensures Valid()
      ensures RunReached(o, RunLoop(env, codes, n, old(fuel), old(Cfg())))
      ensures !o.RunSuspended? ==> pendingSuspension == old(pendingSuspension)
    {
      n := 0;
      ghost var (c0, f0) := (Cfg(), fuel);
      ghost var end: nat := 0;
      if fuel.None? { end :| Ended(env, codes, end, c0); }
      o := RunCompleted;
      var stopped := false;
      while !stopped && callStack != []
        invariant Valid() && Invariant(n, c0, f0, end, stopped, o)
        invariant !o.RunSuspended? ==> pendingSuspension == old(pendingSuspension)
        decreases !stopped, if f0.Some? then f0.value - n else end - n
      {
        hide *;
        stopped, o, n := Round(n, c0, f0, end);
      }
      hide Step, Advance, RunLoop, PeakOf, RunsSafely, Ended, Less, GoesOn;
      LoopIsAdvance(env, codes, n, f0, c0);
    }

    /** What the loop keeps: after `n` rounds from `c0` it is where `n` steps lead. */
    ghost predicate Invariant(n: nat, c0: Config, f0: Option<nat>, end: nat, stopped: bool, o: RunOutcome)
      requires Valid()
      reads this, stack, stack.inner
    {
      && RunsSafely(env, codes, stack.inner.Length, c0) && (f0.None? ==> Ended(env, codes, end, c0))
      && (f0.Some? ==> n <= f0.value) && GoesOn(env, codes, n, c0)
      && Reached(stopped, o, Advance(env, codes, n, c0), Less(f0, n))
      && (f0.None? && !stopped && callStack != [] ==> n < end)
    }

    method Round(ghost n: nat, ghost c0: Config, ghost f0: Option<nat>, ghost end: nat)
      returns (stopped: bool, o: RunOutcome, ghost n': nat)
      requires Valid() && Invariant(n, c0, f0, end, false, RunCompleted) && callStack != []
      modifies this`callStack, this`world, this`fuel, this`pendingSuspension, stack`cursor, stack.inner
      ensures Valid() && Invariant(n', c0, f0, end, stopped, o)
      ensures !o.RunSuspended? ==> pendingSuspension == old(pendingSuspension)
      ensures stopped || (n' == n + 1 && if f0.Some? then n < f0.value else n < end)
    {
      hide Step, Advance, PeakOf, RunsSafely, Ended, Less, GoesOn;
      SafeRound(env, codes, stack.inner.Length, n, c0, Cfg(), f0);
      var r;
      stopped, r := Iterate();
      o, n' := RunCompleted, n;
      if stopped {
        o := RunFuelExhausted;
      } else {
        LessOne(f0, n);
        n' := n + 1;
        if r.Suspending? {
          stopped, o := true, RunSuspended;
        } else if r.Failing? {
          stopped, o := true, RunFailed(r.fault);
        } else if f0.None? && callStack != [] {
          EndsLater(env, codes, n', end, c0);
        }
      }
    }

    /** Where the loop is after the step with result `r`, or before the next. */
    ghost predicate Reached(stopped: bool, o: RunOutcome, r: Result, left: Option<nat>)
      requires Valid()
      reads this, stack, stack.inner
    {
      && fuel == left
      && if !stopped then o == RunCompleted && r == Next(Cfg())
         else if o == RunFuelExhausted then r == Next(Cfg()) && callStack != [] && left == Some(0)
         else if o == RunSuspended then Agrees(Suspending, r)
         else o.RunFailed? && Agrees(Failing(o.fault), r)
    }

    /** The loop's outcome and the state it leaves are what `h` says. */
    ghost predicate RunReached(o: RunOutcome, h: Halt)
      requires Valid()
      reads this, stack, stack.inner
    {
      && fuel == h.fuel && h.left == 0
      && match o
         case RunCompleted => h.pause == Completed && Cfg() == h.c
         case RunFuelExhausted => h.pause == FuelExhausted && Cfg() == h.c
         case RunSuspended =>
           && h.pause.Suspended? && Cfg() == h.c
           && pendingSuspension == Some((h.pause.moduleName, h.pause.funcName, h.pause.args))
         case RunFailed(fault) => h.pause == Trapped(fault) && world == h.c.world
    }

    // ----- what the embedder calls -----

    /** A run from `c` that ends leaves at least `results` values. */
    ghost predicate Leaves(c: Config, results: nat) {
      forall n: nat :: LeavesAfter(env, codes, n, c, results)
    }

    /** The state handed back, and the store's state with it, are what `h` says.
        `pendingArity` is set exactly while the run is paused. */
    ghost predicate Finished(r: Reply, results: nat, h: Halt)
      requires Valid()
      reads this, stack, stack.inner
    {
      && fuel == h.fuel && h.left == 0 && pendingSuspension == None
      && match r
         case Ok(Returned(vs)) =>
           && h.pause == Completed && |h.c.stack| >= results && vs == Top(h.c.stack, results)
           && Cfg() == Popped(h.c, results) && pendingArity == None
         case Ok(OutOfFuel) => h.pause == FuelExhausted && Cfg() == h.c && pendingArity == Some(results)
         case Ok(SuspendedOn(m, f, args)) =>
           && h.pause.Suspended? && (m, f, args) == (h.pause.moduleName, h.pause.funcName, h.pause.args)
           && Cfg() == h.c && pendingArity == Some(results)
         case Ok(ExitedWith(_)) => false
         case Err(FaultError(fault)) => h.pause == Trapped(fault) && Cfg() == h.c && pendingArity == None
         case Err(_) => false
    }

    /** Runs to the next pause and says what it is. After an error nothing of the
        run is left. */
    method FinishRun(results: nat) returns (r: Reply, ghost n: nat)
      requires Valid() && CanRun() && Leaves(Cfg(), results) && pendingSuspension == None
      modifies this`callStack, this`world, this`fuel, this`pendingArity, this`pendingSuspension, stack`cursor, stack.inner
      ensures Valid() && Finished(r, results, RunLoop(env, codes, n, old(fuel), old(Cfg())))
    {
      ghost var c0 := Cfg();
      ghost var f0 := fuel;
      var o;
      o, n := Run();
      hide RunLoop, CanRun;
      match o
      case RunCompleted =>
        CompletedLeaves(env, codes, n, f0, c0, results);
        var vs := stack.PopN(results);
        pendingArity := None;
        return Ok(Returned(vs)), n;
      case RunFuelExhausted =>
        pendingArity := Some(results);
        return Ok(OutOfFuel), n;
      case RunSuspended =>
        pendingArity := Some(results);
        var (moduleName, funcName, args) := pendingSuspension.value;
        pendingSuspension := None;
        return Ok(SuspendedOn(moduleName, funcName, args)), n;
      case RunFailed(fault) =>
        TrappedEmpty(env, codes, n, f0, c0);
        stack.Clear();
        callStack := [];
        pendingArity := None;
        return Err(FaultError(fault)), n;
    }

    /** Continues a run that ran out of fuel. */
    method Resume() returns (r: Reply, ghost n: nat)
      requires Valid() && pendingSuspension == None
      requires pendingArity.Some? ==> CanRun() && Leaves(Cfg(), pendingArity.value)
      modifies this`callStack, this`world, this`fuel, this`pendingArity, this`pendingSuspension, stack`cursor, stack.inner
      ensures Valid()
      ensures old(pendingArity).None? ==> r == Err(NotPaused) && Cfg() == old(Cfg()) && pendingArity == None && fuel == old(fuel)
      ensures old(pendingArity).Some? ==> Finished(r, old(pendingArity).value, RunLoop(env, codes, n, old(fuel), old(Cfg())))
    {
      if pendingArity.None? {
        return Err(NotPaused), 0;
      }
      r, n := FinishRun(pendingArity.value);
    }

    /** Continues a run that was suspended on an import, with the import's results. */
    method ResumeWith(values: seq<Raw>) returns (r: Reply, ghost n: nat)
      requires Valid() && pendingSuspension == None
      requires pendingArity.Some? ==>
                 && var c := Resumed(Cfg(), values, world);
                 && |c.stack| <= stack.inner.Length && RunsSafely(env, codes, stack.inner.Length, c)
                 && (fuel.None? ==> Halts(env, codes, c)) && Leaves(c, pendingArity.value)
      modifies this`callStack, this`world, this`fuel, this`pendingArity, this`pendingSuspension, stack`cursor, stack.inner
      ensures Valid()
      ensures old(pendingArity).None? ==> r == Err(NotPaused) && Cfg() == old(Cfg()) && pendingArity == None && fuel == old(fuel)
      ensures old(pendingArity).Some? ==>
                Finished(r, old(pendingArity).value, RunLoop(env, codes, n, old(fuel), Resumed(old(Cfg()), values, old(world))))
    {
      if pendingArity.None? {
        return Err(NotPaused), 0;
      }
      stack.ExtendFromSlice(values);
      r, n := FinishRun(pendingArity.value);
    }

    /** What entering the function at `addr` relies on. */
    ghost predicate CanInvoke(addr: nat, args: seq<Raw>)
      requires Valid()
      reads this, stack, stack.inner
    {
      && stack.cursor + |args| <= stack.inner.Length
      && addr < |env.funcs|
      && var r := EnterCall(env, codes, Config(stack.Contents() + args, callStack, world), addr);
      && r != Wrong && Fits(r)
      && (r.Next? ==>
            && RunsSafely(env, codes, stack.inner.Length, r.c) && (fuel.None? ==> Halts(env, codes, r.c))
            && Leaves(r.c, |env.funcs[addr].ft.results|))
    }

    /** Calls the function at `addr` from outside. Calling an import suspends at
        once, without noting that a run is pending. */
    method InvokeByAddr(addr: nat, args: seq<Raw>) returns (r: Reply, ghost n: nat)
      requires Valid() && pendingSuspension == None
      requires pendingArity.None? && addr < |env.funcs| && |args| == |env.funcs[addr].ft.params| ==>
                 |callStack| < MAX_CALL_DEPTH && CanInvoke(addr, args)
      modifies this`callStack, this`world, this`fuel, this`pendingArity, this`pendingSuspension, stack`cursor, stack.inner
      ensures Valid()
      ensures old(pendingArity).Some? ==> r == Err(Paused)
      ensures old(pendingArity).None? && addr >= |env.funcs| ==> r == Err(NoFunction)
      ensures old(pendingArity).None? && addr < |env.funcs| && |args| != |env.funcs[addr].ft.params| ==> r == Err(ArgumentCount)
      ensures r in {Err(Paused), Err(NoFunction), Err(ArgumentCount)} ==> Cfg() == old(Cfg()) && pendingArity == old(pendingArity) && fuel == old(fuel)
      ensures old(pendingArity).None? && addr < |env.funcs| && |args| == |env.funcs[addr].ft.params| ==>
                var e := EnterCall(env, codes, Config(old(stack.Contents()) + args, old(callStack), old(world)), addr);
                match env.funcs[addr]
                case HostFunc(_, m, f) => r == Ok(SuspendedOn(m, f, args)) && Cfg() == old(Cfg()) && pendingArity == None && fuel == old(fuel)
                case LocalFunc(ft, _, _) => e.Next? && Finished(r, |ft.results|, RunLoop(env, codes, n, old(fuel), e.c))
    {
      n := 0;
      if pendingArity.Some? {
        return Err(Paused), n;
      }
      if addr >= |env.funcs| {
        return Err(NoFunction), n;
      }
      var ft := env.funcs[addr].ft;
      if |args| != |ft.params| {
        return Err(ArgumentCount), n;
      }
      ghost var before := stack.Contents();
      stack.ExtendFromSlice(args);
      assert Top(before + args, |args|) == args && Below(before + args, |args|) == before;
      var o := PushFunctionCall(addr);
      if o.Suspending? {
        var (moduleName, funcName, hostArgs) := pendingSuspension.value;
        pendingSuspension := None;
        return Ok(SuspendedOn(moduleName, funcName, hostArgs)), n;
      }
      r, n := FinishRun(|ft.results|);
    }
  }

  datatype StoreError =
    | Paused | NotPaused | NoFunction | ArgumentCount | FaultError(fault: Fault)
    | UnknownImport | HostArgumentCount | HostResultCount | HostFailure

  datatype ExecutionState =
    | Returned(values: seq<Raw>)
    | OutOfFuel
    | SuspendedOn(moduleName: Name, funcName: Name, args: seq<Raw>)
    | ExitedWith(code: u32)

  datatype Reply = Ok(state: ExecutionState) | Err(error: StoreError)

  ghost predicate LeavesAfter(env: Env, codes: seq<ModuleCode>, n: nat, c: Config, results: nat) {
    var r := Advance(env, codes, n, c);
    r.Next? && r.c.frames == [] ==> |r.c.stack| >= results
  }

  /** A loop that completes does so in a state of the run. */
  lemma {:induction false} CompletedLeaves(env: Env, codes: seq<ModuleCode>, n: nat, fuel: Option<nat>, c: Config,
                                           results: nat)
    requires forall k: nat :: LeavesAfter(env, codes, k, c, results)
    requires RunLoop(env, codes, n, fuel, c).pause == Completed
    ensures |RunLoop(env, codes, n, fuel, c).c.stack| >= results
    decreases n
  {
    hide Step;
    if c.frames == [] {
      assert LeavesAfter(env, codes, 0, c, results);
    } else {
      NotDone(env, codes, c);
      var c' := Step(env, codes, c).c;
      forall k: nat ensures LeavesAfter(env, codes, k, c', results) {
        assert LeavesAfter(env, codes, k + 1, c, results);
      }
      CompletedLeaves(env, codes, n - 1, Spend(fuel), c', results);
    }
  }

  lemma {:induction false} TrappedEmpty(env: Env, codes: seq<ModuleCode>, n: nat, fuel: Option<nat>, c: Config)
    requires RunLoop(env, codes, n, fuel, c).pause.Trapped?
    ensures var h := RunLoop(env, codes, n, fuel, c); h.c == Config([], [], h.c.world)
    decreases n
  {
    hide Step;
    if Step(env, codes, c).Next? {
      TrappedEmpty(env, codes, n - 1, Spend(fuel), Step(env, codes, c).c);
    }
  }

  datatype RunOutcome = RunCompleted | RunFuelExhausted | RunSuspended | RunFailed(fault: Fault)

  /** A step that is not wrong executes the operation that the loop fetches. */
  lemma StepRuns(env: Env, codes: seq<ModuleCode>, c: Config)
    requires c.frames != [] && Step(env, codes, c) != Wrong
    ensures var f := TopFrame(c);
            && f.mi < |env.insts| && f.mi < |codes| && f.fi < |codes[f.mi].funcs| && f.pc < |codes[f.mi].funcs[f.fi].lines|
            && Height(c) >= 0
            && var line := codes[f.mi].funcs[f.fi].lines[f.pc];
            var d := WithTop(c, f.(pc := f.pc + 1));
            && Fetch(codes, f) == Some(line)
            && PeakOf(codes, c) == |c.stack| + (if line.op.LocalGetReturn? then 1 else 0)
            && TopFrame(d).mi < |env.insts| && Height(d) == Height(c)
            && Step(env, codes, c) == Exec(env, codes, d, line.op)
  {
    hide Exec;
  }

  /** What one more round of a safe run can rely on, and where it leads. */
  lemma SafeRound(env: Env, codes: seq<ModuleCode>, cap: nat, n: nat, c0: Config, c: Config, fuel: Option<nat>)
    requires RunsSafely(env, codes, cap, c0) && Advance(env, codes, n, c0) == Next(c) && c.frames != []
    requires fuel.Some? ==> n <= fuel.value
    ensures var r := Step(env, codes, c);
            && r != Wrong && !r.Done? && (r.Next? ==> |r.c.stack| <= cap)
            && PeakOf(codes, c) <= cap
            && Advance(env, codes, n + 1, c0) == r
            && (GoesOn(env, codes, n, c0) ==> GoesOn(env, codes, n + 1, c0))
  {
    hide Step, Advance, PeakOf;
    OneMore(env, codes, n, c0);
    NotDone(env, codes, c);
    assert SafeAfter(env, codes, cap, n, c0) && SafeAfter(env, codes, cap, n + 1, c0);
  }

  lemma LessOne(fuel: Option<nat>, n: nat)
    requires (fuel.Some? ==> n <= fuel.value) && Less(fuel, n) != Some(0)
    ensures fuel.Some? ==> n + 1 <= fuel.value
    ensures Less(fuel, n + 1) == Spend(Less(fuel, n))
  {
  }
}
