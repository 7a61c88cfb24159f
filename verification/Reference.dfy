/** A structured big-step semantics of WebAssembly bodies, following section
    4.4 of the WebAssembly Core Specification. Each block runs on an operand
    stack of its own that starts with the block's parameters; a branch carries
    that stack outwards, and the label it reaches keeps the values it asks for.
    `fuel` bounds loop iterations and calls; running out of it is `Timeout`. */
module Reference {
  import opened Wasm
  import opened Runtime

  datatype State = State(vs: seq<Raw>, locals: seq<Raw>, world: World)

  datatype Outcome =
    | Timeout
    | Stuck
    | Stopped(fault: Fault, world: World)
    | Normal(st: State)
    | Branch(depth: nat, st: State)
    | Returned(st: State)
    | TailCall(addr: nat, args: seq<Raw>, world: World)

  datatype CallOutcome =
    | CallTimeout
    | CallStuck
    | CallStopped(fault: Fault, world: World)
    | CallDone(results: seq<Raw>, world: World)

  function EvalSeq(env: Env, mi: nat, depth: nat, fuel: nat, body: seq<Instr>, st: State): Outcome
    requires mi < |env.insts|
    decreases fuel, 1, body, 0
  {
    if body == [] then Normal(st)
    else
      match Eval(env, mi, depth, fuel, body[0], st)
      case Normal(st') => EvalSeq(env, mi, depth, fuel, body[1..], st')
      case other => other
  }

  function Eval(env: Env, mi: nat, depth: nat, fuel: nat, i: Instr, st: State): Outcome
    requires mi < |env.insts|
    decreases fuel, 1, i, 0
  {
    var inst := env.insts[mi];
    match i
    case Plain(l) => EvalPlain(env, mi, l, st)
    case Unreachable => Stopped(UnreachableExecuted, st.world)
    case Block(bt, body) =>
      var (p, r) := BlockSig(inst.mod, bt);
      if |st.vs| < p then Stuck
      else Leave(r, Below(st.vs, p), EvalSeq(env, mi, depth, fuel, body, st.(vs := Top(st.vs, p))))
    case Loop(bt, body) =>
      var (p, r) := BlockSig(inst.mod, bt);
      if |st.vs| < p then Stuck
      else Leave(r, Below(st.vs, p), EvalLoop(env, mi, depth, fuel, p, body, st.(vs := Top(st.vs, p))))
    case IfElse(bt, thn, els) =>
      var (p, r) := BlockSig(inst.mod, bt);
      if |st.vs| < p + 1 then Stuck
      else
        var vs := Below(st.vs, 1);
        var inner := st.(vs := Top(vs, p));
        if AsI32(Top(st.vs, 1)[0]) != 0
        then Leave(r, Below(vs, p), EvalSeq(env, mi, depth, fuel, thn, inner))
        else Leave(r, Below(vs, p), EvalSeq(env, mi, depth, fuel, els, inner))
    case Br(k) => Branch(k, st)
    case BrIf(k) =>
      if |st.vs| < 1 then Stuck
      else if AsI32(Top(st.vs, 1)[0]) != 0 then Branch(k, st.(vs := Below(st.vs, 1)))
      else Normal(st.(vs := Below(st.vs, 1)))
    case BrTable(ls, default) =>
      if |st.vs| < 1 then Stuck
      else
        var x := BranchIndex(Top(st.vs, 1)[0]);
        Branch(if x < |ls| then ls[x] else default, st.(vs := Below(st.vs, 1)))
    case Return => Returned(st)
    case Call(f) =>
      if f < |inst.funcAddrs| then CallFrom(env, depth, fuel, inst.funcAddrs[f], st) else Stuck
    case CallIndirect(ty, table) =>
      if |st.vs| < 1 then Stuck
      else
        var st' := st.(vs := Below(st.vs, 1));
        (match ResolveIndirect(env, mi, ty, table, Top(st.vs, 1)[0], st.world)
         case CalleeWrong => Stuck
         case CalleeFault(fault) => Stopped(fault, st.world)
         case CalleeAt(addr) => CallFrom(env, depth, fuel, addr, st'))
    case ReturnCall(f) =>
      if f < |inst.funcAddrs| then TailFrom(env, inst.funcAddrs[f], st) else Stuck
    case ReturnCallIndirect(ty, table) =>
      if |st.vs| < 1 then Stuck
      else
        var st' := st.(vs := Below(st.vs, 1));
        (match ResolveIndirect(env, mi, ty, table, Top(st.vs, 1)[0], st.world)
         case CalleeWrong => Stuck
         case CalleeFault(fault) => Stopped(fault, st.world)
         case CalleeAt(addr) => TailFrom(env, addr, st'))
  }

  function EvalPlain(env: Env, mi: nat, l: Leaf, st: State): Outcome
    requires mi < |env.insts|
  {
    if |st.vs| < Pops(l) then Stuck
    else
      match EvalLeaf(env, mi, l, Top(st.vs, Pops(l)), st.locals, st.world)
      case LeafOk(results, locals, w) => Normal(State(Below(st.vs, Pops(l)) + results, locals, w))
      case LeafFault(fault, w) => Stopped(fault, w)
      case LeafWrong => Stuck
  }

  /** What a block makes of its body's outcome: its results land on what was
      below its parameters, whether the body ended or branched to the label. */
  function Leave(results: nat, below: seq<Raw>, o: Outcome): Outcome {
    match o
    case Normal(st) => if |st.vs| == results then Normal(st.(vs := below + st.vs)) else Stuck
    case Branch(k, st) =>
      if k > 0 then Branch(k - 1, st)
      else if |st.vs| >= results then Normal(st.(vs := below + Top(st.vs, results)))
      else Stuck
    case other => other
  }

  /** A branch to a loop's label starts the body again on the loop's parameters. */
  function EvalLoop(env: Env, mi: nat, depth: nat, fuel: nat, params: nat, body: seq<Instr>, st: State): Outcome
    requires mi < |env.insts|
    decreases fuel, 1, body, 1
  {
    match EvalSeq(env, mi, depth, fuel, body, st)
    case Branch(k, st') =>
      if k > 0 then Branch(k, st')
      else if |st'.vs| < params then Stuck
      else if fuel == 0 then Timeout
      else EvalLoop(env, mi, depth, fuel - 1, params, body, st'.(vs := Top(st'.vs, params)))
    case other => other
  }

  function CallFrom(env: Env, depth: nat, fuel: nat, addr: nat, st: State): Outcome
    decreases fuel, 0
  {
    if addr >= |env.funcs| || |st.vs| < |env.funcs[addr].ft.params| then Stuck
    else if fuel == 0 then Timeout
    else
      var n := |env.funcs[addr].ft.params|;
      match CallFunction(env, depth, fuel - 1, addr, Top(st.vs, n), st.world)
      case CallTimeout => Timeout
      case CallStuck => Stuck
      case CallStopped(fault, w) => Stopped(fault, w)
      case CallDone(results, w) => Normal(State(Below(st.vs, n) + results, st.locals, w))
  }

  function TailFrom(env: Env, addr: nat, st: State): Outcome {
    if addr >= |env.funcs| || |st.vs| < |env.funcs[addr].ft.params| then Stuck
    else TailCall(addr, Top(st.vs, |env.funcs[addr].ft.params|), st.world)
  }

  /** Calls the function at `addr` while `depth` calls are active. */
  function CallFunction(env: Env, depth: nat, fuel: nat, addr: nat, args: seq<Raw>, w: World): CallOutcome
    decreases fuel, 2
  {
    if depth >= MAX_CALL_DEPTH then CallStopped(CallStackExhausted, w)
    else if addr >= |env.funcs| || |args| != |env.funcs[addr].ft.params| then CallStuck
    else
      match env.funcs[addr]
      case HostFunc(ft, m, f) => CallHost(env, ft, m, f, args, w)
      case LocalFunc(ft, mi, fi) =>
        if mi >= |env.insts| || fi >= |env.insts[mi].mod.functions| then CallStuck
        else
          var f := env.insts[mi].mod.functions[fi];
          match EvalSeq(env, mi, depth + 1, fuel, f.body, State([], args + Zeros(|f.locals|), w))
          case Timeout => CallTimeout
          case Stuck => CallStuck
          case Stopped(fault, w') => CallStopped(fault, w')
          case Normal(st) => if |st.vs| == |ft.results| then CallDone(st.vs, st.world) else CallStuck
          case Returned(st) => Finish(|ft.results|, st)
          case Branch(k, st) => if k == 0 then Finish(|ft.results|, st) else CallStuck
          case TailCall(addr', args', w') =>
            if fuel == 0 then CallTimeout else CallFunction(env, depth, fuel - 1, addr', args', w')
  }

  function Finish(results: nat, st: State): CallOutcome {
    if |st.vs| >= results then CallDone(Top(st.vs, results), st.world) else CallStuck
  }

  function CallHost(env: Env, ft: FunctionType, m: Name, f: Name, args: seq<Raw>, w: World): CallOutcome {
    match env.host(m, f, args, w)
    case HostReturn(results, w') =>
      if |results| == |ft.results| then CallDone(results, w') else CallStopped(HostError, w')
    case HostExit(code, w') => CallStopped(Exited(code), w')
    case HostFail(w') => CallStopped(HostError, w')
  }
}
