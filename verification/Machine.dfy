/** The interpreter as a step machine over configurations (src/runtime/store.rs,
    src/runtime/stack.rs). The original's value stack has no bounds checks; here
    a step that would read or write outside what it owns, or whose operand
    height differs from what the compiler computed, is `Wrong`. */
module Machine {
  import opened Wasm
  import opened Runtime
  import opened Ir

  datatype Frame = Frame(mi: nat, fi: nat, pc: nat, locals: seq<Raw>, base: nat, arity: nat)

  datatype Config = Config(stack: seq<Raw>, frames: seq<Frame>, world: World)

  datatype Result =
    | Next(c: Config)
    | Suspend(moduleName: Name, funcName: Name, args: seq<Raw>, expected: nat, c: Config)
    | Done(c: Config)
    | Stop(fault: Fault, world: World)
    | Wrong

  function TopFrame(c: Config): Frame
    requires c.frames != []
  {
    c.frames[|c.frames| - 1]
  }

  function WithTop(c: Config, f: Frame): Config
    requires c.frames != []
  {
    c.(frames := c.frames[..|c.frames| - 1] + [f])
  }

  /** Operands above the current frame's base; everything when no frame is left. */
  function Height(c: Config): int {
    if c.frames == [] then |c.stack| else |c.stack| - TopFrame(c).base
  }

  /** Where the next operation of the top frame is, if every index on the way
      is in range. */
  function Fetch(codes: seq<ModuleCode>, f: Frame): Option<Line> {
    if f.mi < |codes| && f.fi < |codes[f.mi].funcs| && f.pc < |codes[f.mi].funcs[f.fi].lines|
    then Some(codes[f.mi].funcs[f.fi].lines[f.pc])
    else None
  }

  /** The most operands that the frame holds before and while the operation runs;
      what it leaves is counted where the next operation starts. */
  function Peak(line: Line): int {
    if line.op.LocalGetReturn? then line.at + 1 else line.at
  }

  function Step(env: Env, codes: seq<ModuleCode>, c: Config): Result {
    if c.frames == [] then Done(c)
    else
      var f := TopFrame(c);
      match Fetch(codes, f)
      case None => Wrong
      case Some(line) =>
        if f.mi >= |env.insts| || Height(c) != line.at || line.at < 0 || Peak(line) > codes[f.mi].funcs[f.fi].maxHeight then Wrong
        else Exec(env, codes, WithTop(c, f.(pc := f.pc + 1)), line.op)
  }

  function Exec(env: Env, codes: seq<ModuleCode>, c: Config, op: Op): (r: Result)
    requires c.frames != [] && TopFrame(c).mi < |env.insts| && TopFrame(c).mi < |codes| && Height(c) >= 0
    ensures !r.Done?
  {
    var f := TopFrame(c);
    var inst := env.insts[f.mi];
    var h := Height(c);
    match op
    case LeafOp(l) => ExecLeaf(env, c, l)
    case UnreachableOp => Stop(UnreachableExecuted, c.world)
    case ReturnOp => DoReturn(c)
    case Jump(t, keep, drop) => JumpTo(c, t, keep, drop)
    case JumpIf(t, keep, drop) =>
      if h < 1 then Wrong else JumpWhen(Popped(c, 1), AsI32(Top(c.stack, 1)[0]) != 0, t, keep, drop)
    case JumpIfNot(t, keep, drop) =>
      if h < 1 then Wrong else JumpWhen(Popped(c, 1), AsI32(Top(c.stack, 1)[0]) == 0, t, keep, drop)
    case JumpTable(index, keep) =>
      if h < 1 || index >= |codes[f.mi].tables| || codes[f.mi].tables[index] == [] then Wrong
      else
        var table := codes[f.mi].tables[index];
        var i := BranchIndex(Top(c.stack, 1)[0]);
        var entry := if i < |table| - 1 then table[i] else table[|table| - 1];
        JumpTo(Popped(c, 1), entry.target, keep, entry.drop)
    case CallOp(func) =>
      if func < |inst.funcAddrs| then EnterCall(env, codes, c, inst.funcAddrs[func]) else Wrong
    case CallIndirectOp(ty, table) =>
      if h < 1 then Wrong
      else
        (match ResolveIndirect(env, f.mi, ty, table, Top(c.stack, 1)[0], c.world)
         case CalleeWrong => Wrong
         case CalleeFault(fault) => Stop(fault, c.world)
         case CalleeAt(addr) => EnterCall(env, codes, Popped(c, 1), addr))
    case ReturnCallOp(func) =>
      if func < |inst.funcAddrs| then ReplaceCall(env, codes, c, inst.funcAddrs[func]) else Wrong
    case ReturnCallIndirectOp(ty, table) =>
      if h < 1 then Wrong
      else
        (match ResolveIndirect(env, f.mi, ty, table, Top(c.stack, 1)[0], c.world)
         case CalleeWrong => Wrong
         case CalleeFault(fault) => Stop(fault, c.world)
         case CalleeAt(addr) => ReplaceCall(env, codes, Popped(c, 1), addr))
    case EqZeroJumpIf(t, target, keep, drop) =>
      if h < 1 then Wrong else JumpWhen(Popped(c, 1), AsInt(t, Top(c.stack, 1)[0]) == 0, target, keep, drop)
    case EqZeroJumpIfNot(target, keep, drop) =>
      if h < 1 then Wrong else JumpWhen(Popped(c, 1), AsI32(Top(c.stack, 1)[0]) != 0, target, keep, drop)
    case CompareJumpIf(cmp, target, keep, drop) =>
      if h < 2 then Wrong
      else
        var args := Top(c.stack, 2);
        JumpWhen(Popped(c, 2), Holds(env.platform, cmp, args[0], args[1]), target, keep, drop)
    case LocalGet2(a, b) =>
      if a < |f.locals| && b < |f.locals| then Next(c.(stack := c.stack + [f.locals[a], f.locals[b]])) else Wrong
    case LocalGetReturn(x) =>
      if x < |f.locals| then DoReturn(c.(stack := c.stack + [f.locals[x]])) else Wrong
    case LocalGetLoad(x, k, m) =>
      if x < |f.locals| then Landed(c, LoadFrom(inst, k, m, f.locals[x], f.locals, c.world)) else Wrong
    case LocalGetStore(x, k, m) =>
      if h < 1 || x >= |f.locals| then Wrong
      else Landed(Popped(c, 1), StoreTo(inst, k, m, Top(c.stack, 1)[0], f.locals[x], f.locals, c.world))
    case LocalGetLocalSet(from, to) =>
      if from < |f.locals| && to < |f.locals|
      then Next(WithTop(c, f.(locals := f.locals[to := f.locals[from]])))
      else Wrong
  }

  function Popped(c: Config, n: nat): Config
    requires n <= |c.stack|
  {
    c.(stack := Below(c.stack, n))
  }

  /** Pushes what a leaf gave, or stops where it stopped. */
  function Landed(c: Config, r: LeafResult): (next: Result)
    requires c.frames != []
    ensures !next.Done? && !next.Suspend?
  {
    match r
    case LeafOk(results, locals, w) =>
      Next(WithTop(Config(c.stack + results, c.frames, w), TopFrame(c).(locals := locals)))
    case LeafFault(fault, w) => Stop(fault, w)
    case LeafWrong => Wrong
  }

  function ExecLeaf(env: Env, c: Config, l: Leaf): Result
    requires c.frames != [] && TopFrame(c).mi < |env.insts|
  {
    if Height(c) < Pops(l) || |c.stack| < Pops(l) then Wrong
    else
      Landed(Popped(c, Pops(l)),
             EvalLeaf(env, TopFrame(c).mi, l, Top(c.stack, Pops(l)), TopFrame(c).locals, c.world))
  }

  /** The stack after keeping the top `keep` values and discarding the `drop`
      values under them. */
  function KeepTop(stack: seq<Raw>, keep: nat, drop: nat): seq<Raw>
    requires keep + drop <= |stack|
  {
    Below(stack, keep + drop) + Top(stack, keep)
  }

  function JumpTo(c: Config, target: nat, keep: nat, drop: nat): (r: Result)
    requires c.frames != []
    ensures !r.Done? && !r.Suspend?
  {
    if keep + drop <= Height(c) && keep + drop <= |c.stack|
    then Next(WithTop(c.(stack := KeepTop(c.stack, keep, drop)), TopFrame(c).(pc := target)))
    else Wrong
  }

  function JumpWhen(c: Config, taken: bool, target: nat, keep: nat, drop: nat): (r: Result)
    requires c.frames != []
    ensures !r.Done? && !r.Suspend?
  {
    if taken then JumpTo(c, target, keep, drop) else Next(c)
  }

  /** Moves the frame's results down to its base and drops the frame. */
  function DoReturn(c: Config): (r: Result)
    requires c.frames != []
    ensures !r.Done? && !r.Suspend?
  {
    var f := TopFrame(c);
    if f.base + f.arity <= |c.stack|
    then Next(Config(c.stack[..f.base] + Top(c.stack, f.arity), c.frames[..|c.frames| - 1], c.world))
    else Wrong
  }

  /** Takes the arguments off the stack and starts the function at `addr`, or
      suspends when it is an import. */
  function EnterCall(env: Env, codes: seq<ModuleCode>, c: Config, addr: nat): (r: Result)
    ensures !r.Done?
  {
    if |c.frames| >= MAX_CALL_DEPTH then Stop(CallStackExhausted, c.world)
    else if addr >= |env.funcs| then Wrong
    else
      var n := |env.funcs[addr].ft.params|;
      if n > Height(c) || n > |c.stack| then Wrong
      else
        match env.funcs[addr]
        case HostFunc(ft, m, f) => Suspend(m, f, Top(c.stack, n), |ft.results|, Popped(c, n))
        case LocalFunc(ft, mi, fi) =>
          if mi >= |codes| || fi >= |codes[mi].funcs| then Wrong
          else
            var locals := Top(c.stack, n) + Zeros(|codes[mi].funcs[fi].localTypes|);
            Next(Config(Below(c.stack, n),
                        c.frames + [Frame(mi, fi, 0, locals, |c.stack| - n, |ft.results|)],
                        c.world))
  }

  /** A tail call: the arguments replace the frame's operands, and the callee
      takes the frame's place. */
  function ReplaceCall(env: Env, codes: seq<ModuleCode>, c: Config, addr: nat): Result
    requires c.frames != []
  {
    var base := TopFrame(c).base;
    if addr >= |env.funcs| then Wrong
    else
      var n := |env.funcs[addr].ft.params|;
      if base + n <= |c.stack|
      then EnterCall(env, codes, Config(c.stack[..base] + Top(c.stack, n), c.frames[..|c.frames| - 1], c.world), addr)
      else Wrong
  }

  // ----- runs in which imports answer at once -----

  /** The configuration in which a suspended run continues with `results`. */
  function Resumed(c: Config, results: seq<Raw>, w: World): Config {
    Config(c.stack + results, c.frames, w)
  }

  /** What the embedder makes of a suspension. */
  function Answer(env: Env, r: Result): Result {
    match r
    case Suspend(m, f, args, expected, c) =>
      (match env.host(m, f, args, c.world)
       case HostReturn(results, w) =>
         if |results| == expected then Next(Resumed(c, results, w)) else Stop(HostError, w)
       case HostExit(code, w) => Stop(Exited(code), w)
       case HostFail(w) => Stop(HostError, w))
    case _ => r
  }

  function HostStep(env: Env, codes: seq<ModuleCode>, c: Config): Result {
    Answer(env, Step(env, codes, c))
  }

  /** The result of at most `n` steps: `Next` when the run is still going. */
  function Run(env: Env, codes: seq<ModuleCode>, n: nat, c: Config): Result {
    if n == 0 then Next(c)
    else
      match HostStep(env, codes, c)
      case Next(c') => Run(env, codes, n - 1, c')
      case r => r
  }

  /** Runs compose. */
  lemma {:induction false} RunThen(env: Env, codes: seq<ModuleCode>, n: nat, m: nat, c: Config)
    ensures var r := Run(env, codes, n, c);
            Run(env, codes, n + m, c) == (if r.Next? then Run(env, codes, m, r.c) else r)
  {
    hide HostStep;
    if n > 0 {
      var s := HostStep(env, codes, c);
      if s.Next? {
        RunThen(env, codes, n - 1, m, s.c);
      }
    }
  }
}
