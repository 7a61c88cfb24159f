/** What every step of every run of validated code stays within: operands of its
    own frame, its locals, its code, and the capacity of the value stack. */
module Safety {
  import opened Wasm
  import opened Runtime
  import opened Ir
  import opened Machine
  import opened Simulation
  import opened Fusion
  import opened Correctness

  // ----- bounds of one step -----

  /** How many operands the next operation reads or moves in this configuration.
      At the maximal depth a call traps before it reads its arguments. */
  function OperandsTouched(env: Env, codes: seq<ModuleCode>, c: Config, op: Op): nat
    requires c.frames != [] && TopFrame(c).mi < |env.insts| && TopFrame(c).mi < |codes|
  {
    var f := TopFrame(c);
    var inst := env.insts[f.mi];
    var top := if |c.stack| >= 1 then c.stack[|c.stack| - 1] else 0;
    var second := if |c.stack| >= 2 then c.stack[|c.stack| - 2] else 0;
    match op
    case LeafOp(l) => Pops(l)
    case UnreachableOp => 0
    case ReturnOp => f.arity
    case Jump(_, keep, drop) => keep + drop
    case JumpIf(_, keep, drop) => 1 + (if AsI32(top) != 0 then keep + drop else 0)
    case JumpIfNot(_, keep, drop) => 1 + (if AsI32(top) == 0 then keep + drop else 0)
    case JumpTable(index, keep) =>
      if index < |codes[f.mi].tables| && codes[f.mi].tables[index] != [] then
        var table := codes[f.mi].tables[index];
        var i := BranchIndex(top);
        1 + keep + table[if i < |table| - 1 then i else |table| - 1].drop
      else 1
    case CallOp(func) => if |c.frames| < MAX_CALL_DEPTH then ParamsAt(env, inst, func) else 0
    case ReturnCallOp(func) => ParamsAt(env, inst, func)
    case CallIndirectOp(ty, table) =>
      1 + (if |c.frames| < MAX_CALL_DEPTH then ParamsThrough(env, f.mi, ty, table, top, c.world) else 0)
    case ReturnCallIndirectOp(ty, table) => 1 + ParamsThrough(env, f.mi, ty, table, top, c.world)
    case EqZeroJumpIf(t, _, keep, drop) => 1 + (if AsInt(t, top) == 0 then keep + drop else 0)
    case EqZeroJumpIfNot(_, keep, drop) => 1 + (if AsI32(top) != 0 then keep + drop else 0)
    case CompareJumpIf(cmp, _, keep, drop) => 2 + (if Holds(env.platform, cmp, second, top) then keep + drop else 0)
    case LocalGetReturn(_) => if f.arity > 0 then f.arity - 1 else 0
    case LocalGetStore(_, _, _) => 1
    case LocalGet2(_, _) => 0
    case LocalGetLoad(_, _, _) => 0
    case LocalGetLocalSet(_, _) => 0
  }

  function ParamsAt(env: Env, inst: Instance, func: nat): nat {
    if func < |inst.funcAddrs| && inst.funcAddrs[func] < |env.funcs|
    then |env.funcs[inst.funcAddrs[func]].ft.params| else 0
  }

  function ParamsThrough(env: Env, mi: nat, ty: nat, table: nat, r: Raw, w: World): nat
    requires mi < |env.insts|
  {
    var callee := ResolveIndirect(env, mi, ty, table, r, w);
    if callee.CalleeAt? then |env.funcs[callee.addr].ft.params| else 0
  }

  /** The locals the next operation reads or writes. */
  function LocalsTouched(op: Op): set<nat> {
    match op
    case LeafOp(LocalGet(x)) => {x}
    case LeafOp(LocalSet(x)) => {x}
    case LeafOp(LocalTee(x)) => {x}
    case LocalGet2(a, b) => {a, b}
    case LocalGetReturn(x) => {x}
    case LocalGetLoad(x, _, _) => {x}
    case LocalGetStore(x, _, _) => {x}
    case LocalGetLocalSet(from, to) => {from, to}
    case _ => {}
  }

  /** The next operation exists, the frame's operands are as many as the compiler
      computed and, at their peak, at most the function's maximum, and the
      operation stays above the frame's base and within the frame's locals. */
  ghost predicate StaysInFrame(env: Env, codes: seq<ModuleCode>, c: Config)
    requires c.frames != []
  {
    var f := TopFrame(c);
    var line := Fetch(codes, f);
    && line.Some? && f.mi < |env.insts|
    && f.base <= |c.stack| && |c.stack| - f.base == line.value.at
    && Peak(line.value) <= codes[f.mi].funcs[f.fi].maxHeight
    && OperandsTouched(env, codes, c, line.value.op) <= |c.stack| - f.base
    && forall x :: x in LocalsTouched(line.value.op) ==> x < |f.locals|
  }

  /** An operation that is not `Wrong` finds its operands above the base and its
      locals in the frame. */
  lemma ExecStays(env: Env, codes: seq<ModuleCode>, c: Config, op: Op)
    requires c.frames != [] && TopFrame(c).mi < |env.insts| && TopFrame(c).mi < |codes| && Height(c) >= 0
    requires Exec(env, codes, c, op) != Wrong
    ensures OperandsTouched(env, codes, c, op) <= Height(c)
    ensures forall x :: x in LocalsTouched(op) ==> x < |TopFrame(c).locals|
  {
    hide Landed, LoadFrom, StoreTo, AsI32, AsInt, Holds, BranchIndex, ResolveIndirect, EnterCall, ReplaceCall, ExecLeaf;
    if JumpTarget(op).Some? {
      JumpStays(env, codes, c, op);
    }
    match op
    case LeafOp(l) => LeafStays(env, codes, c, l);
    case JumpTable(_, _) => TableStays(env, codes, c, op);
    case CallOp(_) => CallStays(env, codes, c, op);
    case CallIndirectOp(_, _) => CallStays(env, codes, c, op);
    case ReturnCallOp(_) => CallStays(env, codes, c, op);
    case ReturnCallIndirectOp(_, _) => CallStays(env, codes, c, op);
    case _ =>
  }

  /** A jump that is not `Wrong` finds what it keeps and drops. */
  lemma JumpFinds(c: Config, taken: bool, target: nat, keep: nat, drop: nat)
    requires c.frames != []
    ensures JumpTo(c, target, keep, drop) != Wrong ==> keep + drop <= Height(c)
    ensures taken && JumpWhen(c, taken, target, keep, drop) != Wrong ==> keep + drop <= Height(c)
  {
  }

  lemma PoppedHeight(c: Config, n: nat)
    requires c.frames != [] && n <= |c.stack|
    ensures Popped(c, n).frames == c.frames && Height(Popped(c, n)) == Height(c) - n
  {
  }

  lemma TopValues(stack: seq<Raw>)
    ensures |stack| >= 1 ==> Top(stack, 1)[0] == stack[|stack| - 1]
    ensures |stack| >= 2 ==> Top(stack, 2)[0] == stack[|stack| - 2] && Top(stack, 2)[1] == stack[|stack| - 1]
  {
  }

  lemma JumpStays(env: Env, codes: seq<ModuleCode>, c: Config, op: Op)
    requires c.frames != [] && TopFrame(c).mi < |env.insts| && TopFrame(c).mi < |codes| && Height(c) >= 0
    requires JumpTarget(op).Some? && Exec(env, codes, c, op) != Wrong
    ensures OperandsTouched(env, codes, c, op) <= Height(c)
  {
    hide AsI32, AsInt, Holds, JumpTo, JumpWhen, Popped, Top, TopFrame;
    TopValues(c.stack);
    if |c.stack| >= 1 { PoppedHeight(c, 1); }
    if |c.stack| >= 2 { PoppedHeight(c, 2); }
    match op
    case Jump(t, keep, drop) => JumpFinds(c, true, t, keep, drop);
    case JumpIf(t, keep, drop) =>
      if Height(c) >= 1 { JumpFinds(Popped(c, 1), AsI32(Top(c.stack, 1)[0]) != 0, t, keep, drop); }
    case JumpIfNot(t, keep, drop) =>
      if Height(c) >= 1 { JumpFinds(Popped(c, 1), AsI32(Top(c.stack, 1)[0]) == 0, t, keep, drop); }
    case EqZeroJumpIf(ty, t, keep, drop) =>
      if Height(c) >= 1 { JumpFinds(Popped(c, 1), AsInt(ty, Top(c.stack, 1)[0]) == 0, t, keep, drop); }
    case EqZeroJumpIfNot(t, keep, drop) =>
      if Height(c) >= 1 { JumpFinds(Popped(c, 1), AsI32(Top(c.stack, 1)[0]) != 0, t, keep, drop); }
    case CompareJumpIf(cmp, t, keep, drop) =>
      if Height(c) >= 2 {
        JumpFinds(Popped(c, 2), Holds(env.platform, cmp, Top(c.stack, 2)[0], Top(c.stack, 2)[1]), t, keep, drop);
      }
  }

  lemma TableStays(env: Env, codes: seq<ModuleCode>, c: Config, op: Op)
    requires c.frames != [] && TopFrame(c).mi < |env.insts| && TopFrame(c).mi < |codes| && Height(c) >= 0
    requires op.JumpTable? && Exec(env, codes, c, op) != Wrong
    ensures OperandsTouched(env, codes, c, op) <= Height(c)
  {
    hide BranchIndex, KeepTop;
    TopValues(c.stack);
  }

  lemma CallStays(env: Env, codes: seq<ModuleCode>, c: Config, op: Op)
    requires c.frames != [] && TopFrame(c).mi < |env.insts| && TopFrame(c).mi < |codes| && Height(c) >= 0
    requires op.CallOp? || op.CallIndirectOp? || op.ReturnCallOp? || op.ReturnCallIndirectOp?
    requires Exec(env, codes, c, op) != Wrong
    ensures OperandsTouched(env, codes, c, op) <= Height(c)
  {
    hide ResolveIndirect, BranchIndex;
    if |c.stack| >= 1 { assert Top(c.stack, 1)[0] == c.stack[|c.stack| - 1]; }
  }

  lemma LeafStays(env: Env, codes: seq<ModuleCode>, c: Config, l: Leaf)
    requires c.frames != [] && TopFrame(c).mi < |env.insts|
    requires ExecLeaf(env, c, l) != Wrong
    ensures Pops(l) <= Height(c)
    ensures forall x :: x in LocalsTouched(LeafOp(l)) ==> x < |TopFrame(c).locals|
  {
    hide LoadFrom, StoreTo, AsI32, AsInt, Holds, SetGlobal, Numeric, AsReference;
  }

  /** A step that is not `Wrong` stayed within these bounds: the machine checks
      each of them. */
  lemma StepStays(env: Env, codes: seq<ModuleCode>, c: Config)
    requires c.frames != [] && Step(env, codes, c) != Wrong
    ensures StaysInFrame(env, codes, c)
  {
    hide Exec;
    var f := TopFrame(c);
    var line := Fetch(codes, f).value;
    var d := WithTop(c, f.(pc := f.pc + 1));
    assert TopFrame(d) == f.(pc := f.pc + 1) && |d.frames| == |c.frames|;
    ExecStays(env, codes, d, line.op);
    hide BranchIndex, ResolveIndirect, AsI32, Holds, AsInt;
    assert OperandsTouched(env, codes, c, line.op) == OperandsTouched(env, codes, d, line.op);
  }

  // ----- safety of whole runs -----

  lemma NextNotWrong(env: Env, n: nat, low: seq<Raw>, addr: nat, args: seq<Raw>, w: World)
    requires Callable(env, addr, args, w)
    requires RunCall(env, Compiled(env, true), n, low, addr, args, w).Next?
    ensures Step(env, Compiled(env, true), RunCall(env, Compiled(env, true), n, low, addr, args, w).c) != Wrong
  {
    hide EnterCall, Answer, Compiled, Run, Callable, Step, HostStep;
    var codes := Compiled(env, true);
    var r0 := Answer(env, EnterCall(env, codes, Config(low + args, [], w), addr));
    var c := RunCall(env, codes, n, low, addr, args, w).c;
    NeverWrong(env, n + 1, low, addr, args, w);
    RunThen(env, codes, n, 1, r0.c);
    RunOne(env, codes, c);
    if Step(env, codes, c) == Wrong { StepWrong(env, codes, c); }
  }

  /** Stack safety. Wherever a run of validated, optimized code is, its next step
      exists and touches only the frame's own operands and locals. */
  lemma EveryStepStays(env: Env, n: nat, low: seq<Raw>, addr: nat, args: seq<Raw>, w: World)
    requires Callable(env, addr, args, w)
    ensures var r := RunCall(env, Compiled(env, true), n, low, addr, args, w);
            r.Next? && r.c.frames != [] ==> StaysInFrame(env, Compiled(env, true), r.c)
  {
    hide RunCall, Callable, Compiled, Step, StaysInFrame;
    var r := RunCall(env, Compiled(env, true), n, low, addr, args, w);
    if r.Next? && r.c.frames != [] {
      NextNotWrong(env, n, low, addr, args, w);
      StepStays(env, Compiled(env, true), r.c);
    }
  }
}
