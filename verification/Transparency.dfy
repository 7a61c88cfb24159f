/** What a run resumed from a snapshot does, on the buffer that a restored stack
    has (src/snapshot.rs: from_bytes; src/runtime/stack.rs: from_snapshot). */
module Transparency {
  import opened Wasm
  import opened Runtime
  import opened Lowering
  import opened Ir
  import opened Machine
  import opened Metering
  import opened Capacity
  import opened Codec
  import opened StoreFormat
  import opened Snapshot
  import Execution
  import opened Validation
  import opened Declarative
  import opened Typability
  import opened Fusion
  import opened Correctness

  // ----- the machine's view of a saved store -----

  function RefOf(r: SavedRef): Runtime.Reference {
    match r
    case NoRef => Null
    case ToFunction(a) => FunctionAddr(a)
    case ToExternal(a) => OtherRef(a)
    case ToI31(bits) => OtherRef(bits)
    case ToException(a) => OtherRef(a)
  }

  function RefsOf(rs: seq<SavedRef>): seq<Runtime.Reference> {
    seq(|rs|, i requires 0 <= i < |rs| => RefOf(rs[i]))
  }

  /** Of a module only its type section is saved. */
  function InstanceOf(i: SavedInstance<Line>): Instance {
    Instance(Module(i.code.types, [], [], [], [], [], {}), i.funcAddrs, i.tableAddrs, i.memAddrs, i.globalAddrs)
  }

  function FunctionOf(f: SavedFunction<Line>): CompiledFunction {
    CompiledFunction(f.ops, f.localTypes, f.maxHeight)
  }

  function CodeOf(i: SavedInstance<Line>): ModuleCode {
    ModuleCode(seq(|i.code.funcs|, k requires 0 <= k < |i.code.funcs| => FunctionOf(i.code.funcs[k])), i.code.jumpTables)
  }

  function EnvOf(s: SavedStore<Line>, platform: Platform, host: (Name, Name, seq<Raw>, World) -> HostOutcome): Env {
    Env(s.funcs, seq(|s.instances|, i requires 0 <= i < |s.instances| => InstanceOf(s.instances[i])), platform, host)
  }

  function CodesOf(s: SavedStore<Line>): seq<ModuleCode> {
    seq(|s.instances|, i requires 0 <= i < |s.instances| => CodeOf(s.instances[i]))
  }

  function WorldOf(s: SavedStore<Line>, hostData: Bytes): World {
    World(seq(|s.globals|, i requires 0 <= i < |s.globals| => GlobalInst(s.globals[i].isMutable, s.globals[i].value)),
          seq(|s.memories|, i requires 0 <= i < |s.memories| => MemInst(s.memories[i].addr64, s.memories[i].data)),
          seq(|s.tables|, i requires 0 <= i < |s.tables| => TableInst(s.tables[i].addr64, RefsOf(s.tables[i].elems))),
          hostData)
  }

  function ConfigOf(s: SavedStore<Line>, hostData: Bytes): Config {
    Config(s.stack, s.frames, WorldOf(s, hostData))
  }

  // ----- what a run depends on -----

  /** Two environments that a run cannot tell apart: they differ at most in the
      parts of modules that snapshots leave out. */
  ghost predicate SameForRuns(a: Env, b: Env) {
    && a.funcs == b.funcs && a.platform == b.platform && a.host == b.host && |a.insts| == |b.insts|
    && forall i :: 0 <= i < |a.insts| ==>
         && a.insts[i].mod.types == b.insts[i].mod.types
         && a.insts[i] == b.insts[i].(mod := a.insts[i].mod)
  }

  lemma SameExec(a: Env, b: Env, codes: seq<ModuleCode>, c: Config, op: Op)
    requires SameForRuns(a, b)
    requires c.frames != [] && TopFrame(c).mi < |a.insts| && TopFrame(c).mi < |codes| && Height(c) >= 0
    ensures Exec(a, codes, c, op) == Exec(b, codes, c, op)
  {
    hide JumpTo, JumpWhen, DoReturn, AsI32, AsInt, Holds, BranchIndex, Landed, KeepTop, EvalLeaf, EnterCall;
    hide ReplaceCall, ResolveIndirect, LoadFrom, StoreTo;
    var f := TopFrame(c);
    var inst := a.insts[f.mi];
    assert inst == b.insts[f.mi].(mod := inst.mod);
    forall addr: nat, d: Config ensures EnterCall(a, codes, d, addr) == EnterCall(b, codes, d, addr) {
      SameEnter(a, b, codes, d, addr);
    }
    match op
    case LeafOp(l) =>
      if Height(c) >= Pops(l) && |c.stack| >= Pops(l) {
        SameLeaf(a, b, f.mi, l, Top(c.stack, Pops(l)), f.locals, c.world);
      }
    case CallIndirectOp(ty, table) =>
      if Height(c) >= 1 && |c.stack| >= 1 { SameCallee(a, b, f.mi, ty, table, Top(c.stack, 1)[0], c.world); }
    case ReturnCallOp(func) => if func < |inst.funcAddrs| { SameReplace(a, b, codes, c, inst.funcAddrs[func]); }
    case ReturnCallIndirectOp(ty, table) =>
      if Height(c) >= 1 && |c.stack| >= 1 {
        SameCallee(a, b, f.mi, ty, table, Top(c.stack, 1)[0], c.world);
        var callee := ResolveIndirect(a, f.mi, ty, table, Top(c.stack, 1)[0], c.world);
        if callee.CalleeAt? { SameReplace(a, b, codes, Popped(c, 1), callee.addr); }
      }
    case LocalGetLoad(x, k, m) =>
      if x < |f.locals| { SameAccess(a, b, f.mi, c.world); }
    case LocalGetStore(x, k, m) =>
      if x < |f.locals| { SameAccess(a, b, f.mi, c.world); }
    case _ =>
  }

  lemma SameEnter(a: Env, b: Env, codes: seq<ModuleCode>, c: Config, addr: nat)
    requires SameForRuns(a, b)
    ensures EnterCall(a, codes, c, addr) == EnterCall(b, codes, c, addr)
  {
  }

  lemma SameReplace(a: Env, b: Env, codes: seq<ModuleCode>, c: Config, addr: nat)
    requires SameForRuns(a, b) && c.frames != []
    ensures ReplaceCall(a, codes, c, addr) == ReplaceCall(b, codes, c, addr)
  {
    hide EnterCall;
    forall d: Config ensures EnterCall(a, codes, d, addr) == EnterCall(b, codes, d, addr) {
      SameEnter(a, b, codes, d, addr);
    }
  }

  lemma SameCallee(a: Env, b: Env, mi: nat, ty: nat, table: nat, r: Raw, w: World)
    requires SameForRuns(a, b) && mi < |a.insts|
    ensures ResolveIndirect(a, mi, ty, table, r, w) == ResolveIndirect(b, mi, ty, table, r, w)
  {
    hide BranchIndex;
    assert a.insts[mi] == b.insts[mi].(mod := a.insts[mi].mod);
  }

  lemma SameAccess(a: Env, b: Env, mi: nat, w: World)
    requires SameForRuns(a, b) && mi < |a.insts|
    ensures forall k: LoadKind, m: MemArg, base: Raw, locals: seq<Raw> ::
              LoadFrom(a.insts[mi], k, m, base, locals, w) == LoadFrom(b.insts[mi], k, m, base, locals, w)
    ensures forall k: StoreKind, m: MemArg, base: Raw, v: Raw, locals: seq<Raw> ::
              StoreTo(a.insts[mi], k, m, base, v, locals, w) == StoreTo(b.insts[mi], k, m, base, v, locals, w)
  {
    hide EffectiveAddress, FromLE, ToLE, Loaded;
    assert a.insts[mi] == b.insts[mi].(mod := a.insts[mi].mod);
  }

  lemma SameLeaf(a: Env, b: Env, mi: nat, l: Leaf, args: seq<Raw>, locals: seq<Raw>, w: World)
    requires SameForRuns(a, b) && mi < |a.insts| && |args| == Pops(l)
    ensures EvalLeaf(a, mi, l, args, locals, w) == EvalLeaf(b, mi, l, args, locals, w)
  {
    hide LoadFrom, StoreTo, SetGlobal, AsReference, AsI32, AsInt, Holds;
    var (i, j) := (a.insts[mi], b.insts[mi]);
    assert i == j.(mod := i.mod);
    SameAccess(a, b, mi, w);
    match l
    case GlobalSet(x) => SameGlobal(i, j, x, args[0], locals, w);
    case _ =>
  }

  lemma SameGlobal(i: Instance, j: Instance, x: nat, v: Raw, locals: seq<Raw>, w: World)
    requires i == j.(mod := i.mod)
    ensures SetGlobal(i, x, v, locals, w) == SetGlobal(j, x, v, locals, w)
  {
  }

  lemma SameStep(a: Env, b: Env, codes: seq<ModuleCode>, c: Config)
    requires SameForRuns(a, b)
    ensures Step(a, codes, c) == Step(b, codes, c)
  {
    hide Exec;
    if c.frames != [] && Fetch(codes, TopFrame(c)).Some? && TopFrame(c).mi < |a.insts| && Height(c) >= 0 {
      var f := TopFrame(c);
      SameExec(a, b, codes, WithTop(c, f.(pc := f.pc + 1)), Fetch(codes, f).value.op);
    }
  }

  lemma {:induction false} SameLoop(a: Env, b: Env, codes: seq<ModuleCode>, n: nat, fuel: Option<nat>, c: Config)
    requires SameForRuns(a, b)
    ensures RunLoop(a, codes, n, fuel, c) == RunLoop(b, codes, n, fuel, c)
    decreases n
  {
    hide Step, SameForRuns;
    if c.frames != [] && fuel != Some(0) && n > 0 {
      SameStep(a, b, codes, c);
      var r := Step(a, codes, c);
      if r.Next? { SameLoop(a, b, codes, n - 1, Spend(fuel), r.c); }
    }
  }

  // ----- runs on a buffer -----

  /** The room that a restored store's stack has (src/runtime/stack.rs,
      from_snapshot). */
  function RestoredCapacity(live: nat): nat { if live < 1024 then 1024 else live }

  /** The number of values that the next round of the loop needs room for. */
  function Reach(env: Env, codes: seq<ModuleCode>, c: Config): int {
    var r := Step(env, codes, c);
    Max(PeakOf(codes, c), if r.Next? then |r.c.stack| else 0)
  }

  /** The loop on a stack with room for `cap` values; nothing when it writes
      beyond the buffer. */
  function LoopWithin(env: Env, codes: seq<ModuleCode>, cap: nat, n: nat, fuel: Option<nat>, c: Config): Option<Halt>
    decreases n
  {
    if c.frames == [] || fuel == Some(0) || n == 0 then Some(RunLoop(env, codes, n, fuel, c))
    else if Reach(env, codes, c) > cap then None
    else
      match Step(env, codes, c)
      case Next(c') => LoopWithin(env, codes, cap, n - 1, Spend(fuel), c')
      case _ => Some(RunLoop(env, codes, n, fuel, c))
  }

  /** The most room that a round of the loop needs. */
  function Highest(env: Env, codes: seq<ModuleCode>, n: nat, fuel: Option<nat>, c: Config): int
    decreases n
  {
    if c.frames == [] || fuel == Some(0) || n == 0 then 0
    else
      var r := Step(env, codes, c);
      Max(Reach(env, codes, c), if r.Next? then Highest(env, codes, n - 1, Spend(fuel), r.c) else 0)
  }

  lemma {:induction false} LoopFits(env: Env, codes: seq<ModuleCode>, cap: nat, n: nat, fuel: Option<nat>, c: Config)
    ensures LoopWithin(env, codes, cap, n, fuel, c) ==
            if Highest(env, codes, n, fuel, c) <= cap then Some(RunLoop(env, codes, n, fuel, c)) else None
    decreases n
  {
    hide Step, Reach;
    if c.frames != [] && fuel != Some(0) && n > 0 && Step(env, codes, c).Next? {
      LoopFits(env, codes, cap, n - 1, Spend(fuel), Step(env, codes, c).c);
    }
  }

  lemma {:induction false} SameHighest(a: Env, b: Env, codes: seq<ModuleCode>, n: nat, fuel: Option<nat>, c: Config)
    requires SameForRuns(a, b)
    ensures Highest(a, codes, n, fuel, c) == Highest(b, codes, n, fuel, c)
    decreases n
  {
    hide Step, SameForRuns, PeakOf;
    if c.frames != [] && fuel != Some(0) && n > 0 {
      SameStep(a, b, codes, c);
      var r := Step(a, codes, c);
      if r.Next? { SameHighest(a, b, codes, n - 1, Spend(fuel), r.c); }
    }
  }

  // ----- transparency -----

  /** What the embedder can do with a paused store. */
  datatype Command = Refuel(amount: Option<nat>) | Resume(n: nat) | ResumeWith(values: seq<Raw>, n: nat)

  /** A paused run: its configuration, its fuel, and how many results are due. */
  datatype Paused = Paused(c: Config, fuel: Option<nat>, pendingArity: Option<nat>)

  /** How the store stands after a pause, as finishing a run leaves it. */
  function AfterPause(h: Halt, arity: nat): Paused {
    match h.pause
    case FuelExhausted => Paused(h.c, h.fuel, Some(arity))
    case Suspended(_, _, _, _) => Paused(h.c, h.fuel, Some(arity))
    case Completed => Paused(if arity <= |h.c.stack| then Popped(h.c, arity) else h.c, h.fuel, None)
    case _ => Paused(h.c, h.fuel, None)
  }

  /** The pauses that a list of commands leads to. Runs are bounded by `n`, which
      says how many rounds of the loop are looked at. */
  function Play(env: Env, codes: seq<ModuleCode>, p: Paused, commands: seq<Command>): seq<Halt>
    decreases |commands|
  {
    if commands == [] then []
    else
      match commands[0]
      case Refuel(amount) => Play(env, codes, p.(fuel := amount), commands[1..])
      case Resume(n) =>
        if p.pendingArity.None? then Play(env, codes, p, commands[1..])
        else
          var h := RunLoop(env, codes, n, p.fuel, p.c);
          [h] + Play(env, codes, AfterPause(h, p.pendingArity.value), commands[1..])
      case ResumeWith(values, n) =>
        if p.pendingArity.None? then Play(env, codes, p, commands[1..])
        else
          var h := RunLoop(env, codes, n, p.fuel, Resumed(p.c, values, p.c.world));
          [h] + Play(env, codes, AfterPause(h, p.pendingArity.value), commands[1..])
  }

  /** The same commands on a stack with room for `cap` values; nothing when a run,
      or the values a run is resumed with, go beyond the buffer. */
  function PlayWithin(env: Env, codes: seq<ModuleCode>, cap: nat, p: Paused, commands: seq<Command>): Option<seq<Halt>>
    decreases |commands|, 0
  {
    if commands == [] then Some([])
    else
      match commands[0]
      case Refuel(amount) => PlayWithin(env, codes, cap, p.(fuel := amount), commands[1..])
      case Resume(n) =>
        if p.pendingArity.None? then PlayWithin(env, codes, cap, p, commands[1..])
        else PausesWithin(env, codes, cap, n, p, p.c, commands[1..])
      case ResumeWith(values, n) =>
        if p.pendingArity.None? then PlayWithin(env, codes, cap, p, commands[1..])
        else if |p.c.stack| + |values| > cap then None
        else PausesWithin(env, codes, cap, n, p, Resumed(p.c, values, p.c.world), commands[1..])
  }

  /** A run from `c`, and the commands after it. */
  function PausesWithin(env: Env, codes: seq<ModuleCode>, cap: nat, n: nat, p: Paused, c: Config,
                        commands: seq<Command>): Option<seq<Halt>>
    requires p.pendingArity.Some?
    decreases |commands|, 1
  {
    match LoopWithin(env, codes, cap, n, p.fuel, c)
    case None => None
    case Some(h) =>
      match PlayWithin(env, codes, cap, AfterPause(h, p.pendingArity.value), commands)
      case None => None
      case Some(rest) => Some([h] + rest)
  }

  /** The most room that any of the commands needs. */
  function HighestPlay(env: Env, codes: seq<ModuleCode>, p: Paused, commands: seq<Command>): int
    decreases |commands|, 0
  {
    if commands == [] then 0
    else
      match commands[0]
      case Refuel(amount) => HighestPlay(env, codes, p.(fuel := amount), commands[1..])
      case Resume(n) =>
        if p.pendingArity.None? then HighestPlay(env, codes, p, commands[1..])
        else HighestPause(env, codes, n, p, p.c, commands[1..])
      case ResumeWith(values, n) =>
        if p.pendingArity.None? then HighestPlay(env, codes, p, commands[1..])
        else Max(|p.c.stack| + |values|, HighestPause(env, codes, n, p, Resumed(p.c, values, p.c.world), commands[1..]))
  }

  function HighestPause(env: Env, codes: seq<ModuleCode>, n: nat, p: Paused, c: Config, commands: seq<Command>): int
    requires p.pendingArity.Some?
    decreases |commands|, 1
  {
    var after := AfterPause(RunLoop(env, codes, n, p.fuel, c), p.pendingArity.value);
    Max(Highest(env, codes, n, p.fuel, c), HighestPlay(env, codes, after, commands))
  }

  /** A buffer with enough room changes nothing, and one with less is overrun. */
  lemma {:induction false} PlayFits(env: Env, codes: seq<ModuleCode>, cap: nat, p: Paused, commands: seq<Command>)
    ensures PlayWithin(env, codes, cap, p, commands) ==
            if HighestPlay(env, codes, p, commands) <= cap then Some(Play(env, codes, p, commands)) else None
    decreases |commands|, 1
  {
    hide RunLoop, AfterPause, LoopWithin, Highest, PausesWithin, HighestPause;
    if commands != [] {
      match commands[0]
      case Refuel(amount) => PlayFits(env, codes, cap, p.(fuel := amount), commands[1..]);
      case Resume(n) =>
        if p.pendingArity.None? { PlayFits(env, codes, cap, p, commands[1..]); }
        else { PauseFits(env, codes, cap, n, p, p.c, commands[1..]); }
      case ResumeWith(values, n) =>
        if p.pendingArity.None? { PlayFits(env, codes, cap, p, commands[1..]); }
        else { PauseFits(env, codes, cap, n, p, Resumed(p.c, values, p.c.world), commands[1..]); }
    }
  }

  lemma {:induction false} PauseFits(env: Env, codes: seq<ModuleCode>, cap: nat, n: nat, p: Paused, c: Config,
                                     commands: seq<Command>)
    requires p.pendingArity.Some?
    ensures var h := RunLoop(env, codes, n, p.fuel, c);
            PausesWithin(env, codes, cap, n, p, c, commands) ==
            if HighestPause(env, codes, n, p, c, commands) <= cap
            then Some([h] + Play(env, codes, AfterPause(h, p.pendingArity.value), commands))
            else None
    decreases |commands|, 2
  {
    hide RunLoop, AfterPause, LoopWithin, Highest, Play, PlayWithin, HighestPlay;
    LoopFits(env, codes, cap, n, p.fuel, c);
    PlayFits(env, codes, cap, AfterPause(RunLoop(env, codes, n, p.fuel, c), p.pendingArity.value), commands);
  }

  lemma {:induction false} SamePlay(a: Env, b: Env, codes: seq<ModuleCode>, p: Paused, commands: seq<Command>)
    requires SameForRuns(a, b)
    ensures Play(a, codes, p, commands) == Play(b, codes, p, commands)
    ensures HighestPlay(a, codes, p, commands) == HighestPlay(b, codes, p, commands)
    decreases |commands|
  {
    hide RunLoop, SameForRuns, AfterPause, Highest;
    if commands != [] {
      match commands[0]
      case Refuel(amount) => SamePlay(a, b, codes, p.(fuel := amount), commands[1..]);
      case Resume(n) =>
        SameLoop(a, b, codes, n, p.fuel, p.c);
        SameHighest(a, b, codes, n, p.fuel, p.c);
        var h := RunLoop(a, codes, n, p.fuel, p.c);
        SamePlay(a, b, codes, if p.pendingArity.None? then p else AfterPause(h, p.pendingArity.value), commands[1..]);
      case ResumeWith(values, n) =>
        SameLoop(a, b, codes, n, p.fuel, Resumed(p.c, values, p.c.world));
        SameHighest(a, b, codes, n, p.fuel, Resumed(p.c, values, p.c.world));
        var h := RunLoop(a, codes, n, p.fuel, Resumed(p.c, values, p.c.world));
        SamePlay(a, b, codes, if p.pendingArity.None? then p else AfterPause(h, p.pendingArity.value), commands[1..]);
    }
  }

  function PausedOf(s: SavedStore<Line>, hostData: Bytes): Paused {
    Paused(ConfigOf(s, hostData), if s.fuel.Some? then Some(s.fuel.value) else None, s.pendingArity)
  }

  /** The saved store holds what runs of this program in this state depend on. */
  ghost predicate Saves(s: SavedStore<Line>, env: Env, codes: seq<ModuleCode>, p: Paused) {
    && SameForRuns(env, EnvOf(s, env.platform, env.host))
    && CodesOf(s) == codes
    && PausedOf(s, p.c.world.hostData) == p
  }

  /** The commands on the store `r`, restored into a stack with the room that
      restoring leaves, have the pauses `saved` exactly when none of them needs
      more room, and otherwise write beyond the buffer. None does when the saved
      store, on a stack with room for `cap` values, had no more. */
  ghost predicate ResumesAlike(r: SavedStore<Line>, env: Env, codes: seq<ModuleCode>, cap: nat, p: Paused,
                               commands: seq<Command>, saved: seq<Halt>)
  {
    var room := RestoredCapacity(|p.c.stack|);
    var restored := PlayWithin(EnvOf(r, env.platform, env.host), CodesOf(r), room, PausedOf(r, p.c.world.hostData), commands);
    && (restored == Some(saved) <==> HighestPlay(env, codes, p, commands) <= room)
    && (restored == None <==> HighestPlay(env, codes, p, commands) > room)
    && (cap <= room ==> restored == Some(saved))
  }

  /** Snapshot transparency. Whatever the embedder does next, the store restored
      from a snapshot pauses as the saved one does on its stack with room for
      `cap` values, as long as it never needs more room than the restored one
      has; and only then. It never does when its own stack is no larger. */
  lemma SnapshotTransparent(op: Codec<Line>, s: SavedStore<Line>, env: Env, codes: seq<ModuleCode>, cap: nat, p: Paused,
                            commands: seq<Command>, saved: seq<Halt>)
    requires RoundTrips(op) && Stores(op).valid(s) && Saves(s, env, codes, p)
    requires PlayWithin(env, codes, cap, p, commands) == Some(saved)
    ensures exists rest: Bytes, r: SavedStore<Line> ::
              Stores(op).decode(Stores(op).encode(s)) == Some((r, rest)) && ResumesAlike(r, env, codes, cap, p, commands, saved)
  {
    hide RoundTrips, Stores, EnvOf, CodesOf, PausedOf, SameForRuns, PlayWithin, HighestPlay, Play;
    ReadsBack(op, s);
    var room := RestoredCapacity(|p.c.stack|);
    var restored := EnvOf(s, env.platform, env.host);
    SamePlay(env, restored, codes, p, commands);
    PlayFits(env, codes, cap, p, commands);
    PlayFits(restored, codes, room, p, commands);
  }

  lemma ReadsBack(op: Codec<Line>, s: SavedStore<Line>)
    requires RoundTrips(op) && Stores(op).valid(s)
    ensures Stores(op).decode(Stores(op).encode(s)) == Some((s, []))
  {
    hide RoundTrips, Stores;
    StoresRoundTrip(op);
    RoundTrip(Stores(op), s, []);
    assert Stores(op).encode(s) + [] == Stores(op).encode(s);
  }

  // ----- the restored store -----

  /** A store made of a snapshot's bytes, on the stack that restoring gives it.
      Import results and host data are not part of a snapshot. */
  method Restore(bytes: Bytes, op: Codec<Line>, platform: Platform, host: (Name, Name, seq<Raw>, World) -> HostOutcome,
                 hostData: Bytes)
    returns (store: Execution.Store?)
    ensures match Stores(op).decode(bytes)
            case None => store == null
            case Some((s, _)) => store != null && fresh(store) && IsRestored(store, s, platform, host, hostData)
  {
    hide Stores, EnvOf, CodesOf, WorldOf;
    var reader := new Reader(bytes);
    var d := DecodeStore(reader, op);
    if d.None? { return null; }
    var s := d.value;
    store := new Execution.Store.Restored(EnvOf(s, platform, host), CodesOf(s), WorldOf(s, hostData), s.stack, s.frames,
      if s.fuel.Some? then Some(s.fuel.value) else None, s.pendingArity);
  }

  ghost predicate IsRestored(store: Execution.Store, s: SavedStore<Line>, platform: Platform,
                             host: (Name, Name, seq<Raw>, World) -> HostOutcome, hostData: Bytes)
    reads store, store.stack, store.stack.inner
  {
    && store.Valid() && store.env == EnvOf(s, platform, host) && store.codes == CodesOf(s)
    && Paused(store.Cfg(), store.fuel, store.pendingArity) == PausedOf(s, hostData) && store.pendingSuspension == None
    && store.stack.inner.Length == RestoredCapacity(|s.stack|)
  }

  lemma EmptyDone(env: Env, codes: seq<ModuleCode>, c: Config)
    requires c.frames == []
    ensures Step(env, codes, c) == Done(c) && PeakOf(codes, c) == |c.stack|
  {
  }

  lemma {:induction false} ReachedHighest(env: Env, codes: seq<ModuleCode>, n: nat, c: Config)
    requires Advance(env, codes, n, c).Next? && Advance(env, codes, n, c).c.frames != []
    ensures Highest(env, codes, n + 1, None, c) >= Reach(env, codes, Advance(env, codes, n, c).c)
    decreases n
  {
    hide Step, Reach;
    if n > 0 {
      if c.frames == [] { EmptyDone(env, codes, c); }
      ReachedHighest(env, codes, n - 1, Step(env, codes, c).c);
    }
  }

  /** No round of the run, however long, needs more than `room`. */
  ghost predicate NeedsAtMost(env: Env, codes: seq<ModuleCode>, room: nat, c: Config) {
    forall n: nat :: Highest(env, codes, n, None, c) <= room
  }

  /** What a safe run has reached on a stack on which no round needs more room. */
  lemma ReachedSafe(env: Env, codes: seq<ModuleCode>, room: nat, n: nat, c: Config)
    requires |c.stack| <= room && NeedsAtMost(env, codes, room, c)
    requires Advance(env, codes, n, c) != Wrong
    ensures SafeAfter(env, codes, room, n, c)
  {
    hide Step, PeakOf, Highest, Advance;
    var r := Advance(env, codes, n, c);
    if r.Next? {
      if n == 0 {
        assert Advance(env, codes, 0, c) == Next(c) by { AdvanceNone(env, codes, c); }
      } else {
        OneLess(env, codes, n, c);
        var d := Advance(env, codes, n - 1, c).c;
        ReachedHighest(env, codes, n - 1, c);
        assert Highest(env, codes, n, None, c) <= room;
      }
      if r.c.frames == [] {
        EmptyDone(env, codes, r.c);
      } else {
        ReachedHighest(env, codes, n, c);
        assert Highest(env, codes, n + 1, None, c) <= room;
      }
    }
  }

  lemma AdvanceNone(env: Env, codes: seq<ModuleCode>, c: Config)
    ensures Advance(env, codes, 0, c) == Next(c)
  {
    hide Step;
  }

  /** A run that is still going after `n` steps was one step earlier. */
  lemma OneLess(env: Env, codes: seq<ModuleCode>, n: nat, c: Config)
    requires n > 0 && Advance(env, codes, n, c).Next?
    ensures var r := Advance(env, codes, n - 1, c);
            r.Next? && r.c.frames != [] && Step(env, codes, r.c) == Advance(env, codes, n, c)
  {
    hide Step, Advance;
    AdvanceThen(env, codes, n - 1, 1, c);
    OneMore(env, codes, n - 1, c);
    var d := Advance(env, codes, n - 1, c).c;
    if d.frames == [] { EmptyDone(env, codes, d); }
  }

  lemma {:induction false} SafeHighest(env: Env, codes: seq<ModuleCode>, room: nat, n: nat, c: Config)
    requires RunsSafely(env, codes, room, c)
    ensures Highest(env, codes, n, None, c) <= room
    decreases n
  {
    hide Step, PeakOf;
    if n > 0 && c.frames != [] {
      assert SafeAfter(env, codes, room, 0, c) && SafeAfter(env, codes, room, 1, c);
      var r := Step(env, codes, c);
      assert Advance(env, codes, 0, c) == Next(c);
      assert Advance(env, codes, 1, c) == r;
      if r.Next? {
        forall k: nat ensures SafeAfter(env, codes, room, k, r.c) {
          assert SafeAfter(env, codes, room, k + 1, c);
        }
        SafeHighest(env, codes, room, n - 1, r.c);
      }
    }
  }

  /** What `Store.Resume` asks of the run, that it is safe, holds on the restored
      store exactly when the run never needs more room than restoring leaves. */
  lemma RoomIsSafe(env: Env, codes: seq<ModuleCode>, cap: nat, room: nat, c: Config)
    requires RunsSafely(env, codes, cap, c) && |c.stack| <= room
    ensures RunsSafely(env, codes, room, c) <==> NeedsAtMost(env, codes, room, c)
  {
    hide Step, PeakOf, Advance;
    if RunsSafely(env, codes, room, c) {
      forall n: nat ensures Highest(env, codes, n, None, c) <= room { SafeHighest(env, codes, room, n, c); }
    }
    if NeedsAtMost(env, codes, room, c) {
      forall n: nat ensures SafeAfter(env, codes, room, n, c) {
        assert SafeAfter(env, codes, cap, n, c);
        ReachedSafe(env, codes, room, n, c);
      }
    }
  }

  // ----- a restored store that writes beyond its stack -----

  /** A program whose only function calls an import that gives 2000 values. */
  function CallProgram(platform: Platform): Env {
    var ft := FunctionType([], seq(MANY, _ => I64));
    var m := Module([SubType(true, [], FuncType(ft))], [0, 0], [Function(0, [], [Call(0)])], [], [], [], {});
    Env([HostFunc(ft, [], []), LocalFunc(ft, 0, 0)], [Instance(m, [0, 1], [], [], [])], platform,
        (m, f, args, w) => HostReturn(Zeros(MANY), w))
  }

  lemma CallProgramLinked(platform: Platform)
    ensures Linked(CallProgram(platform))
  {
    var env := CallProgram(platform);
    assert env.insts == [Instance(env.insts[0].mod, [0, 1], [], [], [])];
    assert InstanceLinked(env, env.insts[0]);
    assert FuncLinked(env, env.funcs[0]) && FuncLinked(env, env.funcs[1]);
  }

  lemma CallProgramChecks(platform: Platform)
    ensures var m := CallProgram(platform).insts[0].mod; CheckFunction(m, m.functions[0])
  {
    hide AllMatch, PopAll, Found, Rest;
    var m := CallProgram(platform).insts[0].mod;
    var ft := m.types[0].composite.ft;
    var c := WithLabel(FunctionContext(m, m.functions[0], ft), ft.results);
    var start := Push(Operands([], false), []);
    var end := Push(start, ft.results);
    PopAllExact(m.types, start, []);
    FoundNone(m.types, start);
    assert Known1([]) == [];
    assert Check(c, Call(0), start) == Some(end);
    assert CheckSeq(c, [], end) == Some(end);
    assert CheckSeq(c, [Call(0)], start) == Some(end);
    EndsExactly(m.types, ft.results);
    assert start.ops + Known1(ft.results) == Known1(ft.results);
  }

  lemma EndsExactly(types: seq<SubType>, results: seq<ValueType>)
    ensures Ends(types, Operands(Known1(results), false), results)
  {
    var a := Operands(Known1(results), false);
    AllMatchReflexive(types, Known1(results));
    assert a.ops[|a.ops| - |results|..] == a.ops;
    PopAllExact(types, a, results);
  }

  /** The program's function, compiled. */
  lemma CallProgramCode(platform: Platform)
    ensures var env := CallProgram(platform);
            && EmissionOf(env.insts[0].mod, 0).st.max == MANY
            && |Compiled(env, true)| == 1
            && Compiled(env, true)[0].funcs == [CompiledFunction([Line(CallOp(0), 0), Line(ReturnOp, MANY)], [], MANY)]
  {
    var env := CallProgram(platform);
    var m := env.insts[0].mod;
    assert TypeSig(m.types, 0) == (0, MANY);
    LowerFunctionsAt(m, 1, 0);
    CompiledAt(env, true, 0, 0);
    var e := EmissionOf(m, 0);
    var blocks := [BlockContext(FunctionBlock, 0, MANY, 0, 1)];
    var s := Compiling(0, 0, 2, e.st.base, [], false);
    var call := Lower(m, blocks, s, Call(0));
    assert call == Emission([Emitted(Line(CallOp(0), 0))], s.(height := MANY, max := MANY));
    assert LowerSeq(m, blocks, s, [Call(0)]) == call;
    assert e.code == CallItems();
    CallItemsAssembled();
    var code := Compiled(env, true)[0];
    assert |code.funcs| == 1 && code.funcs == [code.funcs[0]];
  }

  function CallItems(): seq<Item> {
    [Label(0), Emitted(Line(CallOp(0), 0)), Label(1), Emitted(Line(ReturnOp, MANY))]
  }

  lemma CallItemsAssembled()
    ensures var code := FuseOps(StripLabels(CallItems(), LiveLabels(CallItems(), [], 2)));
            Assemble(code, code) == [Line(CallOp(0), 0), Line(ReturnOp, MANY)]
  {
    hide StripLabels, FuseOps, Assemble;
    var ops := [Emitted(Line(CallOp(0), 0)), Emitted(Line(ReturnOp, MANY))];
    assert LiveLabels(CallItems(), [], 2) == {};
    assert StripLabels(CallItems(), {}) == ops by { CallItemsStripped(); }
    assert FuseOps(ops) == ops by { CallItemsFused(); }
    assert Assemble(ops, ops) == [Line(CallOp(0), 0), Line(ReturnOp, MANY)] by { CallItemsPlaced(); }
  }

  lemma CallItemsStripped()
    ensures StripLabels(CallItems(), {}) == [Emitted(Line(CallOp(0), 0)), Emitted(Line(ReturnOp, MANY))]
  {
  }

  lemma CallItemsFused()
    ensures var ops := [Emitted(Line(CallOp(0), 0)), Emitted(Line(ReturnOp, MANY))];
            FuseOps(ops) == ops
  {
    var ops := [Emitted(Line(CallOp(0), 0)), Emitted(Line(ReturnOp, MANY))];
    assert ops[1..] == [ops[1]] && ops[1..][1..] == [];
    assert FuseOps(ops[1..]) == [ops[1]];
  }

  lemma CallItemsPlaced()
    ensures var ops := [Emitted(Line(CallOp(0), 0)), Emitted(Line(ReturnOp, MANY))];
            Assemble(ops, ops) == [Line(CallOp(0), 0), Line(ReturnOp, MANY)]
  {
    var ops := [Emitted(Line(CallOp(0), 0)), Emitted(Line(ReturnOp, MANY))];
    assert ops[..1] == [ops[0]] && ops[..1][..0] == [];
    assert Assemble(ops, ops[..1]) == [Line(CallOp(0), 0)];
  }

  lemma CallProgramValid(platform: Platform, w: World)
    requires w.tables == []
    ensures Callable(CallProgram(platform), 1, [], w)
  {
    CallProgramLinked(platform);
    CallProgramChecks(platform);
    CallProgramCode(platform);
    hide LowerFunctions, EmissionOf, Linked, CheckFunction, Compiled;
  }

  /** Calling the function at `addr` without arguments or fuel pauses at `p`. */
  ghost predicate PausesAt(env: Env, addr: nat, w: World, p: Paused) {
    var codes := Compiled(env, true);
    var entered := EnterCall(env, codes, Config([], [], w), addr);
    && addr < |env.funcs| && entered.Next?
    && exists n: nat :: AfterPause(RunLoop(env, codes, n, None, entered.c), |env.funcs[addr].ft.results|) == p
  }

  /** The store as the call of the program's function leaves it: suspended on the
      import, with nothing on its stack. */
  function SuspendedCall(w: World): Paused {
    Paused(Config([], [Frame(0, 0, 1, [], 0, MANY)], w), None, Some(MANY))
  }

  lemma CallSuspends(platform: Platform, w: World)
    ensures PausesAt(CallProgram(platform), 1, w, SuspendedCall(w))
  {
    hide Compiled;
    var env := CallProgram(platform);
    var codes := Compiled(env, true);
    CallProgramCode(platform);
    var c := Config([], [Frame(0, 0, 0, [], 0, MANY)], w);
    assert [] + Zeros(0) == [];
    assert EnterCall(env, codes, Config([], [], w), 1) == Next(c);
    assert WithTop(c, Frame(0, 0, 1, [], 0, MANY)) == SuspendedCall(w).c;
    assert Step(env, codes, c) == Suspend([], [], [], MANY, SuspendedCall(w).c);
    assert AfterPause(RunLoop(env, codes, 1, None, c), MANY) == SuspendedCall(w);
  }

  /** The import's results, and the return. */
  lemma ResumedReturns(platform: Platform, w: World)
    ensures var env := CallProgram(platform);
            var codes := Compiled(env, true);
            var c := Resumed(SuspendedCall(w).c, Zeros(MANY), w);
            && Step(env, codes, c) == Next(Config(Zeros(MANY), [], w))
            && Reach(env, codes, c) == MANY && Highest(env, codes, 1, None, c) == MANY
  {
    hide Compiled;
    var env := CallProgram(platform);
    var codes := Compiled(env, true);
    CallProgramCode(platform);
    var c := Resumed(SuspendedCall(w).c, Zeros(MANY), w);
    assert c.stack == Zeros(MANY);
    var d := WithTop(c, TopFrame(c).(pc := 2));
    assert Zeros(MANY)[..0] + Top(Zeros(MANY), MANY) == Zeros(MANY);
    assert DoReturn(d) == Next(Config(Zeros(MANY), [], w));
  }

  lemma AnswerNeeds(platform: Platform, w: World)
    ensures var env := CallProgram(platform);
            HighestPlay(env, Compiled(env, true), SuspendedCall(w), [ResumeWith(Zeros(MANY), 1)]) == MANY
  {
    hide RunLoop, AfterPause, Compiled, Highest;
    ResumedReturns(platform, w);
    assert [ResumeWith(Zeros(MANY), 1)][1..] == [];
  }

  /** The commands go well on the stack that the store was made with, and write
      beyond the one that restoring gives it. */
  ghost predicate Overflows(env: Env, codes: seq<ModuleCode>, p: Paused, commands: seq<Command>) {
    && StackCapacity(codes) >= 0 && PlayWithin(env, codes, StackCapacity(codes), p, commands).Some?
    && PlayWithin(env, codes, RestoredCapacity(|p.c.stack|), p, commands) == None
  }

  /** Transparency fails for this validated program: paused in its import, the
      saved store takes the import's 2000 results and returns them, and the
      restored one writes beyond its stack, which has room for 1024. */
  lemma RestoredOverflows(platform: Platform, w: World)
    requires w.tables == []
    ensures var env := CallProgram(platform);
            && Callable(env, 1, [], w) && PausesAt(env, 1, w, SuspendedCall(w))
            && Overflows(env, Compiled(env, true), SuspendedCall(w), [ResumeWith(Zeros(MANY), 1)])
  {
    hide PausesAt, RunLoop, AfterPause, Compiled, Callable, HighestPlay, PlayWithin, Play, MaxFuncStack;
    var env := CallProgram(platform);
    var codes := Compiled(env, true);
    CallProgramValid(platform, w);
    CallSuspends(platform, w);
    CallProgramCode(platform);
    MaxFuncStackBounds(codes, 0, 0);
    AnswerNeeds(platform, w);
    var answer := [ResumeWith(Zeros(MANY), 1)];
    PlayFits(env, codes, StackCapacity(codes), SuspendedCall(w), answer);
    PlayFits(env, codes, RestoredCapacity(0), SuspendedCall(w), answer);
  }
}
