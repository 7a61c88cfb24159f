/** What types say about values. Slots are untyped at run time: a reference is a
    bit pattern that is decoded where it is used, and decoding one that stands for
    no reference is a panic (src/runtime/types.rs). In a validated program a slot
    whose type is a reference type always decodes, so no run panics; and a slot
    of a non-nullable type is never null, if every declared local has a type that
    null belongs to. */
module TypeSafety {
  import opened Wasm
  import opened Runtime
  import opened Reference
  import opened Machine
  import opened Subtyping
  import opened Validation
  import opened Declarative
  import opened Typability
  import opened Simulation
  import opened Lowering
  import opened Fusion
  import opened Correctness

  // ----- values and types -----

  predicate Nullable(t: ValueType) { t.RefVal? ==> NormalizeRef(t.rt).0 }

  /** The slot holds a value of the type. Only a `strict` reading asks more of a
      non-nullable reference than that it decodes. */
  predicate HasType(strict: bool, r: Raw, t: ValueType) {
    t.RefVal? ==> AsReference(r).Some? && (strict && !Nullable(t) ==> AsReference(r).value != Null)
  }

  ghost predicate HaveTypes(strict: bool, vs: seq<Raw>, ts: seq<ValueType>) {
    |vs| == |ts| && forall i :: 0 <= i < |vs| ==> HasType(strict, vs[i], ts[i])
  }

  /** The same for the validator's operands; nothing has an unknown type. */
  ghost predicate OpsHave(strict: bool, vs: seq<Raw>, ops: seq<OpType>) {
    |vs| == |ops| && forall i :: 0 <= i < |vs| ==> ops[i].Known? && HasType(strict, vs[i], ops[i].vt)
  }

  lemma SubtypeHas(strict: bool, types: seq<SubType>, r: Raw, a: ValueType, b: ValueType)
    requires HasType(strict, r, a) && ValueSubtype(types, a, b)
    ensures HasType(strict, r, b)
  {
  }

  lemma MatchesHave(strict: bool, types: seq<SubType>, vs: seq<Raw>, ops: seq<OpType>, ts: seq<ValueType>)
    requires OpsHave(strict, vs, ops) && AllMatch(types, ops, Known1(ts))
    ensures HaveTypes(strict, vs, ts)
  {
    hide ValueSubtype, HasType;
    forall i | 0 <= i < |vs| ensures HasType(strict, vs[i], ts[i]) {
      MatchAt(types, ops, Known1(ts), i);
      SubtypeHas(strict, types, vs[i], ops[i].vt, ts[i]);
    }
  }

  lemma SubtypesHave(strict: bool, types: seq<SubType>, vs: seq<Raw>, subs: seq<ValueType>, sups: seq<ValueType>)
    requires HaveTypes(strict, vs, subs) && AllSubtypes(types, subs, sups)
    ensures HaveTypes(strict, vs, sups)
  {
    hide ValueSubtype, HasType;
    forall i | 0 <= i < |vs| ensures HasType(strict, vs[i], sups[i]) {
      SubtypeHas(strict, types, vs[i], subs[i], sups[i]);
    }
  }

  lemma HaveKnown(strict: bool, vs: seq<Raw>, ts: seq<ValueType>)
    ensures OpsHave(strict, vs, Known1(ts)) == HaveTypes(strict, vs, ts)
  {
    hide HasType;
    if OpsHave(strict, vs, Known1(ts)) {
      forall i | 0 <= i < |vs| ensures HasType(strict, vs[i], ts[i]) { assert Known1(ts)[i] == Known(ts[i]); }
    }
  }

  lemma OpsAppend(strict: bool, vs: seq<Raw>, ops: seq<OpType>, vs': seq<Raw>, ops': seq<OpType>)
    requires OpsHave(strict, vs, ops) && OpsHave(strict, vs', ops')
    ensures OpsHave(strict, vs + vs', ops + ops')
  {
    hide HasType;
  }

  lemma OpsSplit(strict: bool, vs: seq<Raw>, ops: seq<OpType>, n: nat)
    requires OpsHave(strict, vs, ops) && n <= |vs|
    ensures OpsHave(strict, Below(vs, n), ops[..|ops| - n]) && OpsHave(strict, Top(vs, n), ops[|ops| - n..])
  {
    hide HasType;
  }

  lemma TypesSplit(strict: bool, vs: seq<Raw>, ts: seq<ValueType>, t: ValueType)
    requires HaveTypes(strict, vs, ts + [t])
    ensures |vs| > 0 && HaveTypes(strict, Below(vs, 1), ts)
  {
    hide HasType;
    forall i | 0 <= i < |vs| - 1 ensures HasType(strict, Below(vs, 1)[i], ts[i]) {
      assert (ts + [t])[i] == ts[i];
    }
  }

  // ----- popping and pushing in reachable code -----

  lemma PopsHave(strict: bool, types: seq<SubType>, a: Operands, ts: seq<ValueType>, vs: seq<Raw>)
    requires !a.dead && OpsHave(strict, vs, a.ops) && PopAll(types, a, ts).Some?
    ensures |ts| <= |vs| == |a.ops| && HaveTypes(strict, Top(vs, |ts|), ts)
    ensures PopAll(types, a, ts).value.1 == Operands(a.ops[..|a.ops| - |ts|], false)
    ensures OpsHave(strict, Below(vs, |ts|), a.ops[..|a.ops| - |ts|])
  {
    hide AllMatch;
    PopAllExact(types, a, ts);
    OpsSplit(strict, vs, a.ops, |ts|);
    MatchesHave(strict, types, Top(vs, |ts|), Found(a, |ts|), ts);
  }

  lemma ApplyHave(strict: bool, types: seq<SubType>, a: Operands, params: seq<ValueType>, results: seq<ValueType>,
                  vs: seq<Raw>)
    requires !a.dead && OpsHave(strict, vs, a.ops) && Apply(types, a, params, results).Some?
    ensures |params| <= |vs| && HaveTypes(strict, Top(vs, |params|), params)
    ensures var a' := Apply(types, a, params, results).value;
            && !a'.dead
            && forall rs: seq<Raw> :: HaveTypes(strict, rs, results) ==>
                 OpsHave(strict, Below(vs, |params|) + rs, a'.ops)
  {
    hide OpsHave, HaveTypes, PopAll;
    PopsHave(strict, types, a, params, vs);
    forall rs: seq<Raw> | HaveTypes(strict, rs, results)
      ensures OpsHave(strict, Below(vs, |params|) + rs, Apply(types, a, params, results).value.ops)
    {
      HaveKnown(strict, rs, results);
      OpsAppend(strict, Below(vs, |params|), a.ops[..|a.ops| - |params|], rs, Known1(results));
    }
  }

  // ----- what is assumed of a program -----

  /** The operators of the binary format have number types. */
  predicate NumberTyped(l: Leaf) {
    match l
    case Const(t, _) => !t.RefVal?
    case Unary(_, _, to) => !to.RefVal?
    case Binary(_, t) => !t.RefVal?
    case _ => true
  }

  predicate ParsedInstr(i: Instr)
    decreases i, 1
  {
    match i
    case Plain(l) => NumberTyped(l)
    case Block(_, body) => Parsed(body)
    case Loop(_, body) => Parsed(body)
    case IfElse(_, thn, els) => Parsed(thn) && Parsed(els)
    case _ => true
  }

  predicate Parsed(body: seq<Instr>)
    decreases body, 0
  {
    body == [] || (ParsedInstr(body[0]) && Parsed(body[1..]))
  }

  ghost predicate GlobalHas(strict: bool, inst: Instance, x: nat, w: World) {
    x < |inst.globalAddrs| && x < |inst.mod.globals| && inst.globalAddrs[x] < |w.globals| ==>
      HasType(strict, w.globals[inst.globalAddrs[x]].value, inst.mod.globals[x].valueType)
  }

  ghost predicate GlobalsHave(strict: bool, env: Env, w: World) {
    forall mi, x: nat :: 0 <= mi < |env.insts| ==> GlobalHas(strict, env.insts[mi], x, w)
  }

  /** Modules that share a mutable global give it the same type, as import
      matching requires. */
  ghost predicate Shares(a: Instance, x: nat, b: Instance, y: nat) {
    && x < |a.globalAddrs| && x < |a.mod.globals| && y < |b.globalAddrs| && y < |b.mod.globals|
    && a.globalAddrs[x] == b.globalAddrs[y] && a.mod.globals[x].isMutable
    ==> a.mod.globals[x].valueType == b.mod.globals[y].valueType
  }

  ghost predicate GlobalsAgree(env: Env) {
    forall mi, x: nat, mj, y: nat :: 0 <= mi < |env.insts| && 0 <= mj < |env.insts| ==>
      Shares(env.insts[mi], x, env.insts[mj], y)
  }

  /** Imports give values of their result types, and leave globals with theirs. */
  ghost predicate HostHas(strict: bool, env: Env, f: FuncInst, args: seq<Raw>, w: World) {
    f.HostFunc? && HaveTypes(strict, args, f.ft.params) && GlobalsHave(strict, env, w) ==>
      var o := env.host(f.moduleName, f.funcName, args, w);
      && GlobalsHave(strict, env, o.world)
      && (o.HostReturn? && |o.results| == |f.ft.results| ==> HaveTypes(strict, o.results, f.ft.results))
  }

  ghost predicate FunctionFit(strict: bool, f: Function) {
    Parsed(f.body) && (strict ==> forall x :: 0 <= x < |f.locals| ==> Nullable(f.locals[x]))
  }

  /** A valid program whose parts respect each other's types. A strict reading also
      asks that null belongs to the type of every declared local. */
  ghost predicate TypedProgram(strict: bool, env: Env) {
    && ValidProgram(env) && GlobalsAgree(env)
    && (forall mi, fi :: 0 <= mi < |env.insts| && 0 <= fi < |env.insts[mi].mod.functions| ==>
          FunctionFit(strict, env.insts[mi].mod.functions[fi]))
    && (forall f: FuncInst, args: seq<Raw>, w: World :: f in env.funcs ==> HostHas(strict, env, f, args, w))
  }

  // ----- leaf instructions -----

  ghost predicate LeafKeeps(strict: bool, env: Env, c: Context, r: LeafResult, results: seq<OpType>) {
    match r
    case LeafOk(rs, locals, w) =>
      OpsHave(strict, rs, results) && HaveTypes(strict, locals, c.locals) && GlobalsHave(strict, env, w)
    case LeafFault(fault, _) => fault != Panicked
    case LeafWrong => true
  }

  lemma SetKeeps(strict: bool, env: Env, mi: nat, x: nat, v: Raw, locals: seq<Raw>, w: World)
    requires mi < |env.insts| && GlobalsAgree(env) && GlobalsHave(strict, env, w)
    requires x < |env.insts[mi].mod.globals| && env.insts[mi].mod.globals[x].isMutable
    requires HasType(strict, v, env.insts[mi].mod.globals[x].valueType)
    ensures var r := SetGlobal(env.insts[mi], x, v, locals, w);
            (r.LeafOk? ==> r.results == [] && r.locals == locals && GlobalsHave(strict, env, r.world))
            && (r.LeafFault? ==> r.fault != Panicked)
  {
    hide HasType;
    var inst := env.insts[mi];
    var r := SetGlobal(inst, x, v, locals, w);
    if r.LeafOk? {
      forall mj, y: nat | 0 <= mj < |env.insts| ensures GlobalHas(strict, env.insts[mj], y, r.world) {
        assert GlobalHas(strict, env.insts[mj], y, w) && Shares(inst, x, env.insts[mj], y);
      }
    }
  }

  lemma LocalSetKeeps(strict: bool, locals: seq<Raw>, ts: seq<ValueType>, x: nat, v: Raw)
    requires HaveTypes(strict, locals, ts) && x < |ts| && HasType(strict, v, ts[x])
    ensures HaveTypes(strict, locals[x := v], ts)
  {
    hide HasType;
  }

  lemma OneHas(strict: bool, r: Raw, t: ValueType)
    requires HasType(strict, r, t)
    ensures HaveTypes(strict, [r], [t]) && OpsHave(strict, [r], Known1([t]))
  {
    hide HasType;
  }

  /** A leaf with fixed parameters and results. */
  lemma ArrowKeeps(strict: bool, env: Env, mi: nat, c: Context, l: Leaf, args: seq<Raw>, locals: seq<Raw>, w: World)
    requires mi < |env.insts| && c.m == env.insts[mi].mod && GlobalsAgree(env) && GlobalsHave(strict, env, w)
    requires !Polymorphic(l) && NumberTyped(l) && LeafArrow(c, l).Some? && |args| == Pops(l)
    requires HaveTypes(strict, args, LeafArrow(c, l).value.0) && HaveTypes(strict, locals, c.locals)
    ensures LeafKeeps(strict, env, c, EvalLeaf(env, mi, l, args, locals, w), Known1(LeafArrow(c, l).value.1))
  {
    hide HasType, GlobalsAgree, GlobalsHave, LoadFrom, StoreTo, SetGlobal;
    var r := EvalLeaf(env, mi, l, args, locals, w);
    match l
    case LocalGet(x) => OneHas(strict, locals[x], c.locals[x]);
    case LocalSet(x) => LocalSetKeeps(strict, locals, c.locals, x, args[0]);
    case LocalTee(x) =>
      LocalSetKeeps(strict, locals, c.locals, x, args[0]);
      HaveKnown(strict, args, [c.locals[x]]);
    case GlobalGet(x) => if r.LeafOk? { GlobalReads(strict, env, mi, x, w); }
    case GlobalSet(x) => SetKeeps(strict, env, mi, x, args[0], locals, w);
    case Select(ts) => SelectedHas(strict, args, ts[0]);
    case Load(k, m) => LoadKeeps(strict, env.insts[mi], k, m, args[0], locals, w);
    case Store(k, m) => StoreKeeps(strict, env, env.insts[mi], k, m, args[0], args[1], locals, w);
    case RefNull(ht) => NullHas(strict, ht);
    case RefFunc(x) => if r.LeafOk? { FuncRefHas(strict, env.insts[mi].funcAddrs[x], c.m.funcTypes[x]); }
    case Const(t, bits) => NumberHas(strict, bits, t);
    case EqZero(_) => NumberHas(strict, r.results[0], I32);
    case Compare(_) => NumberHas(strict, r.results[0], I32);
    case Unary(_, _, to) => if r.LeafOk? { NumberHas(strict, r.results[0], to); }
    case Binary(_, t) => if r.LeafOk? { NumberHas(strict, r.results[0], t); }
    case MemorySize(x) => if r.LeafOk? { NumberHas(strict, r.results[0], AddrValueType(c.m.mems[x])); }
    case Nop =>
  }

  lemma NumberHas(strict: bool, r: Raw, t: ValueType)
    requires !t.RefVal?
    ensures HasType(strict, r, t) && OpsHave(strict, [r], Known1([t]))
  {
  }

  lemma NullHas(strict: bool, ht: HeapType)
    ensures OpsHave(strict, [0], Known1([RefVal(Ref(true, ht))]))
  {
  }

  lemma FuncRefHas(strict: bool, addr: nat, ty: u32)
    ensures OpsHave(strict, [FuncRefRaw(addr)], Known1([RefVal(Ref(false, HTypeIndex(ty)))]))
  {
    var payload := addr % TWO_TO_61;
    assert (TWO_TO_61 + payload) / TWO_TO_61 == 1;
  }

  lemma GlobalReads(strict: bool, env: Env, mi: nat, x: nat, w: World)
    requires mi < |env.insts| && GlobalsHave(strict, env, w)
    requires x < |env.insts[mi].mod.globals| && x < |env.insts[mi].globalAddrs|
    requires env.insts[mi].globalAddrs[x] < |w.globals|
    ensures var inst := env.insts[mi];
            OpsHave(strict, [w.globals[inst.globalAddrs[x]].value], Known1([inst.mod.globals[x].valueType]))
  {
    hide HasType;
    assert GlobalHas(strict, env.insts[mi], x, w);
  }

  lemma SelectedHas(strict: bool, args: seq<Raw>, t: ValueType)
    requires HaveTypes(strict, args, [t, t, I32])
    ensures OpsHave(strict, [args[0]], Known1([t])) && OpsHave(strict, [args[1]], Known1([t]))
  {
    hide HasType;
    OneHas(strict, args[0], t);
    OneHas(strict, args[1], t);
  }

  lemma LoadKeeps(strict: bool, inst: Instance, k: LoadKind, m: MemArg, base: Raw, locals: seq<Raw>, w: World)
    ensures var r := LoadFrom(inst, k, m, base, locals, w);
            && (r.LeafOk? ==> OpsHave(strict, r.results, Known1([LoadShape(k).1])))
            && (r.LeafOk? ==> r.locals == locals && r.world == w)
            && (r.LeafFault? ==> r.fault != Panicked)
  {
    var r := LoadFrom(inst, k, m, base, locals, w);
    if r.LeafOk? { NumberHas(strict, r.results[0], LoadShape(k).1); }
  }

  lemma StoreKeeps(strict: bool, env: Env, inst: Instance, k: StoreKind, m: MemArg, base: Raw, v: Raw,
                   locals: seq<Raw>, w: World)
    ensures var r := StoreTo(inst, k, m, base, v, locals, w);
            && (r.LeafOk? ==> r.results == [] && r.locals == locals && r.world.globals == w.globals)
            && (r.LeafOk? && GlobalsHave(strict, env, w) ==> GlobalsHave(strict, env, r.world))
            && (r.LeafFault? ==> r.fault != Panicked)
  {
    hide ToLE, HasType;
    var r := StoreTo(inst, k, m, base, v, locals, w);
    if r.LeafOk? && GlobalsHave(strict, env, w) {
      forall mi, x: nat | 0 <= mi < |env.insts| ensures GlobalHas(strict, env.insts[mi], x, r.world) {
        assert GlobalHas(strict, env.insts[mi], x, w);
      }
    }
  }

  // ----- what every instruction keeps -----

  /** A reachable point: operands, locals and globals have their types. */
  ghost predicate StateHas(strict: bool, env: Env, c: Context, a: Operands, st: State) {
    !a.dead && OpsHave(strict, st.vs, a.ops) && Carries(strict, env, c, st)
  }

  ghost predicate Carries(strict: bool, env: Env, c: Context, st: State) {
    HaveTypes(strict, st.locals, c.locals) && GlobalsHave(strict, env, st.world)
  }

  /** The values that a jump takes along are on top, with their types. */
  ghost predicate Takes(strict: bool, st: State, ts: seq<ValueType>) {
    |ts| <= |st.vs| && HaveTypes(strict, Top(st.vs, |ts|), ts)
  }

  /** What an outcome carries has its types, and nothing panicked. */
  ghost predicate OutcomeHas(strict: bool, env: Env, c: Context, a: Operands, o: Outcome) {
    match o
    case Timeout => true
    case Stuck => true
    case Stopped(fault, _) => fault != Panicked
    case Normal(st) => StateHas(strict, env, c, a, st)
    case Branch(k, st) =>
      k < |c.labels| && Takes(strict, st, c.labels[|c.labels| - 1 - k]) && Carries(strict, env, c, st)
    case Returned(st) => Takes(strict, st, c.results) && Carries(strict, env, c, st)
    case TailCall(addr, args, w) =>
      && addr < |env.funcs| && HaveTypes(strict, args, env.funcs[addr].ft.params) && GlobalsHave(strict, env, w)
      && AllSubtypes(c.m.types, env.funcs[addr].ft.results, c.results)
  }

  /** What holds before an instruction of module instance `mi`. */
  ghost predicate Within(strict: bool, env: Env, mi: nat, c: Context) {
    mi < |env.insts| && c.m == env.insts[mi].mod && TypedProgram(strict, env)
  }

  lemma PlainKeeps(strict: bool, env: Env, mi: nat, c: Context, l: Leaf, a: Operands, st: State)
    requires Within(strict, env, mi, c) && NumberTyped(l) && CheckLeaf(c, l, a).Some? && StateHas(strict, env, c, a, st)
    ensures OutcomeHas(strict, env, c, CheckLeaf(c, l, a).value, EvalPlain(env, mi, l, st))
  {
    hide OpsHave, HaveTypes, GlobalsHave, ValidProgram, CheckLeaf, LeafArrow, GlobalsAgree;
    if Polymorphic(l) {
      PolymorphicKeeps(strict, env, mi, c, l, a, st);
    } else {
      CheckLeafArrow(c, l, a);
      var (ps, rs) := LeafArrow(c, l).value;
      ArrowPops(c, l);
      ApplyHave(strict, c.m.types, a, ps, rs, st.vs);
      ArrowKeeps(strict, env, mi, c, l, Top(st.vs, Pops(l)), st.locals, st.world);
      var r := EvalLeaf(env, mi, l, Top(st.vs, Pops(l)), st.locals, st.world);
      if r.LeafOk? { HaveKnown(strict, r.results, rs); }
    }
  }

  lemma ArrowPops(c: Context, l: Leaf)
    requires !Polymorphic(l) && LeafArrow(c, l).Some?
    ensures |LeafArrow(c, l).value.0| == Pops(l)
  {
  }

  lemma PolymorphicKeeps(strict: bool, env: Env, mi: nat, c: Context, l: Leaf, a: Operands, st: State)
    requires Within(strict, env, mi, c) && Polymorphic(l) && CheckLeaf(c, l, a).Some? && StateHas(strict, env, c, a, st)
    ensures OutcomeHas(strict, env, c, CheckLeaf(c, l, a).value, EvalPlain(env, mi, l, st))
  {
    hide TypedProgram, GlobalsHave, HaveTypes, OpsHave, CheckSelect;
    if l.Select? {
      SelectKeeps(strict, c.m.types, a, st.vs);
    } else {
      hide CheckLeaf, EvalPlain;
      LeafCounts(c, l, a);
      SameLength(strict, st.vs, a.ops);
      OneOperandLeft(strict, c, l, a, st.vs);
      OneOperandEvaluates(env, mi, l, st);
    }
  }

  lemma SameLength(strict: bool, vs: seq<Raw>, ops: seq<OpType>)
    requires OpsHave(strict, vs, ops)
    ensures |vs| == |ops|
  {
  }

  lemma OneOperandEvaluates(env: Env, mi: nat, l: Leaf, st: State)
    requires mi < |env.insts| && Polymorphic(l) && !l.Select? && st.vs != []
    requires !l.Drop? ==> AsReference(st.vs[|st.vs| - 1]).Some?
    ensures var x := st.vs[|st.vs| - 1];
            EvalPlain(env, mi, l, st) ==
            if l.RefAsNonNull? && AsReference(x) == Some(Null) then Stopped(NullReference, st.world)
            else Normal(st.(vs := Below(st.vs, 1) + OneResult(l, x)))
  {
    hide AsReference;
    assert Top(st.vs, 1) == [st.vs[|st.vs| - 1]];
  }

  lemma OneOperandLeft(strict: bool, c: Context, l: Leaf, a: Operands, vs: seq<Raw>)
    requires !a.dead && Polymorphic(l) && !l.Select? && CheckLeaf(c, l, a).Some? && a.ops != []
    requires OpsHave(strict, vs, a.ops)
    ensures |vs| == |a.ops| && !CheckLeaf(c, l, a).value.dead
    ensures var x := vs[|vs| - 1];
            && (!l.Drop? ==> AsReference(x).Some?)
            && (!(l.RefAsNonNull? && AsReference(x) == Some(Null)) ==>
                  OpsHave(strict, Below(vs, 1) + OneResult(l, x), CheckLeaf(c, l, a).value.ops))
  {
    hide CheckLeaf, HasType, OneResult, OneOperandLeaves;
    var (n, x, o) := (|vs|, vs[|vs| - 1], a.ops[|vs| - 1]);
    OpsSplit(strict, vs, a.ops, 1);
    OneOperandKeeps(strict, c, l, a, x);
    if !(l.RefAsNonNull? && AsReference(x) == Some(Null)) {
      OpsAppend(strict, Below(vs, 1), a.ops[..n - 1], OneResult(l, x), OneOperandLeaves(c.strict, l, o));
    }
  }

  /** What the leaf instructions on one operand leave of the value. */
  function OneResult(l: Leaf, x: Raw): seq<Raw> {
    if l.RefIsNull? then [BoolRaw(AsReference(x) == Some(Null))] else if l.RefAsNonNull? then [x] else []
  }

  lemma OneOperandKeeps(strict: bool, c: Context, l: Leaf, a: Operands, x: Raw)
    requires !a.dead && Polymorphic(l) && !l.Select? && CheckLeaf(c, l, a).Some? && a.ops != []
    requires var o := a.ops[|a.ops| - 1]; o.Known? && HasType(strict, x, o.vt)
    ensures var o := a.ops[|a.ops| - 1];
            && (l.Drop? || o.vt.RefVal?)
            && CheckLeaf(c, l, a).value.ops == a.ops[..|a.ops| - 1] + OneOperandLeaves(c.strict, l, o)
            && !CheckLeaf(c, l, a).value.dead
            && (!l.Drop? ==> AsReference(x).Some?)
            && (!(l.RefAsNonNull? && AsReference(x) == Some(Null)) ==>
                  OpsHave(strict, OneResult(l, x), OneOperandLeaves(c.strict, l, o)))
  {
    hide CheckLeaf;
    var o := a.ops[|a.ops| - 1];
    OneOperandChecks(c, l, a, o, Operands(a.ops[..|a.ops| - 1], false));
  }

  lemma SelectKeeps(strict: bool, types: seq<SubType>, a: Operands, vs: seq<Raw>)
    requires !a.dead && OpsHave(strict, vs, a.ops) && CheckSelect(types, a).Some?
    ensures var a' := CheckSelect(types, a).value;
            && !a'.dead && |vs| >= 3
            && OpsHave(strict, Below(vs, 3) + [vs[|vs| - 3]], a'.ops)
            && OpsHave(strict, Below(vs, 3) + [vs[|vs| - 2]], a'.ops)
  {
    hide HasType;
    var n := |vs|;
    var (x, a1) := Pop(a).value;
    var (t1, a2) := Pop(a1).value;
    var (t2, a3) := Pop(a2).value;
    assert t1 == a.ops[n - 2] && t2 == a.ops[n - 3] && a3.ops == a.ops[..n - 3];
  }

  // ----- jumps -----

  /** What a jump takes has the types that its target expects. */
  lemma ExitTakes(strict: bool, types: seq<SubType>, a: Operands, ts: seq<ValueType>, st: State)
    requires !a.dead && OpsHave(strict, st.vs, a.ops) && CheckExit(types, Some(ts), a).Some?
    ensures Takes(strict, st, ts)
  {
    hide OpsHave, HaveTypes, PopAll;
    PopsHave(strict, types, a, ts, st.vs);
  }

  lemma ConditionalJump(strict: bool, types: seq<SubType>, a: Operands, ts: seq<ValueType>, vs: seq<Raw>)
    requires !a.dead && OpsHave(strict, vs, a.ops) && Apply(types, a, ts + [I32], ts).Some?
    ensures |ts| + 1 <= |vs| && HaveTypes(strict, Top(Below(vs, 1), |ts|), ts)
    ensures OpsHave(strict, Below(vs, 1), Apply(types, a, ts + [I32], ts).value.ops)
  {
    hide OpsHave, HaveTypes, Apply;
    ApplyHave(strict, types, a, ts + [I32], ts, vs);
    var top := Top(vs, |ts| + 1);
    TypesSplit(strict, top, ts, I32);
    assert Below(top, 1) == Top(Below(vs, 1), |ts|);
    assert Below(vs, |ts| + 1) + Top(Below(vs, 1), |ts|) == Below(vs, 1);
  }

  /** Whatever label a table selects, its values are there. */
  lemma TableTakes(strict: bool, c: Context, i: Instr, a: Operands, st: State, x: nat)
    requires !a.dead && OpsHave(strict, st.vs, a.ops) && i.BrTable? && Check(c, i, a).Some?
    ensures var k := Selected(i.labels, i.default, x);
            && |st.vs| >= 1 && k < |c.labels|
            && Takes(strict, st.(vs := Below(st.vs, 1)), c.labels[|c.labels| - 1 - k])
  {
    hide Check, OpsHave, HaveTypes, AllMatch;
    var n, ts, y := TableFinds(c, i, a);
    SameLength(strict, st.vs, a.ops);
    OpsSplit(strict, st.vs, a.ops, n + 1);
    OpsSplit(strict, Top(st.vs, n + 1), ts + [y], 1);
    assert (ts + [y])[..n] == ts && Below(Top(st.vs, n + 1), 1) == Top(Below(st.vs, 1), n);
    var all := i.labels + [i.default];
    var j := if x < |i.labels| then x else |i.labels|;
    assert all[j] == Selected(i.labels, i.default, x);
    var label_ := LabelTypes(c, all[j]).value;
    MatchesHave(strict, c.m.types, Top(Below(st.vs, 1), n), ts, label_);
    LengthOfTypes(strict, Top(Below(st.vs, 1), n), label_);
  }

  lemma LengthOfTypes(strict: bool, vs: seq<Raw>, ts: seq<ValueType>)
    requires HaveTypes(strict, vs, ts)
    ensures |vs| == |ts|
  {
  }

  // ----- blocks -----

  /** A body that ended in a typed state left its block's results. */
  lemma EndHas(strict: bool, types: seq<SubType>, a: Operands, results: seq<ValueType>, vs: seq<Raw>)
    requires !a.dead && OpsHave(strict, vs, a.ops) && Ends(types, a, results)
    ensures HaveTypes(strict, vs, results)
  {
    hide OpsHave, HaveTypes, PopAll;
    PopsHave(strict, types, a, results, vs);
    SameLength(strict, vs, a.ops);
    assert Top(vs, |results|) == vs;
  }

  /** From the outcome of a block's body to that of the block. */
  lemma LeaveKeeps(strict: bool, env: Env, c: Context, entered: seq<ValueType>, a: Operands, results: seq<ValueType>,
                   below: seq<Raw>, o: Outcome, a': Operands)
    requires OutcomeHas(strict, env, WithLabel(c, entered), a, o) && Ends(c.m.types, a, results)
    requires o.Branch? && o.depth == 0 ==> entered == results
    requires !a'.dead
    requires forall rs: seq<Raw> :: HaveTypes(strict, rs, results) ==> OpsHave(strict, below + rs, a'.ops)
    ensures OutcomeHas(strict, env, c, a', Leave(|results|, below, o))
  {
    hide OpsHave, HaveTypes, GlobalsHave, Ends;
    match o
    case Normal(st) =>
      EndHas(strict, c.m.types, a, results, st.vs);
      LengthOfTypes(strict, st.vs, results);
    case Branch(k, st) =>
    case _ =>
  }

  // ----- the semantics keeps types -----

  lemma {:induction false} SeqKeeps(strict: bool, env: Env, mi: nat, depth: nat, fuel: nat, c: Context,
                                    body: seq<Instr>, a: Operands, st: State)
    requires Within(strict, env, mi, c) && Parsed(body) && CheckSeq(c, body, a).Some? && StateHas(strict, env, c, a, st)
    ensures OutcomeHas(strict, env, c, CheckSeq(c, body, a).value, EvalSeq(env, mi, depth, fuel, body, st))
    decreases fuel, 1, body, 0
  {
    hide Check, Eval, StateHas, OutcomeHas, TypedProgram;
    if body == [] {
      NormalHas(strict, env, c, a, st);
    } else {
      InstrKeeps(strict, env, mi, depth, fuel, c, body[0], a, st);
      var o := Eval(env, mi, depth, fuel, body[0], st);
      var a1 := Check(c, body[0], a).value;
      if o.Normal? {
        HasNormal(strict, env, c, a1, o);
        SeqKeeps(strict, env, mi, depth, fuel, c, body[1..], a1, o.st);
      } else {
        NotNormal(strict, env, c, a1, CheckSeq(c, body, a).value, o);
      }
    }
  }

  lemma NormalHas(strict: bool, env: Env, c: Context, a: Operands, st: State)
    requires StateHas(strict, env, c, a, st)
    ensures OutcomeHas(strict, env, c, a, Normal(st))
  {
  }

  lemma HasNormal(strict: bool, env: Env, c: Context, a: Operands, o: Outcome)
    requires OutcomeHas(strict, env, c, a, o) && o.Normal?
    ensures StateHas(strict, env, c, a, o.st)
  {
  }

  lemma NotNormal(strict: bool, env: Env, c: Context, a: Operands, b: Operands, o: Outcome)
    requires OutcomeHas(strict, env, c, a, o) && !o.Normal?
    ensures OutcomeHas(strict, env, c, b, o)
  {
  }

  lemma {:induction false} InstrKeeps(strict: bool, env: Env, mi: nat, depth: nat, fuel: nat, c: Context, i: Instr,
                                      a: Operands, st: State)
    requires Within(strict, env, mi, c) && ParsedInstr(i) && Check(c, i, a).Some? && StateHas(strict, env, c, a, st)
    ensures OutcomeHas(strict, env, c, Check(c, i, a).value, Eval(env, mi, depth, fuel, i, st))
    decreases fuel, 1, i, 2
  {
    hide TypedProgram, OpsHave, HaveTypes, GlobalsHave, Apply, CheckLeaf, CheckBody, CheckTable, PopAll;
    var types := c.m.types;
    match i
    case Plain(l) => PlainKeeps(strict, env, mi, c, l, a, st);
    case Unreachable =>
    case Block(_, _) => BlockKeeps(strict, env, mi, depth, fuel, c, i, a, st);
    case Loop(_, _) => BlockKeeps(strict, env, mi, depth, fuel, c, i, a, st);
    case IfElse(_, _, _) => ConditionalKeeps(strict, env, mi, depth, fuel, c, i, a, st);
    case Br(k) => ExitTakes(strict, types, a, LabelTypes(c, k).value, st);
    case BrIf(k) =>
      ConditionalJump(strict, types, a, LabelTypes(c, k).value, st.vs);
      ApplyHave(strict, types, a, LabelTypes(c, k).value + [I32], LabelTypes(c, k).value, st.vs);
    case BrTable(_, _) => TableTakes(strict, c, i, a, st, if |st.vs| >= 1 then BranchIndex(Top(st.vs, 1)[0]) else 0);
    case Return => ExitTakes(strict, types, a, c.results, st);
    case Call(_) => CallKeeps(strict, env, mi, depth, fuel, c, i, a, st);
    case CallIndirect(_, _) => CallKeeps(strict, env, mi, depth, fuel, c, i, a, st);
    case ReturnCall(_) => TailKeeps(strict, env, mi, depth, fuel, c, i, a, st);
    case ReturnCallIndirect(_, _) => TailKeeps(strict, env, mi, depth, fuel, c, i, a, st);
  }

  lemma {:induction false} BlockKeeps(strict: bool, env: Env, mi: nat, depth: nat, fuel: nat, c: Context, i: Instr,
                                      a: Operands, st: State)
    requires Within(strict, env, mi, c) && ParsedInstr(i) && Check(c, i, a).Some? && StateHas(strict, env, c, a, st)
    requires i.Block? || i.Loop?
    ensures OutcomeHas(strict, env, c, Check(c, i, a).value, Eval(env, mi, depth, fuel, i, st))
    decreases fuel, 1, i, 1
  {
    hide TypedProgram, OpsHave, HaveTypes, GlobalsHave, Apply, CheckSeq, EvalSeq, EvalLoop, Ends, OutcomeHas;
    BlockTyped(c, i, a);
    var ft := BlockFuncType(c.m, i.bt).value;
    var (p, inner) := (|ft.params|, WithLabel(c, LabelOf(i, ft)));
    ApplyHave(strict, c.m.types, a, ft.params, ft.results, st.vs);
    var st1 := st.(vs := Top(st.vs, p));
    var start := Push(Operands([], false), ft.params);
    BodyStarts(strict, env, c, LabelOf(i, ft), ft.params, st1);
    var o;
    if i.Block? {
      SeqKeeps(strict, env, mi, depth, fuel, inner, i.body, start, st1);
      o := EvalSeq(env, mi, depth, fuel, i.body, st1);
    } else {
      LoopKeeps(strict, env, mi, depth, fuel, c, ft, i.body, st1);
      o := EvalLoop(env, mi, depth, fuel, p, i.body, st1);
    }
    LeaveKeeps(strict, env, c, LabelOf(i, ft), CheckSeq(inner, i.body, start).value, ft.results, Below(st.vs, p), o,
               Check(c, i, a).value);
  }

  /** A body starts with its parameters, which the operands below it do not see. */
  lemma BodyStarts(strict: bool, env: Env, c: Context, entered: seq<ValueType>, params: seq<ValueType>, st: State)
    requires HaveTypes(strict, st.vs, params) && Carries(strict, env, c, st)
    ensures StateHas(strict, env, WithLabel(c, entered), Push(Operands([], false), params), st)
  {
    hide OpsHave, HaveTypes, GlobalsHave;
    HaveKnown(strict, st.vs, params);
    assert [] + Known1(params) == Known1(params);
  }

  lemma {:induction false} LoopKeeps(strict: bool, env: Env, mi: nat, depth: nat, fuel: nat, c: Context,
                                     ft: FunctionType, body: seq<Instr>, st: State)
    requires Within(strict, env, mi, c) && Parsed(body) && CheckBody(c, ft.params, ft, body)
    requires HaveTypes(strict, st.vs, ft.params) && Carries(strict, env, c, st)
    ensures var a := CheckSeq(WithLabel(c, ft.params), body, Push(Operands([], false), ft.params));
            var o := EvalLoop(env, mi, depth, fuel, |ft.params|, body, st);
            && a.Some? && OutcomeHas(strict, env, WithLabel(c, ft.params), a.value, o)
            && (o.Branch? ==> o.depth > 0)
    decreases fuel, 1, body, 1
  {
    hide TypedProgram, HaveTypes, OpsHave, GlobalsHave, CheckSeq, EvalSeq, Ends;
    var inner := WithLabel(c, ft.params);
    var start := Push(Operands([], false), ft.params);
    BodyStarts(strict, env, c, ft.params, ft.params, st);
    SeqKeeps(strict, env, mi, depth, fuel, inner, body, start, st);
    var o := EvalSeq(env, mi, depth, fuel, body, st);
    if o.Branch? && o.depth == 0 && fuel > 0 && |o.st.vs| >= |ft.params| {
      LoopKeeps(strict, env, mi, depth, fuel - 1, c, ft, body, o.st.(vs := Top(o.st.vs, |ft.params|)));
    }
  }

  /** The operands under a condition or an index. */
  lemma OperandsUnder(strict: bool, types: seq<SubType>, a: Operands, ft: FunctionType, at: ValueType, vs: seq<Raw>)
    requires !a.dead && OpsHave(strict, vs, a.ops) && Apply(types, a, ft.params + [at], ft.results).Some?
    ensures |ft.params| + 1 <= |vs| && HaveTypes(strict, Top(Below(vs, 1), |ft.params|), ft.params)
    ensures var a' := Apply(types, a, ft.params + [at], ft.results).value;
            && !a'.dead
            && forall rs: seq<Raw> :: HaveTypes(strict, rs, ft.results) ==>
                 OpsHave(strict, Below(Below(vs, 1), |ft.params|) + rs, a'.ops)
  {
    hide OpsHave, HaveTypes, Apply;
    var n := |ft.params|;
    ApplyHave(strict, types, a, ft.params + [at], ft.results, vs);
    TypesSplit(strict, Top(vs, n + 1), ft.params, at);
    assert Below(Top(vs, n + 1), 1) == Top(Below(vs, 1), n);
    assert Below(Below(vs, 1), n) == Below(vs, n + 1);
  }

  lemma {:induction false} ConditionalKeeps(strict: bool, env: Env, mi: nat, depth: nat, fuel: nat, c: Context,
                                            i: Instr, a: Operands, st: State)
    requires Within(strict, env, mi, c) && ParsedInstr(i) && Check(c, i, a).Some? && StateHas(strict, env, c, a, st)
    requires i.IfElse?
    ensures OutcomeHas(strict, env, c, Check(c, i, a).value, Eval(env, mi, depth, fuel, i, st))
    decreases fuel, 1, i, 1
  {
    hide TypedProgram, OpsHave, HaveTypes, GlobalsHave, Apply, CheckSeq, EvalSeq, Ends, OutcomeHas;
    ConditionalTyped(c, i, a);
    var ft := BlockFuncType(c.m, i.bt).value;
    var (p, inner) := (|ft.params|, WithLabel(c, ft.results));
    OperandsUnder(strict, c.m.types, a, ft, I32, st.vs);
    var vs := Below(st.vs, 1);
    var st1 := st.(vs := Top(vs, p));
    var start := Push(Operands([], false), ft.params);
    BodyStarts(strict, env, c, ft.results, ft.params, st1);
    var arm := if AsI32(Top(st.vs, 1)[0]) != 0 then i.thn else i.els;
    SeqKeeps(strict, env, mi, depth, fuel, inner, arm, start, st1);
    LeaveKeeps(strict, env, c, ft.results, CheckSeq(inner, arm, start).value, ft.results, Below(vs, p),
               EvalSeq(env, mi, depth, fuel, arm, st1), Check(c, i, a).value);
  }

  // ----- calls -----

  ghost predicate CallHas(strict: bool, env: Env, results: seq<ValueType>, o: CallOutcome) {
    match o
    case CallTimeout => true
    case CallStuck => true
    case CallStopped(fault, _) => fault != Panicked
    case CallDone(vs, w) => HaveTypes(strict, vs, results) && GlobalsHave(strict, env, w)
  }

  lemma {:induction false} CallKeeps(strict: bool, env: Env, mi: nat, depth: nat, fuel: nat, c: Context, i: Instr,
                                     a: Operands, st: State)
    requires Within(strict, env, mi, c) && Check(c, i, a).Some? && StateHas(strict, env, c, a, st)
    requires i.Call? || i.CallIndirect?
    ensures OutcomeHas(strict, env, c, Check(c, i, a).value, Eval(env, mi, depth, fuel, i, st))
    decreases fuel, 1, i, 1
  {
    hide OpsHave, HaveTypes, GlobalsHave, Apply, CallFunction, HostHas, FunctionFit, GlobalsAgree, ResolveIndirect;
    match i
    case Call(f) =>
      CalleeLinked(env, mi, f);
      var ft := CalleeType(c.m, f).value;
      ApplyHave(strict, c.m.types, a, ft.params, ft.results, st.vs);
      EnteredKeeps(strict, env, depth, fuel, c, env.insts[mi].funcAddrs[f], st, Check(c, i, a).value);
    case CallIndirect(ty, table) =>
      var (ft, at) := IndirectType(c.m, ty, table).value;
      OperandsUnder(strict, c.m.types, a, ft, at, st.vs);
      var callee := ResolveIndirect(env, mi, ty, table, Top(st.vs, 1)[0], st.world);
      IndirectFaults(env, mi, ty, table, Top(st.vs, 1)[0], st.world);
      if callee.CalleeAt? {
        EnteredKeeps(strict, env, depth, fuel, c, callee.addr, st.(vs := Below(st.vs, 1)), Check(c, i, a).value);
      }
  }

  lemma IndirectFaults(env: Env, mi: nat, ty: nat, table: nat, r: Raw, w: World)
    requires mi < |env.insts|
    ensures var callee := ResolveIndirect(env, mi, ty, table, r, w); callee.CalleeFault? ==> callee.fault != Panicked
  {
  }

  /** A call of the function at `addr` with its arguments on top. */
  lemma {:induction false} EnteredKeeps(strict: bool, env: Env, depth: nat, fuel: nat, c: Context, addr: nat,
                                        st: State, a': Operands)
    requires TypedProgram(strict, env) && Carries(strict, env, c, st) && addr < |env.funcs| && !a'.dead
    requires var ft := env.funcs[addr].ft;
             && |ft.params| <= |st.vs| && HaveTypes(strict, Top(st.vs, |ft.params|), ft.params)
             && forall rs: seq<Raw> :: HaveTypes(strict, rs, ft.results) ==>
                  OpsHave(strict, Below(st.vs, |ft.params|) + rs, a'.ops)
    ensures OutcomeHas(strict, env, c, a', CallFrom(env, depth, fuel, addr, st))
    decreases fuel, 0
  {
    hide OpsHave, HaveTypes, GlobalsHave, TypedProgram, CallFunction;
    if fuel > 0 {
      FunctionKeeps(strict, env, depth, fuel - 1, addr, Top(st.vs, |env.funcs[addr].ft.params|), st.world);
    }
  }

  lemma TailKeeps(strict: bool, env: Env, mi: nat, depth: nat, fuel: nat, c: Context, i: Instr, a: Operands, st: State)
    requires Within(strict, env, mi, c) && Check(c, i, a).Some? && StateHas(strict, env, c, a, st)
    requires i.ReturnCall? || i.ReturnCallIndirect?
    ensures OutcomeHas(strict, env, c, Check(c, i, a).value, Eval(env, mi, depth, fuel, i, st))
  {
    hide OpsHave, HaveTypes, GlobalsHave, PopAll, HostHas, FunctionFit, GlobalsAgree, ResolveIndirect, ValueSubtype;
    match i
    case ReturnCall(f) =>
      CalleeLinked(env, mi, f);
      PopsHave(strict, c.m.types, a, CalleeType(c.m, f).value.params, st.vs);
    case ReturnCallIndirect(ty, table) =>
      var (ft, at) := IndirectType(c.m, ty, table).value;
      PopsHave(strict, c.m.types, a, ft.params + [at], st.vs);
      var n := |ft.params|;
      TypesSplit(strict, Top(st.vs, n + 1), ft.params, at);
      assert Below(Top(st.vs, n + 1), 1) == Top(Below(st.vs, 1), n);
      IndirectFaults(env, mi, ty, table, Top(st.vs, 1)[0], st.world);
  }

  lemma StartTypes(strict: bool, args: seq<Raw>, params: seq<ValueType>, f: Function)
    requires HaveTypes(strict, args, params) && FunctionFit(strict, f)
    ensures HaveTypes(strict, args + Zeros(|f.locals|), params + f.locals)
  {
    hide Parsed;
    forall i | 0 <= i < |f.locals| ensures HasType(strict, 0, f.locals[i]) { }
  }

  /** A call keeps types: it does not panic, and what it returns has the types of
      the function's results. */
  lemma {:induction false} FunctionKeeps(strict: bool, env: Env, depth: nat, fuel: nat, addr: nat, args: seq<Raw>,
                                         w: World)
    requires TypedProgram(strict, env) && addr < |env.funcs|
    requires HaveTypes(strict, args, env.funcs[addr].ft.params) && GlobalsHave(strict, env, w)
    ensures CallHas(strict, env, env.funcs[addr].ft.results, CallFunction(env, depth, fuel, addr, args, w))
    decreases fuel, 2
  {
    hide HaveTypes, GlobalsHave, TypedProgram, EvalSeq;
    if depth < MAX_CALL_DEPTH && |args| == |env.funcs[addr].ft.params| {
      match env.funcs[addr]
      case HostFunc(ft, m, f) => HostKeeps(strict, env, addr, args, w);
      case LocalFunc(ft, mi, fi) =>
        if mi < |env.insts| && fi < |env.insts[mi].mod.functions| {
          BodyKeeps(strict, env, depth, fuel, addr, args, w);
          var f := env.insts[mi].mod.functions[fi];
          var o := EvalSeq(env, mi, depth + 1, fuel, f.body, State([], args + Zeros(|f.locals|), w));
          if o.TailCall? && fuel > 0 {
            FunctionKeeps(strict, env, depth, fuel - 1, o.addr, o.args, o.world);
            TailResults(strict, env, env.insts[mi].mod.types, env.funcs[o.addr].ft.results, ft.results,
                        CallFunction(env, depth, fuel - 1, o.addr, o.args, o.world));
          }
        }
    }
  }

  lemma TailResults(strict: bool, env: Env, types: seq<SubType>, subs: seq<ValueType>, sups: seq<ValueType>,
                    o: CallOutcome)
    requires CallHas(strict, env, subs, o) && AllSubtypes(types, subs, sups)
    ensures CallHas(strict, env, sups, o)
  {
    hide HaveTypes, GlobalsHave, AllSubtypes;
    if o.CallDone? { SubtypesHave(strict, types, o.results, subs, sups); }
  }

  lemma HostKeeps(strict: bool, env: Env, addr: nat, args: seq<Raw>, w: World)
    requires TypedProgram(strict, env) && addr < |env.funcs| && env.funcs[addr].HostFunc?
    requires HaveTypes(strict, args, env.funcs[addr].ft.params) && GlobalsHave(strict, env, w)
    ensures var f := env.funcs[addr];
            CallHas(strict, env, f.ft.results, CallHost(env, f.ft, f.moduleName, f.funcName, args, w))
  {
    hide HaveTypes, GlobalsHave, ValidProgram, GlobalsAgree, FunctionFit;
    assert HostHas(strict, env, env.funcs[addr], args, w);
  }

  /** What the outcome of a function's body says of the function's results. */
  ghost predicate BodyHas(strict: bool, env: Env, types: seq<SubType>, results: seq<ValueType>, o: Outcome) {
    match o
    case Timeout => true
    case Stuck => true
    case Stopped(fault, _) => fault != Panicked
    case Normal(st) => HaveTypes(strict, st.vs, results) && GlobalsHave(strict, env, st.world)
    case Branch(k, st) => Takes(strict, st, results) && GlobalsHave(strict, env, st.world)
    case Returned(st) => Takes(strict, st, results) && GlobalsHave(strict, env, st.world)
    case TailCall(addr, args, w) =>
      && addr < |env.funcs| && HaveTypes(strict, args, env.funcs[addr].ft.params) && GlobalsHave(strict, env, w)
      && AllSubtypes(types, env.funcs[addr].ft.results, results)
  }

  lemma {:induction false} BodyKeeps(strict: bool, env: Env, depth: nat, fuel: nat, addr: nat, args: seq<Raw>, w: World)
    requires TypedProgram(strict, env) && addr < |env.funcs| && env.funcs[addr].LocalFunc?
    requires HaveTypes(strict, args, env.funcs[addr].ft.params) && GlobalsHave(strict, env, w)
    ensures var func := env.funcs[addr];
            && func.mi < |env.insts| && func.fi < |env.insts[func.mi].mod.functions|
            && var f := env.insts[func.mi].mod.functions[func.fi];
            BodyHas(strict, env, env.insts[func.mi].mod.types, func.ft.results,
                    EvalSeq(env, func.mi, depth + 1, fuel, f.body, State([], args + Zeros(|f.locals|), w)))
    decreases fuel, 1, env.insts, 3
  {
    hide HaveTypes, GlobalsHave, OpsHave, EvalSeq, CheckSeq, Ends, HostHas, GlobalsAgree, InstanceLinked;
    var func := env.funcs[addr];
    assert FuncLinked(env, func);
    var m := env.insts[func.mi].mod;
    var f := m.functions[func.fi];
    assert CheckFunction(m, f) && FunctionFit(strict, f);
    StartTypes(strict, args, func.ft.params, f);
    var c := FunctionContext(m, f, func.ft);
    var st := State([], args + Zeros(|f.locals|), w);
    EmptyHas(strict);
    BodyStarts(strict, env, c, func.ft.results, [], st);
    var start := Push(Operands([], false), []);
    var inner := WithLabel(c, func.ft.results);
    SeqKeeps(strict, env, func.mi, depth + 1, fuel, inner, f.body, start, st);
    var o := EvalSeq(env, func.mi, depth + 1, fuel, f.body, st);
    if o.Normal? { EndHas(strict, m.types, CheckSeq(inner, f.body, start).value, func.ft.results, o.st.vs); }
  }

  lemma EmptyHas(strict: bool)
    ensures HaveTypes(strict, [], [])
  {
  }

  // ----- the main results -----

  /** Types are safe. A call of a validated program through the optimized code,
      with typed arguments and globals, does not end in a panic, and if it
      returns, then with values of the function's result types. */
  lemma CallsKeepTypes(strict: bool, env: Env, low: seq<Raw>, addr: nat, args: seq<Raw>, w: World, r: Result)
    requires Callable(env, addr, args, w) && TypedProgram(strict, env)
    requires HaveTypes(strict, args, env.funcs[addr].ft.params) && GlobalsHave(strict, env, w)
    requires HaltsWith(env, Compiled(env, true), low, addr, args, w, r)
    ensures r.Stop? ==> r.fault != Panicked
    ensures r.Done? ==>
              exists results: seq<Raw> ::
                && r.c.stack == low + results && HaveTypes(strict, results, env.funcs[addr].ft.results)
                && GlobalsHave(strict, env, r.c.world)
  {
    hide HaltsWith, Compiled, Callable, TypedProgram, HaveTypes, GlobalsHave, CallFunction;
    CompilerCorrect(env, low, addr, args, w, r);
    var o: CallOutcome :| Evaluates(env, addr, args, w, o) && r == ResultFor(low, o);
    var fuel: nat :| CallFunction(env, 0, fuel, addr, args, w) == o;
    AddressExists(env, addr, args, w);
    FunctionKeeps(strict, env, 0, fuel, addr, args, w);
    if r.Done? { assert r.c.stack == low + o.results; }
  }

  lemma AddressExists(env: Env, addr: nat, args: seq<Raw>, w: World)
    requires Callable(env, addr, args, w)
    ensures addr < |env.funcs|
  {
  }

  /** Where the strict reading can fail: the declared locals of a function, which
      start as zero, have their types if and only if null belongs to all of them. */
  lemma LocalsStartTyped(f: Function)
    ensures HaveTypes(true, Zeros(|f.locals|), f.locals) <==> forall x :: 0 <= x < |f.locals| ==> Nullable(f.locals[x])
  {
    forall x | 0 <= x < |f.locals| ensures HasType(true, 0, f.locals[x]) <==> Nullable(f.locals[x]) { }
    if HaveTypes(true, Zeros(|f.locals|), f.locals) {
      forall x | 0 <= x < |f.locals| ensures Nullable(f.locals[x]) {
        assert HasType(true, Zeros(|f.locals|)[x], f.locals[x]);
      }
    }
  }

  // ----- a local that is read before it is set -----

  const SOME_FUNCTION := RefVal(Ref(false, HFunc))

  /** A program whose only function returns a local that it never sets. */
  function UnsetProgram(platform: Platform): Env {
    var ft := FunctionType([], [SOME_FUNCTION]);
    var f := Function(0, [SOME_FUNCTION], [Plain(LocalGet(0))]);
    var m := Module([SubType(true, [], FuncType(ft))], [0], [f], [], [], [], {});
    Env([LocalFunc(ft, 0, 0)], [Instance(m, [0], [], [], [])], platform, (m, f, args, w) => HostReturn([], w))
  }

  lemma UnsetProgramValid(platform: Platform, w: World)
    requires w.tables == []
    ensures Callable(UnsetProgram(platform), 0, [], w)
  {
    hide LowerFunctions, EmissionOf, CheckFunction;
    var env := UnsetProgram(platform);
    var m := env.insts[0].mod;
    assert Linked(env) by {
      assert env.insts == [Instance(m, [0], [], [], [])];
      assert InstanceLinked(env, env.insts[0]) && FuncLinked(env, env.funcs[0]);
    }
    UnsetProgramChecks(platform);
    assert CheckModule(m) by { assert |m.functions| == 1; }
    UnsetProgramHeights(platform);
  }

  lemma UnsetProgramChecks(platform: Platform)
    ensures var m := UnsetProgram(platform).insts[0].mod; CheckFunction(m, m.functions[0])
  {
    hide AllMatch, PopAll, Found, Rest;
    var m := UnsetProgram(platform).insts[0].mod;
    var ft := m.types[0].composite.ft;
    var c := WithLabel(FunctionContext(m, m.functions[0], ft), ft.results);
    var start := Push(Operands([], false), []);
    var end := Push(start, ft.results);
    PopAllExact(m.types, start, []);
    FoundNone(m.types, start);
    assert Known1([]) == [];
    assert Check(c, Plain(LocalGet(0)), start) == Some(end);
    assert CheckSeq(c, [], end) == Some(end);
    assert CheckSeq(c, [Plain(LocalGet(0))], start) == Some(end);
    AllMatchReflexive(m.types, Known1(ft.results));
    assert end.ops == Known1(ft.results);
    assert end.ops[|end.ops| - 1..] == end.ops;
    PopAllOne(m.types, end, ft.results[0]);
  }

  lemma PopAllOne(types: seq<SubType>, a: Operands, t: ValueType)
    requires !a.dead && a.ops == Known1([t]) && AllMatch(types, a.ops, Known1([t]))
    ensures Ends(types, a, [t])
  {
    PopAllExact(types, a, [t]);
  }

  lemma UnsetProgramHeights(platform: Platform)
    ensures EmissionOf(UnsetProgram(platform).insts[0].mod, 0).st.max == 1
  {
    var m := UnsetProgram(platform).insts[0].mod;
    assert TypeSig(m.types, 0) == (0, 1);
    LowerFunctionsAt(m, 1, 0);
    var blocks := [BlockContext(FunctionBlock, 0, 1, 0, 1)];
    var base := EmissionOf(m, 0).st.base;
    var s := Compiling(0, 0, 2, base, [], false);
    assert Lower(m, blocks, s, Plain(LocalGet(0))).st == s.(height := 1, max := 1);
    assert LowerSeq(m, blocks, s, m.functions[0].body).st == s.(height := 1, max := 1);
  }

  /** The strict reading fails for this validated program: it returns null where
      its type says a function reference that is not null. */
  lemma UnsetLocal(platform: Platform, w: World)
    requires w.tables == []
    ensures var env := UnsetProgram(platform);
            && Callable(env, 0, [], w) && TypedProgram(false, env)
            && HaltsWith(env, Compiled(env, true), [], 0, [], w, Done(Config([0], [], w)))
            && !HaveTypes(true, [0], env.funcs[0].ft.results)
  {
    hide HaltsWith, Compiled, Callable, TypedProgram;
    var env := UnsetProgram(platform);
    UnsetProgramValid(platform, w);
    UnsetProgramTyped(platform, w);
    UnsetEvaluates(platform, w);
    assert [] + [0] == [0];
    CompilerCorrect(env, [], 0, [], w, Done(Config([0], [], w)));
    assert !HasType(true, [0][0], [SOME_FUNCTION][0]);
  }

  lemma UnsetProgramTyped(platform: Platform, w: World)
    requires w.tables == []
    ensures TypedProgram(false, UnsetProgram(platform))
  {
    hide ValidProgram, HeightsFit;
    var env := UnsetProgram(platform);
    UnsetProgramValid(platform, w);
    assert |env.insts[0].mod.globals| == 0;
    assert FunctionFit(false, env.insts[0].mod.functions[0]);
  }

  lemma UnsetEvaluates(platform: Platform, w: World)
    ensures Evaluates(UnsetProgram(platform), 0, [], w, CallDone([0], w))
  {
    var env := UnsetProgram(platform);
    var body := env.insts[0].mod.functions[0].body;
    assert [] + Zeros(1) == [0];
    var st := State([], [0], w);
    assert Top(st.vs, 0) == [] && Below(st.vs, 0) + [0] == [0];
    assert EvalPlain(env, 0, LocalGet(0), st) == Normal(State([0], [0], w));
    assert EvalSeq(env, 0, 1, 0, body, st) == Normal(State([0], [0], w));
    assert CallFunction(env, 0, 0, 0, [], w) == CallDone([0], w);
  }
}
