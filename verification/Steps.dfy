/** Single steps of the machine inside a frame whose code is an assembled,
    unfused function, and where they lead. */
module Steps {
  import opened Wasm
  import opened Runtime
  import opened Ir
  import opened Machine
  import opened Lowering
  import opened LoweringFacts

  /** An activation of a function: its labelled code and branch tables, what lies
      below it on the value stack, and the frames that wait for it. */
  datatype Site = Site(
    mi: nat, fi: nat,
    code: seq<Item>, tables: seq<seq<JumpTableEntry>>, base: nat, maxHeight: int,
    low: seq<Raw>, callers: seq<Frame>, arity: nat)

  ghost predicate CallersBelow(callers: seq<Frame>, height: nat) {
    callers == [] || callers[|callers| - 1].base <= height
  }

  /** The store holds this code, assembled without fusing, at the site's place. */
  ghost predicate Loaded0(codes: seq<ModuleCode>, k: Site) {
    && k.mi < |codes| && k.fi < |codes[k.mi].funcs|
    && codes[k.mi].funcs[k.fi].lines == Assemble(k.code, k.code)
    && codes[k.mi].funcs[k.fi].maxHeight == k.maxHeight
    && k.base + |k.tables| <= |codes[k.mi].tables|
    && (forall t :: 0 <= t < |k.tables| ==> codes[k.mi].tables[k.base + t] == ResolveTable(k.code, k.tables[t]))
  }

  ghost predicate SiteOk(env: Env, codes: seq<ModuleCode>, k: Site) {
    && Loaded0(codes, k)
    && k.mi < |env.insts|
    && k.maxHeight < TWO_TO_16
    && k.code != [] && DistinctLabels(k.code) && HeightsAtMost(k.code[..|k.code| - 1], k.maxHeight)
    && |k.callers| < MAX_CALL_DEPTH
    && CallersBelow(k.callers, |k.low|)
  }

  /** The configuration about to run item `a` of the site's code with operands `vs`. */
  function At(k: Site, a: nat, vs: seq<Raw>, locals: seq<Raw>, w: World): Config
    requires a <= |k.code|
  {
    Config(k.low + vs, k.callers + [Frame(k.mi, k.fi, Pos(k.code, a), locals, |k.low|, k.arity)], w)
  }

  /** The configuration after the site's frame returned or was replaced. */
  function After(k: Site, results: seq<Raw>, w: World): Config {
    Config(k.low + results, k.callers, w)
  }

  lemma AtLabel(k: Site, a: nat, vs: seq<Raw>, locals: seq<Raw>, w: World)
    requires a < |k.code| && k.code[a].Label?
    ensures At(k, a, vs, locals, w) == At(k, a + 1, vs, locals, w)
  {
    PosNext(k.code, a);
  }

  /** Running an item means executing its operation with its target resolved. */
  lemma StepsInto(env: Env, codes: seq<ModuleCode>, k: Site, a: nat, vs: seq<Raw>, locals: seq<Raw>, w: World)
    requires SiteOk(env, codes, k)
    requires a < |k.code| && k.code[a].Emitted? && k.code[a].line.at == |vs| <= k.maxHeight
    requires !k.code[a].line.op.LocalGetReturn?
    ensures HostStep(env, codes, At(k, a, vs, locals, w))
         == Answer(env, Exec(env, codes, At(k, a + 1, vs, locals, w), ResolveOp(k.code, k.code[a].line.op)))
  {
    hide Exec, Answer;
    AssembleAt(k.code, a);
    PosNext(k.code, a);
    var c := At(k, a, vs, locals, w);
    var f := TopFrame(c);
    assert c.frames[..|c.frames| - 1] == k.callers;
    assert WithTop(c, f.(pc := f.pc + 1)) == At(k, a + 1, vs, locals, w);
  }

  /** The same below the last item, whose recorded height is not bounded statically. */
  lemma StepsIntoBody(env: Env, codes: seq<ModuleCode>, k: Site, a: nat, vs: seq<Raw>, locals: seq<Raw>, w: World)
    requires SiteOk(env, codes, k)
    requires a < |k.code| - 1 && k.code[a].Emitted? && k.code[a].line.at == |vs| && !k.code[a].line.op.LocalGetReturn?
    ensures |vs| <= k.maxHeight
    ensures HostStep(env, codes, At(k, a, vs, locals, w))
         == Answer(env, Exec(env, codes, At(k, a + 1, vs, locals, w), ResolveOp(k.code, k.code[a].line.op)))
  {
    assert k.code[..|k.code| - 1][a] == k.code[a];
    StepsInto(env, codes, k, a, vs, locals, w);
  }

  lemma Stacked(low: seq<Raw>, under: seq<Raw>, vs: seq<Raw>, n: nat)
    requires n <= |vs|
    ensures Top(low + (under + vs), n) == Top(vs, n)
    ensures Below(low + (under + vs), n) == low + (under + Below(vs, n))
  {
    assert Top(low + (under + vs), n) == Top(vs, n);
  }

  /** Jumping keeps the label's values on top of what its block started with. */
  lemma Jumps(k: Site, a: nat, vs: seq<Raw>, locals: seq<Raw>, w: World, id: nat, t: nat, keep: nat, drop: nat)
    requires a <= |k.code| && t < |k.code| && k.code[t] == Label(id) && DistinctLabels(k.code)
    requires keep + drop <= |vs|
    ensures JumpTo(At(k, a, vs, locals, w), LabelPosition(k.code, id), keep, drop)
         == Next(At(k, t, vs[..|vs| - keep - drop] + Top(vs, keep), locals, w))
  {
    LabelResolves(k.code, t);
    var c := At(k, a, vs, locals, w);
    assert c.frames[..|c.frames| - 1] == k.callers;
    assert Below(k.low + vs, keep + drop) == k.low + vs[..|vs| - keep - drop];
    assert Top(k.low + vs, keep) == Top(vs, keep);
    assert KeepTop(c.stack, keep, drop) == k.low + (vs[..|vs| - keep - drop] + Top(vs, keep));
  }

  lemma PopsAt(k: Site, a: nat, under: seq<Raw>, vs: seq<Raw>, locals: seq<Raw>, w: World, n: nat)
    requires a <= |k.code| && n <= |vs|
    ensures var c := At(k, a, under + vs, locals, w);
            && Height(c) == |under| + |vs|
            && Top(c.stack, n) == Top(vs, n)
            && Popped(c, n) == At(k, a, under + Below(vs, n), locals, w)
  {
    Stacked(k.low, under, vs, n);
  }

  lemma LandsAt(k: Site, a: nat, under: seq<Raw>, vs: seq<Raw>, locals: seq<Raw>, w: World, r: LeafResult)
    requires a <= |k.code|
    ensures Landed(At(k, a, under + vs, locals, w), r)
         == match r
            case LeafOk(results, locals', w') => Next(At(k, a, under + (vs + results), locals', w'))
            case LeafFault(fault, w') => Stop(fault, w')
            case LeafWrong => Wrong
  {
    if r.LeafOk? {
      var c := At(k, a, under + vs, locals, w);
      assert c.frames[..|c.frames| - 1] == k.callers;
      assert k.low + (under + vs) + r.results == k.low + (under + (vs + r.results));
    }
  }

  /** Returning leaves the frame's results on what lay below it. */
  lemma ReturnsFrom(k: Site, a: nat, under: seq<Raw>, vs: seq<Raw>, locals: seq<Raw>, w: World)
    requires a <= |k.code| && k.arity <= |vs|
    ensures DoReturn(At(k, a, under + vs, locals, w)) == Next(After(k, Top(vs, k.arity), w))
  {
    var c := At(k, a, under + vs, locals, w);
    assert c.frames[..|c.frames| - 1] == k.callers;
    Stacked(k.low, under, vs, k.arity);
    assert c.stack[..|k.low|] == k.low;
  }

  /** A tail call enters the callee as if from the frame's caller. */
  lemma ReplacesAt(env: Env, codes: seq<ModuleCode>, k: Site, a: nat, under: seq<Raw>, vs: seq<Raw>, locals: seq<Raw>,
                   w: World, addr: nat)
    requires a <= |k.code| && addr < |env.funcs| && |env.funcs[addr].ft.params| <= |vs|
    ensures ReplaceCall(env, codes, At(k, a, under + vs, locals, w), addr)
         == EnterCall(env, codes, After(k, Top(vs, |env.funcs[addr].ft.params|), w), addr)
  {
    hide EnterCall;
    var n := |env.funcs[addr].ft.params|;
    var c := At(k, a, under + vs, locals, w);
    assert c.frames[..|c.frames| - 1] == k.callers;
    Stacked(k.low, under, vs, n);
    assert c.stack[..|k.low|] == k.low;
  }
}
