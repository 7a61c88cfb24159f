/** Where positions of optimized code stand in the code it came from. */
module FusionFacts {
  import opened Wasm
  import opened Ir
  import opened Lowering
  import opened LoweringFacts

  function Live(e: Emission): set<nat> {
    LiveLabels(e.code, e.st.tables, e.st.next)
  }

  /** From item `b` on, the optimized code is what stripping and fusing make of
      the original code from item `a` on. */
  ghost predicate Sync(e: Emission, a: nat, b: nat) {
    && a <= |e.code| && b <= |Optimized(e)|
    && Optimized(e)[b..] == FuseOps(StripLabels(e.code[a..], Live(e)))
  }

  lemma SyncStart(e: Emission)
    ensures Sync(e, 0, 0)
  {
    assert e.code[0..] == e.code && Optimized(e)[0..] == Optimized(e);
  }

  // ----- labels -----

  ghost predicate Avoids(code: seq<Item>, id: nat) {
    forall i :: 0 <= i < |code| ==> code[i] != Label(id)
  }

  lemma {:induction false} StripKeepsLabels(code: seq<Item>, live: set<nat>, id: nat)
    ensures Avoids(code, id) ==> Avoids(StripLabels(code, live), id)
    ensures DistinctLabels(code) ==> DistinctLabels(StripLabels(code, live))
  {
    if code != [] {
      StripKeepsLabels(code[1..], live, id);
      assert code == [code[0]] + code[1..];
      if code[0].Label? && DistinctLabels(code) {
        assert Avoids(code[1..], code[0].id);
        StripKeepsLabels(code[1..], live, code[0].id);
        FrontLabel(code[0], StripLabels(code[1..], live));
      }
    }
  }

  lemma FrontLabel(x: Item, rest: seq<Item>)
    requires DistinctLabels(rest) && (x.Label? ==> Avoids(rest, x.id))
    ensures DistinctLabels([x] + rest)
  {
    forall i | 0 <= i < |rest| && x.Label? && rest[i].Label? ensures rest[i].id != x.id {
      assert rest[i] == Label(rest[i].id);
    }
  }

  lemma {:induction false} FuseKeepsLabels(code: seq<Item>, id: nat)
    ensures Avoids(code, id) ==> Avoids(FuseOps(code), id)
    ensures DistinctLabels(code) ==> DistinctLabels(FuseOps(code))
    decreases |code|
  {
    if code != [] {
      var n := if FusesAtStart(code) then 2 else 1;
      FuseKeepsLabels(code[n..], id);
      assert code == code[..n] + code[n..];
      if code[0].Label? && DistinctLabels(code) {
        assert Avoids(code[1..], code[0].id);
        FuseKeepsLabels(code[1..], code[0].id);
      }
      if DistinctLabels(code) {
        assert DistinctLabels(code[n..]);
        FrontLabel(FuseOps(code)[0], FuseOps(code[n..]));
      }
    }
  }

  /** Fusing and stripping neither add nor repeat labels. */
  lemma OptimizedLabels(e: Emission, id: nat)
    ensures Avoids(e.code, id) ==> Avoids(Optimized(e), id)
    ensures DistinctLabels(e.code) ==> DistinctLabels(Optimized(e))
  {
    StripKeepsLabels(e.code, Live(e), id);
    FuseKeepsLabels(StripLabels(e.code, Live(e)), id);
  }

  lemma {:induction false} LabelAbsent(code: seq<Item>, id: nat)
    requires Avoids(code, id)
    ensures LabelPosition(code, id) == 0
  {
    if code != [] {
      assert code[|code| - 1] != Label(id);
      LabelAbsent(code[..|code| - 1], id);
    }
  }

  // ----- walking both codes -----

  /** The first item of a synchronized pair, when it is a label. */
  lemma SyncLabel(e: Emission, a: nat, b: nat)
    requires Sync(e, a, b) && a < |e.code| && e.code[a].Label?
    ensures var id := e.code[a].id;
            if id in Live(e)
            then b < |Optimized(e)| && Optimized(e)[b] == Label(id) && Sync(e, a + 1, b + 1)
            else Sync(e, a + 1, b)
  {
    assert e.code[a..][1..] == e.code[a + 1..];
    var s := StripLabels(e.code[a..], Live(e));
    if e.code[a].id in Live(e) {
      assert s == [e.code[a]] + StripLabels(e.code[a + 1..], Live(e));
      assert s[1..] == StripLabels(e.code[a + 1..], Live(e));
      assert Optimized(e)[b..][1..] == Optimized(e)[b + 1..];
      assert Optimized(e)[b] == Optimized(e)[b..][0];
    }
  }

  /** The item after which a pair of fused operations ends. */
  function SecondOp(e: Emission, a: nat): nat
    requires a <= |e.code|
    decreases |e.code| - a
  {
    if a < |e.code| && e.code[a].Label? && e.code[a].id !in Live(e) then SecondOp(e, a + 1) else a
  }

  /** Between two operations that fuse there are only dead labels. */
  lemma {:induction false} SecondOpStrips(e: Emission, a: nat)
    requires a <= |e.code|
    ensures var a2 := SecondOp(e, a);
            && a <= a2 <= |e.code|
            && StripLabels(e.code[a..], Live(e)) == StripLabels(e.code[a2..], Live(e))
            && Pos(e.code, a2) == Pos(e.code, a)
            && (forall j :: a <= j < a2 ==> e.code[j].Label? && e.code[j].id !in Live(e))
            && (a2 < |e.code| && StripLabels(e.code[a..], Live(e)) != [] ==> StripLabels(e.code[a..], Live(e))[0] == e.code[a2])
            && (a2 == |e.code| ==> StripLabels(e.code[a..], Live(e)) == [])
    decreases |e.code| - a
  {
    if a < |e.code| {
      assert e.code[a..][1..] == e.code[a + 1..];
      if e.code[a].Label? && e.code[a].id !in Live(e) {
        PosNext(e.code, a);
        SecondOpStrips(e, a + 1);
      }
    }
  }

  /** What stands in the optimized code for an operation: the operation itself,
      or its fusion with the next operation. */
  ghost predicate Unfused(e: Emission, a: nat, b: nat)
    requires a < |e.code|
  {
    b < |Optimized(e)| && Optimized(e)[b] == e.code[a] && Sync(e, a + 1, b + 1)
  }

  ghost predicate Fused(e: Emission, a: nat, b: nat, a2: nat)
    requires a < |e.code| && e.code[a].Emitted?
  {
    && a < a2 < |e.code| && e.code[a2].Emitted? && b < |Optimized(e)|
    && Pos(e.code, a2) == Pos(e.code, a) + 1
    && var f := FusedOp(e.code[a].line.op, e.code[a2].line.op);
    && f.Some? && Optimized(e)[b] == Emitted(Line(f.value, e.code[a].line.at))
    && Sync(e, a2 + 1, b + 1)
    && (forall j :: a < j < a2 ==> e.code[j].Label? && e.code[j].id !in Live(e))
  }

  lemma SyncOp(e: Emission, a: nat, b: nat) returns (a2: nat)
    requires Sync(e, a, b) && a < |e.code| && e.code[a].Emitted?
    ensures Unfused(e, a, b) || Fused(e, a, b, a2)
  {
    var live := Live(e);
    assert e.code[a..][1..] == e.code[a + 1..];
    var rest := StripLabels(e.code[a + 1..], live);
    var s := StripLabels(e.code[a..], live);
    assert s == [e.code[a]] + rest && s[1..] == rest;
    var g := Optimized(e);
    assert g[b..][1..] == g[b + 1..] && g[b] == g[b..][0];
    a2 := SecondOp(e, a + 1);
    SecondOpStrips(e, a + 1);
    PosNext(e.code, a);
    if FusesAtStart(s) {
      assert s[1] == rest[0] == e.code[a2] && s[2..] == rest[1..];
      assert e.code[a2..][1..] == e.code[a2 + 1..];
      assert StripLabels(e.code[a2..], live) == [e.code[a2]] + StripLabels(e.code[a2 + 1..], live);
      assert rest[1..] == StripLabels(e.code[a2 + 1..], live);
    }
  }

  /** Skipping labels on both sides leads to the next operation. */
  lemma {:induction false} SyncNext(e: Emission, a: nat, b: nat) returns (a': nat, b': nat)
    requires Sync(e, a, b)
    ensures Sync(e, a', b') && Pos(e.code, a') == Pos(e.code, a) && Pos(Optimized(e), b') == Pos(Optimized(e), b)
    ensures a' < |e.code| ==> e.code[a'].Emitted?
    ensures a' == |e.code| ==> b' == |Optimized(e)|
    decreases |e.code| - a
  {
    a', b' := a, b;
    if a < |e.code| && e.code[a].Label? {
      SyncLabel(e, a, b);
      PosNext(e.code, a);
      if e.code[a].id in Live(e) {
        PosNext(Optimized(e), b);
        a', b' := SyncNext(e, a + 1, b + 1);
      } else {
        a', b' := SyncNext(e, a + 1, b);
      }
    } else if a == |e.code| {
      assert e.code[a..] == [];
    }
  }

  /** A live label of the original stands in the optimized code too, with the
      same operations after it: no live label sits inside a fused pair. */
  lemma {:induction false} LiveLabelSync(e: Emission, a: nat, b: nat, t: nat) returns (u: nat)
    requires Sync(e, a, b) && a <= t < |e.code| && e.code[t].Label? && e.code[t].id in Live(e)
    ensures u < |Optimized(e)| && Optimized(e)[u] == e.code[t] && Sync(e, t, u)
    decreases t - a
  {
    if e.code[a].Label? {
      SyncLabel(e, a, b);
      if a == t {
        u := b;
      } else if e.code[a].id in Live(e) {
        u := LiveLabelSync(e, a + 1, b + 1, t);
      } else {
        u := LiveLabelSync(e, a + 1, b, t);
      }
    } else {
      var a2 := SyncOp(e, a, b);
      if Unfused(e, a, b) {
        u := LiveLabelSync(e, a + 1, b + 1, t);
      } else {
        assert t > a2 by { if t < a2 { assert false; } }
        u := LiveLabelSync(e, a2 + 1, b + 1, t);
      }
    }
  }

  /** A target that some jump or table uses resolves to corresponding positions. */
  lemma TargetsSync(e: Emission, id: nat) returns (a: nat, b: nat)
    requires DistinctLabels(e.code) && LabelsIn(e.code, 0, e.st.next)
    requires Targeted(e.code, e.st.tables, id)
    ensures Sync(e, a, b)
    ensures LabelPosition(e.code, id) == Pos(e.code, a) && LabelPosition(Optimized(e), id) == Pos(Optimized(e), b)
  {
    SyncStart(e);
    OptimizedLabels(e, id);
    if Avoids(e.code, id) {
      LabelAbsent(e.code, id);
      LabelAbsent(Optimized(e), id);
      a, b := 0, 0;
    } else {
      a :| 0 <= a < |e.code| && e.code[a] == Label(id);
      assert id in Live(e);
      b := LiveLabelSync(e, 0, 0, a);
      LabelResolves(e.code, a);
      LabelResolves(Optimized(e), b);
    }
  }
}
