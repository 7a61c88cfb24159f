/** The validation algorithm accepts exactly the bodies that the declarative
    rules type. */
module Typability {
  import opened Wasm
  import opened Subtyping
  import opened Validation
  import opened Declarative

  // ----- matching is a preorder -----

  lemma MatchesPreorder(types: seq<SubType>, a: OpType, b: OpType, c: OpType)
    ensures Matches(types, a, a)
    ensures Matches(types, a, b) && Matches(types, b, c) ==> Matches(types, a, c)
  {
    if a.Known? {
      ValueSubtypePreorder(types, a.vt, if b.Known? then b.vt else a.vt, if c.Known? then c.vt else a.vt);
    }
  }

  lemma MatchAt(types: seq<SubType>, a: seq<OpType>, b: seq<OpType>, i: nat)
    requires AllMatch(types, a, b) && i < |a|
    ensures |a| == |b| && Matches(types, a[i], b[i])
  {
  }

  lemma AllMatchReflexive(types: seq<SubType>, a: seq<OpType>)
    ensures AllMatch(types, a, a)
  {
    forall i | 0 <= i < |a| ensures Matches(types, a[i], a[i]) {
      MatchesPreorder(types, a[i], a[i], a[i]);
    }
  }

  lemma AllMatchTransitive(types: seq<SubType>, a: seq<OpType>, b: seq<OpType>, c: seq<OpType>)
    requires AllMatch(types, a, b) && AllMatch(types, b, c)
    ensures AllMatch(types, a, c)
  {
    forall i | 0 <= i < |a| ensures Matches(types, a[i], c[i]) {
      MatchesPreorder(types, a[i], b[i], c[i]);
    }
  }

  // ----- slices -----

  lemma DropAppend(s: seq<OpType>, t: seq<OpType>, j: nat)
    requires j <= |s|
    ensures (s + t)[j..] == s[j..] + t
  {
  }

  lemma AppendEnds(s: seq<OpType>, t: seq<OpType>)
    ensures (s + t)[..|s|] == s && (s + t)[|s|..] == t
  {
  }

  lemma DropDrop(s: seq<OpType>, i: nat, j: nat)
    requires i + j <= |s|
    ensures s[i..][j..] == s[i + j..] && s[i..][..j] == s[..i + j][i..]
  {
  }

  lemma DropSplit(s: seq<OpType>, i: nat, j: nat)
    requires i <= j <= |s|
    ensures s[i..] == s[i..j] + s[j..]
  {
  }

  lemma DropLast(s: seq<OpType>, j: nat)
    requires j < |s|
    ensures s[j..] == s[..|s| - 1][j..] + [s[|s| - 1]] && s[..|s| - 1][..j] == s[..j]
  {
  }

  /** A sequence that ends in `p + q` ends in `q`, and in `p` before that. */
  lemma SuffixSplit(t: seq<OpType>, p: seq<OpType>, q: seq<OpType>)
    requires |p| + |q| <= |t| && t[|t| - |p| - |q|..] == p + q
    ensures t[|t| - |q|..] == q && t[..|t| - |q|][|t| - |q| - |p|..] == p
  {
    var i := |t| - |p| - |q|;
    DropDrop(t, i, |p|);
    AppendEnds(p, q);
  }

  lemma AllMatchAppend(types: seq<SubType>, a: seq<OpType>, b: seq<OpType>, a': seq<OpType>, b': seq<OpType>)
    requires AllMatch(types, a, b) && AllMatch(types, a', b')
    ensures |a| == |b| && |a'| == |b'| && AllMatch(types, a + a', b + b')
  {
    hide Matches;
  }

  lemma AllMatchParts(types: seq<SubType>, a: seq<OpType>, b: seq<OpType>, j: nat)
    requires AllMatch(types, a, b) && j <= |a|
    ensures |a| == |b| && AllMatch(types, a[j..], b[j..]) && AllMatch(types, a[..j], b[..j])
  {
    hide Matches;
  }

  // ----- what popping finds -----

  function Bots(n: nat): (r: seq<OpType>)
    ensures |r| == n
  {
    seq(n, _ => Bot)
  }

  /** The `n` topmost operands; in dead code there are always enough. */
  function Found(a: Operands, n: nat): (r: seq<OpType>)
    requires a.dead || n <= |a.ops|
    ensures |r| == n
  {
    if n <= |a.ops| then a.ops[|a.ops| - n..] else Bots(n - |a.ops|) + a.ops
  }

  function Rest(a: Operands, n: nat): Operands {
    Operands(if n <= |a.ops| then a.ops[..|a.ops| - n] else [], a.dead)
  }

  /** Popping succeeds exactly when there are enough operands and they match. */
  lemma {:induction false} PopAllExact(types: seq<SubType>, a: Operands, ts: seq<ValueType>)
    ensures var enough := a.dead || |ts| <= |a.ops|;
            PopAll(types, a, ts) ==
            if enough && AllMatch(types, Found(a, |ts|), Known1(ts)) then Some((Found(a, |ts|), Rest(a, |ts|))) else None
    decreases |ts|
  {
    hide AllMatch, Found, Rest, ValueSubtype;
    if ts == [] {
      FoundNone(types, a);
      assert Known1(ts) == [];
    } else if Pop(a).Some? {
      var (t, a') := Pop(a).value;
      PopAllExact(types, a', ts[..|ts| - 1]);
      if a.dead || |ts| <= |a.ops| { FoundNext(types, a, ts, t, a'); }
    }
  }

  lemma FoundNone(types: seq<SubType>, a: Operands)
    ensures Found(a, 0) == [] && Rest(a, 0) == a && AllMatch(types, [], [])
  {
  }

  lemma FoundPop(a: Operands, n: nat, x: OpType, a': Operands)
    requires Pop(a) == Some((x, a')) && (a'.dead || n <= |a'.ops|)
    ensures a.dead || n + 1 <= |a.ops|
    ensures Found(a, n + 1) == Found(a', n) + [x] && Rest(a', n) == Rest(a, n + 1)
  {
    hide Bots;
    if a.ops == [] {
      BotsAdd(n);
      FoundBots(a, n);
      FoundBots(a, n + 1);
    } else if n < |a.ops| {
      DropLast(a.ops, |a.ops| - (n + 1));
    } else {
      assert a.ops == a'.ops + [x];
      FoundBelow(a, n, x, a');
    }
  }

  lemma BotsAdd(n: nat)
    ensures Bots(n + 1) == Bots(n) + [Bot]
  {
  }

  lemma FoundBots(a: Operands, n: nat)
    requires a.dead && a.ops == []
    ensures Found(a, n) == Bots(n) && Rest(a, n) == a
  {
  }

  /** Popping from operands that are fewer than needed. */
  lemma FoundBelow(a: Operands, n: nat, x: OpType, a': Operands)
    requires a.dead && a.ops == a'.ops + [x] && a'.dead && |a.ops| <= n
    ensures Found(a, n + 1) == Found(a', n) + [x] && Rest(a', n) == Rest(a, n + 1)
  {
    hide Bots;
    var bots := Bots(n + 1 - |a.ops|);
    assert Found(a, n + 1) == bots + a.ops && Found(a', n) == bots + a'.ops;
    assert bots + (a'.ops + [x]) == bots + a'.ops + [x];
  }

  lemma FoundNext(types: seq<SubType>, a: Operands, ts: seq<ValueType>, t: OpType, a': Operands)
    requires (a.dead || |ts| <= |a.ops|) && ts != [] && Pop(a) == Some((t, a'))
    ensures a'.dead || |ts| - 1 <= |a'.ops|
    ensures Found(a, |ts|) == Found(a', |ts| - 1) + [t] && Rest(a', |ts| - 1) == Rest(a, |ts|)
    ensures AllMatch(types, Found(a, |ts|), Known1(ts)) <==>
            AllMatch(types, Found(a', |ts| - 1), Known1(ts[..|ts| - 1])) && Matches(types, t, Known(ts[|ts| - 1]))
  {
    hide AllMatch, Matches;
    var n := |ts|;
    assert Known1(ts) == Known1(ts[..n - 1]) + [Known(ts[n - 1])];
    FoundPop(a, n - 1, t, a');
    LastMatch(types, Found(a', n - 1), t, Known1(ts[..n - 1]), Known(ts[n - 1]));
  }

  lemma LastMatch(types: seq<SubType>, a: seq<OpType>, x: OpType, b: seq<OpType>, y: OpType)
    ensures AllMatch(types, a + [x], b + [y]) <==> AllMatch(types, a, b) && Matches(types, x, y)
  {
    if AllMatch(types, a + [x], b + [y]) {
      assert (a + [x])[|a|] == x && (b + [y])[|b|] == y;
      forall i | 0 <= i < |a| ensures Matches(types, a[i], b[i]) {
        assert (a + [x])[i] == a[i] && (b + [y])[i] == b[i];
      }
    }
  }

  // ----- completeness: what is typed is accepted -----

  /** The algorithm's operands stand for the stack `s`: each matches the operand
      of `s` at its place, and only dead code leaves operands of `s` open. */
  ghost predicate Covers(types: seq<SubType>, a: Operands, s: seq<OpType>) {
    && |a.ops| <= |s| && (a.dead || |a.ops| == |s|)
    && AllMatch(types, a.ops, s[|s| - |a.ops|..])
  }

  lemma FoundMatches(types: seq<SubType>, a: Operands, s: seq<OpType>, k: nat)
    requires Covers(types, a, s) && k <= |s|
    ensures AllMatch(types, Found(a, |s| - k), s[k..])
    ensures Covers(types, Rest(a, |s| - k), s[..k])
  {
    hide AllMatch, Bots;
    var (n, l) := (|s| - k, |a.ops|);
    if n <= l {
      AllMatchParts(types, a.ops, s[|s| - l..], l - n);
      DropDrop(s, |s| - l, l - n);
    } else {
      BotsMatch(types, s[k..|s| - l]);
      AllMatchAppend(types, Bots(n - l), s[k..|s| - l], a.ops, s[|s| - l..]);
      DropSplit(s, k, |s| - l);
      NoneMatch(types, s[..k][k..]);
    }
  }

  lemma BotsMatch(types: seq<SubType>, s: seq<OpType>)
    ensures AllMatch(types, Bots(|s|), s)
  {
  }

  lemma NoneMatch(types: seq<SubType>, s: seq<OpType>)
    requires |s| == 0
    ensures AllMatch(types, [], s)
  {
  }

  /** Popping what a typed step takes succeeds, and finds matching operands. */
  lemma PopCovers(types: seq<SubType>, a: Operands, s: seq<OpType>, k: nat, ts: seq<ValueType>)
    requires Covers(types, a, s) && k <= |s| && AllMatch(types, s[k..], Known1(ts))
    ensures |ts| == |s| - k && (a.dead || |ts| <= |a.ops|)
    ensures PopAll(types, a, ts) == Some((Found(a, |ts|), Rest(a, |ts|)))
    ensures AllMatch(types, Found(a, |ts|), s[k..]) && Covers(types, Rest(a, |ts|), s[..k])
  {
    FoundMatches(types, a, s, k);
    AllMatchTransitive(types, Found(a, |ts|), s[k..], Known1(ts));
    PopAllExact(types, a, ts);
  }

  lemma PushCovers(types: seq<SubType>, a: Operands, s: seq<OpType>, found: seq<OpType>, outs: seq<OpType>)
    requires Covers(types, a, s) && AllMatch(types, found, outs)
    ensures Covers(types, a.(ops := a.ops + found), s + outs)
  {
    hide AllMatch;
    AllMatchAppend(types, a.ops, s[|s| - |a.ops|..], found, outs);
    DropAppend(s, outs, |s| - |a.ops|);
  }

  /** A step with fixed parameters and results. */
  lemma ApplyCovers(types: seq<SubType>, a: Operands, s: seq<OpType>, t: seq<OpType>, k: nat, params: seq<ValueType>,
                    results: seq<ValueType>)
    requires Covers(types, a, s) && k <= |s| && k <= |t| && s[..k] == t[..k]
    requires AllMatch(types, s[k..], Known1(params)) && t[k..] == Known1(results)
    ensures var r := Apply(types, a, params, results); r.Some? && Covers(types, r.value, t)
  {
    PopCovers(types, a, s, k, params);
    AllMatchReflexive(types, Known1(results));
    PushCovers(types, Rest(a, |params|), s[..k], Known1(results), Known1(results));
    assert t == s[..k] + Known1(results);
  }

  /** On instructions with one type the algorithm pops and pushes by that type. */
  lemma CheckLeafArrow(c: Context, l: Leaf, a: Operands)
    requires !Polymorphic(l)
    ensures var arrow := LeafArrow(c, l);
            CheckLeaf(c, l, a) ==
            if arrow.Some? then Apply(c.m.types, a, arrow.value.0, arrow.value.1) else None
  {
    assert Push(a, []) == a;
    assert l.Select? && |l.ts| == 1 ==> l.ts == [l.ts[0]];
  }

  lemma PopOne(a: Operands, s: seq<OpType>, types: seq<SubType>)
    requires Covers(types, a, s) && s != []
    ensures Pop(a).Some?
    ensures var (x, a') := Pop(a).value; Matches(types, x, s[|s| - 1]) && Covers(types, a', s[..|s| - 1])
  {
    FoundMatches(types, a, s, |s| - 1);
    assert s[|s| - 1..][0] == s[|s| - 1];
  }

  /** Only the type itself and bottom match a type that is not a reference. */
  lemma PlainMatch(types: seq<SubType>, x: OpType, y: OpType, t: OpType)
    requires Matches(types, x, y) && Matches(types, y, t) && (t.Known? ==> !t.vt.RefVal?)
    ensures (x.Bot? || x == t) && Matches(types, x, t) && AllMatch(types, [x], [t])
  {
    MatchesPreorder(types, x, y, t);
  }

  lemma SelectOperands(types: seq<SubType>, s: seq<OpType>, t: OpType)
    requires |s| >= 3 && AllMatch(types, s[|s| - 3..], [t, t, Known(I32)])
    ensures Matches(types, s[|s| - 3], t) && Matches(types, s[|s| - 2], t) && Matches(types, s[|s| - 1], Known(I32))
  {
    var top := s[|s| - 3..];
    MatchAt(types, top, [t, t, Known(I32)], 0);
    MatchAt(types, top, [t, t, Known(I32)], 1);
    MatchAt(types, top, [t, t, Known(I32)], 2);
  }

  lemma SelectCovers(types: seq<SubType>, a: Operands, s: seq<OpType>, t: OpType)
    requires Covers(types, a, s) && |s| >= 3 && (t.Known? ==> !t.vt.RefVal?)
    requires AllMatch(types, s[|s| - 3..], [t, t, Known(I32)])
    ensures var r := CheckSelect(types, a); r.Some? && Covers(types, r.value, s[..|s| - 3] + [t])
  {
    hide Covers, AllMatch, Matches, Pop;
    SelectOperands(types, s, t);
    var (s1, s2, s3) := (s[..|s| - 1], s[..|s| - 2], s[..|s| - 3]);
    assert s1[..|s| - 2] == s2 && s2[..|s| - 3] == s3;
    PopOne(a, s, types);
    var (x, a1) := Pop(a).value;
    PlainMatch(types, x, s[|s| - 1], Known(I32));
    FitsMatches(types, x, I32);
    PopOne(a1, s1, types);
    var (t1, a2) := Pop(a1).value;
    PlainMatch(types, t1, s[|s| - 2], t);
    PopOne(a2, s2, types);
    var (t2, a3) := Pop(a2).value;
    PlainMatch(types, t2, s[|s| - 3], t);
    PushCovers(types, a3, s3, [if t1.Bot? then t2 else t1], [t]);
  }

  /** What the leaf instructions leave that look at one operand of any type, or
      of any reference type. */
  function OneOperandLeaves(strict: bool, l: Leaf, x: OpType): seq<OpType>
    requires x.Known? && l.RefAsNonNull? ==> x.vt.RefVal?
  {
    if l.RefIsNull? then [Known(I32)]
    else if l.RefAsNonNull? then [if x.Bot? then UnknownNonNull(strict) else Known(RefVal(Ref(false, NormalizeRef(x.vt.rt).1)))]
    else []
  }

  lemma OneOperandChecks(c: Context, l: Leaf, a: Operands, x: OpType, a': Operands)
    requires Polymorphic(l) && !l.Select? && Pop(a) == Some((x, a'))
    ensures CheckLeaf(c, l, a) ==
            if l.Drop? || x.Bot? || x.vt.RefVal? then Some(a'.(ops := a'.ops + OneOperandLeaves(c.strict, l, x))) else None
  {
    assert a'.ops + [] == a'.ops && Known1([I32]) == [Known(I32)];
    if l.RefAsNonNull? && x.Known? && x.vt.RefVal? {
      var v := RefVal(Ref(false, NormalizeRef(x.vt.rt).1));
      assert Known1([v]) == [Known(v)];
    }
  }

  lemma OneOperandComplete(c: Context, l: Leaf, a: Operands, s: seq<OpType>, t: seq<OpType>, k: nat, ins: seq<OpType>)
    requires Covers(c.m.types, a, s) && k <= |s| && k <= |t| && s[..k] == t[..k] && Polymorphic(l) && !l.Select?
    requires AllMatch(c.m.types, s[k..], ins) && LeafTyped(c, l, ins, t[k..])
    ensures var r := CheckLeaf(c, l, a); r.Some? && Covers(c.m.types, r.value, t)
  {
    hide Covers, CheckLeaf, Matches, LeafTyped;
    var types := c.m.types;
    assert |ins| == 1 by { assert LeafTyped(c, l, ins, t[k..]); OneOperandArity(c, l, ins, t[k..]); }
    assert t == s[..k] + t[k..] && |s| == k + 1;
    assert s[k..][0] == s[|s| - 1];
    PopOne(a, s, types);
    var (x, a') := Pop(a).value;
    MatchesPreorder(types, x, s[|s| - 1], ins[0]);
    OneOperandChecks(c, l, a, x, a');
    OneOperandMatches(c, l, ins, t[k..], x);
    PushCovers(types, a', s[..k], OneOperandLeaves(c.strict, l, x), t[k..]);
  }

  lemma OneOperandArity(c: Context, l: Leaf, ins: seq<OpType>, outs: seq<OpType>)
    requires Polymorphic(l) && !l.Select? && LeafTyped(c, l, ins, outs)
    ensures |ins| == 1
  {
  }

  /** On an operand that matches the typed one, a leaf leaves something that
      matches the typed result. */
  lemma OneOperandMatches(c: Context, l: Leaf, ins: seq<OpType>, outs: seq<OpType>, x: OpType)
    requires Polymorphic(l) && !l.Select? && LeafTyped(c, l, ins, outs)
    requires |ins| == 1 && Matches(c.m.types, x, ins[0])
    ensures l.Drop? || x.Bot? || x.vt.RefVal?
    ensures AllMatch(c.m.types, OneOperandLeaves(c.strict, l, x), outs)
  {
    hide HeapSubtype;
    MatchesPreorder(c.m.types, Known(I32), Known(I32), Known(I32));
    if l.RefAsNonNull? && (x.Known? || c.strict) {
      var rt: RefType :| Arrow(ins, outs, [RefVal(rt)], [RefVal(Ref(false, NormalizeRef(rt).1))]);
      BottomMatches(c.m.types, NormalizeRef(rt).1);
    }
  }

  lemma BottomMatches(types: seq<SubType>, heap: HeapType)
    ensures Matches(types, Known(RefVal(Ref(false, HBot))), Known(RefVal(Ref(false, heap))))
  {
  }

  lemma LeafComplete(c: Context, l: Leaf, a: Operands, s: seq<OpType>, t: seq<OpType>, k: nat, ins: seq<OpType>)
    requires Covers(c.m.types, a, s) && k <= |s| && k <= |t| && s[..k] == t[..k]
    requires AllMatch(c.m.types, s[k..], ins) && LeafTyped(c, l, ins, t[k..])
    ensures var r := CheckLeaf(c, l, a); r.Some? && Covers(c.m.types, r.value, t)
  {
    hide Covers, CheckSelect, Apply, LeafArrow;
    var types := c.m.types;
    assert t == s[..k] + t[k..];
    if !Polymorphic(l) {
      hide CheckLeaf;
      var arrow := LeafArrow(c, l).value;
      CheckLeafArrow(c, l, a);
      ApplyCovers(types, a, s, t, k, arrow.0, arrow.1);
    } else if l.Select? {
      var u: OpType :| (u.Known? ==> !u.vt.RefVal?) && ins == [u, u, Known(I32)] && t[k..] == [u];
      SelectCovers(types, a, s, u);
    } else {
      hide CheckLeaf;
      OneOperandComplete(c, l, a, s, t, k, ins);
    }
  }

  /** A jump takes what its target expects from the top; what follows is open. */
  lemma ExitCovers(types: seq<SubType>, a: Operands, s: seq<OpType>, t: seq<OpType>, k: nat, ins: seq<OpType>,
                   ts: seq<ValueType>)
    requires Covers(types, a, s) && k <= |s| && AllMatch(types, s[k..], ins) && EndsIn(ins, Known1(ts))
    ensures CheckExit(types, Some(ts), a) == Some(MarkDead(a)) && Covers(types, MarkDead(a), t)
  {
    hide Covers, Matches, Found, Rest;
    var j := |s| - |ts|;
    assert j >= k && |ins| == |s| - k;
    forall i | 0 <= i < |ts| ensures Matches(types, s[j..][i], Known1(ts)[i]) {
      MatchAt(types, s[k..], ins, j - k + i);
      assert s[j..][i] == s[k..][j - k + i] && ins[|ins| - |ts|..][i] == ins[j - k + i];
    }
    PopCovers(types, a, s, j, ts);
    OpenCovers(types, a, t);
  }

  lemma {:induction false} TableComplete(c: Context, ls: seq<nat>, a: Operands, s: seq<OpType>, k: nat, ts: seq<OpType>)
    requires Covers(c.m.types, a, s) && k <= |s| && AllMatch(c.m.types, s[k..], ts) && TableTyped(c, ls, ts)
    ensures var r := CheckTable(c, |s| - k, ls, a); r.Some? && Covers(c.m.types, r.value, s)
  {
    hide Covers, AllMatch;
    if ls != [] {
      var types := c.m.types;
      var l0 := LabelTypes(c, ls[0]).value;
      AllMatchTransitive(types, s[k..], ts, Known1(l0));
      assert AllMatch(types, s[k..], Known1(l0));
      PopCovers(types, a, s, k, l0);
      PushCovers(types, Rest(a, |l0|), s[..k], Found(a, |l0|), s[k..]);
      assert s[..k] + s[k..] == s;
      var a' := Rest(a, |l0|);
      assert TableTyped(c, ls[1..], ts) by {
        forall j | 0 <= j < |ls[1..]| ensures LabelTypes(c, ls[1..][j]).Some? && AllMatch(types, ts, Known1(LabelTypes(c, ls[1..][j]).value)) {
          assert ls[1..][j] == ls[j + 1];
        }
      }
      TableComplete(c, ls[1..], a'.(ops := a'.ops + Found(a, |l0|)), s, k, ts);
    }
  }

  lemma BranchTableComplete(c: Context, i: Instr, a: Operands, s: seq<OpType>, t: seq<OpType>, k: nat, ins: seq<OpType>)
    requires Covers(c.m.types, a, s) && k <= |s| && k <= |t| && AllMatch(c.m.types, s[k..], ins) && i.BrTable?
    requires InstrTyped(c, i, ins, t[k..])
    ensures var r := Check(c, i, a); r.Some? && Covers(c.m.types, r.value, t)
  {
    hide Covers, CheckTable, TableTyped, Matches;
    var types := c.m.types;
    var label_ := LabelTypes(c, i.default).value;
    var (n, m) := (|label_|, |s| - 1);
    var j := m - n;
    var ts := ins[|ins| - 1 - n..|ins| - 1];
    MatchAt(types, s[k..], ins, m - k);
    assert s[k..][m - k] == s[m];
    PopOne(a, s, types);
    var (x, a1) := Pop(a).value;
    MatchesPreorder(types, x, s[m], Known(I32));
    FitsMatches(types, x, I32);
    forall p | 0 <= p < n ensures Matches(types, s[..m][j..][p], ts[p]) {
      MatchAt(types, s[k..], ins, j - k + p);
      assert s[..m][j..][p] == s[k..][j - k + p];
    }
    assert AllMatch(types, s[..m][j..], ts);
    TableParts(c, i.labels, i.default, ts);
    TableComplete(c, i.labels, a1, s[..m], j, ts);
    var a2 := CheckTable(c, n, i.labels, a1).value;
    AllMatchTransitive(types, s[..m][j..], ts, Known1(label_));
    assert EndsIn(Known1(label_), Known1(label_));
    ExitCovers(types, a2, s[..m], t, j, Known1(label_), label_);
  }

  lemma FitsMatches(types: seq<SubType>, x: OpType, t: ValueType)
    ensures Fits(types, x, t) <==> Matches(types, x, Known(t))
  {
  }

  lemma TableParts(c: Context, ls: seq<nat>, default: nat, ts: seq<OpType>)
    requires LabelTypes(c, default).Some?
    ensures TableTyped(c, ls + [default], ts) <==>
            TableTyped(c, ls, ts) && AllMatch(c.m.types, ts, Known1(LabelTypes(c, default).value))
  {
    var all := ls + [default];
    assert all[|ls|] == default;
    if TableTyped(c, all, ts) {
      forall j | 0 <= j < |ls| ensures LabelTypes(c, ls[j]).Some? && AllMatch(c.m.types, ts, Known1(LabelTypes(c, ls[j]).value)) {
        assert all[j] == ls[j];
      }
    }
  }

  /** What a typed instruction takes to `t` the algorithm accepts, and what it
      then holds covers `t`. */
  lemma {:induction false} InstrComplete(c: Context, i: Instr, a: Operands, s: seq<OpType>, t: seq<OpType>)
    requires Covers(c.m.types, a, s) && StepTyped(c, i, s, t)
    ensures var r := Check(c, i, a); r.Some? && Covers(c.m.types, r.value, t)
    decreases i, 2
  {
    hide *;
    var k, ins := StepParts(c, i, s, t);
    match i
    case Plain(l) =>
      PlainComplete(c, l, a, s, t, k, ins);
    case Block(_, _) | Loop(_, _) | IfElse(_, _, _) => StructuredComplete(c, i, a, s, t, k, ins);
    case BrTable(_, _) => BranchTableComplete(c, i, a, s, t, k, ins);
    case BrIf(_) | Call(_) | CallIndirect(_, _) => CallComplete(c, i, a, s, t, k, ins);
    case _ => JumpComplete(c, i, a, s, t, k, ins);
  }

  lemma StepParts(c: Context, i: Instr, s: seq<OpType>, t: seq<OpType>) returns (k: nat, ins: seq<OpType>)
    requires StepTyped(c, i, s, t)
    ensures k <= |s| && k <= |t| && s[..k] == t[..k] && AllMatch(c.m.types, s[k..], ins)
    ensures InstrTyped(c, i, ins, t[k..])
  {
    hide AllMatch, InstrTyped;
    k, ins :| k <= |s| && k <= |t| && s[..k] == t[..k] && AllMatch(c.m.types, s[k..], ins) && InstrTyped(c, i, ins, t[k..]);
  }

  lemma PlainComplete(c: Context, l: Leaf, a: Operands, s: seq<OpType>, t: seq<OpType>, k: nat, ins: seq<OpType>)
    requires Covers(c.m.types, a, s) && k <= |s| && k <= |t| && s[..k] == t[..k]
    requires AllMatch(c.m.types, s[k..], ins) && InstrTyped(c, Plain(l), ins, t[k..])
    ensures var r := Check(c, Plain(l), a); r.Some? && Covers(c.m.types, r.value, t)
  {
    hide Covers, CheckLeaf, AllMatch, LeafTyped;
    LeafComplete(c, l, a, s, t, k, ins);
  }

  lemma {:induction false} StructuredComplete(c: Context, i: Instr, a: Operands, s: seq<OpType>, t: seq<OpType>,
                                              k: nat, ins: seq<OpType>)
    requires Covers(c.m.types, a, s) && k <= |s| && k <= |t| && s[..k] == t[..k]
    requires AllMatch(c.m.types, s[k..], ins) && InstrTyped(c, i, ins, t[k..])
    requires i.Block? || i.Loop? || i.IfElse?
    ensures var r := Check(c, i, a); r.Some? && Covers(c.m.types, r.value, t)
    decreases i, 1
  {
    hide Covers, AllMatch, CheckBody, Apply, BodyTyped, Known1;
    var types := c.m.types;
    var ft := BlockFuncType(c.m, i.bt).value;
    match i
    case Block(_, body) =>
      BodyComplete(c, ft.results, ft, body);
      ApplyCovers(types, a, s, t, k, ft.params, ft.results);
    case Loop(_, body) =>
      BodyComplete(c, ft.params, ft, body);
      ApplyCovers(types, a, s, t, k, ft.params, ft.results);
    case IfElse(_, thn, els) =>
      BodyComplete(c, ft.results, ft, thn);
      BodyComplete(c, ft.results, ft, els);
      ApplyCovers(types, a, s, t, k, ft.params + [I32], ft.results);
  }

  lemma CallComplete(c: Context, i: Instr, a: Operands, s: seq<OpType>, t: seq<OpType>, k: nat, ins: seq<OpType>)
    requires Covers(c.m.types, a, s) && k <= |s| && k <= |t| && s[..k] == t[..k]
    requires AllMatch(c.m.types, s[k..], ins) && InstrTyped(c, i, ins, t[k..])
    requires i.BrIf? || i.Call? || i.CallIndirect?
    ensures var r := Check(c, i, a); r.Some? && Covers(c.m.types, r.value, t)
  {
    hide Covers, AllMatch, Apply, Known1;
    var types := c.m.types;
    match i
    case BrIf(l) =>
      var ts := LabelTypes(c, l).value;
      ApplyCovers(types, a, s, t, k, ts + [I32], ts);
    case Call(f) =>
      var ft := CalleeType(c.m, f).value;
      ApplyCovers(types, a, s, t, k, ft.params, ft.results);
    case CallIndirect(ty, table) =>
      var (ft, at) := IndirectType(c.m, ty, table).value;
      ApplyCovers(types, a, s, t, k, ft.params + [at], ft.results);
  }

  /** Instructions after which nothing is reachable, other than branch tables. */
  lemma JumpComplete(c: Context, i: Instr, a: Operands, s: seq<OpType>, t: seq<OpType>, k: nat, ins: seq<OpType>)
    requires Covers(c.m.types, a, s) && k <= |s| && k <= |t|
    requires AllMatch(c.m.types, s[k..], ins) && InstrTyped(c, i, ins, t[k..])
    requires i.Unreachable? || i.Br? || i.Return? || i.ReturnCall? || i.ReturnCallIndirect?
    ensures var r := Check(c, i, a); r.Some? && Covers(c.m.types, r.value, t)
  {
    hide Covers, AllMatch, CheckExit, Known1, EndsIn;
    var types := c.m.types;
    match i
    case Unreachable => OpenCovers(types, a, t);
    case Br(l) => ExitCovers(types, a, s, t, k, ins, LabelTypes(c, l).value);
    case Return => ExitCovers(types, a, s, t, k, ins, c.results);
    case ReturnCall(f) => ExitCovers(types, a, s, t, k, ins, CalleeType(c.m, f).value.params);
    case ReturnCallIndirect(ty, table) =>
      var (ft, at) := IndirectType(c.m, ty, table).value;
      ExitCovers(types, a, s, t, k, ins, ft.params + [at]);
  }

  lemma OpenCovers(types: seq<SubType>, a: Operands, t: seq<OpType>)
    ensures Covers(types, MarkDead(a), t)
  {
    assert t[|t| - 0..] == [];
  }

  lemma {:induction false} SeqComplete(c: Context, body: seq<Instr>, a: Operands, s: seq<OpType>, t: seq<OpType>)
    requires Covers(c.m.types, a, s) && SeqTyped(c, body, s, t)
    ensures var r := CheckSeq(c, body, a); r.Some? && Covers(c.m.types, r.value, t)
    decreases body, 0
  {
    hide Covers, Check, StepTyped;
    if body != [] {
      var mid :| StepTyped(c, body[0], s, mid) && SeqTyped(c, body[1..], mid, t);
      InstrComplete(c, body[0], a, s, mid);
      SeqComplete(c, body[1..], Check(c, body[0], a).value, mid, t);
    }
  }

  lemma {:induction false} BodyComplete(c: Context, entered: seq<ValueType>, ft: FunctionType, body: seq<Instr>)
    requires BodyTyped(WithLabel(c, entered), ft, body)
    ensures CheckBody(c, entered, ft, body)
    decreases body, 1
  {
    hide CheckSeq, SeqTyped, Matches, Found, Covers, PopAll;
    var types := c.m.types;
    var inner := WithLabel(c, entered);
    var t: seq<OpType> :| SeqTyped(inner, body, Known1(ft.params), t) && AllMatch(types, t, Known1(ft.results));
    var start := Push(Operands([], false), ft.params);
    StartCovers(types, ft.params);
    SeqComplete(inner, body, start, Known1(ft.params), t);
    var a := CheckSeq(inner, body, start).value;
    assert t[0..] == t;
    CoveredLength(types, a, t);
    PopCovers(types, a, t, 0, ft.results);
  }

  lemma StartCovers(types: seq<SubType>, params: seq<ValueType>)
    ensures Covers(types, Push(Operands([], false), params), Known1(params))
  {
    var start := Push(Operands([], false), params);
    assert start.ops == Known1(params) && Known1(params)[0..] == Known1(params);
    AllMatchReflexive(types, start.ops);
  }

  lemma CoveredLength(types: seq<SubType>, a: Operands, s: seq<OpType>)
    requires Covers(types, a, s)
    ensures |a.ops| <= |s|
  {
  }

  // ----- soundness: what is accepted is typed -----

  /** The stack `s` is what the algorithm holds, on top of any operands at all
      when the code is dead. */
  ghost predicate Exact(a: Operands, s: seq<OpType>) {
    |a.ops| <= |s| && (a.dead || |a.ops| == |s|) && s[|s| - |a.ops|..] == a.ops
  }

  /** The stack before an instruction that took `n` operands and left `outs`. */
  lemma Before(a: Operands, n: nat, outs: seq<OpType>, t: seq<OpType>) returns (s: seq<OpType>, k: nat)
    requires a.dead || n <= |a.ops|
    requires Exact(Operands(Rest(a, n).ops + outs, a.dead), t)
    ensures Exact(a, s) && k <= |s| && k <= |t| && s[..k] == t[..k]
    ensures s[k..] == Found(a, n) && t[k..] == outs
  {
    hide Bots;
    var rest := Rest(a, n).ops;
    SuffixSplit(t, rest, outs);
    k := |t| - |outs|;
    s := t[..k] + Found(a, n);
    AppendEnds(t[..k], Found(a, n));
    DropAppend(t[..k], Found(a, n), k - |rest|);
    if n <= |a.ops| {
      assert a.ops == rest + Found(a, n);
    } else {
      AppendEnds(Bots(n - |a.ops|), a.ops);
      DropDrop(s, k, n - |a.ops|);
    }
  }

  lemma ApplySound(types: seq<SubType>, a: Operands, params: seq<ValueType>, results: seq<ValueType>, t: seq<OpType>)
    returns (s: seq<OpType>, k: nat)
    requires var r := Apply(types, a, params, results); r.Some? && Exact(r.value, t)
    ensures Exact(a, s) && k <= |s| && k <= |t| && s[..k] == t[..k]
    ensures AllMatch(types, s[k..], Known1(params)) && t[k..] == Known1(results)
  {
    PopAllExact(types, a, params);
    s, k := Before(a, |params|, Known1(results), t);
  }

  lemma SelectSound(types: seq<SubType>, a: Operands, t: seq<OpType>) returns (s: seq<OpType>, k: nat, u: OpType)
    requires var r := CheckSelect(types, a); r.Some? && Exact(r.value, t)
    ensures Exact(a, s) && k <= |s| && k <= |t| && s[..k] == t[..k]
    ensures AllMatch(types, s[k..], [u, u, Known(I32)]) && t[k..] == [u] && (u.Known? ==> !u.vt.RefVal?)
  {
    var (x, a1) := Pop(a).value;
    var (t1, a2) := Pop(a1).value;
    var (t2, a3) := Pop(a2).value;
    u := if t1.Bot? then t2 else t1;
    MatchesPreorder(types, u, u, u);
    assert AllMatch(types, [t2, t1, x], [u, u, Known(I32)]);
    assert CheckSelect(types, a) == Some(a3.(ops := a3.ops + [u])) && (u.Known? ==> !u.vt.RefVal?);
    hide CheckSelect, Exact, AllMatch, Pop, Found;
    FoundPops(a, x, a1, t1, a2, t2, a3);
    s, k := Before(a, 3, [u], t);
  }

  lemma FoundPops(a: Operands, x: OpType, a1: Operands, t1: OpType, a2: Operands, t2: OpType, a3: Operands)
    requires Pop(a) == Some((x, a1)) && Pop(a1) == Some((t1, a2)) && Pop(a2) == Some((t2, a3))
    ensures (a.dead || 3 <= |a.ops|) && Found(a, 3) == [t2, t1, x] && Rest(a, 3) == a3 && a3.dead == a.dead
  {
    hide Found, Rest;
    FoundNone([], a3);
    FoundPop(a2, 0, t2, a3);
    FoundPop(a1, 1, t1, a2);
    FoundPop(a, 2, x, a1);
  }

  lemma LeafSound(c: Context, l: Leaf, a: Operands, t: seq<OpType>) returns (s: seq<OpType>)
    requires var r := CheckLeaf(c, l, a); r.Some? && Exact(r.value, t)
    ensures Exact(a, s) && StepTyped(c, Plain(l), s, t)
    ensures l.RefAsNonNull? && Pop(a).value.0.Known? ==> StepTyped(Strictly(c), Plain(l), s, t)
  {
    hide Exact, CheckSelect, Apply, LeafArrow;
    var types := c.m.types;
    var k: nat;
    var ins: seq<OpType>;
    if !Polymorphic(l) {
      hide CheckLeaf;
      CheckLeafArrow(c, l, a);
      var arrow := LeafArrow(c, l).value;
      s, k := ApplySound(types, a, arrow.0, arrow.1, t);
      ins := Known1(arrow.0);
    } else if l.Select? {
      var u;
      s, k, u := SelectSound(types, a, t);
      ins := [u, u, Known(I32)];
    } else {
      hide CheckLeaf;
      s, k, ins := OneOperandSound(c, l, a, t);
    }
    assert InstrTyped(c, Plain(l), ins, t[k..]);
    assert StepTyped(c, Plain(l), s, t);
  }

  lemma OneOperandSound(c: Context, l: Leaf, a: Operands, t: seq<OpType>)
    returns (s: seq<OpType>, k: nat, ins: seq<OpType>)
    requires Polymorphic(l) && !l.Select?
    requires var r := CheckLeaf(c, l, a); r.Some? && Exact(r.value, t)
    ensures Exact(a, s) && k <= |s| && k <= |t| && s[..k] == t[..k]
    ensures AllMatch(c.m.types, s[k..], ins) && LeafTyped(c, l, ins, t[k..])
    ensures l.RefAsNonNull? && Pop(a).value.0.Known? ==> LeafTyped(Strictly(c), l, ins, t[k..])
  {
    hide Exact, CheckLeaf, Found, Rest, LeafTyped, Matches, Pop;
    PopNeeded(c, l, a);
    var (x, a') := Pop(a).value;
    OneOperandChecks(c, l, a, x, a');
    FoundNone([], a');
    FoundPop(a, 0, x, a');
    var outs := OneOperandLeaves(c.strict, l, x);
    s, k := Before(a, 1, outs, t);
    ins := [OperandTaken(c.strict, l, x)];
    OneOperandTyped(c, l, x);
  }

  lemma PopNeeded(c: Context, l: Leaf, a: Operands)
    requires Polymorphic(l) && !l.Select? && CheckLeaf(c, l, a).Some?
    ensures Pop(a).Some? && Pop(a).value.1.dead == a.dead
  {
  }

  /** The operand type that a typing rule gives such a leaf on the operand `x`. */
  function OperandTaken(strict: bool, l: Leaf, x: OpType): OpType {
    if x.Known? || l.Drop? then x
    else if l.RefIsNull? || strict then Known(RefVal(Ref(true, HBot)))
    else Bot
  }

  lemma OneOperandTyped(c: Context, l: Leaf, x: OpType)
    requires Polymorphic(l) && !l.Select? && (l.Drop? || x.Bot? || x.vt.RefVal?)
    ensures var ins := [OperandTaken(c.strict, l, x)];
            && AllMatch(c.m.types, [x], ins) && LeafTyped(c, l, ins, OneOperandLeaves(c.strict, l, x))
            && (l.RefAsNonNull? && x.Known? ==> LeafTyped(Strictly(c), l, ins, OneOperandLeaves(c.strict, l, x)))
  {
    hide ValueSubtype;
    MatchesPreorder(c.m.types, x, x, x);
    var (ins, outs) := ([OperandTaken(c.strict, l, x)], OneOperandLeaves(c.strict, l, x));
    var rt := if x.Known? && x.vt.RefVal? then x.vt.rt else Ref(true, HBot);
    if l.RefIsNull? {
      assert Arrow(ins, outs, [RefVal(rt)], [I32]);
    } else if l.RefAsNonNull? && (x.Known? || c.strict) {
      assert Arrow(ins, outs, [RefVal(rt)], [RefVal(Ref(false, NormalizeRef(rt).1))]);
    }
  }

  /** The whole stack before an instruction that takes `n` operands and after
      which anything may follow. */
  function Whole(a: Operands, n: nat): (s: seq<OpType>)
    requires a.dead || n <= |a.ops|
    ensures Exact(a, s) && n <= |s|
  {
    if n <= |a.ops| then a.ops else Found(a, n)
  }

  lemma WholeTop(a: Operands, n: nat)
    requires a.dead || n <= |a.ops|
    ensures var s := Whole(a, n); s[|s| - n..] == Found(a, n)
  {
  }

  /** A stack matches itself with its top replaced by what that matches. */
  lemma TopMatches(types: seq<SubType>, s: seq<OpType>, top: seq<OpType>)
    requires |top| <= |s| && AllMatch(types, s[|s| - |top|..], top)
    ensures AllMatch(types, s, s[..|s| - |top|] + top)
  {
    var ins := s[..|s| - |top|] + top;
    forall i | 0 <= i < |s| ensures Matches(types, s[i], ins[i]) {
      MatchesPreorder(types, s[i], s[i], s[i]);
      if i >= |s| - |top| { assert s[|s| - |top|..][i - (|s| - |top|)] == s[i]; }
    }
  }

  lemma ExitSound(types: seq<SubType>, a: Operands, ts: seq<ValueType>) returns (s: seq<OpType>, ins: seq<OpType>)
    requires CheckExit(types, Some(ts), a).Some?
    ensures Exact(a, s) && AllMatch(types, s, ins) && EndsIn(ins, Known1(ts))
  {
    hide AllMatch, Rest, Found, Whole;
    PopAllExact(types, a, ts);
    s := Whole(a, |ts|);
    WholeTop(a, |ts|);
    TopMatches(types, s, Known1(ts));
    ins := s[..|s| - |ts|] + Known1(ts);
    DropAppend(s[..|s| - |ts|], Known1(ts), |s| - |ts|);
  }

  /** Whatever the labels of a checked table expect, the same operands match it. */
  lemma {:induction false} TableSound(c: Context, n: nat, ls: seq<nat>, a: Operands)
    requires CheckTable(c, n, ls, a).Some?
    requires var a' := CheckTable(c, n, ls, a).value; a'.dead || n <= |a'.ops|
    ensures var a' := CheckTable(c, n, ls, a).value;
            && (a.dead || n <= |a.ops|)
            && TableTyped(c, ls, Found(a, n)) && a'.dead == a.dead && Found(a', n) == Found(a, n)
  {
    hide AllMatch;
    if ls != [] {
      var types := c.m.types;
      var ts := LabelTypes(c, ls[0]).value;
      PopAllExact(types, a, ts);
      var b := Operands(Rest(a, n).ops + Found(a, n), a.dead);
      TableSound(c, n, ls[1..], b);
      assert Found(b, n) == Found(a, n);
      forall j | 0 <= j < |ls| ensures LabelTypes(c, ls[j]).Some? && AllMatch(types, Found(a, n), Known1(LabelTypes(c, ls[j]).value)) {
        if j > 0 { assert ls[j] == ls[1..][j - 1]; }
      }
    }
  }

  /** The pops that accepting a branch table consists of. */
  lemma TableChecked(c: Context, i: Instr, a: Operands)
    requires i.BrTable? && Check(c, i, a).Some?
    ensures LabelTypes(c, i.default).Some? && Pop(a).Some?
    ensures var ts := LabelTypes(c, i.default).value;
            var (x, a1) := Pop(a).value;
            var r := CheckTable(c, |ts|, i.labels, a1);
            Fits(c.m.types, x, I32) && r.Some? && PopAll(c.m.types, r.value, ts).Some?
  {
    hide CheckTable, Fits;
  }

  /** What an accepted branch table pops: its index, over operands that match
      what every label expects. */
  lemma TableFinds(c: Context, i: Instr, a: Operands) returns (n: nat, ts: seq<OpType>, x: OpType)
    requires i.BrTable? && Check(c, i, a).Some?
    ensures LabelTypes(c, i.default).Some? && n == |LabelTypes(c, i.default).value| == |ts|
    ensures (a.dead || n + 1 <= |a.ops|) && Found(a, n + 1) == ts + [x]
    ensures TableTyped(c, i.labels + [i.default], ts) && Matches(c.m.types, x, Known(I32))
  {
    hide CheckTable, TableTyped, AllMatch, ValueSubtype, Check, LabelTypes;
    TableChecked(c, i, a);
    var types := c.m.types;
    var label_ := LabelTypes(c, i.default).value;
    n := |label_|;
    x := Pop(a).value.0;
    var a1 := Pop(a).value.1;
    var a2 := CheckTable(c, n, i.labels, a1).value;
    PopAllExact(types, a2, label_);
    TableSound(c, n, i.labels, a1);
    ts := Found(a1, n);
    FoundPop(a, n, x, a1);
    TableParts(c, i.labels, i.default, ts);
  }

  lemma Between(p: seq<OpType>, ts: seq<OpType>, x: OpType)
    ensures var ins := p + (ts + [x]); ins[|ins| - 1 - |ts|..|ins| - 1] == ts && ins[|ins| - 1] == x
  {
  }

  lemma BranchTableSound(c: Context, i: Instr, a: Operands, t: seq<OpType>) returns (s: seq<OpType>)
    requires i.BrTable? && Check(c, i, a).Some?
    ensures Exact(a, s) && StepTyped(c, i, s, t)
  {
    hide CheckTable, TableTyped, Exact, Check, AllMatch, Matches, StepTyped, Found;
    var types := c.m.types;
    var n, ts, x := TableFinds(c, i, a);
    s := Whole(a, n + 1);
    WholeTop(a, n + 1);
    AllMatchReflexive(types, ts);
    LastMatch(types, ts, x, ts, Known(I32));
    TopMatches(types, s, ts + [Known(I32)]);
    var ins := s[..|s| - (n + 1)] + (ts + [Known(I32)]);
    Between(s[..|s| - (n + 1)], ts, Known(I32));
    FromBottom(c, i, s, ins, t);
  }

  /** A step that leaves no operand alone. */
  lemma FromBottom(c: Context, i: Instr, s: seq<OpType>, ins: seq<OpType>, t: seq<OpType>)
    requires AllMatch(c.m.types, s, ins) && InstrTyped(c, i, ins, t[0..])
    ensures StepTyped(c, i, s, t)
  {
    assert s[0..] == s && s[..0] == t[..0];
  }

  lemma FromMiddle(c: Context, i: Instr, s: seq<OpType>, k: nat, ins: seq<OpType>, t: seq<OpType>)
    requires k <= |s| && k <= |t| && s[..k] == t[..k] && AllMatch(c.m.types, s[k..], ins)
    requires InstrTyped(c, i, ins, t[k..])
    ensures StepTyped(c, i, s, t)
  {
  }

  /** The step of an instruction that never continues. */
  lemma JumpSound(c: Context, i: Instr, a: Operands, t: seq<OpType>, ts: seq<ValueType>) returns (s: seq<OpType>)
    requires CheckExit(c.m.types, Some(ts), a).Some?
    requires forall ins: seq<OpType> :: EndsIn(ins, Known1(ts)) ==> InstrTyped(c, i, ins, t[0..])
    ensures Exact(a, s) && StepTyped(c, i, s, t)
  {
    hide InstrTyped, Exact, EndsIn;
    var ins;
    s, ins := ExitSound(c.m.types, a, ts);
    FromBottom(c, i, s, ins, t);
  }

  /** The step of an instruction with fixed parameters and results. */
  lemma ArrowSound(c: Context, i: Instr, a: Operands, t: seq<OpType>, params: seq<ValueType>, results: seq<ValueType>)
    returns (s: seq<OpType>)
    requires var r := Apply(c.m.types, a, params, results); r.Some? && Exact(r.value, t)
    requires InstrTyped(c, i, Known1(params), Known1(results))
    ensures Exact(a, s) && StepTyped(c, i, s, t)
  {
    hide InstrTyped, Exact;
    var k: nat;
    s, k := ApplySound(c.m.types, a, params, results, t);
    FromMiddle(c, i, s, k, Known1(params), t);
  }

  lemma {:induction false} InstrSound(c: Context, i: Instr, a: Operands, t: seq<OpType>) returns (s: seq<OpType>)
    requires var r := Check(c, i, a); r.Some? && Exact(r.value, t)
    ensures Exact(a, s) && StepTyped(c, i, s, t)
    decreases i, 2
  {
    hide Exact, CheckTable, CheckBody, Apply, CheckExit, BodyTyped, CheckLeaf, StepTyped, EndsIn, TableTyped, LeafTyped;
    match i
    case Plain(l) => s := LeafSound(c, l, a, t);
    case Unreachable =>
      s := Whole(a, 0);
      AllMatchReflexive(c.m.types, s);
      FromBottom(c, i, s, s, t);
    case Block(bt, body) =>
      var ft := BlockFuncType(c.m, bt).value;
      BodySound(c, ft.results, ft, body);
      s := ArrowSound(c, i, a, t, ft.params, ft.results);
    case Loop(bt, body) =>
      var ft := BlockFuncType(c.m, bt).value;
      BodySound(c, ft.params, ft, body);
      s := ArrowSound(c, i, a, t, ft.params, ft.results);
    case IfElse(bt, thn, els) =>
      var ft := BlockFuncType(c.m, bt).value;
      BodySound(c, ft.results, ft, thn);
      BodySound(c, ft.results, ft, els);
      s := ArrowSound(c, i, a, t, ft.params + [I32], ft.results);
    case Br(l) =>
      assert CheckExit(c.m.types, Some(LabelTypes(c, l).value), a).Some? by {
        assert CheckExit(c.m.types, LabelTypes(c, l), a).Some?;
        ExitSome(c.m.types, LabelTypes(c, l), a);
      }
      s := JumpSound(c, i, a, t, LabelTypes(c, l).value);
    case BrIf(l) =>
      var ts := LabelTypes(c, l).value;
      s := ArrowSound(c, i, a, t, ts + [I32], ts);
    case BrTable(_, _) => s := BranchTableSound(c, i, a, t);
    case Return => s := JumpSound(c, i, a, t, c.results);
    case Call(f) =>
      var ft := CalleeType(c.m, f).value;
      s := ArrowSound(c, i, a, t, ft.params, ft.results);
    case CallIndirect(ty, table) =>
      var (ft, at) := IndirectType(c.m, ty, table).value;
      s := ArrowSound(c, i, a, t, ft.params + [at], ft.results);
    case ReturnCall(f) => s := JumpSound(c, i, a, t, CalleeType(c.m, f).value.params);
    case ReturnCallIndirect(ty, table) =>
      var (ft, at) := IndirectType(c.m, ty, table).value;
      s := JumpSound(c, i, a, t, ft.params + [at]);
  }

  lemma ExitSome(types: seq<SubType>, ts: Option<seq<ValueType>>, a: Operands)
    requires CheckExit(types, ts, a).Some?
    ensures ts.Some?
  {
  }

  lemma {:induction false} SeqSound(c: Context, body: seq<Instr>, a: Operands, t: seq<OpType>) returns (s: seq<OpType>)
    requires var r := CheckSeq(c, body, a); r.Some? && Exact(r.value, t)
    ensures Exact(a, s) && SeqTyped(c, body, s, t)
    decreases body, 0
  {
    hide Exact, Check, StepTyped;
    s := t;
    if body != [] {
      var mid := SeqSound(c, body[1..], Check(c, body[0], a).value, t);
      s := InstrSound(c, body[0], a, mid);
    }
  }

  lemma {:induction false} BodySound(c: Context, entered: seq<ValueType>, ft: FunctionType, body: seq<Instr>)
    requires CheckBody(c, entered, ft, body)
    ensures BodyTyped(WithLabel(c, entered), ft, body)
    decreases body, 1
  {
    hide CheckSeq, SeqTyped;
    var inner := WithLabel(c, entered);
    var start := Push(Operands([], false), ft.params);
    var a := CheckSeq(inner, body, start).value;
    PopAllExact(c.m.types, a, ft.results);
    var t := Found(a, |ft.results|);
    assert Exact(a, t);
    var s := SeqSound(inner, body, start, t);
    assert start.ops == Known1(ft.params) && s[|s| - |start.ops|..] == s;
  }

  // ----- the main results -----

  /** The validator accepts exactly the functions that the rules type. */
  lemma ValidatorExact(m: Module, f: Function)
    ensures CheckFunction(m, f) <==> FunctionTyped(false, m, f)
  {
    hide CheckBody, BodyTyped;
    if FuncTypeAt(m.types, f.typeIndex).Some? {
      var ft := FuncTypeAt(m.types, f.typeIndex).value;
      var c := FunctionContext(m, f, ft);
      if CheckFunction(m, f) { BodySound(c, ft.results, FunctionType([], ft.results), f.body); }
      if FunctionTyped(false, m, f) { BodyComplete(c, ft.results, FunctionType([], ft.results), f.body); }
    }
  }

  // ----- subsumption -----

  /** The operands `a` match the operands `b`, place by place. */
  ghost predicate SubOperands(types: seq<SubType>, a: Operands, b: Operands) {
    a.dead == b.dead && AllMatch(types, a.ops, b.ops)
  }

  ghost predicate SameShape(a: Operands, b: Operands) {
    a.dead == b.dead && |a.ops| == |b.ops|
  }

  lemma ApplyShape(types: seq<SubType>, a: Operands, b: Operands)
    requires SameShape(a, b)
    ensures forall params: seq<ValueType>, results: seq<ValueType> ::
              var (x, y) := (Apply(types, a, params, results), Apply(types, b, params, results));
              x.Some? && y.Some? ==> SameShape(x.value, y.value)
  {
    forall params: seq<ValueType>, results: seq<ValueType>
      ensures var (x, y) := (Apply(types, a, params, results), Apply(types, b, params, results));
              x.Some? && y.Some? ==> SameShape(x.value, y.value)
    {
      PopAllExact(types, a, params);
      PopAllExact(types, b, params);
    }
  }

  lemma LeafShape(c: Context, l: Leaf, a: Operands, b: Operands)
    requires SameShape(a, b) && CheckLeaf(c, l, a).Some? && CheckLeaf(c, l, b).Some?
    ensures SameShape(CheckLeaf(c, l, a).value, CheckLeaf(c, l, b).value)
  {
    hide Apply, LeafArrow;
    if Polymorphic(l) {
    } else {
      hide CheckLeaf;
      CheckLeafArrow(c, l, a);
      CheckLeafArrow(c, l, b);
      ApplyShape(c.m.types, a, b);
    }
  }

  /** How many operands there are does not depend on their types. */
  lemma InstrShape(c: Context, i: Instr, a: Operands, b: Operands)
    requires SameShape(a, b) && Check(c, i, a).Some? && Check(c, i, b).Some?
    ensures SameShape(Check(c, i, a).value, Check(c, i, b).value)
  {
    hide Apply, CheckBody, CheckTable, CheckLeaf, PopAll;
    if i.Plain? {
      LeafShape(c, i.leaf, a, b);
    } else {
      ApplyShape(c.m.types, a, b);
    }
  }

  lemma {:induction false} SeqShape(c: Context, body: seq<Instr>, a: Operands, b: Operands)
    requires SameShape(a, b) && CheckSeq(c, body, a).Some? && CheckSeq(c, body, b).Some?
    ensures SameShape(CheckSeq(c, body, a).value, CheckSeq(c, body, b).value)
  {
    hide Check, SameShape;
    if body != [] {
      InstrShape(c, body[0], a, b);
      SeqShape(c, body[1..], Check(c, body[0], a).value, Check(c, body[0], b).value);
    }
  }

  /** Replacing operand types by subtypes, or by bottom, never turns an accepted
      sequence into a rejected one, and leaves operands that match. */
  lemma Subsumption(c: Context, body: seq<Instr>, a: Operands, b: Operands)
    requires SubOperands(c.m.types, a, b) && CheckSeq(c, body, b).Some?
    ensures CheckSeq(c, body, a).Some?
    ensures SubOperands(c.m.types, CheckSeq(c, body, a).value, CheckSeq(c, body, b).value)
  {
    hide CheckSeq, SeqTyped;
    var b' := CheckSeq(c, body, b).value;
    var s := SeqSound(c, body, b, b'.ops);
    SeqComplete(c, body, a, s, b'.ops);
    SeqShape(c, body, a, b);
    assert b'.ops[0..] == b'.ops;
  }
}
