/** Lowering and lifting as the store does them (src/runtime/store.rs): values are
    pushed onto a growing buffer, and read back behind a moving cursor. */
module CanonicalAbi {
  import opened Wasm
  import opened Runtime
  import opened Component
  import opened Flatten

  /** The word with bit `j` set. */
  function SetBit(w: nat, j: nat): nat { if Bit(w, j) then w else w + Pow2(j) }

  lemma {:induction false} SetBitSets(bits: seq<bool>, j: nat)
    requires j < |bits|
    ensures SetBit(FromBits(bits), j) == FromBits(bits[j := true])
  {
    BitsBack(bits, j);
    if j == 0 {
      assert bits[0 := true][1..] == bits[1..];
    } else {
      SetBitSets(bits[1..], j - 1);
      BitsBack(bits[1..], j - 1);
      assert bits[j := true][1..] == bits[1..][j - 1 := true];
    }
  }

  /** Values before the last already decide whether the rest can be lowered. */
  lemma {:induction false} LowerFailsEarly(types: seq<TypeDef>, vs: seq<Value>, i: nat)
    requires Acyclic(types) && i <= |vs| && LowerAll(types, vs[..i]).None?
    ensures LowerAll(types, vs).None?
    decreases |vs|
  {
    if i < |vs| {
      assert vs[..|vs| - 1][..i] == vs[..i];
      LowerFailsEarly(types, vs[..|vs| - 1], i);
    } else {
      assert vs[..i] == vs;
    }
  }

  lemma {:induction false} ArgsFailEarly(types: seq<TypeDef>, vs: seq<Value>, params: seq<ValueKind>, i: nat)
    requires Acyclic(types) && KindsBelow(params, |types|) && i <= |vs| && LowerArgs(types, vs[..i], params).None?
    ensures LowerArgs(types, vs, params).None?
    decreases |vs|
  {
    hide Lower;
    if i < |vs| {
      assert vs[..|vs| - 1][..i] == vs[..i];
      ArgsFailEarly(types, vs[..|vs| - 1], params, i);
    } else {
      assert vs[..i] == vs;
    }
  }

  lemma {:induction false} LiftFailsEarly(mem: Memory, types: seq<TypeDef>, ks: seq<ValueKind>, n: nat, flat: seq<Raw>,
                                          cursor: nat, i: nat)
    requires Acyclic(types) && n <= |types| && KindsBelow(ks, n) && i <= |ks|
    requires LiftAll(mem, types, ks[..i], n, flat, cursor).None?
    ensures LiftAll(mem, types, ks, n, flat, cursor).None?
    decreases |ks|
  {
    if i < |ks| {
      assert ks[..|ks| - 1][..i] == ks[..i];
      LiftFailsEarly(mem, types, ks[..|ks| - 1], n, flat, cursor, i);
    } else {
      assert ks[..i] == ks;
    }
  }

  lemma {:induction false} FlagFailsEarly(all: seq<Name>, names: seq<Name>, n: nat, i: nat)
    requires i <= |names| && FlagBits(all, names[..i], n).None?
    ensures FlagBits(all, names, n).None?
    decreases |names|
  {
    if i < |names| {
      assert names[..|names| - 1][..i] == names[..i];
      FlagFailsEarly(all, names[..|names| - 1], n, i);
    } else {
      assert names[..i] == names;
    }
  }

  /** The buffer that arguments are lowered into. */
  class FlatBuffer {
    var flat: seq<Raw>

    constructor ()
      ensures flat == []
    {
      flat := [];
    }

    /** Pushes what `v` lowers to; false for an error or a panic. */
    method LowerValue(types: seq<TypeDef>, v: Value, ty: Option<ValueKind>) returns (ok: bool)
      requires Acyclic(types) && (ty.Some? ==> KindBelow(ty.value, |types|))
      modifies this
      ensures ok <==> Lower(types, v, ty).Some?
      ensures ok ==> flat == old(flat) + Lower(types, v, ty).value
      decreases v, 0
    {
      hide LowerAll, LowerFields, MaxCounts, FlatCount, FlagWords, LowerScalar, VariantWords, Padding, Position, Values;
      match v
      case Scalar(p, n) =>
        if p == PString { return false; }
        flat := flat + [LowerScalar(p, n)];
        return true;
      case Record(fields) =>
        FieldsAreValues(types, fields);
        ok := LowerRecord(types, fields);
      case Tuple(vs) => ok := LowerTuple(types, vs);
      case Enum(name) =>
        match Resolved(types, ty) {
          case Some(EnumType(names)) =>
            var i := Find(names, name);
            if i.None? { return false; }
            flat := flat + [LowerScalar(PS32, i.value)];
            return true;
          case _ => return false;
        }
      case Optional(payload) =>
        match Resolved(types, ty) {
          case Some(OptionType(inner)) =>
            InnerBelow(types, ty.value);
            ok := LowerOption(types, payload, inner);
          case _ => return false;
        }
      case Outcome(isOk, payload) =>
        match Resolved(types, ty) {
          case Some(ResultType(okTy, errTy)) =>
            InnerBelow(types, ty.value);
            ok := LowerResult(types, isOk, payload, MaxCounts(types, [okTy, errTy], ty.value.index));
          case _ => return false;
        }
      case Variant(name, payload) =>
        match Resolved(types, ty) {
          case Some(VariantType(cases)) =>
            InnerBelow(types, ty.value);
            ok := LowerVariant(types, name, payload, cases, MaxCounts(types, CaseKinds(cases), ty.value.index));
          case _ => return false;
        }
      case Flags(names) =>
        match Resolved(types, ty) {
          case Some(FlagsType(all)) => ok := LowerFlags(all, names);
          case _ => return false;
        }
      case _ => return false;
    }

    /** Lowers the arguments of a call, each with its parameter's type if it has one. */
    method LowerValues(types: seq<TypeDef>, args: seq<Value>, params: seq<ValueKind>) returns (ok: bool)
      requires Acyclic(types) && KindsBelow(params, |types|)
      modifies this
      ensures ok <==> LowerArgs(types, args, params).Some?
      ensures ok ==> flat == old(flat) + LowerArgs(types, args, params).value
    {
      hide Lower;
      var i := 0;
      while i < |args|
        invariant i <= |args| && LowerArgs(types, args[..i], params).Some?
        invariant flat == old(flat) + LowerArgs(types, args[..i], params).value
      {
        ok := LowerValue(types, args[i], if i < |params| then Some(params[i]) else None);
        assert args[..i + 1][..i] == args[..i];
        if !ok {
          ArgsFailEarly(types, args, params, i + 1);
          return;
        }
        i := i + 1;
      }
      assert args[..i] == args;
      return true;
    }

    method LowerTuple(types: seq<TypeDef>, vs: seq<Value>) returns (ok: bool)
      requires Acyclic(types)
      modifies this
      ensures ok <==> LowerAll(types, vs).Some?
      ensures ok ==> flat == old(flat) + LowerAll(types, vs).value
      decreases vs, 1
    {
      hide Lower;
      var i := 0;
      while i < |vs|
        invariant i <= |vs| && LowerAll(types, vs[..i]).Some?
        invariant flat == old(flat) + LowerAll(types, vs[..i]).value
      {
        ok := LowerValue(types, vs[i], None);
        assert vs[..i + 1][..i] == vs[..i];
        if !ok {
          LowerFailsEarly(types, vs, i + 1);
          return;
        }
        i := i + 1;
      }
      assert vs[..i] == vs;
      return true;
    }

    method LowerRecord(types: seq<TypeDef>, fields: seq<Field>) returns (ok: bool)
      requires Acyclic(types)
      modifies this
      ensures ok <==> LowerAll(types, Values(fields)).Some?
      ensures ok ==> flat == old(flat) + LowerAll(types, Values(fields)).value
      decreases fields, 1
    {
      hide Lower;
      ghost var vs := Values(fields);
      var i := 0;
      while i < |fields|
        invariant i <= |fields| && LowerAll(types, vs[..i]).Some?
        invariant flat == old(flat) + LowerAll(types, vs[..i]).value
      {
        ok := LowerValue(types, fields[i].value, None);
        assert vs[..i + 1][..i] == vs[..i];
        if !ok {
          LowerFailsEarly(types, vs, i + 1);
          return;
        }
        i := i + 1;
      }
      assert vs[..i] == vs;
      return true;
    }

    method LowerOption(types: seq<TypeDef>, payload: Option<Value>, inner: ValueKind) returns (ok: bool)
      requires Acyclic(types) && KindBelow(inner, |types|)
      modifies this
      ensures ok ==> FlatCount(types, inner).Some?
      ensures payload.None? ==> ok == FlatCount(types, inner).Some?
      ensures payload.None? && ok ==>
                flat == old(flat) + ([LowerScalar(PS32, 0)] + Padding(FlatCount(types, inner).value))
      ensures payload.Some? ==> ok == (FlatCount(types, inner).Some? && Lower(types, payload.value, None).Some?)
      ensures payload.Some? && ok ==>
                flat == old(flat) + ([LowerScalar(PS32, 1)] + Lower(types, payload.value, None).value)
      decreases payload, 1
    {
      hide Lower, FlatCount;
      var count := FlatCount(types, inner);
      if count.None? { return false; }
      match payload
      case None =>
        flat := flat + ([LowerScalar(PS32, 0)] + Padding(count.value));
        return true;
      case Some(v) =>
        flat := flat + [LowerScalar(PS32, 1)];
        ok := LowerValue(types, v, None);
    }

    method LowerResult(types: seq<TypeDef>, isOk: bool, payload: Option<Value>, max: Option<nat>) returns (ok: bool)
      requires Acyclic(types)
      modifies this
      ensures var r := LowerPayload(types, payload);
              ok <==> max.Some? && r.Some? && |r.value| <= max.value
      ensures ok ==>
                var bs := LowerPayload(types, payload).value;
                flat == old(flat) + ([LowerScalar(PS32, if isOk then 0 else 1)] + bs + Padding(max.value - |bs|))
      decreases payload, 2
    {
      hide Lower;
      if max.None? { return false; }
      var before := |flat|;
      flat := flat + [LowerScalar(PS32, if isOk then 0 else 1)];
      if payload.Some? {
        ok := LowerValue(types, payload.value, None);
        if !ok { return; }
      }
      var written := |flat| - before - 1;
      if written > max.value { return false; }
      flat := flat + Padding(max.value - written);
      return true;
    }

    method LowerVariant(types: seq<TypeDef>, name: Name, payload: Option<Value>, cases: seq<VariantCase>,
                        max: Option<nat>)
      returns (ok: bool)
      requires Acyclic(types)
      modifies this
      ensures ok <==> && Position(CaseNames(cases), name).Some? && max.Some? && LowerPayload(types, payload).Some?
                      && VariantWords(Position(CaseNames(cases), name).value, LowerPayload(types, payload).value, max.value).Some?
      ensures ok ==>
                flat == old(flat) +
                VariantWords(Position(CaseNames(cases), name).value, LowerPayload(types, payload).value, max.value).value
      decreases payload, 2
    {
      hide Lower;
      var at := Find(CaseNames(cases), name);
      if at.None? || max.None? { return false; }
      flat := flat + [LowerScalar(PS32, at.value)];
      var before := |flat|;
      if payload.Some? {
        ok := LowerValue(types, payload.value, None);
        if !ok { return; }
      }
      if |flat| - before < 1 { return false; }
      var written := |flat| - before - 1;
      if written > max.value { return false; }
      flat := flat + Padding(max.value - written);
      return true;
    }

    /** One bit for each flag of the type, in words of 32. */
    method LowerFlags(all: seq<Name>, names: seq<Name>) returns (ok: bool)
      modifies this
      ensures ok <==> FlagWords(all, names).Some?
      ensures ok ==> flat == old(flat) + FlagWords(all, names).value
    {
      hide Position, Packs;
      var n := Words(|all|);
      var words := new nat[n](_ => 0);
      ghost var bits := seq(32 * n, _ => false);
      NoBits(words[..], n);
      assert |bits| == 32 * n;
      var i := 0;
      while i < |names|
        invariant i <= |names| && |bits| == 32 * n
        invariant FlagBits(all, names[..i], 32 * n) == Some(bits) && Packs(words[..], bits)
        modifies words
      {
        var at := Find(all, names[i]);
        assert names[..i + 1][..i] == names[..i];
        if at.None? {
          FlagFailsEarly(all, names, 32 * n, i + 1);
          return false;
        }
        PositionFinds(all, names[i]);
        SetFlag(words, at.value, bits);
        bits := bits[at.value := true];
        i := i + 1;
      }
      assert names[..i] == names;
      Push(words, bits);
      return true;
    }

    method Push(words: array<nat>, ghost bits: seq<bool>)
      requires Packs(words[..], bits)
      modifies this
      ensures flat == old(flat) + seq(words.Length, w requires 0 <= w < words.Length =>
                                      LowerScalar(PU32, FromBits(bits[32 * w..32 * w + 32])))
    {
      hide FromBits, LowerScalar;
      var k := 0;
      while k < words.Length
        invariant k <= words.Length
        invariant flat == old(flat) + seq(k, w requires 0 <= w < k => LowerScalar(PU32, FromBits(bits[32 * w..32 * w + 32])))
        modifies this
      {
        assert words[..][k] == FromBits(bits[32 * k..32 * k + 32]);
        flat := flat + [LowerScalar(PU32, words[k])];
        k := k + 1;
      }
    }
  }

  method SetFlag(words: array<nat>, at: nat, ghost bits: seq<bool>)
    requires Packs(words[..], bits) && at < |bits|
    modifies words
    ensures Packs(words[..], bits[at := true])
  {
    hide FromBits, SetBit, Packs;
    PacksSet(words[..], bits, at);
    ghost var was := words[..];
    SetBitSets(bits[32 * (at / 32)..32 * (at / 32) + 32], at % 32);
    words[at / 32] := SetBit(words[at / 32], at % 32);
    assert words[..] == was[at / 32 := words[at / 32]];
  }

  /** `words` hold the bits, 32 to a word. */
  ghost predicate Packs(words: seq<nat>, bits: seq<bool>) {
    |bits| == 32 * |words| && forall w :: 0 <= w < |words| ==> words[w] == FromBits(bits[32 * w..32 * w + 32])
  }

  lemma {:induction false} NoneSet(n: nat)
    ensures FromBits(seq(n, _ => false)) == 0
  {
    if n > 0 {
      assert seq(n, _ => false)[1..] == seq(n - 1, _ => false);
      NoneSet(n - 1);
    }
  }

  lemma NoBits(words: seq<nat>, n: nat)
    requires |words| == n && forall w :: 0 <= w < n ==> words[w] == 0
    ensures Packs(words, seq(32 * n, _ => false))
  {
    hide FromBits;
    NoneSet(32);
    var bits := seq(32 * n, _ => false);
    forall w | 0 <= w < n ensures words[w] == FromBits(bits[32 * w..32 * w + 32]) {
      assert bits[32 * w..32 * w + 32] == seq(32, _ => false);
    }
  }

  /** Setting a bit of one word leaves the others alone. */
  lemma PacksSet(words: seq<nat>, bits: seq<bool>, at: nat)
    requires Packs(words, bits) && at < |bits|
    ensures at / 32 < |words| && |bits| == 32 * |words|
    ensures words[at / 32] == FromBits(bits[32 * (at / 32)..32 * (at / 32) + 32])
    ensures Packs(words[at / 32 := FromBits(bits[32 * (at / 32)..32 * (at / 32) + 32][at % 32 := true])], bits[at := true])
  {
    hide FromBits;
    var (w, j) := (at / 32, at % 32);
    forall x | 0 <= x < |words|
      ensures bits[at := true][32 * x..32 * x + 32] ==
              if x == w then bits[32 * w..32 * w + 32][j := true] else bits[32 * x..32 * x + 32]
    {
    }
  }

  /** The first place of a name. */
  method Find(names: seq<Name>, name: Name) returns (r: Option<nat>)
    ensures r == Position(names, name)
  {
    var i := 0;
    while i < |names|
      invariant i <= |names|
      invariant Position(names, name) ==
                match Position(names[i..], name) { case None => None case Some(at) => Some(at + i) }
    {
      if names[i] == name { return Some(i); }
      assert names[i..][1..] == names[i + 1..];
      i := i + 1;
    }
    return None;
  }

  /** The cursor that results are lifted behind. */
  class FlatReader {
    const flat: seq<Raw>
    var cursor: nat

    constructor (flat: seq<Raw>)
      ensures this.flat == flat && cursor == 0
    {
      this.flat := flat;
      cursor := 0;
    }

    method LiftValue(mem: Memory, types: seq<TypeDef>, k: ValueKind) returns (r: Option<Value>)
      requires Acyclic(types) && KindBelow(k, |types|)
      modifies this
      ensures var l := Lift(mem, types, k, flat, old(cursor));
              r.Some? == l.Some? && (r.Some? ==> l.value == (r.value, cursor))
      decreases Rank(k), 0
    {
      hide LiftScalar, SetFlags, BranchIndex, AsI32, MaxCounts, FlatCount, LiftAll, LiftPayload;
      match k
      case Primitive(p) => r := LiftPrimitive(mem, p);
      case TypeRef(i) =>
        assert DefBelow(types[i], i);
        match types[i] {
          case Defined(ListType(elem)) =>
            if cursor + 1 >= |flat| || !elem.Primitive? { return None; }
            var vs := mem.items(elem.p, BranchIndex(flat[cursor]), BranchIndex(flat[cursor + 1]));
            if vs.None? { return None; }
            cursor := cursor + 2;
            return Some(Items(vs.value));
          case Defined(RecordType(fields)) =>
            var vs := LiftValues(mem, types, FieldKinds(fields), i);
            if vs.None? { return None; }
            return Some(Record(Labelled(fields, vs.value)));
          case Defined(TupleType(tys)) =>
            var vs := LiftValues(mem, types, tys, i);
            if vs.None? { return None; }
            return Some(Tuple(vs.value));
          case Defined(VariantType(cases)) =>
            var max := MaxCounts(types, CaseKinds(cases), i);
            if cursor >= |flat| { return None; }
            var d := BranchIndex(flat[cursor]);
            cursor := cursor + 1;
            if max.None? || d >= |cases| { return None; }
            assert CaseKinds(cases)[d] == cases[d].ty;
            var v := LiftCase(mem, types, cases[d].ty, i, max.value);
            if v.None? { return None; }
            return Some(Variant(cases[d].name, v.value));
          case Defined(EnumType(names)) =>
            if cursor >= |flat| { return None; }
            var d := BranchIndex(flat[cursor]);
            cursor := cursor + 1;
            if d >= |names| { return None; }
            return Some(Enum(names[d]));
          case Defined(OptionType(inner)) =>
            if cursor >= |flat| { return None; }
            var d := AsI32(flat[cursor]);
            cursor := cursor + 1;
            var count := FlatCount(types, inner);
            if count.None? { return None; }
            if d == 0 {
              cursor := cursor + count.value;
              return Some(Optional(None));
            }
            var v := LiftValue(mem, types, inner);
            if v.None? { return None; }
            return Some(Optional(v));
          case Defined(ResultType(ok, err)) =>
            var max := MaxCounts(types, [ok, err], i);
            if cursor >= |flat| { return None; }
            var isOk := AsI32(flat[cursor]) == 0;
            cursor := cursor + 1;
            if max.None? { return None; }
            assert [ok, err][0] == ok && [ok, err][1] == err;
            var v := LiftCase(mem, types, if isOk then ok else err, i, max.value);
            if v.None? { return None; }
            return Some(Outcome(isOk, v.value));
          case Defined(FlagsType(names)) => r := LiftFlags(names);
          case _ => return None;
        }
    }

    method LiftPrimitive(mem: Memory, p: PrimitiveKind) returns (r: Option<Value>)
      modifies this
      ensures var l := Lift(mem, [], Primitive(p), flat, old(cursor));
              r.Some? == l.Some? && (r.Some? ==> l.value == (r.value, cursor))
      ensures forall types: seq<TypeDef> :: Acyclic(types) ==>
                Lift(mem, types, Primitive(p), flat, old(cursor)) == Lift(mem, [], Primitive(p), flat, old(cursor))
    {
      hide LiftScalar, BranchIndex, AsI32;
      if cursor >= |flat| { return None; }
      var val := flat[cursor];
      cursor := cursor + 1;
      if p != PString { return Some(Scalar(p, LiftScalar(p, val))); }
      if cursor >= |flat| { return None; }
      var s := mem.text(BranchIndex(val), BranchIndex(flat[cursor]));
      cursor := cursor + 1;
      if s.None? { return None; }
      return Some(Text(s.value));
    }

    method LiftValues(mem: Memory, types: seq<TypeDef>, ks: seq<ValueKind>, n: nat) returns (r: Option<seq<Value>>)
      requires Acyclic(types) && n <= |types| && KindsBelow(ks, n)
      modifies this
      ensures var l := LiftAll(mem, types, ks, n, flat, old(cursor));
              r.Some? == l.Some? && (r.Some? ==> l.value == (r.value, cursor))
      decreases n, 1
    {
      hide Lift;
      var vs := [];
      var i := 0;
      while i < |ks|
        invariant i <= |ks| && LiftAll(mem, types, ks[..i], n, flat, old(cursor)) == Some((vs, cursor))
      {
        assert ks[..i + 1][..i] == ks[..i];
        var v := LiftValue(mem, types, ks[i]);
        if v.None? {
          LiftFailsEarly(mem, types, ks, n, flat, old(cursor), i + 1);
          return None;
        }
        vs := vs + [v.value];
        i := i + 1;
      }
      assert ks[..i] == ks;
      return Some(vs);
    }

    /** A payload; the cursor skips the padding up to `max`. */
    method LiftCase(mem: Memory, types: seq<TypeDef>, p: Option<ValueKind>, n: nat, max: nat)
      returns (r: Option<Option<Value>>)
      requires Acyclic(types) && n <= |types| && (p.Some? ==> KindBelow(p.value, n))
      modifies this
      ensures var l := LiftPayload(mem, types, p, n, max, flat, old(cursor));
              r.Some? == l.Some? && (r.Some? ==> l.value == (r.value, cursor))
      decreases n, 1
    {
      hide Lift, FlatCount;
      if p.None? {
        cursor := cursor + max;
        return Some(None);
      }
      var v := LiftValue(mem, types, p.value);
      var count := FlatCount(types, p.value);
      if v.None? || count.None? || count.value > max { return None; }
      cursor := cursor + (max - count.value);
      return Some(v);
    }

    /** The names whose bits are set, word by word. */
    method LiftFlags(names: seq<Name>) returns (r: Option<Value>)
      modifies this
      ensures r.Some? <==> old(cursor) + Words(|names|) <= |flat|
      ensures r.Some? ==>
                && cursor == old(cursor) + Words(|names|)
                && r.value == Flags(SetFlags(names, flat[old(cursor)..cursor]))
    {
      hide SetFlagsFrom;
      var n := Words(|names|);
      ghost var words := if cursor + n <= |flat| then flat[cursor..cursor + n] else [];
      NoFlags(names, words);
      var found := [];
      var w := 0;
      while w < n
        invariant w <= n && cursor == old(cursor) + w && (w > 0 ==> cursor <= |flat|)
        invariant words != [] ==> found == SetFlagsFrom(names, words, Least(32 * w, |names|))
      {
        if cursor >= |flat| { return None; }
        var word := AsI32(flat[cursor]) % TWO_TO_32;
        cursor := cursor + 1;
        found := LiftWord(names, word, w, found, words);
        w := w + 1;
      }
      return Some(Flags(found));
    }
  }

  function Least(a: nat, b: nat): nat { if a < b then a else b }

  lemma NoFlags(names: seq<Name>, words: seq<Raw>)
    requires words != [] ==> |names| <= 32 * |words|
    ensures words != [] ==> SetFlagsFrom(names, words, 0) == []
  {
  }

  /** The names whose bits are set in word `w` come after those found before. */
  method LiftWord(names: seq<Name>, word: nat, w: nat, before: seq<Name>, ghost words: seq<Raw>)
    returns (found: seq<Name>)
    requires words != [] ==> |names| <= 32 * |words| && w < |words| && word == AsI32(words[w]) % TWO_TO_32
    requires words != [] ==> before == SetFlagsFrom(names, words, Least(32 * w, |names|))
    ensures words != [] ==> found == SetFlagsFrom(names, words, Least(32 * w + 32, |names|))
  {
    hide Bit, AsI32, SetFlagsFrom;
    found := before;
    var bit := 0;
    while bit < 32
      invariant bit <= 32
      invariant words != [] ==> found == SetFlagsFrom(names, words, Least(32 * w + bit, |names|))
    {
      var at := w * 32 + bit;
      if words != [] { FlagNext(names, words, w, bit); }
      if at < |names| && Bit(word, bit) { found := found + [names[at]]; }
      bit := bit + 1;
    }
  }

  lemma FlagNext(names: seq<Name>, words: seq<Raw>, w: nat, bit: nat)
    requires |names| <= 32 * |words| && w < |words| && bit < 32
    ensures var at := 32 * w + bit;
            SetFlagsFrom(names, words, Least(at + 1, |names|)) ==
            SetFlagsFrom(names, words, Least(at, |names|)) +
            if at < |names| && Bit(AsI32(words[w]) % TWO_TO_32, bit) then [names[at]] else []
  {
    hide Bit, AsI32;
    var at := 32 * w + bit;
    assert at / 32 == w && at % 32 == bit;
  }
}
