/** Component values as flat sequences of core values (src/component/model.rs:
    flat_count; src/runtime/store.rs: lower_value, lift_value). Strings and lists
    are lifted through memory, given by a parameter, and not lowered. */
module Flatten {
  import opened Wasm
  import opened Runtime
  import opened Component

  /** A scalar is the integer it stands for: the bits of a float, the code of a
      character, 0 or 1 for a boolean. */
  datatype Value =
    | Scalar(p: PrimitiveKind, v: int)
    | Text(s: Name)
    | Items(vs: seq<Value>)
    | Record(fields: seq<Field>)
    | Tuple(vs: seq<Value>)
    | Variant(name: Name, payload: Option<Value>)
    | Enum(name: Name)
    | Optional(payload: Option<Value>)
    | Outcome(ok: bool, payload: Option<Value>)
    | Flags(names: seq<Name>)

  datatype Field = Field(name: Name, value: Value)

  // ----- type tables -----

  /** A type refers to types with smaller indices only. */
  predicate KindBelow(k: ValueKind, n: nat) {
    k.TypeRef? ==> k.index < n
  }

  predicate KindsBelow(ks: seq<ValueKind>, n: nat) {
    forall i :: 0 <= i < |ks| ==> KindBelow(ks[i], n)
  }

  function FieldKinds(fields: seq<(Name, ValueKind)>): (r: seq<ValueKind>)
    ensures |r| == |fields|
  {
    seq(|fields|, i requires 0 <= i < |fields| => fields[i].1)
  }

  /** The kinds of the payloads that cases have. */
  function CaseKinds(cases: seq<VariantCase>): seq<Option<ValueKind>> {
    seq(|cases|, i requires 0 <= i < |cases| => cases[i].ty)
  }

  predicate PayloadsBelow(ps: seq<Option<ValueKind>>, n: nat) {
    forall i :: 0 <= i < |ps| && ps[i].Some? ==> KindBelow(ps[i].value, n)
  }

  predicate DefBelow(d: TypeDef, n: nat) {
    d.Defined? ==>
      match d.d
      case RecordType(fields) => KindsBelow(FieldKinds(fields), n)
      case TupleType(tys) => KindsBelow(tys, n)
      case VariantType(cases) => PayloadsBelow(CaseKinds(cases), n)
      case OptionType(inner) => KindBelow(inner, n)
      case ResultType(ok, err) => PayloadsBelow([ok, err], n)
      case _ => true
  }

  predicate Acyclic(types: seq<TypeDef>) {
    forall i :: 0 <= i < |types| ==> DefBelow(types[i], i)
  }

  function Rank(k: ValueKind): nat { if k.TypeRef? then k.index + 1 else 0 }

  // ----- flat counts -----

  function Words(n: nat): nat { if n == 0 then 1 else (n + 31) / 32 }

  function Plus(a: Option<nat>, b: Option<nat>): Option<nat> {
    if a.Some? && b.Some? then Some(a.value + b.value) else None
  }

  function Greater(a: Option<nat>, b: Option<nat>): Option<nat> {
    if a.Some? && b.Some? then Some(if a.value < b.value then b.value else a.value) else None
  }

  /** The number of core values that a value of the kind takes; None where the
      source is unfinished and panics. */
  function FlatCount(types: seq<TypeDef>, k: ValueKind): Option<nat>
    requires Acyclic(types) && KindBelow(k, |types|)
    decreases Rank(k), 0
  {
    match k
    case Primitive(p) => Some(if p == PString then 2 else 1)
    case TypeRef(i) =>
      assert DefBelow(types[i], i);
      match types[i]
      case Defined(ListType(_)) => Some(2)
      case Defined(RecordType(fields)) => SumCounts(types, FieldKinds(fields), i)
      case Defined(TupleType(tys)) => SumCounts(types, tys, i)
      case Defined(VariantType(cases)) => Plus(Some(1), MaxCounts(types, CaseKinds(cases), i))
      case Defined(EnumType(_)) => Some(1)
      case Defined(OptionType(inner)) => Plus(Some(1), FlatCount(types, inner))
      case Defined(ResultType(ok, err)) => Plus(Some(1), MaxCounts(types, [ok, err], i))
      case Defined(FlagsType(names)) => Some(Words(|names|))
      case _ => None
  }

  function SumCounts(types: seq<TypeDef>, ks: seq<ValueKind>, n: nat): Option<nat>
    requires Acyclic(types) && n <= |types| && KindsBelow(ks, n)
    decreases n, 1 + |ks|
  {
    if ks == [] then Some(0)
    else Plus(SumCounts(types, ks[..|ks| - 1], n), FlatCount(types, ks[|ks| - 1]))
  }

  function PayloadCount(types: seq<TypeDef>, p: Option<ValueKind>, n: nat): Option<nat>
    requires Acyclic(types) && n <= |types| && (p.Some? ==> KindBelow(p.value, n))
    decreases n, 1
  {
    if p.Some? then FlatCount(types, p.value) else Some(0)
  }

  function MaxCounts(types: seq<TypeDef>, ps: seq<Option<ValueKind>>, n: nat): Option<nat>
    requires Acyclic(types) && n <= |types| && PayloadsBelow(ps, n)
    decreases n, 2 + |ps|
  {
    if ps == [] then Some(0)
    else Greater(MaxCounts(types, ps[..|ps| - 1], n), PayloadCount(types, ps[|ps| - 1], n))
  }

  lemma {:induction false} MaxIsMax(types: seq<TypeDef>, ps: seq<Option<ValueKind>>, n: nat, i: nat)
    requires Acyclic(types) && n <= |types| && PayloadsBelow(ps, n) && i < |ps|
    requires MaxCounts(types, ps, n).Some?
    ensures PayloadCount(types, ps[i], n).Some? && PayloadCount(types, ps[i], n).value <= MaxCounts(types, ps, n).value
    decreases |ps|
  {
    if i < |ps| - 1 { MaxIsMax(types, ps[..|ps| - 1], n, i); }
  }

  // ----- scalars -----

  predicate InRange(p: PrimitiveKind, v: int) {
    match p
    case PBool => 0 <= v < 2
    case PS8 => -0x80 <= v < 0x80
    case PU8 => 0 <= v < 0x100
    case PS16 => -0x8000 <= v < 0x8000
    case PU16 => 0 <= v < 0x1_0000
    case PS32 => -0x8000_0000 <= v < 0x8000_0000
    case PU32 => 0 <= v < TWO_TO_32
    case PS64 => -0x8000_0000_0000_0000 <= v < 0x8000_0000_0000_0000
    case PU64 => 0 <= v < TWO_TO_64
    case PF32 => 0 <= v < TWO_TO_32
    case PF64 => 0 <= v < TWO_TO_64
    case PChar => IsChar(v)
    case PString => false
  }

  /** Unicode scalar values. */
  predicate IsChar(v: int) {
    0 <= v < 0xD800 || 0xE000 <= v < 0x11_0000
  }

  function LowerScalar(p: PrimitiveKind, v: int): Raw {
    match p
    case PS64 => ToRaw(v)
    case PU64 => ToRaw(v)
    case PF32 => v % TWO_TO_64
    case PF64 => v % TWO_TO_64
    case _ => ToRaw(Signed(v % TWO_TO_32, 4))
  }

  function LiftScalar(p: PrimitiveKind, r: Raw): int {
    match p
    case PBool => if AsI32(r) != 0 then 1 else 0
    case PS8 => Signed(AsI32(r) % 0x100, 1)
    case PU8 => AsI32(r) % 0x100
    case PS16 => Signed(AsI32(r) % 0x1_0000, 2)
    case PU16 => AsI32(r) % 0x1_0000
    case PS32 => AsI32(r)
    case PU32 => AsI32(r) % TWO_TO_32
    case PS64 => AsI64(r)
    case PU64 => AsI64(r) % TWO_TO_64
    case PF32 => AsI32(r) % TWO_TO_32
    case PF64 => AsI64(r) % TWO_TO_64
    case PChar => if IsChar(AsI32(r) % TWO_TO_32) then AsI32(r) % TWO_TO_32 else 0xFFFD
    case PString => 0
  }

  lemma ScalarRoundTrip(p: PrimitiveKind, v: int)
    requires InRange(p, v)
    ensures LiftScalar(p, LowerScalar(p, v)) == v
  {
    match p
    case PS64 => LongBack(v);
    case PU64 => LongBack(v);
    case PF32 => assert LowerScalar(p, v) == v;
    case PF64 => assert LowerScalar(p, v) == v;
    case _ =>
      hide AsI32, ToRaw;
      WordBack(v);
      NarrowBack(p, v);
  }

  lemma LongBack(v: int)
    requires -0x8000_0000_0000_0000 <= v < TWO_TO_64
    ensures AsI64(ToRaw(v)) == if v < 0x8000_0000_0000_0000 then v else v - TWO_TO_64
  {
    if v < 0 { assert ToRaw(v) == v + TWO_TO_64; }
  }

  /** What a narrow scalar is read as, once the slot holds its 32-bit integer. */
  lemma NarrowBack(p: PrimitiveKind, v: int)
    requires InRange(p, v) && !p.PS64? && !p.PU64? && !p.PF32? && !p.PF64?
    requires AsI32(LowerScalar(p, v)) == Wrapped(v)
    ensures LiftScalar(p, LowerScalar(p, v)) == v
  {
    hide AsI32, LowerScalar;
    assert Wrapped(v) % TWO_TO_32 == v % TWO_TO_32;
  }

  /** An integer of either sign as the 32-bit integer it is stored as. */
  function Wrapped(v: int): int { if v < 0x8000_0000 then v else v - TWO_TO_32 }

  /** A 32-bit integer survives the sign extension to a slot. */
  lemma WordBack(v: int)
    requires -0x8000_0000 <= v < TWO_TO_32
    ensures AsI32(ToRaw(Signed(v % TWO_TO_32, 4))) == Wrapped(v)
  {
    assert v % TWO_TO_32 == if v < 0 then v + TWO_TO_32 else v;
    var w := Wrapped(v);
    assert Signed(v % TWO_TO_32, 4) == w;
    if w < 0 {
      assert ToRaw(w) == w + TWO_TO_64 && (w + TWO_TO_64) % TWO_TO_32 == w + TWO_TO_32;
    }
  }

  // ----- lifting -----

  /** What strings and lists are read as, from where they lie in memory. */
  datatype Memory = Memory(text: (nat, nat) -> Option<Name>, items: (PrimitiveKind, nat, nat) -> Option<seq<Value>>)

  /** A lifted value, and where the cursor is after it. */
  type Lifted = Option<(Value, nat)>

  /** Lifts a value from the flat values at the cursor; None for an error or a panic. */
  function Lift(mem: Memory, types: seq<TypeDef>, k: ValueKind, flat: seq<Raw>, cursor: nat): Lifted
    requires Acyclic(types) && KindBelow(k, |types|)
    decreases Rank(k), 0
  {
    match k
    case Primitive(p) =>
      if p == PString then
        if cursor + 1 >= |flat| then None
        else
          var s := mem.text(BranchIndex(flat[cursor]), BranchIndex(flat[cursor + 1]));
          if s.Some? then Some((Text(s.value), cursor + 2)) else None
      else if cursor >= |flat| then None
      else Some((Scalar(p, LiftScalar(p, flat[cursor])), cursor + 1))
    case TypeRef(i) =>
      assert DefBelow(types[i], i);
      match types[i]
      case Defined(ListType(elem)) =>
        if cursor + 1 >= |flat| || !elem.Primitive? then None
        else
          var vs := mem.items(elem.p, BranchIndex(flat[cursor]), BranchIndex(flat[cursor + 1]));
          if vs.Some? then Some((Items(vs.value), cursor + 2)) else None
      case Defined(RecordType(fields)) =>
        (match LiftAll(mem, types, FieldKinds(fields), i, flat, cursor)
         case None => None
         case Some((vs, c)) => Some((Record(Labelled(fields, vs)), c)))
      case Defined(TupleType(tys)) =>
        (match LiftAll(mem, types, tys, i, flat, cursor)
         case None => None
         case Some((vs, c)) => Some((Tuple(vs), c)))
      case Defined(VariantType(cases)) =>
        var max := MaxCounts(types, CaseKinds(cases), i);
        if cursor >= |flat| || max.None? || BranchIndex(flat[cursor]) >= |cases| then None
        else
          var which := cases[BranchIndex(flat[cursor])];
          assert CaseKinds(cases)[BranchIndex(flat[cursor])] == which.ty;
          (match LiftPayload(mem, types, which.ty, i, max.value, flat, cursor + 1)
           case None => None
           case Some((v, c)) => Some((Variant(which.name, v), c)))
      case Defined(EnumType(names)) =>
        if cursor >= |flat| || BranchIndex(flat[cursor]) >= |names| then None
        else Some((Enum(names[BranchIndex(flat[cursor])]), cursor + 1))
      case Defined(OptionType(inner)) =>
        var count := FlatCount(types, inner);
        if cursor >= |flat| || count.None? then None
        else if AsI32(flat[cursor]) == 0 then Some((Optional(None), cursor + 1 + count.value))
        else
          (match Lift(mem, types, inner, flat, cursor + 1)
           case None => None
           case Some((v, c)) => Some((Optional(Some(v)), c)))
      case Defined(ResultType(ok, err)) =>
        var max := MaxCounts(types, [ok, err], i);
        if cursor >= |flat| || max.None? then None
        else
          var isOk := AsI32(flat[cursor]) == 0;
          assert [ok, err][0] == ok && [ok, err][1] == err;
          (match LiftPayload(mem, types, if isOk then ok else err, i, max.value, flat, cursor + 1)
           case None => None
           case Some((v, c)) => Some((Outcome(isOk, v), c)))
      case Defined(FlagsType(names)) =>
        if cursor + Words(|names|) > |flat| then None
        else Some((Flags(SetFlags(names, flat[cursor..cursor + Words(|names|)])), cursor + Words(|names|)))
      case _ => None
  }

  function LiftAll(mem: Memory, types: seq<TypeDef>, ks: seq<ValueKind>, n: nat, flat: seq<Raw>, cursor: nat): (r: Option<(seq<Value>, nat)>)
    requires Acyclic(types) && n <= |types| && KindsBelow(ks, n)
    ensures r.Some? ==> |r.value.0| == |ks|
    decreases n, 1 + |ks|
  {
    if ks == [] then Some(([], cursor))
    else
      match LiftAll(mem, types, ks[..|ks| - 1], n, flat, cursor)
      case None => None
      case Some((vs, c)) =>
        match Lift(mem, types, ks[|ks| - 1], flat, c)
        case None => None
        case Some((v, c')) => Some((vs + [v], c'))
  }

  /** A payload, padded to `max` flat values. */
  function LiftPayload(mem: Memory, types: seq<TypeDef>, p: Option<ValueKind>, n: nat, max: nat, flat: seq<Raw>,
                       cursor: nat): Option<(Option<Value>, nat)>
    requires Acyclic(types) && n <= |types| && (p.Some? ==> KindBelow(p.value, n))
    decreases n, 1
  {
    if p.None? then Some((None, cursor + max))
    else
      var count := FlatCount(types, p.value);
      match Lift(mem, types, p.value, flat, cursor)
      case None => None
      case Some((v, c)) =>
        if count.None? || count.value > max then None else Some((Some(v), c + (max - count.value)))
  }

  function Labelled(fields: seq<(Name, ValueKind)>, vs: seq<Value>): seq<Field>
    requires |vs| == |fields|
  {
    seq(|fields|, i requires 0 <= i < |fields| => Field(fields[i].0, vs[i]))
  }

  /** Bit `j` of a word. */
  predicate Bit(w: nat, j: nat) {
    if j == 0 then w % 2 == 1 else Bit(w / 2, j - 1)
  }

  /** The flags whose bits are set, in the order of their names. */
  function SetFlags(names: seq<Name>, words: seq<Raw>): seq<Name>
    requires |names| <= 32 * |words|
  {
    SetFlagsFrom(names, words, |names|)
  }

  function SetFlagsFrom(names: seq<Name>, words: seq<Raw>, n: nat): seq<Name>
    requires n <= |names| <= 32 * |words|
  {
    if n == 0 then []
    else
      var rest := SetFlagsFrom(names, words, n - 1);
      if Bit(AsI32(words[(n - 1) / 32]) % TWO_TO_32, (n - 1) % 32) then rest + [names[n - 1]] else rest
  }

  /** Lifting moves the cursor by exactly the flat count of the kind. */
  lemma {:induction false} LiftAdvances(mem: Memory, types: seq<TypeDef>, k: ValueKind, flat: seq<Raw>, cursor: nat)
    requires Acyclic(types) && KindBelow(k, |types|) && Lift(mem, types, k, flat, cursor).Some?
    ensures FlatCount(types, k).Some?
    ensures Lift(mem, types, k, flat, cursor).value.1 == cursor + FlatCount(types, k).value
    decreases Rank(k), 0
  {
    hide LiftScalar, SetFlags, BranchIndex, AsI32;
    if k.TypeRef? {
      var i := k.index;
      assert DefBelow(types[i], i);
      match types[i]
      case Defined(RecordType(fields)) => AllAdvance(mem, types, FieldKinds(fields), i, flat, cursor);
      case Defined(TupleType(tys)) => AllAdvance(mem, types, tys, i, flat, cursor);
      case Defined(VariantType(cases)) =>
        var d := BranchIndex(flat[cursor]);
        assert CaseKinds(cases)[d] == cases[d].ty;
        PayloadAdvances(mem, types, cases[d].ty, i, MaxCounts(types, CaseKinds(cases), i).value, flat, cursor + 1);
      case Defined(OptionType(inner)) =>
        if AsI32(flat[cursor]) != 0 { LiftAdvances(mem, types, inner, flat, cursor + 1); }
      case Defined(ResultType(ok, err)) =>
        var isOk := AsI32(flat[cursor]) == 0;
        assert [ok, err][0] == ok && [ok, err][1] == err;
        PayloadAdvances(mem, types, if isOk then ok else err, i, MaxCounts(types, [ok, err], i).value, flat, cursor + 1);
      case _ =>
    }
  }

  lemma {:induction false} AllAdvance(mem: Memory, types: seq<TypeDef>, ks: seq<ValueKind>, n: nat, flat: seq<Raw>,
                                      cursor: nat)
    requires Acyclic(types) && n <= |types| && KindsBelow(ks, n) && LiftAll(mem, types, ks, n, flat, cursor).Some?
    ensures SumCounts(types, ks, n).Some?
    ensures LiftAll(mem, types, ks, n, flat, cursor).value.1 == cursor + SumCounts(types, ks, n).value
    decreases n, 1 + |ks|
  {
    hide Lift, FlatCount;
    if ks != [] {
      AllAdvance(mem, types, ks[..|ks| - 1], n, flat, cursor);
      LiftAdvances(mem, types, ks[|ks| - 1], flat, LiftAll(mem, types, ks[..|ks| - 1], n, flat, cursor).value.1);
    }
  }

  lemma {:induction false} PayloadAdvances(mem: Memory, types: seq<TypeDef>, p: Option<ValueKind>, n: nat, max: nat,
                                           flat: seq<Raw>, cursor: nat)
    requires Acyclic(types) && n <= |types| && (p.Some? ==> KindBelow(p.value, n))
    requires LiftPayload(mem, types, p, n, max, flat, cursor).Some?
    ensures LiftPayload(mem, types, p, n, max, flat, cursor).value.1 == cursor + max
    decreases n, 1
  {
    hide Lift, FlatCount;
    if p.Some? { LiftAdvances(mem, types, p.value, flat, cursor); }
  }

  // ----- lowering -----

  /** The defined type of a parameter; nested values are lowered without one. */
  function Resolved(types: seq<TypeDef>, ty: Option<ValueKind>): Option<DefinedKind>
    requires ty.Some? ==> KindBelow(ty.value, |types|)
  {
    if ty.Some? && ty.value.TypeRef? && types[ty.value.index].Defined? then Some(types[ty.value.index].d) else None
  }

  /** A word for padding: the largest 32-bit integer. */
  const PADDING: Raw := 0x7FFF_FFFF

  function Padding(n: nat): seq<Raw> {
    seq(n, _ => PADDING)
  }

  function Position(names: seq<Name>, name: Name): Option<nat> {
    if names == [] then None
    else if names[0] == name then Some(0)
    else
      var r := Position(names[1..], name);
      if r.Some? then Some(r.value + 1) else None
  }

  /** Lowers a value; None for an error, a panic, or a string or list. */
  function Lower(types: seq<TypeDef>, v: Value, ty: Option<ValueKind>): Option<seq<Raw>>
    requires Acyclic(types) && (ty.Some? ==> KindBelow(ty.value, |types|))
    decreases v, 0
  {
    match v
    case Scalar(p, n) => if p == PString then None else Some([LowerScalar(p, n)])
    case Record(fields) => LowerFields(types, fields)
    case Tuple(vs) => LowerAll(types, vs)
    case Enum(name) =>
      (match Resolved(types, ty)
       case Some(EnumType(names)) =>
         (match Position(names, name)
          case None => None
          case Some(i) => Some([LowerScalar(PS32, i)]))
       case _ => None)
    case Optional(payload) =>
      (match Resolved(types, ty)
       case Some(OptionType(inner)) =>
         InnerBelow(types, ty.value);
         var count := FlatCount(types, inner);
         if count.None? then None
         else if payload.None? then Some([LowerScalar(PS32, 0)] + Padding(count.value))
         else
           (match Lower(types, payload.value, None)
            case None => None
            case Some(bs) => Some([LowerScalar(PS32, 1)] + bs))
       case _ => None)
    case Outcome(ok, payload) =>
      (match Resolved(types, ty)
       case Some(ResultType(okTy, errTy)) =>
         InnerBelow(types, ty.value);
         var max := MaxCounts(types, [okTy, errTy], ty.value.index);
         var bs := LowerPayload(types, payload);
         if max.None? || bs.None? || |bs.value| > max.value then None
         else Some([LowerScalar(PS32, if ok then 0 else 1)] + bs.value + Padding(max.value - |bs.value|))
       case _ => None)
    case Variant(name, payload) =>
      (match Resolved(types, ty)
       case Some(VariantType(cases)) =>
         InnerBelow(types, ty.value);
         var max := MaxCounts(types, CaseKinds(cases), ty.value.index);
         var at := Position(CaseNames(cases), name);
         var bs := LowerPayload(types, payload);
         if at.None? || max.None? || bs.None? then None
         else VariantWords(at.value, bs.value, max.value)
       case _ => None)
    case Flags(names) =>
      (match Resolved(types, ty)
       case Some(FlagsType(all)) => FlagWords(all, names)
       case _ => None)
    case _ => None
  }

  function CaseNames(cases: seq<VariantCase>): seq<Name> {
    seq(|cases|, i requires 0 <= i < |cases| => cases[i].name)
  }

  /** The tag and the payload of a variant, padded as the source counts: one word
      of the payload is taken for the tag. Without a payload word the count falls
      below zero. This is the build with overflow checks, which panics there; in a
      release build the subtraction wraps and the padding is one word more than
      the maximum. */
  function VariantWords(at: nat, bs: seq<Raw>, max: nat): Option<seq<Raw>> {
    if |bs| == 0 || |bs| - 1 > max then None
    else Some([LowerScalar(PS32, at)] + bs + Padding(max - (|bs| - 1)))
  }

  function LowerPayload(types: seq<TypeDef>, payload: Option<Value>): Option<seq<Raw>>
    requires Acyclic(types)
    decreases payload, 1
  {
    if payload.Some? then Lower(types, payload.value, None) else Some([])
  }

  /** What the definition behind a reference refers to. */
  lemma InnerBelow(types: seq<TypeDef>, k: ValueKind)
    requires Acyclic(types) && KindBelow(k, |types|) && k.TypeRef?
    ensures DefBelow(types[k.index], k.index)
    ensures types[k.index].Defined? && types[k.index].d.OptionType? ==> KindBelow(types[k.index].d.inner, |types|)
    ensures types[k.index].Defined? && types[k.index].d.ResultType? ==>
              PayloadsBelow([types[k.index].d.ok, types[k.index].d.err], k.index)
    ensures types[k.index].Defined? && types[k.index].d.VariantType? ==> PayloadsBelow(CaseKinds(types[k.index].d.cases), k.index)
  {
  }

  function LowerAll(types: seq<TypeDef>, vs: seq<Value>): Option<seq<Raw>>
    requires Acyclic(types)
    decreases vs, 1
  {
    if vs == [] then Some([])
    else
      match LowerAll(types, vs[..|vs| - 1])
      case None => None
      case Some(bs) =>
        match Lower(types, vs[|vs| - 1], None)
        case None => None
        case Some(cs) => Some(bs + cs)
  }

  function LowerFields(types: seq<TypeDef>, fields: seq<Field>): Option<seq<Raw>>
    requires Acyclic(types)
    decreases fields, 1
  {
    if fields == [] then Some([])
    else
      match LowerFields(types, fields[..|fields| - 1])
      case None => None
      case Some(bs) =>
        match Lower(types, fields[|fields| - 1].value, None)
        case None => None
        case Some(cs) => Some(bs + cs)
  }

  // ----- flag words -----

  /** The number whose bits from bit 0 on are these. */
  function FromBits(bits: seq<bool>): nat {
    if bits == [] then 0 else (if bits[0] then 1 else 0) + 2 * FromBits(bits[1..])
  }

  /** Which of the bits of `n` words are set: a bit for each known name. */
  function FlagBits(all: seq<Name>, names: seq<Name>, n: nat): Option<seq<bool>> {
    if names == [] then Some(seq(n, _ => false))
    else
      var bits := FlagBits(all, names[..|names| - 1], n);
      var i := Position(all, names[|names| - 1]);
      if bits.None? || i.None? || i.value >= |bits.value| then None else Some(bits.value[i.value := true])
  }

  function FlagWords(all: seq<Name>, names: seq<Name>): Option<seq<Raw>> {
    var n := Words(|all|);
    var bits := FlagBits(all, names, 32 * n);
    if bits.None? || |bits.value| != 32 * n then None
    else Some(seq(n, w requires 0 <= w < n => LowerScalar(PU32, FromBits(bits.value[32 * w..32 * w + 32]))))
  }

  lemma {:induction false} BitsBack(bits: seq<bool>, j: nat)
    requires j < |bits|
    ensures Bit(FromBits(bits), j) == bits[j]
  {
    if j > 0 {
      BitsBack(bits[1..], j - 1);
      assert FromBits(bits) / 2 == FromBits(bits[1..]);
    }
  }

  lemma {:induction false} BitsBound(bits: seq<bool>)
    ensures FromBits(bits) < Pow2(|bits|)
  {
    if bits != [] { BitsBound(bits[1..]); }
  }

  lemma WordBits(bits: seq<bool>, j: nat)
    requires |bits| == 32 && j < 32
    ensures Bit(AsI32(LowerScalar(PU32, FromBits(bits))) % TWO_TO_32, j) == bits[j]
  {
    hide Pow2, AsI32, ToRaw, Signed, FromBits, Bit;
    BitsBound(bits);
    WordPower();
    WordBack(FromBits(bits));
    BitsBack(bits, j);
  }

  lemma WordPower()
    ensures Pow2(32) == TWO_TO_32
  {
    assert Pow2(8) == 256;
    assert Pow2(16) == 256 * Pow2(8);
    assert Pow2(24) == 256 * Pow2(16);
    assert Pow2(32) == 256 * Pow2(24);
  }

  lemma {:induction false} PositionFinds(names: seq<Name>, name: Name)
    ensures Position(names, name).Some? <==> name in names
    ensures Position(names, name).Some? ==> Position(names, name).value < |names| && names[Position(names, name).value] == name
  {
    if names != [] && names[0] != name { PositionFinds(names[1..], name); }
  }

  /** The bits set are those of the names given. */
  lemma {:induction false} FlagBitsAre(all: seq<Name>, names: seq<Name>, n: nat)
    requires |all| <= n && forall i :: 0 <= i < |names| ==> names[i] in all
    ensures FlagBits(all, names, n).Some? && |FlagBits(all, names, n).value| == n
    ensures forall i :: 0 <= i < n ==>
              (FlagBits(all, names, n).value[i] <==> i < |all| && all[i] in names && Position(all, all[i]) == Some(i))
    decreases |names|
  {
    if names != [] {
      var (init, last) := (names[..|names| - 1], names[|names| - 1]);
      FlagBitsAre(all, init, n);
      PositionFinds(all, last);
      assert names == init + [last];
      forall i | 0 <= i < |all| ensures all[i] in names <==> all[i] in init || all[i] == last { }
    }
  }

  /** Lifting lowered flags gives the same flags, each once and in the order of
      their names. */
  lemma FlagsRoundTrip(all: seq<Name>, names: seq<Name>)
    requires forall i :: 0 <= i < |names| ==> names[i] in all
    ensures FlagWords(all, names).Some? && |FlagWords(all, names).value| == Words(|all|)
    ensures forall name :: name in SetFlags(all, FlagWords(all, names).value) <==> name in names
  {
    var n := Words(|all|);
    FlagBitsAre(all, names, 32 * n);
    var bits := FlagBits(all, names, 32 * n).value;
    var words := FlagWords(all, names).value;
    FlagsBack(all, names, bits, words, |all|);
    forall name | name in names ensures exists i :: 0 <= i < |all| && all[i] == name && bits[i] {
      PositionFinds(all, name);
      var i := Position(all, name).value;
      assert all[i] == name && bits[i];
    }
  }

  lemma {:induction false} FlagsBack(all: seq<Name>, names: seq<Name>, bits: seq<bool>, words: seq<Raw>, n: nat)
    requires n <= |all| <= 32 * |words| && |bits| == 32 * |words|
    requires words == seq(|words|, w requires 0 <= w < |words| => LowerScalar(PU32, FromBits(bits[32 * w..32 * w + 32])))
    ensures forall name :: name in SetFlagsFrom(all, words, n) <==> exists i :: 0 <= i < n && all[i] == name && bits[i]
  {
    if n > 0 {
      FlagsBack(all, names, bits, words, n - 1);
      var (w, j) := ((n - 1) / 32, (n - 1) % 32);
      WordBits(bits[32 * w..32 * w + 32], j);
      assert bits[32 * w..32 * w + 32][j] == bits[n - 1];
    }
  }

  // ----- round trips -----

  /** Scalars, and records and tuples of such. */
  predicate Plain(types: seq<TypeDef>, k: ValueKind)
    requires Acyclic(types) && KindBelow(k, |types|)
    decreases Rank(k), 0
  {
    match k
    case Primitive(p) => p != PString
    case TypeRef(i) =>
      assert DefBelow(types[i], i);
      match types[i]
      case Defined(RecordType(fields)) => AllPlain(types, FieldKinds(fields), i)
      case Defined(TupleType(tys)) => AllPlain(types, tys, i)
      case _ => false
  }

  predicate AllPlain(types: seq<TypeDef>, ks: seq<ValueKind>, n: nat)
    requires Acyclic(types) && n <= |types| && KindsBelow(ks, n)
    decreases n, 1
  {
    forall i :: 0 <= i < |ks| ==> Plain(types, ks[i])
  }

  /** The value is one of a plain kind. */
  predicate HasKind(types: seq<TypeDef>, v: Value, k: ValueKind)
    requires Acyclic(types) && KindBelow(k, |types|)
    decreases Rank(k), 0
  {
    match k
    case Primitive(p) => v.Scalar? && v.p == p && InRange(p, v.v)
    case TypeRef(i) =>
      assert DefBelow(types[i], i);
      match types[i]
      case Defined(RecordType(fields)) =>
        && v.Record? && |v.fields| == |fields| && (forall j :: 0 <= j < |fields| ==> v.fields[j].name == fields[j].0)
        && AllHaveKind(types, Values(v.fields), FieldKinds(fields), i)
      case Defined(TupleType(tys)) => v.Tuple? && AllHaveKind(types, v.vs, tys, i)
      case _ => false
  }

  function Values(fields: seq<Field>): (r: seq<Value>)
    ensures |r| == |fields|
  {
    seq(|fields|, i requires 0 <= i < |fields| => fields[i].value)
  }

  predicate AllHaveKind(types: seq<TypeDef>, vs: seq<Value>, ks: seq<ValueKind>, n: nat)
    requires Acyclic(types) && n <= |types| && KindsBelow(ks, n)
    decreases n, 1
  {
    |vs| == |ks| && forall i :: 0 <= i < |ks| ==> HasKind(types, vs[i], ks[i])
  }

  /** `bs` lowers `v`, has the kind's flat count, and lifts to `v` wherever it stands. */
  ghost predicate Exchanges(types: seq<TypeDef>, v: Value, k: ValueKind, bs: seq<Raw>)
    requires Acyclic(types) && KindBelow(k, |types|)
  {
    && FlatCount(types, k) == Some(|bs|)
    && forall mem: Memory, before: seq<Raw>, after: seq<Raw> ::
         Lift(mem, types, k, before + bs + after, |before|) == Some((v, |before| + |bs|))
  }

  lemma {:induction false} PlainRoundTrip(types: seq<TypeDef>, v: Value, k: ValueKind, ty: Option<ValueKind>)
    requires Acyclic(types) && KindBelow(k, |types|) && (ty.Some? ==> KindBelow(ty.value, |types|))
    requires Plain(types, k) && HasKind(types, v, k)
    ensures Lower(types, v, ty).Some? && Exchanges(types, v, k, Lower(types, v, ty).value)
    decreases Rank(k), 0
  {
    match k
    case Primitive(p) => ScalarExchanges(types, p, v.v);
    case TypeRef(i) =>
      assert DefBelow(types[i], i);
      match types[i] {
        case Defined(RecordType(fields)) =>
          AllRoundTrip(types, Values(v.fields), FieldKinds(fields), i);
          RecordExchanges(types, v, k);
        case Defined(TupleType(tys)) =>
          AllRoundTrip(types, v.vs, tys, i);
          TupleExchanges(types, v, k);
      }
  }

  lemma ScalarExchanges(types: seq<TypeDef>, p: PrimitiveKind, v: int)
    requires Acyclic(types) && !p.PString? && InRange(p, v)
    ensures Exchanges(types, Scalar(p, v), Primitive(p), [LowerScalar(p, v)])
  {
    hide LowerScalar, LiftScalar, InRange;
    ScalarRoundTrip(p, v);
    var bs := [LowerScalar(p, v)];
    forall mem: Memory, before: seq<Raw>, after: seq<Raw>
      ensures Lift(mem, types, Primitive(p), before + bs + after, |before|) == Some((Scalar(p, v), |before| + |bs|))
    {
      assert (before + bs + after)[|before|] == bs[0];
    }
  }

  /** What the values' flat forms give back, wherever they stand. */
  ghost predicate AllExchange(types: seq<TypeDef>, vs: seq<Value>, ks: seq<ValueKind>, n: nat, bs: seq<Raw>)
    requires Acyclic(types) && n <= |types| && KindsBelow(ks, n)
  {
    && SumCounts(types, ks, n) == Some(|bs|)
    && forall mem: Memory, before: seq<Raw>, after: seq<Raw> ::
         LiftAll(mem, types, ks, n, before + bs + after, |before|) == Some((vs, |before| + |bs|))
  }

  lemma RecordExchanges(types: seq<TypeDef>, v: Value, k: ValueKind)
    requires Acyclic(types) && KindBelow(k, |types|) && k.TypeRef? && types[k.index].Defined?
    requires types[k.index].d.RecordType?
    requires HasKind(types, v, k) && LowerAll(types, Values(v.fields)).Some?
    requires assert DefBelow(types[k.index], k.index);
             AllExchange(types, Values(v.fields), FieldKinds(types[k.index].d.fields), k.index, LowerAll(types, Values(v.fields)).value)
    ensures Lower(types, v, None) == LowerAll(types, Values(v.fields))
    ensures forall ty: Option<ValueKind> :: (ty.Some? ==> KindBelow(ty.value, |types|)) ==> Lower(types, v, ty) == Lower(types, v, None)
    ensures Exchanges(types, v, k, LowerAll(types, Values(v.fields)).value)
  {
    hide LowerAll, LowerFields, LiftAll, SumCounts, AllHaveKind;
    FieldsAreValues(types, v.fields);
    var bs := LowerAll(types, Values(v.fields)).value;
    var fields := types[k.index].d.fields;
    assert Labelled(fields, Values(v.fields)) == v.fields;
    forall mem: Memory, before: seq<Raw>, after: seq<Raw>
      ensures Lift(mem, types, k, before + bs + after, |before|) == Some((v, |before| + |bs|))
    {
      assert LiftAll(mem, types, FieldKinds(fields), k.index, before + bs + after, |before|) ==
             Some((Values(v.fields), |before| + |bs|));
    }
  }

  lemma TupleExchanges(types: seq<TypeDef>, v: Value, k: ValueKind)
    requires Acyclic(types) && KindBelow(k, |types|) && k.TypeRef? && types[k.index].Defined?
    requires types[k.index].d.TupleType?
    requires v.Tuple? && LowerAll(types, v.vs).Some?
    requires assert DefBelow(types[k.index], k.index);
             AllExchange(types, v.vs, types[k.index].d.tys, k.index, LowerAll(types, v.vs).value)
    ensures forall ty: Option<ValueKind> :: (ty.Some? ==> KindBelow(ty.value, |types|)) ==> Lower(types, v, ty) == LowerAll(types, v.vs)
    ensures Exchanges(types, v, k, LowerAll(types, v.vs).value)
  {
    hide LowerAll, LiftAll, SumCounts;
    var bs := LowerAll(types, v.vs).value;
    forall mem: Memory, before: seq<Raw>, after: seq<Raw>
      ensures Lift(mem, types, k, before + bs + after, |before|) == Some((v, |before| + |bs|))
    {
      assert LiftAll(mem, types, types[k.index].d.tys, k.index, before + bs + after, |before|) == Some((v.vs, |before| + |bs|));
    }
  }

  lemma {:induction false} FieldsAreValues(types: seq<TypeDef>, fields: seq<Field>)
    requires Acyclic(types)
    ensures LowerFields(types, fields) == LowerAll(types, Values(fields))
    decreases |fields|
  {
    hide Lower;
    if fields != [] {
      FieldsAreValues(types, fields[..|fields| - 1]);
      assert Values(fields)[..|fields| - 1] == Values(fields[..|fields| - 1]);
    }
  }

  lemma {:induction false} AllRoundTrip(types: seq<TypeDef>, vs: seq<Value>, ks: seq<ValueKind>, n: nat)
    requires Acyclic(types) && n <= |types| && KindsBelow(ks, n) && AllPlain(types, ks, n)
    requires AllHaveKind(types, vs, ks, n)
    ensures LowerAll(types, vs).Some? && AllExchange(types, vs, ks, n, LowerAll(types, vs).value)
    decreases n, 1 + |ks|
  {
    hide Lower, Lift, FlatCount, Plain, HasKind;
    if ks != [] {
      hide Exchanges, AllExchange;
      var m := |ks| - 1;
      AllRoundTrip(types, vs[..m], ks[..m], n);
      PlainRoundTrip(types, vs[m], ks[m], None);
      var (bs, cs) := (LowerAll(types, vs[..m]).value, Lower(types, vs[m], None).value);
      OneMore(types, vs, ks, n, bs, cs);
    }
  }

  lemma OneMore(types: seq<TypeDef>, vs: seq<Value>, ks: seq<ValueKind>, n: nat, bs: seq<Raw>, cs: seq<Raw>)
    requires Acyclic(types) && n <= |types| && KindsBelow(ks, n) && 0 < |ks| == |vs|
    requires AllExchange(types, vs[..|vs| - 1], ks[..|ks| - 1], n, bs)
    requires Exchanges(types, vs[|vs| - 1], ks[|ks| - 1], cs)
    ensures AllExchange(types, vs, ks, n, bs + cs)
  {
    hide Lift, FlatCount;
    var m := |ks| - 1;
    forall mem: Memory, before: seq<Raw>, after: seq<Raw>
      ensures LiftAll(mem, types, ks, n, before + (bs + cs) + after, |before|) == Some((vs, |before| + |bs + cs|))
    {
      assert before + (bs + cs) + after == before + bs + (cs + after) == (before + bs) + cs + after;
      assert LiftAll(mem, types, ks[..m], n, before + bs + (cs + after), |before|) == Some((vs[..m], |before| + |bs|));
      assert Lift(mem, types, ks[m], (before + bs) + cs + after, |before + bs|) == Some((vs[m], |before + bs| + |cs|));
      assert vs == vs[..m] + [vs[m]];
    }
  }

  /** Kinds that a parameter can have: plain ones, and enums, flags, options and
      results whose payloads are plain. */
  predicate Passable(types: seq<TypeDef>, k: ValueKind)
    requires Acyclic(types) && KindBelow(k, |types|)
  {
    Plain(types, k) ||
    (k.TypeRef? &&
      (assert DefBelow(types[k.index], k.index);
       match types[k.index]
       case Defined(EnumType(names)) => |names| <= 0x8000_0000
       case Defined(FlagsType(_)) => true
       case Defined(OptionType(inner)) => Plain(types, inner)
       case Defined(ResultType(ok, err)) =>
         assert [ok, err][0] == ok && [ok, err][1] == err;
         (ok.Some? ==> Plain(types, ok.value)) && (err.Some? ==> Plain(types, err.value))
       case _ => false))
  }

  predicate HasPayload(types: seq<TypeDef>, v: Option<Value>, k: Option<ValueKind>)
    requires Acyclic(types) && (k.Some? ==> KindBelow(k.value, |types|))
  {
    v.Some? == k.Some? && (v.Some? ==> HasKind(types, v.value, k.value))
  }

  predicate IsOfKind(types: seq<TypeDef>, v: Value, k: ValueKind)
    requires Acyclic(types) && KindBelow(k, |types|)
  {
    if k.TypeRef? && types[k.index].Defined? && types[k.index].d.EnumType? then v.Enum? && v.name in types[k.index].d.names
    else if k.TypeRef? && types[k.index].Defined? && types[k.index].d.FlagsType? then
      v.Flags? && forall i :: 0 <= i < |v.names| ==> v.names[i] in types[k.index].d.names
    else if k.TypeRef? && types[k.index].Defined? && types[k.index].d.OptionType? then
      (InnerBelow(types, k); v.Optional? && (v.payload.Some? ==> HasKind(types, v.payload.value, types[k.index].d.inner)))
    else if k.TypeRef? && types[k.index].Defined? && types[k.index].d.ResultType? then
      (InnerBelow(types, k);
       var d := types[k.index].d;
       assert [d.ok, d.err][0] == d.ok && [d.ok, d.err][1] == d.err;
       v.Outcome? && HasPayload(types, v.payload, if v.ok then d.ok else d.err))
    else HasKind(types, v, k)
  }

  /** Equal values; flags up to order and repetition. */
  predicate SameValue(v: Value, w: Value) {
    if v.Flags? && w.Flags? then (set n | n in v.names) == (set n | n in w.names) else v == w
  }

  /** Flattening agreement: lowering a parameter pushes exactly its kind's flat
      count, and lifting what was pushed gives the value back. */
  lemma PassedRoundTrip(mem: Memory, types: seq<TypeDef>, v: Value, k: ValueKind, before: seq<Raw>, after: seq<Raw>)
    requires Acyclic(types) && KindBelow(k, |types|) && Passable(types, k) && IsOfKind(types, v, k)
    ensures var r := Lower(types, v, Some(k));
            && r.Some? && FlatCount(types, k) == Some(|r.value|)
            && var l := Lift(mem, types, k, before + r.value + after, |before|);
            l.Some? && SameValue(v, l.value.0) && l.value.1 == |before| + |r.value|
  {
    if Plain(types, k) {
      PlainRoundTrip(types, v, k, Some(k));
    } else {
      var d := types[k.index].d;
      InnerBelow(types, k);
      match d
      case EnumType(names) => EnumPasses(mem, types, v, k, before, after);
      case FlagsType(names) => FlagsPass(mem, types, v, k, before, after);
      case OptionType(inner) => OptionPasses(mem, types, v, k, before, after);
      case ResultType(ok, err) => ResultPasses(mem, types, v, k, before, after);
    }
  }

  /** The arguments of a call; those beyond the declared parameters have no type. */
  function LowerArgs(types: seq<TypeDef>, vs: seq<Value>, params: seq<ValueKind>): Option<seq<Raw>>
    requires Acyclic(types) && KindsBelow(params, |types|)
  {
    if vs == [] then Some([])
    else
      var m := |vs| - 1;
      match LowerArgs(types, vs[..m], params)
      case None => None
      case Some(bs) =>
        match Lower(types, vs[m], if m < |params| then Some(params[m]) else None)
        case None => None
        case Some(cs) => Some(bs + cs)
  }

  /** Arguments lowered for a call, read back as values of the parameters' kinds,
      are the arguments, and take exactly the parameters' flat counts. */
  lemma {:induction false} ArgsRoundTrip(mem: Memory, types: seq<TypeDef>, vs: seq<Value>, ks: seq<ValueKind>,
                                         params: seq<ValueKind>, after: seq<Raw>)
    requires Acyclic(types) && KindsBelow(params, |types|) && ks <= params && |vs| == |ks|
    requires forall i :: 0 <= i < |ks| ==> Passable(types, ks[i]) && IsOfKind(types, vs[i], ks[i])
    ensures LowerArgs(types, vs, params).Some?
    ensures SumCounts(types, ks, |types|) == Some(|LowerArgs(types, vs, params).value|)
    ensures var l := LiftAll(mem, types, ks, |types|, LowerArgs(types, vs, params).value + after, 0);
            && l.Some? && |l.value.0| == |vs| && l.value.1 == |LowerArgs(types, vs, params).value|
            && forall i :: 0 <= i < |vs| ==> SameValue(vs[i], l.value.0[i])
    decreases |vs|
  {
    hide Passable, IsOfKind, SameValue, Lower, Lift, FlatCount;
    if vs != [] {
      var m := |vs| - 1;
      PassedRoundTrip(mem, types, vs[m], ks[m], [], after);
      var cs := Lower(types, vs[m], Some(ks[m])).value;
      ArgsRoundTrip(mem, types, vs[..m], ks[..m], params, cs + after);
      var bs := LowerArgs(types, vs[..m], params).value;
      PassedRoundTrip(mem, types, vs[m], ks[m], bs, after);
      assert bs + cs + after == bs + (cs + after);
    }
  }

  lemma EnumPasses(mem: Memory, types: seq<TypeDef>, v: Value, k: ValueKind, before: seq<Raw>, after: seq<Raw>)
    requires Acyclic(types) && KindBelow(k, |types|) && k.TypeRef? && types[k.index].Defined?
    requires types[k.index].d.EnumType?
    requires |types[k.index].d.names| <= 0x8000_0000 && v.Enum? && v.name in types[k.index].d.names
    ensures Lower(types, v, Some(k)).Some? && |Lower(types, v, Some(k)).value| == 1
    ensures Lift(mem, types, k, before + Lower(types, v, Some(k)).value + after, |before|) == Some((v, |before| + 1))
  {
    var names := types[k.index].d.names;
    PositionFinds(names, v.name);
    var i := Position(names, v.name).value;
    WordBack(i);
    var flat := before + [LowerScalar(PS32, i)] + after;
    assert flat[|before|] == LowerScalar(PS32, i) && BranchIndex(flat[|before|]) == i;
  }

  lemma FlagsPass(mem: Memory, types: seq<TypeDef>, v: Value, k: ValueKind, before: seq<Raw>, after: seq<Raw>)
    requires Acyclic(types) && KindBelow(k, |types|) && k.TypeRef? && types[k.index].Defined?
    requires types[k.index].d.FlagsType?
    requires v.Flags? && forall i :: 0 <= i < |v.names| ==> v.names[i] in types[k.index].d.names
    ensures Lower(types, v, Some(k)).Some? && |Lower(types, v, Some(k)).value| == Words(|types[k.index].d.names|)
    ensures var l := Lift(mem, types, k, before + Lower(types, v, Some(k)).value + after, |before|);
            l.Some? && SameValue(v, l.value.0) && l.value.1 == |before| + Words(|types[k.index].d.names|)
  {
    var all := types[k.index].d.names;
    FlagsRoundTrip(all, v.names);
    var bs := FlagWords(all, v.names).value;
    assert (before + bs + after)[|before|..|before| + |bs|] == bs;
  }

  lemma OptionPasses(mem: Memory, types: seq<TypeDef>, v: Value, k: ValueKind, before: seq<Raw>, after: seq<Raw>)
    requires Acyclic(types) && KindBelow(k, |types|) && k.TypeRef? && types[k.index].Defined?
    requires types[k.index].d.OptionType?
    requires KindBelow(types[k.index].d.inner, |types|) && Plain(types, types[k.index].d.inner)
    requires v.Optional? && (v.payload.Some? ==> HasKind(types, v.payload.value, types[k.index].d.inner))
    ensures var r := Lower(types, v, Some(k));
            && r.Some? && FlatCount(types, k) == Some(|r.value|)
            && Lift(mem, types, k, before + r.value + after, |before|) == Some((v, |before| + |r.value|))
  {
    var inner := types[k.index].d.inner;
    PlainCounts(types, inner);
    WordBack(0);
    WordBack(1);
    if v.payload.Some? {
      PlainRoundTrip(types, v.payload.value, inner, None);
      var bs := Lower(types, v.payload.value, None).value;
      var one := [LowerScalar(PS32, 1)];
      assert before + (one + bs) + after == (before + one) + bs + after;
      assert ((before + one) + bs + after)[|before|] == one[0];
    } else {
      var flat := before + Lower(types, v, Some(k)).value + after;
      assert flat[|before|] == LowerScalar(PS32, 0);
    }
  }

  /** Variants never agree with their flat count: a variant that is lowered at all
      takes one word too many. */
  lemma VariantMiscounts(types: seq<TypeDef>, v: Value, k: ValueKind)
    requires Acyclic(types) && KindBelow(k, |types|) && v.Variant? && Lower(types, v, Some(k)).Some?
    ensures FlatCount(types, k).Some? && |Lower(types, v, Some(k)).value| == FlatCount(types, k).value + 1
  {
    hide LowerPayload, Position, LowerScalar;
    InnerBelow(types, k);
  }

  /** One of them: a variant over a byte, whose flat count is 2, takes 3 words. */
  lemma VariantOverfills()
    ensures var types := [Defined(VariantType([VariantCase([1], Some(Primitive(PU8)), None)]))];
            && Acyclic(types) && FlatCount(types, TypeRef(0)) == Some(2)
            && var r := Lower(types, Variant([1], Some(Scalar(PU8, 7))), Some(TypeRef(0)));
            r == Some([0, 7, PADDING])
  {
    var cases := [VariantCase([1], Some(Primitive(PU8)), None)];
    var types := [Defined(VariantType(cases))];
    var ps := CaseKinds(cases);
    assert ps == [Some(Primitive(PU8))] && ps[..0] == [];
    assert MaxCounts(types, [], 0) == Some(0);
    assert MaxCounts(types, ps, 0) == Some(1);
    assert CaseNames(cases)[0] == [1] && Position(CaseNames(cases), [1]) == Some(0);
    assert LowerScalar(PU8, 7) == 7 && LowerScalar(PS32, 0) == 0;
    assert LowerPayload(types, Some(Scalar(PU8, 7))) == Some([7]);
    assert Padding(1) == [PADDING] && [0] + [7] + [PADDING] == [0, 7, PADDING];
    assert VariantWords(0, [7], 1) == Some([0, 7, PADDING]);
  }

  /** Every plain kind has a flat count. */
  lemma {:induction false} PlainCounts(types: seq<TypeDef>, k: ValueKind)
    requires Acyclic(types) && KindBelow(k, |types|) && Plain(types, k)
    ensures FlatCount(types, k).Some?
    decreases Rank(k), 0
  {
    if k.TypeRef? {
      var i := k.index;
      assert DefBelow(types[i], i);
      match types[i]
      case Defined(RecordType(fields)) => PlainSums(types, FieldKinds(fields), i);
      case Defined(TupleType(tys)) => PlainSums(types, tys, i);
    }
  }

  lemma {:induction false} PlainSums(types: seq<TypeDef>, ks: seq<ValueKind>, n: nat)
    requires Acyclic(types) && n <= |types| && KindsBelow(ks, n) && AllPlain(types, ks, n)
    ensures SumCounts(types, ks, n).Some?
    decreases n, 1 + |ks|
  {
    hide FlatCount, Plain;
    if ks != [] {
      PlainSums(types, ks[..|ks| - 1], n);
      PlainCounts(types, ks[|ks| - 1]);
    }
  }

  lemma ResultPasses(mem: Memory, types: seq<TypeDef>, v: Value, k: ValueKind, before: seq<Raw>, after: seq<Raw>)
    requires Acyclic(types) && KindBelow(k, |types|) && k.TypeRef? && types[k.index].Defined?
    requires types[k.index].d.ResultType?
    requires Passable(types, k) && !Plain(types, k) && IsOfKind(types, v, k)
    ensures var r := Lower(types, v, Some(k));
            && r.Some? && FlatCount(types, k) == Some(|r.value|)
            && Lift(mem, types, k, before + r.value + after, |before|) == Some((v, |before| + |r.value|))
  {
    hide Plain, HasKind, Lower, Lift, FlatCount, MaxCounts, LiftPayload;
    InnerBelow(types, k);
    var (d, n) := (types[k.index].d, k.index);
    var ps := [d.ok, d.err];
    assert ps[0] == d.ok && ps[1] == d.err;
    if d.ok.Some? { PlainCounts(types, d.ok.value); }
    if d.err.Some? { PlainCounts(types, d.err.value); }
    TwoCounts(types, d.ok, d.err, n);
    var which := if v.ok then 0 else 1;
    MaxIsMax(types, ps, n, which);
    var tag := [LowerScalar(PS32, which)];
    var bs := PayloadPasses(mem, types, v.payload, ps[which], n, MaxCounts(types, ps, n).value, before + tag, after);
    ResultTagged(mem, types, v, k, before, after, bs);
  }

  /** A result is its tag, then its padded payload. */
  lemma ResultTagged(mem: Memory, types: seq<TypeDef>, v: Value, k: ValueKind, before: seq<Raw>, after: seq<Raw>,
                     bs: seq<Raw>)
    requires Acyclic(types) && KindBelow(k, |types|) && k.TypeRef? && types[k.index].Defined?
    requires types[k.index].d.ResultType?
    requires v.Outcome? && PayloadsBelow([types[k.index].d.ok, types[k.index].d.err], k.index)
    requires var (d, n) := (types[k.index].d, k.index);
             var max := MaxCounts(types, [d.ok, d.err], n);
             var r := LowerPayload(types, v.payload);
             var p := if v.ok then d.ok else d.err;
             var tag := [LowerScalar(PS32, if v.ok then 0 else 1)];
             && max.Some? && r.Some? && |r.value| <= max.value
             && bs == r.value + Padding(max.value - |r.value|)
             && (assert [d.ok, d.err][0] == d.ok && [d.ok, d.err][1] == d.err;
                 LiftPayload(mem, types, p, n, max.value, before + tag + bs + after, |before + tag|) ==
                 Some((v.payload, |before + tag| + max.value)))
    ensures var r := Lower(types, v, Some(k));
            && r.Some? && FlatCount(types, k) == Some(|r.value|)
            && Lift(mem, types, k, before + r.value + after, |before|) == Some((v, |before| + |r.value|))
  {
    hide LiftPayload, MaxCounts, LowerPayload, LowerScalar;
    var which := if v.ok then 0 else 1;
    var tag := [LowerScalar(PS32, which)];
    TagBack(which);
    var flat := before + (tag + bs) + after;
    assert flat == before + tag + bs + after && flat[|before|] == tag[0];
    var r := LowerPayload(types, v.payload).value;
    var d := types[k.index].d;
    var max := MaxCounts(types, [d.ok, d.err], k.index).value;
    assert tag + bs == tag + r + Padding(max - |r|);
  }

  lemma TagBack(which: nat)
    requires which < 2
    ensures AsI32(LowerScalar(PS32, which)) == which
  {
    WordBack(which);
  }

  /** Lowering a plain payload and padding it to `max`, and lifting it back. */
  lemma PayloadPasses(mem: Memory, types: seq<TypeDef>, v: Option<Value>, p: Option<ValueKind>, n: nat, max: nat,
                      before: seq<Raw>, after: seq<Raw>) returns (bs: seq<Raw>)
    requires Acyclic(types) && n <= |types| && (p.Some? ==> KindBelow(p.value, n) && Plain(types, p.value))
    requires HasPayload(types, v, p) && PayloadCount(types, p, n).Some? && PayloadCount(types, p, n).value <= max
    ensures var r := LowerPayload(types, v);
            r.Some? && |r.value| <= max && bs == r.value + Padding(max - |r.value|) && |bs| == max
    ensures LiftPayload(mem, types, p, n, max, before + bs + after, |before|) == Some((v, |before| + max))
  {
    hide Plain, HasKind, Lower, Lift, FlatCount;
    if v.Some? {
      PlainRoundTrip(types, v.value, p.value, None);
      var cs := Lower(types, v.value, None).value;
      bs := cs + Padding(max - |cs|);
      assert before + bs + after == before + cs + (Padding(max - |cs|) + after);
    } else {
      bs := Padding(max);
      assert [] + bs == bs;
    }
  }

  lemma TwoCounts(types: seq<TypeDef>, a: Option<ValueKind>, b: Option<ValueKind>, n: nat)
    requires Acyclic(types) && n <= |types| && PayloadsBelow([a, b], n)
    requires a.Some? ==> KindBelow(a.value, |types|) && FlatCount(types, a.value).Some?
    requires b.Some? ==> KindBelow(b.value, |types|) && FlatCount(types, b.value).Some?
    ensures MaxCounts(types, [a, b], n).Some?
  {
    hide FlatCount;
    var ps := [a, b];
    assert ps[0] == a && ps[1] == b && ps[..1] == [a] && [a][..0] == [];
    assert MaxCounts(types, [], n).Some?;
    assert MaxCounts(types, [a], n) == Greater(MaxCounts(types, [], n), PayloadCount(types, a, n));
    assert MaxCounts(types, ps, n) == Greater(MaxCounts(types, [a], n), PayloadCount(types, b, n));
  }
}
