/** When a value of one type can be used where another is expected
    (src/validator.rs: Types, normalize_ref). */
module Subtyping {
  import opened Wasm

  /** The short forms funcref and externref are nullable references. */
  function NormalizeRef(rt: RefType): (bool, HeapType) {
    match rt
    case FuncRef => (true, HFunc)
    case ExternRef => (true, HExtern)
    case Ref(nullable, heap) => (nullable, heap)
  }

  function Composite(types: seq<SubType>, ht: HeapType): Option<CompositeType> {
    if ht.HTypeIndex? && ht.index < |types| then Some(types[ht.index].composite) else None
  }

  predicate IsFunc(types: seq<SubType>, ht: HeapType) {
    var c := Composite(types, ht);
    c.Some? && c.value.FuncType?
  }

  predicate IsAggregate(types: seq<SubType>, ht: HeapType) {
    var c := Composite(types, ht);
    c.Some? && !c.value.FuncType?
  }

  predicate HeapSubtype(types: seq<SubType>, a: HeapType, b: HeapType) {
    a == b || a.HBot? ||
    match (a, b)
    case (HNoFunc, _) => b == HFunc || IsFunc(types, b)
    case (HNoExtern, HExtern) => true
    case (HNoExn, HExn) => true
    case (HNone, _) => b in {HAny, HEq, HI31, HStruct, HArray} || IsAggregate(types, b)
    case (HI31, HAny) => true
    case (HStruct, HAny) => true
    case (HArray, HAny) => true
    case (HEq, HAny) => true
    case (HI31, HEq) => true
    case (HStruct, HEq) => true
    case (HArray, HEq) => true
    case (HTypeIndex(_), HFunc) => IsFunc(types, a)
    case (HTypeIndex(_), HStruct) => var c := Composite(types, a); c.Some? && c.value.StructType?
    case (HTypeIndex(_), HArray) => var c := Composite(types, a); c.Some? && c.value.ArrayType?
    case (HTypeIndex(_), HEq) => IsAggregate(types, a)
    case (HTypeIndex(_), HAny) => IsAggregate(types, a)
    case (_, _) => false
  }

  predicate RefSubtype(types: seq<SubType>, a: RefType, b: RefType) {
    var (an, ah) := NormalizeRef(a);
    var (bn, bh) := NormalizeRef(b);
    (!an || bn) && HeapSubtype(types, ah, bh)
  }

  predicate ValueSubtype(types: seq<SubType>, a: ValueType, b: ValueType) {
    if a.RefVal? && b.RefVal? then RefSubtype(types, a.rt, b.rt) else a == b
  }

  lemma HeapSubtypeTransitive(types: seq<SubType>, a: HeapType, b: HeapType, c: HeapType)
    requires HeapSubtype(types, a, b) && HeapSubtype(types, b, c)
    ensures HeapSubtype(types, a, c)
  {
  }

  /** Subtyping is a preorder for every type section, well-formed or not. */
  lemma ValueSubtypePreorder(types: seq<SubType>, a: ValueType, b: ValueType, c: ValueType)
    ensures ValueSubtype(types, a, a)
    ensures ValueSubtype(types, a, b) && ValueSubtype(types, b, c) ==> ValueSubtype(types, a, c)
  {
    if a.RefVal? && b.RefVal? && c.RefVal? && ValueSubtype(types, a, b) && ValueSubtype(types, b, c) {
      HeapSubtypeTransitive(types, NormalizeRef(a.rt).1, NormalizeRef(b.rt).1, NormalizeRef(c.rt).1);
    }
  }
}
