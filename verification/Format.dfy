/** The encoded forms of the types of a store (src/snapshot.rs). A type's codec is
    built from those of its parts; `into` and `from` functions pass between a
    value and its parts. */
module Format {
  import opened Wasm
  import opened Runtime
  import opened Codec

  // ----- numbers of the source's widths -----

  const Byte: Codec<byte> := Codec(
    (v: byte) => [v],
    (buf: Bytes) => if buf == [] then None else Some((buf[0], buf[1..])),
    (v: byte) => true)

  function ToHalf(n: nat): u16 { n % TWO_TO_16 }
  function FromHalf(v: u16): nat { v }
  function ToWord(n: nat): u32 { n % TWO_TO_32 }
  function FromWord(v: u32): nat { v }
  function ToLong(n: nat): u64 { n % TWO_TO_64 }
  function FromLong(v: u64): nat { v }

  function Half(): Codec<u16> { Iso(U16, ToHalf, FromHalf) }
  function Word(): Codec<u32> { Iso(U32, ToWord, FromWord) }
  function Long(): Codec<u64> { Iso(U64, ToLong, FromLong) }

  lemma NumbersRoundTrip()
    ensures RoundTrips(Byte) && RoundTrips(U16) && RoundTrips(U32) && RoundTrips(U64)
    ensures RoundTrips(Half()) && RoundTrips(Word()) && RoundTrips(Long())
  {
    UnsignedRoundTrips(2);
    UnsignedRoundTrips(4);
    UnsignedRoundTrips(8);
    IsoRoundTrips(U16, ToHalf, FromHalf);
    IsoRoundTrips(U32, ToWord, FromWord);
    IsoRoundTrips(U64, ToLong, FromLong);
    forall v: byte, rest: Bytes ensures Byte.decode(Byte.encode(v) + rest) == Some((v, rest)) {
      assert ([v] + rest)[1..] == rest;
    }
  }

  // ----- types -----

  function HeapTag(h: HeapType): byte {
    match h
    case HFunc => 0
    case HExtern => 1
    case HAny => 2
    case HEq => 3
    case HI31 => 4
    case HStruct => 5
    case HArray => 6
    case HExn => 7
    case HNone => 8
    case HNoExtern => 9
    case HNoFunc => 10
    case HNoExn => 11
    case HTypeIndex(_) => 12
    case HBot => 13  // never written: there is no case for it
  }

  const PLAIN_HEAP_TYPES := [HFunc, HExtern, HAny, HEq, HI31, HStruct, HArray, HExn, HNone, HNoExtern, HNoFunc, HNoExn]

  function ToHeapIndex(i: u32): HeapType { HTypeIndex(i) }
  function FromHeapIndex(h: HeapType): Option<u32> { if h.HTypeIndex? then Some(h.index) else None }

  function HeapCase(t: byte): Option<Codec<HeapType>> {
    if t < 12 then Some(Constant(PLAIN_HEAP_TYPES[t]))
    else if t == 12 then Some(Case(Word(), ToHeapIndex, FromHeapIndex))
    else None
  }

  function HeapTypes(): Codec<HeapType> { Tagged(HeapTag, HeapCase) }

  lemma HeapTypesRoundTrip()
    ensures RoundTrips(HeapTypes())
  {
    hide RoundTrips, Pair, Iso, Case, Tagged, Vector, Blob, Optional, Marked, Constant;
    NumbersRoundTrip();
    CaseRoundTrips(Word(), ToHeapIndex, FromHeapIndex);
    forall t: byte | t < 12 ensures RoundTrips(HeapCase(t).value) {
      ConstantRoundTrips(PLAIN_HEAP_TYPES[t]);
    }
    TaggedRoundTrips(HeapTag, HeapCase);
  }

  function RefTag(rt: RefType): byte {
    match rt
    case FuncRef => 0
    case ExternRef => 1
    case Ref(_, _) => 2
  }

  function ToRef(p: (bool, HeapType)): RefType { Ref(p.0, p.1) }
  function FromRef(rt: RefType): Option<(bool, HeapType)> { if rt.Ref? then Some((rt.nullable, rt.heap)) else None }

  function RefCase(t: byte): Option<Codec<RefType>> {
    if t == 0 then Some(Constant(FuncRef))
    else if t == 1 then Some(Constant(ExternRef))
    else if t == 2 then Some(Case(Pair(Bool, HeapTypes()), ToRef, FromRef))
    else None
  }

  function RefTypes(): Codec<RefType> { Tagged(RefTag, RefCase) }

  lemma RefTypesRoundTrip()
    ensures RoundTrips(RefTypes())
  {
    hide RoundTrips, Pair, Iso, Case, Tagged, Vector, Blob, Optional, Marked, Constant;
    BoolRoundTrips();
    HeapTypesRoundTrip();
    PairRoundTrips(Bool, HeapTypes());
    CaseRoundTrips(Pair(Bool, HeapTypes()), ToRef, FromRef);
    ConstantRoundTrips(FuncRef);
    ConstantRoundTrips(ExternRef);
    TaggedRoundTrips(RefTag, RefCase);
  }

  function ValueTag(t: ValueType): byte {
    match t
    case I32 => 0
    case I64 => 1
    case F32 => 2
    case F64 => 3
    case V128 => 4
    case RefVal(_) => 5
  }

  const PLAIN_VALUE_TYPES := [I32, I64, F32, F64, V128]

  function ToRefVal(rt: RefType): ValueType { RefVal(rt) }
  function FromRefVal(t: ValueType): Option<RefType> { if t.RefVal? then Some(t.rt) else None }

  function ValueCase(t: byte): Option<Codec<ValueType>> {
    if t < 5 then Some(Constant(PLAIN_VALUE_TYPES[t]))
    else if t == 5 then Some(Case(RefTypes(), ToRefVal, FromRefVal))
    else None
  }

  function ValueTypes(): Codec<ValueType> { Tagged(ValueTag, ValueCase) }

  lemma ValueTypesRoundTrip()
    ensures RoundTrips(ValueTypes())
  {
    hide RoundTrips, Pair, Iso, Case, Tagged, Vector, Blob, Optional, Marked, Constant;
    RefTypesRoundTrip();
    CaseRoundTrips(RefTypes(), ToRefVal, FromRefVal);
    forall t: byte | t < 5 ensures RoundTrips(ValueCase(t).value) {
      ConstantRoundTrips(PLAIN_VALUE_TYPES[t]);
    }
    TaggedRoundTrips(ValueTag, ValueCase);
  }

  function ToFuncType(p: (seq<ValueType>, seq<ValueType>)): FunctionType { FunctionType(p.0, p.1) }
  function FromFuncType(ft: FunctionType): (seq<ValueType>, seq<ValueType>) { (ft.params, ft.results) }

  function FuncTypes(): Codec<FunctionType> {
    Iso(Pair(Vector(ValueTypes()), Vector(ValueTypes())), ToFuncType, FromFuncType)
  }

  lemma FuncTypesRoundTrip()
    ensures RoundTrips(FuncTypes())
  {
    hide RoundTrips, Pair, Iso, Case, Tagged, Vector, Blob, Optional, Marked, Constant;
    ValueTypesRoundTrip();
    VectorRoundTrips(ValueTypes());
    PairRoundTrips(Vector(ValueTypes()), Vector(ValueTypes()));
    IsoRoundTrips(Pair(Vector(ValueTypes()), Vector(ValueTypes())), ToFuncType, FromFuncType);
  }

  function StorageTag(t: StorageType): byte { if t.Val? then 0 else if t.I8? then 1 else 2 }
  function ToStorage(t: ValueType): StorageType { Val(t) }
  function FromStorage(t: StorageType): Option<ValueType> { if t.Val? then Some(t.vt) else None }

  function StorageCase(t: byte): Option<Codec<StorageType>> {
    if t == 0 then Some(Case(ValueTypes(), ToStorage, FromStorage))
    else if t == 1 then Some(Constant(I8))
    else if t == 2 then Some(Constant(I16))
    else None
  }

  function StorageTypes(): Codec<StorageType> { Tagged(StorageTag, StorageCase) }

  function ToField(p: (StorageType, bool)): FieldType { FieldType(p.0, p.1) }
  function FromField(f: FieldType): (StorageType, bool) { (f.storage, f.isMutable) }

  function FieldTypes(): Codec<FieldType> { Iso(Pair(StorageTypes(), Bool), ToField, FromField) }

  lemma FieldTypesRoundTrip()
    ensures RoundTrips(FieldTypes())
  {
    hide RoundTrips, Pair, Iso, Case, Tagged, Vector, Blob, Optional, Marked, Constant;
    ValueTypesRoundTrip();
    CaseRoundTrips(ValueTypes(), ToStorage, FromStorage);
    ConstantRoundTrips(I8);
    ConstantRoundTrips(I16);
    TaggedRoundTrips(StorageTag, StorageCase);
    BoolRoundTrips();
    PairRoundTrips(StorageTypes(), Bool);
    IsoRoundTrips(Pair(StorageTypes(), Bool), ToField, FromField);
  }

  function CompositeTag(c: CompositeType): byte { if c.FuncType? then 0 else if c.StructType? then 1 else 2 }
  function ToFunc(ft: FunctionType): CompositeType { FuncType(ft) }
  function FromFunc(c: CompositeType): Option<FunctionType> { if c.FuncType? then Some(c.ft) else None }
  function ToStruct(fs: seq<FieldType>): CompositeType { StructType(fs) }
  function FromStruct(c: CompositeType): Option<seq<FieldType>> { if c.StructType? then Some(c.fields) else None }
  function ToArray(f: FieldType): CompositeType { ArrayType(f) }
  function FromArray(c: CompositeType): Option<FieldType> { if c.ArrayType? then Some(c.field) else None }

  function CompositeCase(t: byte): Option<Codec<CompositeType>> {
    if t == 0 then Some(Case(FuncTypes(), ToFunc, FromFunc))
    else if t == 1 then Some(Case(Vector(FieldTypes()), ToStruct, FromStruct))
    else if t == 2 then Some(Case(FieldTypes(), ToArray, FromArray))
    else None
  }

  function CompositeTypes(): Codec<CompositeType> { Tagged(CompositeTag, CompositeCase) }

  function ToSubType(p: (bool, (seq<u32>, CompositeType))): SubType { SubType(p.0, p.1.0, p.1.1) }
  function FromSubType(t: SubType): (bool, (seq<u32>, CompositeType)) { (t.isFinal, (t.supertypes, t.composite)) }

  function SubTypes(): Codec<SubType> {
    Iso(Pair(Bool, Pair(Vector(Word()), CompositeTypes())), ToSubType, FromSubType)
  }

  lemma SubTypesRoundTrip()
    ensures RoundTrips(SubTypes())
  {
    hide RoundTrips, Pair, Iso, Case, Tagged, Vector, Blob, Optional, Marked, Constant;
    FuncTypesRoundTrip();
    FieldTypesRoundTrip();
    VectorRoundTrips(FieldTypes());
    CaseRoundTrips(FuncTypes(), ToFunc, FromFunc);
    CaseRoundTrips(Vector(FieldTypes()), ToStruct, FromStruct);
    CaseRoundTrips(FieldTypes(), ToArray, FromArray);
    TaggedRoundTrips(CompositeTag, CompositeCase);
    NumbersRoundTrip();
    VectorRoundTrips(Word());
    BoolRoundTrips();
    PairRoundTrips(Vector(Word()), CompositeTypes());
    PairRoundTrips(Bool, Pair(Vector(Word()), CompositeTypes()));
    IsoRoundTrips(Pair(Bool, Pair(Vector(Word()), CompositeTypes())), ToSubType, FromSubType);
  }
}
