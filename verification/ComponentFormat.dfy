/** The encoded forms of component types and of instantiated components
    (src/snapshot.rs). The declarations inside component and instance types are
    dropped by the source and are not part of these types. */
module ComponentFormat {
  import opened Wasm
  import opened Component
  import opened Codec
  import opened Format

  function Names(): Codec<Name> { Blob(4) }

  const PRIMITIVES := [PBool, PS8, PU8, PS16, PU16, PS32, PU32, PS64, PU64, PF32, PF64, PChar, PString]

  function PrimitiveTag(p: PrimitiveKind): byte {
    match p
    case PBool => 0
    case PS8 => 1
    case PU8 => 2
    case PS16 => 3
    case PU16 => 4
    case PS32 => 5
    case PU32 => 6
    case PS64 => 7
    case PU64 => 8
    case PF32 => 9
    case PF64 => 10
    case PChar => 11
    case PString => 12
  }

  function PrimitiveCase(t: byte): Option<Codec<PrimitiveKind>> {
    if t < 13 then Some(Constant(PRIMITIVES[t])) else None
  }

  function Primitives(): Codec<PrimitiveKind> { Tagged(PrimitiveTag, PrimitiveCase) }

  lemma PrimitivesRoundTrip()
    ensures RoundTrips(Primitives())
  {
    hide RoundTrips, Pair, Iso, Case, Tagged, Vector, Blob, Optional, Marked, Constant;
    forall t: byte | t < 13 ensures RoundTrips(PrimitiveCase(t).value) {
      ConstantRoundTrips(PRIMITIVES[t]);
    }
    TaggedRoundTrips(PrimitiveTag, PrimitiveCase);
  }

  function KindTag(x: ValueKind): byte {
    match x
    case TypeRef(_) => 0
    case Primitive(_) => 1
  }

  function MakeTypeRef(p: u32): ValueKind { TypeRef(p) }
  function OfTypeRef(x: ValueKind): Option<u32> { if x.TypeRef? then Some(x.index) else None }
  function MakePrimitive(p: PrimitiveKind): ValueKind { Primitive(p) }
  function OfPrimitive(x: ValueKind): Option<PrimitiveKind> { if x.Primitive? then Some(x.p) else None }

  function KindCase(t: byte): Option<Codec<ValueKind>> {
    if t == 0 then Some(Case(Word(), MakeTypeRef, OfTypeRef))
    else if t == 1 then Some(Case(Primitives(), MakePrimitive, OfPrimitive))
    else None
  }

  function Kinds(): Codec<ValueKind> { Tagged(KindTag, KindCase) }

  lemma KindsRoundTrip()
    ensures RoundTrips(Kinds())
  {
    hide RoundTrips, Pair, Iso, Case, Tagged, Vector, Blob, Optional, Marked, Constant;
    NumbersRoundTrip();
    PrimitivesRoundTrip();
    CaseRoundTrips(Word(), MakeTypeRef, OfTypeRef);
    CaseRoundTrips(Primitives(), MakePrimitive, OfPrimitive);
    TaggedRoundTrips(KindTag, KindCase);
  }

  function EncodingTag(x: StringEncoding): byte {
    match x
    case Utf8 => 0
    case Utf16 => 1
    case Latin1Utf16 => 2
  }


  function EncodingCase(t: byte): Option<Codec<StringEncoding>> {
    if t == 0 then Some(Constant(Utf8))
    else if t == 1 then Some(Constant(Utf16))
    else if t == 2 then Some(Constant(Latin1Utf16))
    else None
  }

  function Encodings(): Codec<StringEncoding> { Tagged(EncodingTag, EncodingCase) }

  lemma EncodingsRoundTrip()
    ensures RoundTrips(Encodings())
  {
    hide RoundTrips, Pair, Iso, Case, Tagged, Vector, Blob, Optional, Marked, Constant;
    ConstantRoundTrips<StringEncoding>(Utf8);
    ConstantRoundTrips<StringEncoding>(Utf16);
    ConstantRoundTrips<StringEncoding>(Latin1Utf16);
    TaggedRoundTrips(EncodingTag, EncodingCase);
  }

  function JoinVariantCase(p: (Name, (Option<ValueKind>, Option<u32>))): VariantCase {
    VariantCase(p.0, p.1.0, p.1.1)
  }
  function SplitVariantCase(x: VariantCase): (Name, (Option<ValueKind>, Option<u32>)) {
    (x.name, (x.ty, x.refined))
  }

  function VariantCases(): Codec<VariantCase> {
    Iso(Pair(Names(), Pair(Optional(Kinds()), Optional(Word()))), JoinVariantCase, SplitVariantCase)
  }

  lemma VariantCasesRoundTrip()
    ensures RoundTrips(VariantCases())
  {
    hide RoundTrips, Pair, Iso, Case, Tagged, Vector, Blob, Optional, Marked, Constant;
    BlobRoundTrips(4);
    KindsRoundTrip();
    NumbersRoundTrip();
    OptionalRoundTrips(Kinds());
    OptionalRoundTrips(Word());
    PairRoundTrips(Optional(Kinds()), Optional(Word()));
    PairRoundTrips(Names(), Pair(Optional(Kinds()), Optional(Word())));
    IsoRoundTrips(Pair(Names(), Pair(Optional(Kinds()), Optional(Word()))), JoinVariantCase, SplitVariantCase);
  }

  function DefinedTag(x: DefinedKind): byte {
    match x
    case PrimitiveType(_) => 0
    case RecordType(_) => 1
    case VariantType(_) => 2
    case ListType(_) => 3
    case TupleType(_) => 4
    case FlagsType(_) => 5
    case EnumType(_) => 6
    case OptionType(_) => 7
    case ResultType(_, _) => 8
    case OwnType(_) => 9
    case BorrowType(_) => 10
  }

  function MakePrimitiveType(p: PrimitiveKind): DefinedKind { PrimitiveType(p) }
  function OfPrimitiveType(x: DefinedKind): Option<PrimitiveKind> { if x.PrimitiveType? then Some(x.p) else None }
  function MakeRecordType(p: seq<(Name, ValueKind)>): DefinedKind { RecordType(p) }
  function OfRecordType(x: DefinedKind): Option<seq<(Name, ValueKind)>> {
    if x.RecordType? then Some(x.fields) else None
  }
  function MakeVariantType(p: seq<VariantCase>): DefinedKind { VariantType(p) }
  function OfVariantType(x: DefinedKind): Option<seq<VariantCase>> { if x.VariantType? then Some(x.cases) else None }
  function MakeListType(p: ValueKind): DefinedKind { ListType(p) }
  function OfListType(x: DefinedKind): Option<ValueKind> { if x.ListType? then Some(x.elem) else None }
  function MakeTupleType(p: seq<ValueKind>): DefinedKind { TupleType(p) }
  function OfTupleType(x: DefinedKind): Option<seq<ValueKind>> { if x.TupleType? then Some(x.tys) else None }
  function MakeFlagsType(p: seq<Name>): DefinedKind { FlagsType(p) }
  function OfFlagsType(x: DefinedKind): Option<seq<Name>> { if x.FlagsType? then Some(x.names) else None }
  function MakeEnumType(p: seq<Name>): DefinedKind { EnumType(p) }
  function OfEnumType(x: DefinedKind): Option<seq<Name>> { if x.EnumType? then Some(x.names) else None }
  function MakeOptionType(p: ValueKind): DefinedKind { OptionType(p) }
  function OfOptionType(x: DefinedKind): Option<ValueKind> { if x.OptionType? then Some(x.inner) else None }
  function MakeResultType(p: (Option<ValueKind>, Option<ValueKind>)): DefinedKind { ResultType(p.0, p.1) }
  function OfResultType(x: DefinedKind): Option<(Option<ValueKind>, Option<ValueKind>)> {
    if x.ResultType? then Some((x.ok, x.err)) else None
  }
  function MakeOwnType(p: u32): DefinedKind { OwnType(p) }
  function OfOwnType(x: DefinedKind): Option<u32> { if x.OwnType? then Some(x.resource) else None }
  function MakeBorrowType(p: u32): DefinedKind { BorrowType(p) }
  function OfBorrowType(x: DefinedKind): Option<u32> { if x.BorrowType? then Some(x.resource) else None }

  function DefinedCase(t: byte): Option<Codec<DefinedKind>> {
    if t == 0 then Some(Case(Primitives(), MakePrimitiveType, OfPrimitiveType))
    else if t == 1 then Some(Case(Vector(Pair(Names(), Kinds())), MakeRecordType, OfRecordType))
    else if t == 2 then Some(Case(Vector(VariantCases()), MakeVariantType, OfVariantType))
    else if t == 3 then Some(Case(Kinds(), MakeListType, OfListType))
    else if t == 4 then Some(Case(Vector(Kinds()), MakeTupleType, OfTupleType))
    else if t == 5 then Some(Case(Vector(Names()), MakeFlagsType, OfFlagsType))
    else if t == 6 then Some(Case(Vector(Names()), MakeEnumType, OfEnumType))
    else if t == 7 then Some(Case(Kinds(), MakeOptionType, OfOptionType))
    else if t == 8 then Some(Case(Pair(Optional(Kinds()), Optional(Kinds())), MakeResultType, OfResultType))
    else if t == 9 then Some(Case(Word(), MakeOwnType, OfOwnType))
    else if t == 10 then Some(Case(Word(), MakeBorrowType, OfBorrowType))
    else None
  }

  function DefinedKinds(): Codec<DefinedKind> { Tagged(DefinedTag, DefinedCase) }

  lemma DefinedKindsRoundTrip()
    ensures RoundTrips(DefinedKinds())
  {
    hide RoundTrips, Pair, Iso, Case, Tagged, Vector, Blob, Optional, Marked, Constant;
    NumbersRoundTrip();
    BlobRoundTrips(4);
    PrimitivesRoundTrip();
    KindsRoundTrip();
    VariantCasesRoundTrip();
    PairRoundTrips(Names(), Kinds());
    VectorRoundTrips(Pair(Names(), Kinds()));
    VectorRoundTrips(VariantCases());
    VectorRoundTrips(Kinds());
    VectorRoundTrips(Names());
    OptionalRoundTrips(Kinds());
    PairRoundTrips(Optional(Kinds()), Optional(Kinds()));
    CaseRoundTrips(Primitives(), MakePrimitiveType, OfPrimitiveType);
    CaseRoundTrips(Vector(Pair(Names(), Kinds())), MakeRecordType, OfRecordType);
    CaseRoundTrips(Vector(VariantCases()), MakeVariantType, OfVariantType);
    CaseRoundTrips(Kinds(), MakeListType, OfListType);
    CaseRoundTrips(Vector(Kinds()), MakeTupleType, OfTupleType);
    CaseRoundTrips(Vector(Names()), MakeFlagsType, OfFlagsType);
    CaseRoundTrips(Vector(Names()), MakeEnumType, OfEnumType);
    CaseRoundTrips(Kinds(), MakeOptionType, OfOptionType);
    CaseRoundTrips(Pair(Optional(Kinds()), Optional(Kinds())), MakeResultType, OfResultType);
    CaseRoundTrips(Word(), MakeOwnType, OfOwnType);
    CaseRoundTrips(Word(), MakeBorrowType, OfBorrowType);
    TaggedRoundTrips(DefinedTag, DefinedCase);
  }

  function ResultTag(x: FuncResult): byte {
    match x
    case Unnamed(_) => 0
    case Named(_) => 1
  }

  function MakeUnnamed(p: ValueKind): FuncResult { Unnamed(p) }
  function OfUnnamed(x: FuncResult): Option<ValueKind> { if x.Unnamed? then Some(x.ty) else None }
  function MakeNamed(p: seq<(Name, ValueKind)>): FuncResult { Named(p) }
  function OfNamed(x: FuncResult): Option<seq<(Name, ValueKind)>> { if x.Named? then Some(x.named) else None }

  function ResultCase(t: byte): Option<Codec<FuncResult>> {
    if t == 0 then Some(Case(Kinds(), MakeUnnamed, OfUnnamed))
    else if t == 1 then Some(Case(Vector(Pair(Names(), Kinds())), MakeNamed, OfNamed))
    else None
  }

  function FuncResults(): Codec<FuncResult> { Tagged(ResultTag, ResultCase) }

  lemma FuncResultsRoundTrip()
    ensures RoundTrips(FuncResults())
  {
    hide RoundTrips, Pair, Iso, Case, Tagged, Vector, Blob, Optional, Marked, Constant;
    BlobRoundTrips(4);
    KindsRoundTrip();
    PairRoundTrips(Names(), Kinds());
    VectorRoundTrips(Pair(Names(), Kinds()));
    CaseRoundTrips(Kinds(), MakeUnnamed, OfUnnamed);
    CaseRoundTrips(Vector(Pair(Names(), Kinds())), MakeNamed, OfNamed);
    TaggedRoundTrips(ResultTag, ResultCase);
  }

  function JoinFuncKind(p: (seq<(Name, ValueKind)>, FuncResult)): FuncKind {
    FuncKind(p.0, p.1)
  }
  function SplitFuncKind(x: FuncKind): (seq<(Name, ValueKind)>, FuncResult) {
    (x.params, x.results)
  }

  function FuncKinds(): Codec<FuncKind> {
    Iso(Pair(Vector(Pair(Names(), Kinds())), FuncResults()), JoinFuncKind, SplitFuncKind)
  }

  lemma FuncKindsRoundTrip()
    ensures RoundTrips(FuncKinds())
  {
    hide RoundTrips, Pair, Iso, Case, Tagged, Vector, Blob, Optional, Marked, Constant;
    BlobRoundTrips(4);
    KindsRoundTrip();
    FuncResultsRoundTrip();
    PairRoundTrips(Names(), Kinds());
    VectorRoundTrips(Pair(Names(), Kinds()));
    PairRoundTrips(Vector(Pair(Names(), Kinds())), FuncResults());
    IsoRoundTrips(Pair(Vector(Pair(Names(), Kinds())), FuncResults()), JoinFuncKind, SplitFuncKind);
  }

  function TypeDefTag(x: TypeDef): byte {
    match x
    case Defined(_) => 0
    case FuncDef(_) => 1
    case ComponentDef => 2
    case InstanceDef => 3
    case ResourceDef(_) => 4
  }

  function MakeDefined(p: DefinedKind): TypeDef { Defined(p) }
  function OfDefined(x: TypeDef): Option<DefinedKind> { if x.Defined? then Some(x.d) else None }
  function MakeFuncDef(p: FuncKind): TypeDef { FuncDef(p) }
  function OfFuncDef(x: TypeDef): Option<FuncKind> { if x.FuncDef? then Some(x.f) else None }
  function MakeResourceDef(p: Option<u32>): TypeDef { ResourceDef(p) }
  function OfResourceDef(x: TypeDef): Option<Option<u32>> { if x.ResourceDef? then Some(x.dtor) else None }

  function TypeDefCase(t: byte): Option<Codec<TypeDef>> {
    if t == 0 then Some(Case(DefinedKinds(), MakeDefined, OfDefined))
    else if t == 1 then Some(Case(FuncKinds(), MakeFuncDef, OfFuncDef))
    else if t == 2 then Some(Constant(ComponentDef))
    else if t == 3 then Some(Constant(InstanceDef))
    else if t == 4 then Some(Case(Optional(Word()), MakeResourceDef, OfResourceDef))
    else None
  }

  function TypeDefs(): Codec<TypeDef> { Tagged(TypeDefTag, TypeDefCase) }

  lemma TypeDefsRoundTrip()
    ensures RoundTrips(TypeDefs())
  {
    hide RoundTrips, Pair, Iso, Case, Tagged, Vector, Blob, Optional, Marked, Constant;
    DefinedKindsRoundTrip();
    FuncKindsRoundTrip();
    NumbersRoundTrip();
    OptionalRoundTrips(Word());
    CaseRoundTrips(DefinedKinds(), MakeDefined, OfDefined);
    CaseRoundTrips(FuncKinds(), MakeFuncDef, OfFuncDef);
    ConstantRoundTrips<TypeDef>(ComponentDef);
    ConstantRoundTrips<TypeDef>(InstanceDef);
    CaseRoundTrips(Optional(Word()), MakeResourceDef, OfResourceDef);
    TaggedRoundTrips(TypeDefTag, TypeDefCase);
  }

  function JoinLifted(p: (nat, (Option<nat>, (Option<nat>, (StringEncoding, FuncKind))))): LiftedFunc {
    LiftedFunc(p.0, p.1.0, p.1.1.0, p.1.1.1.0, p.1.1.1.1)
  }
  function SplitLifted(x: LiftedFunc): (nat, (Option<nat>, (Option<nat>, (StringEncoding, FuncKind)))) {
    (x.funcAddr, (x.memoryAddr, (x.reallocAddr, (x.encoding, x.funcType))))
  }

  function LiftedFuncs(): Codec<LiftedFunc> {
    Iso(Pair(U64, Pair(Optional(U64), Pair(Optional(U64), Pair(Encodings(), FuncKinds())))), JoinLifted, SplitLifted)
  }

  lemma LiftedFuncsRoundTrip()
    ensures RoundTrips(LiftedFuncs())
  {
    hide RoundTrips, Pair, Iso, Case, Tagged, Vector, Blob, Optional, Marked, Constant;
    NumbersRoundTrip();
    EncodingsRoundTrip();
    FuncKindsRoundTrip();
    OptionalRoundTrips(U64);
    PairRoundTrips(Encodings(), FuncKinds());
    PairRoundTrips(Optional(U64), Pair(Encodings(), FuncKinds()));
    PairRoundTrips(Optional(U64), Pair(Optional(U64), Pair(Encodings(), FuncKinds())));
    PairRoundTrips(U64, Pair(Optional(U64), Pair(Optional(U64), Pair(Encodings(), FuncKinds()))));
    IsoRoundTrips(Pair(U64, Pair(Optional(U64), Pair(Optional(U64), Pair(Encodings(), FuncKinds())))), JoinLifted, SplitLifted);
  }

  function JoinComponent(p: (map<Name, LiftedFunc>, (seq<TypeDef>, bool))): InstantiatedComponent {
    InstantiatedComponent(p.0, p.1.0, p.1.1)
  }
  function SplitComponent(x: InstantiatedComponent): (map<Name, LiftedFunc>, (seq<TypeDef>, bool)) {
    (x.exports, (x.types, x.mayLeave))
  }

  function Components(): Codec<InstantiatedComponent> {
    Iso(Pair(OrderedMap(Names(), LiftedFuncs()), Pair(Vector(TypeDefs()), Bool)), JoinComponent, SplitComponent)
  }

  lemma ComponentsRoundTrip()
    ensures RoundTrips(Components())
  {
    hide RoundTrips, Pair, Iso, Case, Tagged, Vector, Blob, Optional, Marked, Constant;
    BlobRoundTrips(4);
    LiftedFuncsRoundTrip();
    OrderedMapRoundTrips(Names(), LiftedFuncs());
    TypeDefsRoundTrip();
    VectorRoundTrips(TypeDefs());
    BoolRoundTrips();
    PairRoundTrips(Vector(TypeDefs()), Bool);
    PairRoundTrips(OrderedMap(Names(), LiftedFuncs()), Pair(Vector(TypeDefs()), Bool));
    IsoRoundTrips(Pair(OrderedMap(Names(), LiftedFuncs()), Pair(Vector(TypeDefs()), Bool)), JoinComponent, SplitComponent);
  }
}
