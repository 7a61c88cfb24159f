/** Component-model types, as far as values are passed through them
    (src/component/model.rs, src/component/runtime.rs). */
module Component {
  import opened Wasm

  datatype PrimitiveKind = PBool | PS8 | PU8 | PS16 | PU16 | PS32 | PU32 | PS64 | PU64 | PF32 | PF64 | PChar | PString

  datatype ValueKind = TypeRef(index: u32) | Primitive(p: PrimitiveKind)

  datatype VariantCase = VariantCase(name: Name, ty: Option<ValueKind>, refined: Option<u32>)

  datatype DefinedKind =
    | PrimitiveType(p: PrimitiveKind)
    | RecordType(fields: seq<(Name, ValueKind)>)
    | VariantType(cases: seq<VariantCase>)
    | ListType(elem: ValueKind)
    | TupleType(tys: seq<ValueKind>)
    | FlagsType(names: seq<Name>)
    | EnumType(names: seq<Name>)
    | OptionType(inner: ValueKind)
    | ResultType(ok: Option<ValueKind>, err: Option<ValueKind>)
    | OwnType(resource: u32)
    | BorrowType(resource: u32)

  datatype FuncResult = Unnamed(ty: ValueKind) | Named(named: seq<(Name, ValueKind)>)

  datatype FuncKind = FuncKind(params: seq<(Name, ValueKind)>, results: FuncResult)

  /** The declarations inside component and instance types are not modelled: the
      codec drops them. */
  datatype TypeDef = Defined(d: DefinedKind) | FuncDef(f: FuncKind) | ComponentDef | InstanceDef | ResourceDef(dtor: Option<u32>)

  datatype StringEncoding = Utf8 | Utf16 | Latin1Utf16

  datatype LiftedFunc = LiftedFunc(
    funcAddr: nat, memoryAddr: Option<nat>, reallocAddr: Option<nat>, encoding: StringEncoding, funcType: FuncKind)

  datatype InstantiatedComponent = InstantiatedComponent(exports: map<Name, LiftedFunc>, types: seq<TypeDef>, mayLeave: bool)
}
