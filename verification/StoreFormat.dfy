/** The encoded form of everything a paused store keeps (src/snapshot.rs, from
    `Ref` on). The operations of compiled code are copied in bulk; their own
    encoding is a parameter here. */
module StoreFormat {
  import opened Wasm
  import opened Runtime
  import opened Ir
  import opened Machine
  import opened Component
  import opened Codec
  import opened Format
  import opened ComponentFormat

  // ----- what is saved -----

  datatype Limit = Limit(min: u64, max: u64)

  datatype SavedRef = NoRef | ToFunction(addr: nat) | ToExternal(addr: nat) | ToI31(bits: u32) | ToException(addr: nat)

  datatype External =
    | ExternalFunction(addr: nat) | ExternalTable(addr: nat) | ExternalMemory(addr: nat)
    | ExternalGlobal(addr: nat) | ExternalTag(addr: nat)

  datatype CatchClause = CatchClause(kind: byte, tag: u32, target: u32, values: u16, drop: u16)

  datatype SavedFunction<Op> = SavedFunction(ops: seq<Op>, localTypes: seq<ValueType>, maxHeight: u32)

  datatype SavedCode<Op> = SavedCode(
    funcs: seq<SavedFunction<Op>>,
    types: seq<SubType>,
    v128Constants: seq<Bytes>,
    jumpTables: seq<seq<JumpTableEntry>>,
    shuffleMasks: seq<Bytes>,
    catchHandlers: seq<seq<CatchClause>>)

  datatype SavedInstance<Op> = SavedInstance(
    code: SavedCode<Op>,
    funcAddrs: seq<nat>, tableAddrs: seq<nat>, memAddrs: seq<nat>, globalAddrs: seq<nat>,
    tagAddrs: seq<nat>, elemAddrs: seq<nat>, dataAddrs: seq<nat>,
    exports: seq<(Name, External)>)

  datatype SavedTable = SavedTable(element: RefType, addr64: bool, limit: Limit, elems: seq<SavedRef>)

  datatype SavedMemory = SavedMemory(addr64: bool, limit: Limit, data: Bytes)

  datatype SavedGlobal = SavedGlobal(valueType: ValueType, isMutable: bool, value: Raw)

  datatype SavedStore<Op> = SavedStore(
    funcs: seq<FuncInst>,
    tables: seq<SavedTable>,
    memories: seq<SavedMemory>,
    globals: seq<SavedGlobal>,
    tags: seq<FunctionType>,
    elems: seq<(RefType, seq<SavedRef>)>,
    datas: seq<Bytes>,
    instances: seq<SavedInstance<Op>>,
    stack: seq<Raw>,
    frames: seq<Frame>,
    fuel: Option<u64>,
    pendingArity: Option<nat>,
    pendingLifted: Option<(LiftedFunc, seq<TypeDef>)>,
    components: seq<InstantiatedComponent>)

  // ----- references, exports, frames -----

  function RefValueTag(r: SavedRef): byte {
    match r case NoRef => 0 case ToFunction(_) => 1 case ToExternal(_) => 2 case ToI31(_) => 3 case ToException(_) => 4
  }

  function MakeFunctionRef(a: nat): SavedRef { ToFunction(a) }
  function OfFunctionRef(r: SavedRef): Option<nat> { if r.ToFunction? then Some(r.addr) else None }
  function MakeExternalRef(a: nat): SavedRef { ToExternal(a) }
  function OfExternalRef(r: SavedRef): Option<nat> { if r.ToExternal? then Some(r.addr) else None }
  function MakeI31(v: u32): SavedRef { ToI31(v) }
  function OfI31(r: SavedRef): Option<u32> { if r.ToI31? then Some(r.bits) else None }
  function MakeExceptionRef(a: nat): SavedRef { ToException(a) }
  function OfExceptionRef(r: SavedRef): Option<nat> { if r.ToException? then Some(r.addr) else None }

  function RefValueCase(t: byte): Option<Codec<SavedRef>> {
    if t == 0 then Some(Constant(NoRef))
    else if t == 1 then Some(Case(U64, MakeFunctionRef, OfFunctionRef))
    else if t == 2 then Some(Case(U64, MakeExternalRef, OfExternalRef))
    else if t == 3 then Some(Case(Word(), MakeI31, OfI31))
    else if t == 4 then Some(Case(U64, MakeExceptionRef, OfExceptionRef))
    else None
  }

  function RefValues(): Codec<SavedRef> { Tagged(RefValueTag, RefValueCase) }

  lemma RefValuesRoundTrip()
    ensures RoundTrips(RefValues())
  {
    hide RoundTrips, Pair, Iso, Case, Tagged, Vector, Blob, Optional, Marked, Constant;
    NumbersRoundTrip();
    ConstantRoundTrips(NoRef);
    CaseRoundTrips(U64, MakeFunctionRef, OfFunctionRef);
    CaseRoundTrips(U64, MakeExternalRef, OfExternalRef);
    CaseRoundTrips(Word(), MakeI31, OfI31);
    CaseRoundTrips(U64, MakeExceptionRef, OfExceptionRef);
    TaggedRoundTrips(RefValueTag, RefValueCase);
  }

  function ExternalTag_(e: External): byte {
    match e
    case ExternalFunction(_) => 0
    case ExternalTable(_) => 1
    case ExternalMemory(_) => 2
    case ExternalGlobal(_) => 3
    case ExternalTag(_) => 4
  }

  function MakeExternal(t: byte, a: nat): External {
    if t == 0 then ExternalFunction(a)
    else if t == 1 then ExternalTable(a)
    else if t == 2 then ExternalMemory(a)
    else if t == 3 then ExternalGlobal(a)
    else ExternalTag(a)
  }

  /** The tag says which index space, the payload is the address in it. */
  function ToExternalValue(p: (byte, nat)): External { MakeExternal(p.0, p.1) }
  function FromExternalValue(e: External): (byte, nat) { (ExternalTag_(e), e.addr) }

  const ExternalTagByte: Codec<byte> := Codec(
    (v: byte) => [v],
    (buf: Bytes) => if buf == [] || buf[0] > 4 then None else Some((buf[0], buf[1..])),
    (v: byte) => v <= 4)

  function Externals(): Codec<External> { Iso(Pair(ExternalTagByte, U64), ToExternalValue, FromExternalValue) }

  lemma ExternalsRoundTrip()
    ensures RoundTrips(Externals())
  {
    NumbersRoundTrip();
    forall v: byte, rest: Bytes | ExternalTagByte.valid(v) ensures ExternalTagByte.decode(ExternalTagByte.encode(v) + rest) == Some((v, rest)) {
      assert ([v] + rest)[1..] == rest;
    }
    hide RoundTrips, Pair, Iso, Case, Tagged, Vector, Blob, Optional, Marked, Constant;
    PairRoundTrips(ExternalTagByte, U64);
    IsoRoundTrips(Pair(ExternalTagByte, U64), ToExternalValue, FromExternalValue);
  }

  function ToFrame(p: (nat, (nat, (nat, (seq<Raw>, (nat, nat)))))): Frame {
    Frame(p.0, p.1.0, p.1.1.0, p.1.1.1.0, p.1.1.1.1.0, p.1.1.1.1.1)
  }
  function FromFrame(f: Frame): (nat, (nat, (nat, (seq<Raw>, (nat, nat))))) {
    (f.mi, (f.fi, (f.pc, (f.locals, (f.base, f.arity)))))
  }

  function Frames(): Codec<Frame> {
    Iso(Pair(U16, Pair(U32, Pair(U64, Pair(Vector(Long()), Pair(U64, U64))))), ToFrame, FromFrame)
  }

  lemma FramesRoundTrip()
    ensures RoundTrips(Frames())
  {
    hide RoundTrips, Pair, Iso, Case, Tagged, Vector, Blob, Optional, Marked, Constant;
    NumbersRoundTrip();
    VectorRoundTrips(Long());
    PairRoundTrips(U64, U64);
    PairRoundTrips(Vector(Long()), Pair(U64, U64));
    PairRoundTrips(U64, Pair(Vector(Long()), Pair(U64, U64)));
    PairRoundTrips(U32, Pair(U64, Pair(Vector(Long()), Pair(U64, U64))));
    PairRoundTrips(U16, Pair(U32, Pair(U64, Pair(Vector(Long()), Pair(U64, U64)))));
    IsoRoundTrips(Pair(U16, Pair(U32, Pair(U64, Pair(Vector(Long()), Pair(U64, U64))))), ToFrame, FromFrame);
  }

  // ----- function instances -----

  function FuncTag(f: FuncInst): byte { if f.LocalFunc? then 0 else 1 }
  function ToLocal(p: (FunctionType, (nat, nat))): FuncInst { LocalFunc(p.0, p.1.0, p.1.1) }
  function FromLocal(f: FuncInst): Option<(FunctionType, (nat, nat))> {
    if f.LocalFunc? then Some((f.ft, (f.mi, f.fi))) else None
  }
  function ToHost(p: (FunctionType, (Name, Name))): FuncInst { HostFunc(p.0, p.1.0, p.1.1) }
  function FromHost(f: FuncInst): Option<(FunctionType, (Name, Name))> {
    if f.HostFunc? then Some((f.ft, (f.moduleName, f.funcName))) else None
  }

  function FuncCase(t: byte): Option<Codec<FuncInst>> {
    if t == 0 then Some(Case(Pair(FuncTypes(), Pair(U16, U32)), ToLocal, FromLocal))
    else if t == 1 then Some(Case(Pair(FuncTypes(), Pair(Names(), Names())), ToHost, FromHost))
    else None
  }

  function FuncInsts(): Codec<FuncInst> { Tagged(FuncTag, FuncCase) }

  lemma FuncInstsRoundTrip()
    ensures RoundTrips(FuncInsts())
  {
    hide RoundTrips, Pair, Iso, Case, Tagged, Vector, Blob, Optional, Marked, Constant;
    NumbersRoundTrip();
    FuncTypesRoundTrip();
    BlobRoundTrips(4);
    PairRoundTrips(U16, U32);
    PairRoundTrips(Names(), Names());
    PairRoundTrips(FuncTypes(), Pair(U16, U32));
    PairRoundTrips(FuncTypes(), Pair(Names(), Names()));
    CaseRoundTrips(Pair(FuncTypes(), Pair(U16, U32)), ToLocal, FromLocal);
    CaseRoundTrips(Pair(FuncTypes(), Pair(Names(), Names())), ToHost, FromHost);
    TaggedRoundTrips(FuncTag, FuncCase);
  }

  // ----- compiled code -----

  function ToEntry(p: (nat, u16)): JumpTableEntry { JumpTableEntry(p.0, p.1) }
  function FromEntry(e: JumpTableEntry): (nat, u16) { (e.target, e.drop) }

  function Entries(): Codec<JumpTableEntry> { Iso(Pair(U32, Half()), ToEntry, FromEntry) }

  const CatchKinds: Codec<byte> := Codec(
    (v: byte) => [v],
    (buf: Bytes) => if buf == [] || buf[0] > 3 then None else Some((buf[0], buf[1..])),
    (v: byte) => v <= 3)

  function ToClause(p: (byte, (u32, (u32, (u16, u16))))): CatchClause {
    CatchClause(p.0, p.1.0, p.1.1.0, p.1.1.1.0, p.1.1.1.1)
  }
  function FromClause(c: CatchClause): (byte, (u32, (u32, (u16, u16)))) {
    (c.kind, (c.tag, (c.target, (c.values, c.drop))))
  }

  function Clauses(): Codec<CatchClause> {
    Iso(Pair(CatchKinds, Pair(Word(), Pair(Word(), Pair(Half(), Half())))), ToClause, FromClause)
  }

  lemma ClausesRoundTrip()
    ensures RoundTrips(Entries()) && RoundTrips(Clauses())
  {
    NumbersRoundTrip();
    forall v: byte, rest: Bytes | CatchKinds.valid(v) ensures CatchKinds.decode(CatchKinds.encode(v) + rest) == Some((v, rest)) {
      assert ([v] + rest)[1..] == rest;
    }
    assert RoundTrips(CatchKinds);
    hide RoundTrips, Pair, Iso, Case, Tagged, Vector, Blob, Optional, Marked, Constant;
    PairRoundTrips(U32, Half());
    IsoRoundTrips(Pair(U32, Half()), ToEntry, FromEntry);
    PairRoundTrips(Half(), Half());
    PairRoundTrips(Word(), Pair(Half(), Half()));
    PairRoundTrips(Word(), Pair(Word(), Pair(Half(), Half())));
    PairRoundTrips(CatchKinds, Pair(Word(), Pair(Word(), Pair(Half(), Half()))));
    IsoRoundTrips(Pair(CatchKinds, Pair(Word(), Pair(Word(), Pair(Half(), Half())))), ToClause, FromClause);
  }

  function JoinFunction<Op>(p: (seq<Op>, (seq<ValueType>, u32))): SavedFunction<Op> { SavedFunction(p.0, p.1.0, p.1.1) }
  function SplitFunction<Op>(f: SavedFunction<Op>): (seq<Op>, (seq<ValueType>, u32)) {
    (f.ops, (f.localTypes, f.maxHeight))
  }

  function Functions<Op>(op: Codec<Op>): Codec<SavedFunction<Op>> {
    Iso(Pair(Vector(op), Pair(Vector(ValueTypes()), Word())), JoinFunction<Op>, SplitFunction<Op>)
  }

  lemma FunctionsRoundTrip<Op(!new)>(op: Codec<Op>)
    requires RoundTrips(op)
    ensures RoundTrips(Functions(op))
  {
    hide RoundTrips, Pair, Iso, Case, Tagged, Vector, Blob, Optional, Marked, Constant;
    NumbersRoundTrip();
    ValueTypesRoundTrip();
    VectorRoundTrips(ValueTypes());
    VectorRoundTrips(op);
    PairRoundTrips(Vector(ValueTypes()), Word());
    PairRoundTrips(Vector(op), Pair(Vector(ValueTypes()), Word()));
    IsoRoundTrips(Pair(Vector(op), Pair(Vector(ValueTypes()), Word())), JoinFunction<Op>, SplitFunction<Op>);
  }

  type CodeTail = (seq<Bytes>, (seq<seq<JumpTableEntry>>, (seq<Bytes>, seq<seq<CatchClause>>)))

  function JoinCode<Op>(p: (seq<SavedFunction<Op>>, (seq<SubType>, CodeTail))): SavedCode<Op> {
    var tail := p.1.1;
    SavedCode(p.0, p.1.0, tail.0, tail.1.0, tail.1.1.0, tail.1.1.1)
  }
  function SplitCode<Op>(x: SavedCode<Op>): (seq<SavedFunction<Op>>, (seq<SubType>, CodeTail)) {
    (x.funcs, (x.types, (x.v128Constants, (x.jumpTables, (x.shuffleMasks, x.catchHandlers)))))
  }

  function CodeTails(): Codec<CodeTail> {
    Pair(Vector(Exactly(16)), Pair(Vector(Vector(Entries())), Pair(Vector(Exactly(16)), Vector(Vector(Clauses())))))
  }

  function Codes<Op>(op: Codec<Op>): Codec<SavedCode<Op>> {
    Iso(Pair(Vector(Functions(op)), Pair(Vector(SubTypes()), CodeTails())), JoinCode<Op>, SplitCode<Op>)
  }

  lemma CodeTailsRoundTrip()
    ensures RoundTrips(CodeTails())
  {
    hide RoundTrips, Pair, Vector;
    ExactlyRoundTrips(16);
    ClausesRoundTrip();
    VectorRoundTrips(Exactly(16));
    VectorRoundTrips(Entries());
    VectorRoundTrips(Vector(Entries()));
    VectorRoundTrips(Clauses());
    VectorRoundTrips(Vector(Clauses()));
    var masks := Pair(Vector(Exactly(16)), Vector(Vector(Clauses())));
    PairRoundTrips(Vector(Exactly(16)), Vector(Vector(Clauses())));
    PairRoundTrips(Vector(Vector(Entries())), masks);
    PairRoundTrips(Vector(Exactly(16)), Pair(Vector(Vector(Entries())), masks));
  }

  lemma CodesRoundTrip<Op(!new)>(op: Codec<Op>)
    requires RoundTrips(op)
    ensures RoundTrips(Codes(op))
  {
    hide RoundTrips, Pair, Iso, Vector, CodeTails;
    FunctionsRoundTrip(op);
    SubTypesRoundTrip();
    CodeTailsRoundTrip();
    VectorRoundTrips(Functions(op));
    VectorRoundTrips(SubTypes());
    PairRoundTrips(Vector(SubTypes()), CodeTails());
    PairRoundTrips(Vector(Functions(op)), Pair(Vector(SubTypes()), CodeTails()));
    IsoRoundTrips(Pair(Vector(Functions(op)), Pair(Vector(SubTypes()), CodeTails())), JoinCode<Op>, SplitCode<Op>);
  }

  // ----- instances -----

  type FourAddrs = (seq<nat>, (seq<nat>, (seq<nat>, seq<nat>)))
  type ThreeAddrs = (seq<nat>, (seq<nat>, (seq<nat>, seq<(Name, External)>)))

  function JoinInstance<Op>(p: (SavedCode<Op>, (FourAddrs, ThreeAddrs))): SavedInstance<Op> {
    var (first, last) := (p.1.0, p.1.1);
    SavedInstance(p.0, first.0, first.1.0, first.1.1.0, first.1.1.1, last.0, last.1.0, last.1.1.0, last.1.1.1)
  }
  function SplitInstance<Op>(x: SavedInstance<Op>): (SavedCode<Op>, (FourAddrs, ThreeAddrs)) {
    (x.code, ((x.funcAddrs, (x.tableAddrs, (x.memAddrs, x.globalAddrs))),
              (x.tagAddrs, (x.elemAddrs, (x.dataAddrs, x.exports)))))
  }

  /** The addresses of functions, tables, memories and globals. */
  function FirstAddrs(): Codec<FourAddrs> {
    Pair(Vector(U64), Pair(Vector(U64), Pair(Vector(U64), Vector(U64))))
  }

  /** The addresses of tags, elements and data, and the exports. */
  function LastAddrs(): Codec<ThreeAddrs> {
    Pair(Vector(U64), Pair(Vector(U64), Pair(Vector(U64), Vector(Pair(Names(), Externals())))))
  }

  function Instances<Op>(op: Codec<Op>): Codec<SavedInstance<Op>> {
    Iso(Pair(Codes(op), Pair(FirstAddrs(), LastAddrs())), JoinInstance<Op>, SplitInstance<Op>)
  }

  lemma AddrsRoundTrip()
    ensures RoundTrips(FirstAddrs()) && RoundTrips(LastAddrs())
  {
    hide RoundTrips, Pair, Vector, Blob;
    NumbersRoundTrip();
    BlobRoundTrips(4);
    ExternalsRoundTrip();
    VectorRoundTrips(U64);
    PairRoundTrips(Names(), Externals());
    VectorRoundTrips(Pair(Names(), Externals()));
    var exports := Vector(Pair(Names(), Externals()));
    PairRoundTrips(Vector(U64), Vector(U64));
    PairRoundTrips(Vector(U64), Pair(Vector(U64), Vector(U64)));
    PairRoundTrips(Vector(U64), Pair(Vector(U64), Pair(Vector(U64), Vector(U64))));
    PairRoundTrips(Vector(U64), exports);
    PairRoundTrips(Vector(U64), Pair(Vector(U64), exports));
    PairRoundTrips(Vector(U64), Pair(Vector(U64), Pair(Vector(U64), exports)));
  }

  lemma InstancesRoundTrip<Op(!new)>(op: Codec<Op>)
    requires RoundTrips(op)
    ensures RoundTrips(Instances(op))
  {
    hide RoundTrips, Pair, Iso, Codes, FirstAddrs, LastAddrs;
    CodesRoundTrip(op);
    AddrsRoundTrip();
    PairRoundTrips(FirstAddrs(), LastAddrs());
    PairRoundTrips(Codes(op), Pair(FirstAddrs(), LastAddrs()));
    IsoRoundTrips(Pair(Codes(op), Pair(FirstAddrs(), LastAddrs())), JoinInstance<Op>, SplitInstance<Op>);
  }

  // ----- tables, memories, globals -----

  function JoinLimit(p: (u64, u64)): Limit {
    Limit(p.0, p.1)
  }
  function SplitLimit(x: Limit): (u64, u64) {
    (x.min, x.max)
  }

  function Limits(): Codec<Limit> {
    Iso(Pair(Long(), Long()),
        JoinLimit, SplitLimit)
  }

  lemma LimitsRoundTrip()
    ensures RoundTrips(Limits())
  {
    hide RoundTrips, Pair, Iso, Case, Tagged, Vector, Blob, Optional, Marked, Constant;
    NumbersRoundTrip();
    PairRoundTrips(Long(), Long());
    IsoRoundTrips(Pair(Long(), Long()), JoinLimit, SplitLimit);
  }

  function JoinTable(p: (RefType, (bool, (Limit, seq<SavedRef>)))): SavedTable {
    SavedTable(p.0, p.1.0, p.1.1.0, p.1.1.1)
  }
  function SplitTable(x: SavedTable): (RefType, (bool, (Limit, seq<SavedRef>))) {
    (x.element, (x.addr64, (x.limit, x.elems)))
  }

  function Tables(): Codec<SavedTable> {
    Iso(Pair(RefTypes(), Pair(Bool, Pair(Limits(), Vector(RefValues())))),
        JoinTable, SplitTable)
  }

  lemma TablesRoundTrip()
    ensures RoundTrips(Tables())
  {
    hide RoundTrips, Pair, Iso, Case, Tagged, Vector, Blob, Optional, Marked, Constant;
    RefTypesRoundTrip();
    BoolRoundTrips();
    LimitsRoundTrip();
    RefValuesRoundTrip();
    VectorRoundTrips(RefValues());
    PairRoundTrips(Limits(), Vector(RefValues()));
    PairRoundTrips(Bool, Pair(Limits(), Vector(RefValues())));
    PairRoundTrips(RefTypes(), Pair(Bool, Pair(Limits(), Vector(RefValues()))));
    IsoRoundTrips(Pair(RefTypes(), Pair(Bool, Pair(Limits(), Vector(RefValues())))), JoinTable, SplitTable);
  }

  function JoinMemory(p: (bool, (Limit, Bytes))): SavedMemory {
    SavedMemory(p.0, p.1.0, p.1.1)
  }
  function SplitMemory(x: SavedMemory): (bool, (Limit, Bytes)) {
    (x.addr64, (x.limit, x.data))
  }

  function Memories(): Codec<SavedMemory> {
    Iso(Pair(Bool, Pair(Limits(), Blob(8))),
        JoinMemory, SplitMemory)
  }

  lemma MemoriesRoundTrip()
    ensures RoundTrips(Memories())
  {
    hide RoundTrips, Pair, Iso, Case, Tagged, Vector, Blob, Optional, Marked, Constant;
    BoolRoundTrips();
    LimitsRoundTrip();
    BlobRoundTrips(8);
    PairRoundTrips(Limits(), Blob(8));
    PairRoundTrips(Bool, Pair(Limits(), Blob(8)));
    IsoRoundTrips(Pair(Bool, Pair(Limits(), Blob(8))), JoinMemory, SplitMemory);
  }

  function JoinGlobal(p: (ValueType, (bool, Raw))): SavedGlobal {
    SavedGlobal(p.0, p.1.0, p.1.1)
  }
  function SplitGlobal(x: SavedGlobal): (ValueType, (bool, Raw)) {
    (x.valueType, (x.isMutable, x.value))
  }

  function Globals(): Codec<SavedGlobal> {
    Iso(Pair(ValueTypes(), Pair(Bool, Long())),
        JoinGlobal, SplitGlobal)
  }

  lemma GlobalsRoundTrip()
    ensures RoundTrips(Globals())
  {
    hide RoundTrips, Pair, Iso, Case, Tagged, Vector, Blob, Optional, Marked, Constant;
    ValueTypesRoundTrip();
    BoolRoundTrips();
    NumbersRoundTrip();
    PairRoundTrips(Bool, Long());
    PairRoundTrips(ValueTypes(), Pair(Bool, Long()));
    IsoRoundTrips(Pair(ValueTypes(), Pair(Bool, Long())), JoinGlobal, SplitGlobal);
  }

  /** The live values, counted twice and followed by the cursor, which is their
      number. */
  function JoinStack(p: (nat, (seq<Raw>, nat))): seq<Raw> {
    if p.1.1 <= |p.1.0| then p.1.0[..p.1.1] else p.1.0
  }
  function SplitStack(x: seq<Raw>): (nat, (seq<Raw>, nat)) {
    (|x|, (x, |x|))
  }

  function Stacks(): Codec<seq<Raw>> {
    Iso(Pair(U32, Pair(Vector(Long()), U64)), JoinStack, SplitStack)
  }

  lemma StacksRoundTrip()
    ensures RoundTrips(Stacks())
  {
    hide RoundTrips, Pair, Iso, Case, Tagged, Vector, Blob, Optional, Marked, Constant;
    NumbersRoundTrip();
    VectorRoundTrips(Long());
    PairRoundTrips(Vector(Long()), U64);
    PairRoundTrips(U32, Pair(Vector(Long()), U64));
    forall x: seq<Raw> ensures JoinStack(SplitStack(x)) == x {
      assert x[..|x|] == x;
    }
    IsoRoundTrips(Pair(U32, Pair(Vector(Long()), U64)), JoinStack, SplitStack);
  }

  // ----- the whole store -----

  /** What instances share: function instances, tables, memories, globals, and
      segments. */
  type SharedParts = (seq<FuncInst>, (seq<SavedTable>, (seq<SavedMemory>, (seq<SavedGlobal>, SegmentParts))))

  type SegmentParts = (seq<FunctionType>, (seq<(RefType, seq<SavedRef>)>, seq<Bytes>))

  /** What belongs to instances and to the paused run. */
  type RunParts<Op> = (seq<SavedInstance<Op>>, (seq<Raw>, (seq<Frame>, PendingParts)))

  /** What a pause leaves for the embedder, and the instantiated components. */
  type PendingParts = (Option<u64>, (Option<nat>, (Option<(LiftedFunc, seq<TypeDef>)>, seq<InstantiatedComponent>)))

  function ElemSegments(): Codec<(RefType, seq<SavedRef>)> {
    Pair(RefTypes(), Vector(RefValues()))
  }

  /** Tags, element segments and data segments. */
  function Segments(): Codec<SegmentParts> {
    Pair(Vector(FuncTypes()), Pair(Vector(ElemSegments()), Vector(Blob(4))))
  }

  function Shared(): Codec<SharedParts> {
    Pair(Vector(FuncInsts()), Pair(Vector(Tables()), Pair(Vector(Memories()), Pair(Vector(Globals()), Segments()))))
  }

  function LiftedCalls(): Codec<(LiftedFunc, seq<TypeDef>)> {
    Pair(LiftedFuncs(), Vector(TypeDefs()))
  }

  function Pending(): Codec<PendingParts> {
    Pair(Optional(Long()), Pair(Optional(U64), Pair(Optional(LiftedCalls()), Vector(Components()))))
  }

  function RunState<Op>(op: Codec<Op>): Codec<RunParts<Op>> {
    Pair(Vector(Instances(op)), Pair(Stacks(), Pair(Vector(Frames()), Pending())))
  }

  lemma ThreeRoundTrip<A(!new), B(!new), C(!new)>(a: Codec<A>, b: Codec<B>, c: Codec<C>)
    requires RoundTrips(a) && RoundTrips(b) && RoundTrips(c)
    ensures RoundTrips(Pair(a, Pair(b, c)))
  {
    hide RoundTrips, Pair;
    PairRoundTrips(b, c);
    PairRoundTrips(a, Pair(b, c));
  }

  lemma ElemSegmentsRoundTrip()
    ensures RoundTrips(ElemSegments())
  {
    hide RoundTrips, Pair, Vector;
    RefTypesRoundTrip();
    RefValuesRoundTrip();
    VectorRoundTrips(RefValues());
    PairRoundTrips(RefTypes(), Vector(RefValues()));
  }

  lemma SegmentsRoundTrip()
    ensures RoundTrips(Segments())
  {
    hide RoundTrips, Pair, Vector, Blob, ElemSegments, FuncTypes;
    FuncTypesRoundTrip();
    ElemSegmentsRoundTrip();
    BlobRoundTrips(4);
    VectorRoundTrips(FuncTypes());
    VectorRoundTrips(ElemSegments());
    VectorRoundTrips(Blob(4));
    ThreeRoundTrip(Vector(FuncTypes()), Vector(ElemSegments()), Vector(Blob(4)));
  }

  lemma SharedRoundTrips()
    ensures RoundTrips(Shared())
  {
    hide RoundTrips, Pair, Vector, FuncInsts, Tables, Memories, Globals, Segments;
    FuncInstsRoundTrip();
    TablesRoundTrip();
    MemoriesRoundTrip();
    GlobalsRoundTrip();
    SegmentsRoundTrip();
    VectorRoundTrips(FuncInsts());
    VectorRoundTrips(Tables());
    VectorRoundTrips(Memories());
    VectorRoundTrips(Globals());
    ThreeRoundTrip(Vector(Memories()), Vector(Globals()), Segments());
    ThreeRoundTrip(Vector(FuncInsts()), Vector(Tables()), Pair(Vector(Memories()), Pair(Vector(Globals()), Segments())));
  }

  lemma PendingRoundTrips()
    ensures RoundTrips(Pending())
  {
    hide RoundTrips, Pair, Vector, Optional, Long, LiftedFuncs, TypeDefs, Components;
    NumbersRoundTrip();
    LiftedFuncsRoundTrip();
    TypeDefsRoundTrip();
    ComponentsRoundTrip();
    VectorRoundTrips(TypeDefs());
    PairRoundTrips(LiftedFuncs(), Vector(TypeDefs()));
    OptionalRoundTrips(Long());
    OptionalRoundTrips(U64);
    OptionalRoundTrips(LiftedCalls());
    VectorRoundTrips(Components());
    ThreeRoundTrip(Optional(U64), Optional(LiftedCalls()), Vector(Components()));
    PairRoundTrips(Optional(Long()), Pair(Optional(U64), Pair(Optional(LiftedCalls()), Vector(Components()))));
  }

  lemma RunStateRoundTrips<Op(!new)>(op: Codec<Op>)
    requires RoundTrips(op)
    ensures RoundTrips(RunState(op))
  {
    hide RoundTrips, Pair, Vector, Instances, Stacks, Frames, Pending;
    InstancesRoundTrip(op);
    StacksRoundTrip();
    FramesRoundTrip();
    PendingRoundTrips();
    VectorRoundTrips(Instances(op));
    VectorRoundTrips(Frames());
    ThreeRoundTrip(Stacks(), Vector(Frames()), Pending());
    PairRoundTrips(Vector(Instances(op)), Pair(Stacks(), Pair(Vector(Frames()), Pending())));
  }

  function JoinStore<Op>(p: (SharedParts, RunParts<Op>)): SavedStore<Op> {
    SavedStore(p.0.0, p.0.1.0, p.0.1.1.0, p.0.1.1.1.0, p.0.1.1.1.1.0, p.0.1.1.1.1.1.0, p.0.1.1.1.1.1.1,
               p.1.0, p.1.1.0, p.1.1.1.0, p.1.1.1.1.0, p.1.1.1.1.1.0, p.1.1.1.1.1.1.0, p.1.1.1.1.1.1.1)
  }

  function SplitStore<Op>(x: SavedStore<Op>): (SharedParts, RunParts<Op>) {
    ((x.funcs, (x.tables, (x.memories, (x.globals, (x.tags, (x.elems, x.datas)))))),
     (x.instances, (x.stack, (x.frames, (x.fuel, (x.pendingArity, (x.pendingLifted, x.components)))))))
  }

  /** "gaba", then version 3. */
  const HEADER: Bytes := [0x67, 0x61, 0x62, 0x61, 3, 0, 0, 0]

  function Stores<Op>(op: Codec<Op>): Codec<SavedStore<Op>> {
    Marked(HEADER, Iso(Pair(Shared(), RunState(op)), JoinStore<Op>, SplitStore<Op>))
  }

  /** Every store whose counts fit their widths is read back as it was written,
      and what follows it is left. */
  lemma StoresRoundTrip<Op(!new)>(op: Codec<Op>)
    requires RoundTrips(op)
    ensures RoundTrips(Stores(op))
  {
    hide RoundTrips, Pair, Iso, Case, Tagged, Vector, Blob, Optional, Marked, Constant, Shared, RunState;
    SharedRoundTrips();
    RunStateRoundTrips(op);
    PairRoundTrips(Shared(), RunState(op));
    IsoRoundTrips(Pair(Shared(), RunState(op)), JoinStore<Op>, SplitStore<Op>);
    MarkedRoundTrips(HEADER, Iso(Pair(Shared(), RunState(op)), JoinStore<Op>, SplitStore<Op>));
  }

  /** The snapshot of a store determines the store, whatever follows it. */
  lemma SnapshotInjective<Op(!new)>(op: Codec<Op>, a: SavedStore<Op>, b: SavedStore<Op>, r: Bytes, s: Bytes)
    requires RoundTrips(op) && Stores(op).valid(a) && Stores(op).valid(b)
    requires Stores(op).encode(a) + r == Stores(op).encode(b) + s
    ensures a == b && r == s
  {
    hide RoundTrips, Stores;
    StoresRoundTrip(op);
    PrefixFree(Stores(op), a, b, r, s);
  }
}
