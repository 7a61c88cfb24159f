# gabagool in Dafny

gabagool is a WebAssembly interpreter. It validates a parsed module, lowers each
structured function body to a flat list of operations with explicit jumps, strips
labels that nothing jumps to, fuses adjacent operations, and runs the result on a
value stack that it never bounds-checks. A run can be paused when its fuel is
spent, suspended on a call of an imported host function, saved to bytes, restored
and resumed.

The project models that path and proves what it is for:

- **Compiled code means what the source means.** `Reference` is a structured
  big-step semantics in the style of section 4.4 of the WebAssembly Core
  Specification. `Machine` is the step machine of the interpreter. `Lowering` is
  the compiler as functions, `Compiler` the same compiler as the class that the
  source has. `Simulation`, `Fusion` and `Correctness` connect them in both
  directions, through lowering, label stripping, fusion and label resolution.
- **No check is missing.** `Safety`, `Capacity`, `Heights` and `Reached` show what
  validation buys: every step of every run stays in its frame, its locals, its code
  and its share of the stack; wherever a run is, its operands are as many as the
  compiler and the validator counted there; and code behind an unconditional
  transfer is never entered. `TypeSafety` adds what types say about untyped slots:
  references decode wherever they are used.
- **The validator is the standard's type system.** `Declarative` states the typing
  rules of section 3.3 of the Core Specification; `Typability` proves that the
  algorithm accepts exactly the functions that they type, and `Strictness` where
  its rule for `ref.as_non_null` departs from the standard's; `Validator` is the
  algorithm as the source's mutable checker. The rules use the bottom heap type of
  the later edition of the standard. They share the lookups of the algorithm
  (`HeapSubtype`, `IndirectType` with `HoldsFuncs`, `MemArgType`), so on those the
  two agree by construction: a call through a table whose elements are
  `(ref null $ft)` is rejected by both, although the current standard accepts it.
- **The machine runs as its embedder sees it.** `Metering` (fuel, suspension and
  imports as atomic operations), `TailCalls`, `Stack` and `Execution` (the value
  stack and the store as classes with in-place updates), `Linker` (the dispatch
  loop, with the end-to-end result of a call).
- **Snapshots.** `Codec`, `Format`, `ComponentFormat` and `StoreFormat` are the
  encoding; `Snapshot` writes and reads it part by part. `Transparency` says when a
  restored store behaves as the saved one on the stack that restoring gives it.
- **Satellites.** `Leb128`; `Flatten` and `CanonicalAbi` (component values as flat
  core values); `Descriptors` and `Directory` (rights, descriptor numbers and
  directory listings of the WASI layer); `GuestMemory`.

`Wasm`, `Runtime`, `Ir`, `Component` and `Subtyping` hold the data and the leaf
operations that all of these share. Widths, wrap-around and sign extension of stored, loaded and compared integers are
written out. Every unary and binary number operator (addition, division, shifts,
counting, conversions, all of floating point) is a parameter of the semantics
(`Platform`); tests for zero and integer comparisons are not, because the compiler
fuses them. Host functions are a parameter too (`Env.host`), assumed to leave the
lengths of memories, tables and globals in order (`HostKeepsWorld`). An i32 address
is sign-extended, as in the code, in both semantics, which share
`Runtime.EffectiveAddress`; in the standard it is unsigned, so addresses from 2^31
up are out of bounds here and need not be there.

A result of the interpreter that the source does not check is `Wrong` in the model:
a pop below the frame, an index out of range, a jump outside the code. `NeverWrong`
says that no run of a validated program gets there.

## Findings

- The capacity of the value stack is computed from the heights of compiled
  functions only, and heights are counted after instructions. Two things go onto
  the stack without being counted: the arguments of a call from outside, before its
  first instruction (`Capacity.ArgumentsOverflow`: 2000 parameters and an empty
  body on a stack with room for 1024), and the results that an import leaves to a
  tail call (`Capacity.TailCallOverflows`). `Capacity.CapacityExact` says that
  there is nothing else: the capacity is enough for a call if and only if the
  parameters fit it, and the results fit it or the call does not return. A caller
  can compare both numbers with the capacity before the call.
- `ref.as_non_null` on an operand of unknown type leaves an operand of unknown
  type, where the standard leaves a reference. Code after it is accepted that no
  rule of the standard types (`Strictness.AcceptedNotStandard`). The standard types
  exactly the functions that pass a strict check, in which the instruction leaves
  some non-null reference there (`Strictness.StandardExact`). A function in whose
  check the instruction never pops an operand of unknown type is accepted only if
  the standard types it (`Strictness.ValidatorStandard`), which includes every
  function that does not use it (`Strictness.WithoutNonNull`).
- Restoring a snapshot gives the value stack room for 1024 values or for the live
  ones, whichever is more, and ignores the capacity that was saved. A store can then
  write beyond its stack where the saved one does not
  (`Transparency.RestoredOverflows`: an import's 2000 results).
  `Transparency.SnapshotTransparent` has the exact condition: the rest of the run
  needs no more room than that. It holds whenever the saved stack has no more, which
  can be checked before saving.
- Declared locals start as zero, which is null, whatever their type
  (`TypeSafety.LocalsStartTyped`: they have their types if and only if null belongs
  to every one of them). The validator lets a local of a non-nullable reference type
  be read before it is set, which the later edition of the standard rejects:
  `TypeSafety.UnsetLocal` returns null where its type says otherwise. In programs
  whose declared locals are all nullable, non-nullable references are never null
  (`TypeSafety.CallsKeepTypes`). The typing rules of `Declarative` do not track
  which locals are set.
- A variant never takes as many words as its flat count says
  (`Flatten.VariantMiscounts`, `Flatten.VariantOverfills`): the padding counts one
  payload word as the tag.
- The opening comment of `src/runtime/stack.rs` rests unchecked access on
  validation and the tracked maximal height. That holds for frames
  (`Safety.EveryStepStays`), with the exceptions above for a call's arguments, for
  its results and for restored stores.

## Model

| member | source | states |
|---|---|---|
| `Correctness.CompilerCorrect` | src/compiler.rs:76-151 | A call of a function of a validated program, through optimized code, halts with a result exactly when the structured semantics gives the call that outcome: same values, same fault, same memories, globals and tables. |
| `Correctness.NeverWrong` | src/runtime/stack.rs:8-12 | No run of a validated program, of any length, makes an unchecked access that is out of place. |
| `Correctness.ReturnsResults` | src/runtime/store.rs:1582-1610 | A run that has left its last frame holds exactly as many values above its start as the function's type says. |
| `Simulation.SimCall` | src/runtime/store.rs:1667-1728 | Entering a function on any stack and any callers, the unfused code reaches what the semantics says of the call with this fuel, one depth deeper, or outlasts the fuel. |
| `Simulation.SimInstr` | src/compiler.rs:1035-1246 | One instruction's code, from a matching state, reaches the state, branch or fault that the semantics gives the instruction, for every instruction of the fragment. |
| `Simulation.BranchJumps` | src/compiler.rs:293-323 | The keep and drop counts of a branch to the label at a depth land on that label with exactly its values on the operands that were there at its entry. |
| `Simulation.TableJumps` | src/runtime/store.rs:1834-1846 | Every index of a branch table jumps to the label it selects, the default beyond the end, with that label's values. |
| `LoweringFacts.LowerFunctionEmits` | src/compiler.rs:187-229 | The labels of a lowered function are distinct, its heights stay below its tracked maximum, and its table entries are its own. |
| `LoweringFacts.LabelResolves` | src/compiler.rs:325-364 | A label resolves to the position of the operation that follows it, inside the code. |
| `FusionFacts.OptimizedLabels` | src/compiler.rs:413-438 | Stripping and fusing add no label and repeat none. |
| `FusionFacts.LiveLabelSync` | src/compiler.rs:440-1011 | Both passes keep every label that is jumped to, and none of these lies inside a fused pair: before and after the passes it stands for corresponding positions of the code. |
| `Fusion.FusedRun` | src/compiler.rs:440-1011 | Every run of optimized code is a run of the original with the same result, at least as long and at most twice as long. |
| `Fusion.FusedPairStep` | src/runtime/store.rs:2890-3102 | A fused operation does in one step what its two originals do in two. |
| `Compiler.Compile` | src/compiler.rs:76-151 | The compiler object, run over all functions of a module with one shared vector of jump tables, produces the module code that the correctness results are about. |
| `Compiler.Compiler.CompileInstruction` | src/compiler.rs:1035-1246 | Appends exactly the lowering of the instruction and leaves the compiler's heights, labels and tables as the lowering does. |
| `Compiler.Compiler.CompileBlock` | src/compiler.rs:1046-1099 | The same for blocks and loops, with the block stack restored. |
| `Compiler.Compiler.CompileConditional` | src/compiler.rs:1100-1155 | The same for conditionals, with and without an else arm. |
| `Compiler.Compiler.StripDeadLabels` | src/compiler.rs:413-438 | In place, keeps every operation and exactly the labels that a jump or table entry names. |
| `Compiler.Compiler.FuseAdjacent` | src/compiler.rs:440-1011 | In place, replaces each adjacent pair that fuses, scanning from the left. |
| `Compiler.Compiler.Assemble` | src/compiler.rs:325-364 | Drops labels and resolves the jumps of the code to positions, and the function's own table entries, once. |
| `Compiler.Compiler.CompileFunction` | src/compiler.rs:187-229 | Resets the compiler and compiles one function, leaving earlier functions' table entries alone. |
| `Safety.EveryStepStays` | src/runtime/stack.rs:8-12 | Wherever a run of validated code is, the next step exists and reads and moves only operands above its frame's base, uses only its locals, and jumps within its code. |
| `Capacity.StaysWithinCapacity` | src/runtime/store.rs:839-852 | While a call has a frame, the stack stays within the capacity computed from the maximal function height and the maximal call depth; before, it holds the arguments, and after, the results. |
| `Capacity.CapacityExact` | src/runtime/store.rs:839-852 | The computed capacity is enough for a call, from its arguments on the stack to its results, if and only if the arguments fit it, and the results fit it or the call does not return. |
| `Capacity.ArgumentsOverflow` | src/runtime/store.rs:1612-1664 | A validated program whose call puts 2000 arguments on a stack with room for 1024. |
| `Capacity.TailCallOverflows` | src/runtime/store.rs:1902-1918 | A validated program whose call returns 2000 values on a stack with room for 1024. |
| `Heights.FunctionHeights` | src/validator.rs:1025-1072 | At every point outside dead code the validator's operand count and the compiler's height less the arguments are equal. |
| `Reached.FunctionCounts` | src/compiler.rs:1036-1246 | The operations of a validated function that are not behind an unconditional transfer are, one by one and in order, those of the points where the validator counts operands, and the compiler's height less the arguments is the validator's count at each. |
| `Reached.BehindTransfer` | src/compiler.rs:1036-1044 | What follows an unconditional transfer in its block, blocks in it and what follows them included, is emitted as dead code, although a nested block resets the compiler's height. |
| `Reached.DeadCodeNeverEntered` | src/compiler.rs:1036-1155 | No run of a validated program ever stands at an operation of dead code. |
| `Reached.ThreeHeights` | src/runtime/stack.rs:8-12 | Wherever a run of optimized code stands, the frame's operands, the compiler's height less the arguments and the validator's count at the instruction that the operation implements are the same number. |
| `TypeSafety.CallsKeepTypes` | src/runtime/types.rs:34-58 | A call of a validated program with typed arguments and globals does not panic on decoding a reference, and returns values of its result types; if null belongs to the type of every declared local, non-nullable references are never null. |
| `TypeSafety.FunctionKeeps` | src/validator.rs:161-182 | The same of the structured semantics at any depth and with any fuel. |
| `TypeSafety.LocalsStartTyped` | src/runtime/store.rs:1708-1714 | The declared locals of a function start with values of their types if and only if null belongs to all of these. |
| `TypeSafety.UnsetLocal` | src/validator.rs:161-182 | A validated program that returns null where its type is a non-nullable function reference. |
| `Typability.ValidatorExact` | src/validator.rs:161-182 | The validator accepts exactly the functions that the declarative rules type, stack-polymorphic code included. |
| `Strictness.StandardExact` | src/validator.rs:643-657 | The rules of the standard type exactly the functions that pass the check in which `ref.as_non_null` on an operand of unknown type leaves some non-null reference. |
| `Strictness.ValidatorStandard` | src/validator.rs:184-668 | The validator accepts every function typed by the rules of the standard, and only those among the functions in whose check no `ref.as_non_null` pops an operand of unknown type. |
| `Strictness.WithoutNonNull` | src/validator.rs:184-668 | On functions without `ref.as_non_null` the validator accepts exactly what the standard types. |
| `Strictness.NonNullExact` | src/validator.rs:643-657 | In one step: what accepting `ref.as_non_null` leaves is reachable by the standard's rule exactly when the operand's type is known. |
| `Strictness.AcceptedNotStandard` | src/validator.rs:643-657 | A function that is accepted although no rule of the standard types it. |
| `Typability.Subsumption` | src/validator.rs:907-1023 | Replacing operand types by subtypes or by bottom never turns an accepted sequence into a rejected one, and leaves operands that match. |
| `Typability.MatchesPreorder` | src/validator.rs:808-867 | Matching of operand types is reflexive and transitive in every type section. |
| `Validator.ValidateModule` | src/validator.rs:149-159 | Accepts exactly the modules all of whose functions check. |
| `Validator.ValidateFunction` | src/validator.rs:161-182 | Accepts exactly the functions that check. |
| `Validator.Checker.ValidateInstruction` | src/validator.rs:184-668 | The operand and control stacks become what the checking function says, or the instruction is rejected when it is. |
| `Validator.Checker.PopValueExpect` | src/validator.rs:960-971 | Pops a value that matches; in dead code below the frame's floor, a value of unknown type. |
| `Validator.Checker.PopControl` | src/validator.rs:1055-1072 | Leaves a frame when exactly its results are left. |
| `Validator.Checker.MarkUnreachable` | src/validator.rs:1025-1035 | Drops the frame's operands and makes it polymorphic. |
| `Metering.MeteredIsPrefix` | src/runtime/store.rs:1802-1811 | A metered run stops in a state of the unmetered run after as many operations as fuel was spent; the exhausted step changes nothing. |
| `Metering.FuelSlicing` | src/runtime/store.rs:1535-1541 | However fuel is split over pauses, the run ends in the same state with the same fuel left. |
| `Metering.DispatchIsAtomic` | src/linker.rs:126-168 | Suspending, asking the import and resuming has the outcome of a run in which imports are atomic operations. |
| `Metering.LoopIsAdvance` | src/runtime/store.rs:1795-1811 | The loop's iterations are the machine's steps, while the run goes on. |
| `TailCalls.ValidTailCall` | src/runtime/store.rs:1902-1918 | In a validated program, whenever a call of a function with the caller's number of results returns, the tail call reaches, in as many steps, what returning from the caller then reaches. |
| `TailCalls.TailCallIsCallThenReturn` | src/runtime/store.rs:1902-1918 | The same for any code, when the callee leaves as many values as the caller returns. |
| `TailCalls.TailCallStopsAlike` | src/runtime/store.rs:1902-1918 | Whenever a call traps or exits, other than at the depth limit, the tail call does so too, with the same fault and state, after as many steps. |
| `TailCalls.TailCallKeepsDepth` | src/runtime/store.rs:1902-1918 | A tail call runs its callee at the depth and on the base of its caller. |
| `Stack.ValueStack.Push` | src/runtime/stack.rs:26-30 | Adds a value on top and keeps those below. |
| `Stack.ValueStack.Pop` | src/runtime/stack.rs:37-40 | Returns and removes the top value. |
| `Stack.ValueStack.KeepTop` | src/runtime/stack.rs:96-107 | Removes `drop` values from under the top `keep`, by one overlapping copy. |
| `Stack.ValueStack.CopyWithin` | src/runtime/stack.rs:109-115 | Copies a range over a possibly overlapping one. |
| `Stack.ValueStack.Truncate` | src/runtime/stack.rs:83-85 | Cuts the contents to a length. |
| `Stack.ValueStack.SnapshotData` | src/runtime/stack.rs:143-145 | Gives the live values. |
| `Stack.ValueStack.FromSnapshot` | src/runtime/stack.rs:147-155 | A stack with these contents and room for at least 1024. |
| `Execution.Store.Run` | src/runtime/store.rs:1779-1816 | From a safe state the loop, which checks no access, ends with the state, fault or suspension of the machine's run and the fuel it leaves. |
| `Execution.Store.Iterate` | src/runtime/store.rs:1795-1816 | One iteration is one step of the machine, fuel included. |
| `Execution.Store.ExecOp` | src/runtime/store.rs:1817-3102 | Executing an operation in place does what the machine's step says. |
| `Execution.Store.ExecJumpTable` | src/runtime/store.rs:1834-1846 | A table jump in place. |
| `Execution.Store.ExecCompareJump` | src/runtime/store.rs:84-114 | A fused comparison and jump in place. |
| `Execution.Store.PushFunctionCall` | src/runtime/store.rs:1667-1728 | Enters a function in place: a frame with zeroed locals, a suspension for an import, or a fault at the maximal depth. |
| `Execution.Store.ReplaceFunctionCall` | src/runtime/store.rs:1902-1918 | Enters a function in place of the running frame. |
| `Execution.Store.DoReturn` | src/runtime/store.rs:3191-3209 | Leaves a frame, moving its results to its base. |
| `Execution.Store.FinishRun` | src/runtime/store.rs:1582-1610 | What the loop's end leaves for the embedder: results, a pause with its pending arity, or an empty store. |
| `Execution.Store.Resume` | src/runtime/store.rs:1535-1541 | Goes on with a run that paused for fuel. |
| `Execution.Store.ResumeWith` | src/runtime/store.rs:1570-1580 | Goes on with a suspended run, with the values pushed. |
| `Execution.Store.InvokeByAddr` | src/runtime/store.rs:1612-1664 | Starts a call of a local function on an idle store. |
| `Linker.Linker.AnswerOne` | src/linker.rs:126-168 | One suspension answered: the import's function is found, its values are checked for number, and the run goes on. |
| `Linker.Linker.Dispatch` | src/linker.rs:126-168 | Answers suspensions until the run completes, exhausts its fuel or fails, with the outcome of the run whose imports are atomic. |
| `Linker.Linker.Invoke` | src/linker.rs:99-114 | End to end: a call of a validated program on an idle store, imports included, does what the structured semantics says, or pauses with its fuel spent in a state of the machine's run. |
| `Linker.CallIsSafe` | src/runtime/store.rs:839-852 | Such a call is safe on a stack of the computed capacity, from its arguments on the stack to its results, when both fit there. |
| `Codec.PrefixFree` | src/snapshot.rs:27-30 | An encoding that round-trips is injective and prefix-free. |
| `Codec.VectorRoundTrips` | src/snapshot.rs:195-211 | A vector of fewer than 2^32 items decodes to itself and leaves what follows, if its items do. |
| `Codec.OrderedMapRoundTrips` | src/snapshot.rs:213-227 | The same for ordered maps. |
| `Codec.OptionalRoundTrips` | src/snapshot.rs:229-246 | The same for options. |
| `Codec.PairRoundTrips` | src/snapshot.rs:248-257 | The same for pairs. |
| `Format.SubTypesRoundTrip` | src/snapshot.rs:259-564 | The same for type sections, down to heap types. |
| `ComponentFormat.ComponentsRoundTrip` | src/snapshot.rs:836-1096 | The same for instantiated components and their type tables, without the payloads that the source drops. |
| `StoreFormat.CodesRoundTrip` | src/snapshot.rs:673-781 | The same for module code: operations, if their own layout round-trips, local types, catch clauses and jump tables. |
| `StoreFormat.InstancesRoundTrip` | src/snapshot.rs:805-834 | The same for instantiated modules. |
| `StoreFormat.FramesRoundTrip` | src/snapshot.rs:783-803 | The same for call frames. |
| `StoreFormat.StoresRoundTrip` | src/snapshot.rs:1150-1347 | Every store whose counts fit their widths is read back as it was written, if single operations are. |
| `StoreFormat.SnapshotInjective` | src/snapshot.rs:1350-1360 | A snapshot determines the store, whatever follows it. |
| `Snapshot.EncodeStore` | src/snapshot.rs:1150-1225 | Appends a store's snapshot to a buffer, part by part. |
| `Snapshot.DecodeStore` | src/snapshot.rs:1226-1347 | Reads it part by part, advancing the buffer past it. |
| `Snapshot.SaveAndRestore` | src/snapshot.rs:1350-1360 | Writing and reading back gives the store. |
| `Transparency.SnapshotTransparent` | src/snapshot.rs:1350-1360 | Under any further resumes, answers to suspensions and changes of fuel, the store restored from a snapshot pauses as the saved one does if and only if none of them needs more room than restoring leaves; otherwise it writes beyond its stack. With a saved stack of no more room it always does. |
| `Transparency.RoomIsSafe` | src/runtime/stack.rs:147-155 | What `Store.Resume` asks of a run holds on the restored stack exactly when no step of the run needs more room. |
| `Transparency.RestoredOverflows` | src/runtime/stack.rs:147-155 | A validated program paused in an import with 2000 results: the saved store takes and returns them, and the restored one writes beyond its stack. |
| `Transparency.Restore` | src/snapshot.rs:1226-1347 | Makes a store of a snapshot's bytes: the saved state and code, and a stack with room for the live values and at least 1024. |
| `Leb128.ReadUnsigned` | src/leb128.rs:41-66 | Accepts exactly the encodings of section 5.2.2 of the Core Specification for its width, at the start of the buffer, and returns their value and length (`read_u64` at 124-147 is the same at 64 bits). |
| `Leb128.ReadSigned` | src/leb128.rs:91-121 | The same for signed encodings (`read_i64` at 150-181 is the same at 64 bits). |
| `Leb128.UnsignedIsSum` | src/leb128.rs:41-66 | An unsigned encoding's value is the base-128 sum of its digits. |
| `Leb128.SignedIsSum` | src/leb128.rs:91-121 | A signed encoding's value is that sum, sign-extended from its last digit. |
| `Leb128.SizeExact` | src/leb128.rs:11-15 | The closed form for the encoded size is the number of bytes written, at most 5. |
| `Leb128.WriteU32` | src/leb128.rs:17-38 | Writes the encoding in place and nothing else, or nothing if it does not fit. |
| `Leb128.WriteI32` | src/leb128.rs:69-88 | Writes the signed encoding in place, or fails when the buffer ends first. |
| `Leb128.WriteThenRead` | src/leb128.rs:195-203 | Reading what was written gives the integer back, with the size in closed form. |
| `Leb128.WriteThenReadSigned` | src/leb128.rs:186-193 | The same for signed integers. |
| `Flatten.LiftAdvances` | src/component/model.rs:382-417 | Lifting a value of any supported kind moves the cursor by exactly its flat count. |
| `Flatten.PassedRoundTrip` | src/runtime/store.rs:1072-1289 | Lowering a parameter pushes exactly its flat count, and lifting that gives the value back, flags up to order and repetition. |
| `Flatten.ArgsRoundTrip` | src/runtime/store.rs:1047-1070 | The same for all arguments of a call, one after the other. |
| `Flatten.PlainRoundTrip` | src/runtime/store.rs:1157-1166 | The same for scalars and nested records and tuples of them, wherever they stand. |
| `Flatten.FlagsRoundTrip` | src/runtime/store.rs:1265-1289 | Lifting lowered flags gives the same set of names. |
| `Flatten.VariantMiscounts` | src/runtime/store.rs:1167-1193 | A variant that is lowered takes one word more than its flat count. |
| `Flatten.VariantOverfills` | src/runtime/store.rs:1167-1193 | One such variant. |
| `CanonicalAbi.FlatBuffer.LowerValue` | src/runtime/store.rs:1072-1289 | Pushes onto the buffer what the value lowers to, or fails where that is undefined. |
| `CanonicalAbi.FlatBuffer.LowerValues` | src/runtime/store.rs:1047-1070 | The same for the arguments of a call. |
| `CanonicalAbi.FlatBuffer.LowerFlags` | src/runtime/store.rs:1265-1289 | Sets one bit for each name in words of 32 and pushes the words. |
| `CanonicalAbi.FlatReader.LiftValue` | src/runtime/store.rs:1307-1533 | Reads a value behind the cursor and advances it, or fails. |
| `CanonicalAbi.FlatReader.LiftFlags` | src/runtime/store.rs:1505-1526 | Reads the names whose bits are set, word by word. |
| `Descriptors.RightsOnlyShrink` | src/wasi/methods.rs:225-292 | After any calls, what a guest opened has at most the inheriting rights that the start of its chain of opens had. |
| `Descriptors.HeldOpenOnlyLoses` | src/wasi/methods.rs:1173-1193 | A descriptor that stays open never gains a right. |
| `Descriptors.OpenTakesLeast` | src/wasi/methods.rs:249-259 | A successful open takes the least free descriptor from 3 on, tells the guest its number, and replaces no other. |
| `Descriptors.WasiCtx.PathOpen` | src/wasi/methods.rs:198-297 | Opening in place: the errors in the source's order, and the table and memory after it. |
| `Descriptors.WasiCtx.FreeFd` | src/wasi/methods.rs:249-259 | The scan of the ordered keys finds the least free descriptor, or none up to the maximum. |
| `Descriptors.WasiCtx.SetRights` | src/wasi/methods.rs:1173-1193 | Rights are replaced exactly when both sets shrink. |
| `Descriptors.WasiCtx.Close` | src/wasi/methods.rs:1270-1282 | Removes a descriptor that is there. |
| `Directory.FillIsExact` | src/wasi/methods.rs:773-801 | The buffer gets the records of the entries found, cut to its size; an error counts only where it is reached. |
| `Directory.FillIsPrefix` | src/wasi/methods.rs:773-801 | The same prefix for listings that do not end. |
| `Directory.FillEnds` | src/wasi/methods.rs:773-801 | Every call is such a case: for every listing and buffer, finitely many entries fill the buffer or are followed by the listing's end. |
| `Directory.ReadReports` | src/wasi/methods.rs:804-806 | The count reported is the smaller of the buffer and the listing, the buffer starts with that much of it, and no other byte changes. |
| `Directory.PagesCover` | src/wasi/methods.rs:773-806 | Listing by pages, each going on from the last complete entry, gives every entry once and in order. |
| `Directory.ParseRecords` | src/wasi/ctx.rs:385-395 | The entries can be read back from their records. |
| `Directory.FdReadDir` | src/wasi/methods.rs:753-806 | The call in place: errors, buffer and count. |
| `Directory.FillBuffer` | src/wasi/methods.rs:773-801 | The loop ends, with exactly that prefix in memory. |

## Left out

- Linker.Linker.Invoke: an unmetered call is required to have an outcome in the semantics, because a run that never ends has none to report; arguments and results are required to fit the capacity, beyond which the source writes past its buffer (see Findings).
- Linker.Linker.Dispatch: unmetered runs that never end are excluded for the same reason.
- Linker.Linker.AnswerOne: the same; a host function that asks to exit or fails ends the run with the store as the suspension left it; results are checked for number, not for type.
- Execution.Store.Run: unmetered runs that never end are excluded; metered runs need no such condition.
- Execution.Store.FinishRun: the same.
- Execution.Store.Resume: the same.
- Execution.Store.ResumeWith: the same; values beyond the buffer are excluded, which the source writes past its end.
- Execution.Store.InvokeByAddr: the same, for arguments; calling a re-exported host function directly is not modelled (it suspends without a pending arity).
- Correctness.CompilerCorrect: heights of 65536 and above are excluded, where the 16-bit keep and drop counts wrap.
- Capacity.StaysWithinCapacity: starts from an empty stack of the computed capacity; for restored stores see `Transparency`.
- TailCalls.ValidTailCall: that the callee has the caller's number of results is a hypothesis on the two types, which validation compares.
- Transparency.SnapshotTransparent: of a restored module only its type section and code are compared, which is all that runs use.
- TypeSafety.CallsKeepTypes: that a reference of a function type names a function, and of which type, is not tracked; constants and operators are assumed to have number types, as in the binary format, and modules that share a mutable global to give it the same type.
- ComponentFormat.ComponentsRoundTrip: the payloads of component and instance types are dropped, as the source drops them.
- StoreFormat.CodesRoundTrip: the byte layout of single operations is a parameter of the codec, of which a round trip is assumed, of the recorded number of operands too, which is an annotation of the model and not in the source's bytes.
- StoreFormat.InstancesRoundTrip: the same.
- StoreFormat.StoresRoundTrip: the same.
- StoreFormat.SnapshotInjective: the same.
- Flatten.VariantMiscounts: a variant without payload words fails in the model, as in a build with overflow checks; without them the count wraps and the padding is one word more than the maximum.
- Flatten.PassedRoundTrip: strings and lists are lifted through memory given by a parameter and not lowered, since lowering them calls guest code.
- Descriptors.WasiCtx.PathOpen: masks are sets of bits; what a path names, and whether it is UTF-8, is up to the embedder's parameters.
- Exceptions and catch frames, SIMD, garbage-collected objects, `call_ref`, `memory.grow`, bulk memory and table operations, memories with 64-bit addresses.
- The results of number operators other than tests and integer comparisons: uninterpreted functions of their operands.
- The binary parser, instantiation, start functions, active segments and import checking.
- The JIT, clocks, random numbers, sockets, and the other WASI functions.
