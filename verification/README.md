# RustScript bytecode container, proved in Dafny

RustScript programs travel as VMBC payloads: a versioned binary container with constants, code, imports, host import
schemas, a type map, debug info, callable metadata and struct declarations. This project models the container's two
decoders and its encoder, the bytecode validator and the machine it protects, the host API catalog and the assembler, and
proves what holds of them for every input and every run.

The code is imperative and so is the model of it: a `Cursor` with an offset and four budgets, a `Writer` with its buffer,
loops over instruction offsets, a work stack, an assembler with its tables. Each such method is proved equal to a function
on values, and the theorems are about those functions.

- **Codec.** `Cur` is what a cursor stands for: the bytes left and the budgets left. Each `Read` function has an inverse
  `Put`, and the two are proved inverse in both directions, budgets included. From this follow that the decoder accepts
  exactly the images of content within its limits (`Codec.DecodeExact`), that decoded programs are fixed points, that
  budgets are conserved, and that streaming debits agree with the aggregate validator. Written bytes determine the content
  even beyond the reader's limits, but for the length of one list (`ReadBack.ImageInjective`), so exactly the programs
  within the limits read back.
- **Freestanding decoder.** Its skipping readers are shown to move in step with the full ones, section by section.
- **Validator and machine.** The validator is shown to accept exactly a stated set of programs. Every step, hence every
  run, of the machine on such a program stays on instruction boundaries and inside its frames.
- **Host API.** The stack walk refines the recursive measures. Canonical bytes are uniquely decodable and independent of
  order. Validation gives the promised facts about every built catalog.
- **Assembler and debug lines.** Discipline is an invariant of the calls, and gives validity of the finished program.

Properties that the code does not have are stated with the exact condition under which it has them:

- The writer bounds neither names nor vector lengths as the reader does: `EncodeFacts.LongNameEncodesOnly`,
  `Misaligned.ReadAsAnother`, and the exact condition in `ReadBack.ReadsBackExactly`. So the bytes do not determine the
  content either, with the exact condition in `ReadBack.ImageInjective`.
- Resources in struct bodies past the schema limits go unchecked: `StructBodies.DeepResourceMissed`, and the exact
  condition in `StructBodies.MissedExactly`, on the nodes of the types alone.
- A branch to a label behind the last instruction makes assembled code invalid: `Patching.EndLabelRejected`, and the exact
  condition in `Patching.AssembledAccepted`.

## Files

| files | content |
|---|---|
| `Bytes`, `Seqs`, `Wire`, `Lists`, `Assoc`, `Sorting` | integers and UTF-8, sequences, the cursor value, counted lists, maps, sorting |
| `Constants`, `ResourceKeys`, `Schemas`, `HostNames`, `HostTypes`, `HostWire` | the three recursive grammars, read and put |
| `ImportLimits`, `ImportSections`, `Sections`, `CallableSections`, `Programs`, `Payload`, `Canonical`, `Codec` | sections, programs, the decoder and its theorems |
| `Cursors`, `TreeReaders`, `SectionReaders`, `Decoder` | the full decoder on a mutable cursor |
| `SchemaOrder`, `WireOrder`, `Writers`, `TreeWriters`, `SectionWriters`, `Encoder`, `EncodeFacts`, `Injectivity`, `HostInjective`, `ReadBack`, `Misaligned` | the encoder on a buffer and what its bytes determine |
| `Ledger`, `Budgets` | what is debited, conservation, streaming against aggregate |
| `SlimDecoder`, `SlimSections`, `SlimCodec`, `SlimReader` | the freestanding decoder |
| `Bytecode`, `Validator`, `InstructionCache`, `Machine`, `MachineFacts` | sweeps, validator, operand cache, control-flow machine |
| `DebugLines`, `Interning`, `Patching`, `Assembly` | debug info, interning, label fixups |
| `HostTraversal`, `ReachedKeys`, `CanonicalBytes`, `TypeEncoder`, `Catalogs`, `CatalogEncoder`, `Surface`, `SurfaceFacts`, `StructBodies`, `NameChecks`, `ImportChecks` | host schemas and catalogs |
| `StateRequirements`, `OwnedCalls` | state requirements, owned arguments |

`dafny verify dfyconfig.toml` checks the whole project with Dafny 4.11.

## Model

| member | source | states |
|---|---|---|
| `Wire.ReadCount` | src/vmbc.rs:2090-2100 | A count that is accepted debited the shared item budget once per item and leaves enough bytes for that many items of the minimum size and for what must follow them; putting it back gives the cursor it came from. |
| `Wire.ReadPutCount` | src/vmbc.rs:2158-2178 | No minimum-bytes guard refuses a count that the bytes behind it can hold. |
| `Cursors.Cursor.constructor` | src/vmbc.rs:1995-2005 | A new cursor stands at offset 0 with the four full budgets. |
| `Cursors.Cursor.Slim` | pd-vm-nostd/src/vmbc.rs:601-608 | The freestanding cursor has only the item budget. |
| `Cursors.Cursor.GetExact` | src/vmbc.rs:2187-2198 | Advances by exactly the bytes returned, or fails when they run past the end; the offset stays within the input. |
| `Cursors.Cursor.GetBounded` | src/vmbc.rs:2056-2072 | A string no longer than the limit and valid UTF-8, or the error the code gives, in the order it checks. |
| `Cursors.Cursor.GetCount` | src/vmbc.rs:2090-2100 | The imperative count with its guard and debit is the specification reader, errors included. |
| `Cursors.Cursor.GetFrameLocals` | src/vmbc.rs:2102-2109 | Frame locals are limited and debited as items although they have no bytes. |
| `Cursors.Cursor.DebitHostNode` | src/vmbc.rs:2111-2120 | Debits one host node or fails when none is left. |
| `Cursors.Cursor.DebitHostProperties` | src/vmbc.rs:2122-2128 | Debits properties from their own budget, or fails without one. |
| `Cursors.Cursor.DebitHostParameters` | src/vmbc.rs:2130-2136 | Debits parameters from their own budget, or fails without one. |
| `Constants.ReadValue` | src/vmbc.rs:257-304 | Whatever it returns is within the depth and length limits, and writing it in front of what is left gives the bytes and budget it started from. |
| `Constants.ReadPutValue` | src/vmbc.rs:209-304 | For every constant within the limits, at any depth and in front of any suffix, reading what was written gives the constant and stops at the suffix with the budget exactly debited. |
| `Constants.CanonIdempotent` | src/vmbc.rs:290-301 | Building the map of a decoded map constant a second time changes nothing: later keys have already replaced earlier ones. |
| `Schemas.ReadSchema` | src/vmbc.rs:1864-1952 | Whatever it returns is within the limits, and writing it in front of what is left gives the bytes and budget it started from. |
| `Schemas.ReadPutSchema` | src/vmbc.rs:1789-1952 | For every type schema within the reader's limits, in front of any suffix, reading what was written gives the schema back, one item debited for each node and each list element. |
| `Schemas.CanonIdempotent` | src/vmbc.rs:1923-1933 | Object fields are a map: collecting decoded fields again changes nothing. |
| `HostWire.ReadHost` | src/vmbc.rs:1699-1780 | Whatever it returns is within the limits, has a byte behind its last property count where the guard wants one, and writes back to the bytes and budgets it started from. |
| `HostWire.HostLoad` | src/vmbc.rs:1642-1697 | A host schema debits exactly its nodes and properties, properties from the item budget too. |
| `HostWire.ReadPutHost` | src/vmbc.rs:1642-1780 | For every host schema within the limits, reading what was written gives it back and stops at the suffix, as long as the suffix has the byte the property guard looks for. |
| `ImportSections.ReadPutImportSchema` | src/vmbc.rs:1576-1640 | A valid import schema reads back from what was written, parameter budget included. |
| `ImportSections.ReadPutEntry` | src/vmbc.rs:397-417 | An import entry within the limits reads back from what was written. |
| `Sections.ReadPutTypeMap` | src/vmbc.rs:1388-1468 | A type map whose vectors have the length of the locals reads back from what was written. |
| `Sections.DebugLaws` | src/vmbc.rs:1281-1386 | Reading debug info inverts writing it in both directions, for all debug info within the limits. |
| `CallableSections.CallablesLaws` | src/vmbc.rs:988-1073 | Reading callable metadata inverts writing it in both directions; frame locals cost items and no bytes. |
| `CallableSections.DeclListLaws` | src/vmbc.rs:1075-1125 | Reading struct declarations inverts writing them in both directions; names and type parameters must differ. |
| `Payload.ReadPutContent` | src/vmbc.rs:306-349 | All sections of a payload of any version within the limits read back in sequence. |
| `TreeReaders.GetConstant` | src/vmbc.rs:257-304 | The recursive reader on a mutable cursor returns, consumes and debits what the specification does, or fails with the same error. |
| `TreeReaders.GetSchema` | src/vmbc.rs:1864-1952 | The same for type schemas. |
| `TreeReaders.GetHost` | src/vmbc.rs:1699-1780 | The same for host schemas and their three budgets. |
| `SectionReaders.GetBools` | src/vmbc.rs:1514-1531 | A boolean vector: its count must equal the one already known and is debited; each byte must be 0 or 1. |
| `SectionReaders.GetTypeMap` | src/vmbc.rs:1421-1468 | The loops of the type map reader are the specification, errors included. |
| `SectionReaders.GetDebug` | src/vmbc.rs:1327-1386 | The loops of the debug info reader are the specification, errors included. |
| `SectionReaders.GetCallables` | src/vmbc.rs:1143-1269 | The loops of the callable metadata reader are the specification, errors included. |
| `SectionReaders.GetDecls` | src/vmbc.rs:1090-1125 | The declaration reader refuses a repeated name or type parameter and is otherwise the specification. |
| `Decoder.GetImportSchema` | src/vmbc.rs:1597-1640 | Debits the parameter count twice, reads and then validates the whole import schema, as the specification does. |
| `Decoder.GetContent` | src/vmbc.rs:366-449 | The sections of each version, in order. |
| `Decoder.DecodeProgram` | src/vmbc.rs:351-471 | The whole decoder equals the decoding function on every byte string, errors, trailing bytes and recomputed local count included. |
| `TreeWriters.WriteConstant` | src/vmbc.rs:209-255 | Succeeds exactly on constants within depth and 32-bit lengths, and then appends exactly the image of the constant. |
| `TreeWriters.WriteSchema` | src/vmbc.rs:1789-1862 | Succeeds exactly when all lengths fit 32 bits, at any depth; sorts the entries of every object by name and then appends exactly the image of the schema so laid out, whatever order the hash map gave. |
| `TreeWriters.WriteHost` | src/vmbc.rs:1642-1697 | Succeeds exactly when lengths fit and the depth counted from the given level is within the limit, and then appends exactly the image. |
| `SectionWriters.WriteTypeMap` | src/vmbc.rs:1388-1419 | Succeeds exactly when lengths fit; appends exactly the image with operands sorted by offset and schemas laid out. Vector lengths are not compared, as in the code. |
| `SectionWriters.WriteDebug` | src/vmbc.rs:1281-1325 | Succeeds exactly when lengths fit; appends exactly the image. |
| `SectionWriters.WriteCallables` | src/vmbc.rs:988-1073 | Succeeds exactly when lengths and frame-local counts fit 32 bits; appends exactly the image. |
| `SectionWriters.WriteDecls` | src/vmbc.rs:1075-1088 | Succeeds exactly when lengths fit; appends exactly the image of the declarations sorted by name. |
| `SectionWriters.WriteImportSchema` | src/vmbc.rs:1576-1595 | Succeeds exactly on valid schemas whose lengths fit; appends exactly the image. |
| `Encoder.EncodeProgram` | src/vmbc.rs:306-349 | Succeeds exactly when there are no schemas or one for each import and every part can be written; the bytes are then the version 13 image of the program with its hash maps sorted. |
| `SchemaOrder.LayKeyed` | src/vmbc.rs:1838-1847 | Of an object with distinct names, the writer's sort gives exactly the canonical order of the map, at every depth. |
| `WireOrder.ContentLaid` | src/vmbc.rs:1075-1088 | Of content whose hash maps are ones, all three sorts together give exactly the canonical content. |
| `EncodeFacts.WrittenIsContent` | src/vmbc.rs:306-349 | What is written of a program with hash maps is what decoding would make of it, so entry order never shows. |
| `Codec.DecodeExact` | src/vmbc.rs:351-471 | A byte string decodes to some content if and only if it is the image of content within every limit whose debits fit the budgets: the decoder accepts exactly these bytes and the result is unique. |
| `Codec.RoundTrip` | src/vmbc.rs:306-471 | Every program within the reader's limits decodes from its own bytes, with maps in canonical order, absent schemas spelled out and the local count recomputed. |
| `Codec.DecodedIsFixedPoint` | src/vmbc.rs:306-471 | Whatever a version 13 payload decodes to is within the limits, has an encoding that is no longer, and decodes from it to the same program. |
| `Canonical.ContentIdempotent` | src/vmbc.rs:290-301 | Normalising decoded content again changes nothing, in any section. |
| `Canonical.ContentFits` | src/vmbc.rs:1923-1933 | Content within the limits stays within them when duplicate keys are merged. |
| `Canonical.ContentLeaner` | src/vmbc.rs:2138-2147 | Merged content is no longer on the wire and debits no budget more, so a re-encoded payload cannot run out where the first did not. |
| `EncodeFacts.FitsEncodes` | src/vmbc.rs:306-349 | A program within the reader's limits and with schemas absent or aligned can be written. |
| `EncodeFacts.DecodedEncodes` | src/vmbc.rs:306-471 | For every accepted version 13 payload: encoding the result succeeds, is no longer, and decodes to the same program. |
| `EncodeFacts.LongNameEncodesOnly` | src/vmbc.rs:397-406 | Every import name longer than the reader's limit and within a blob gives a program that encodes and never decodes: the writer does not bound names. |
| `EncodeFacts.LongNameRefused` | src/vmbc.rs:397-406 | The reader refuses an import entry with such a name, whatever follows it. |
| `Injectivity.ValueInjective` | src/vmbc.rs:209-255 | Two writable constants with the same bytes are the same, and so is what follows them: no image is the beginning of another. |
| `HostInjective.HostInjective` | src/vmbc.rs:1642-1697 | The same for host schemas, without the reader's limits. |
| `HostInjective.EntriesInjective` | src/vmbc.rs:320-341 | The same for lists of import entries. |
| `ReadBack.ImageInjective` | src/vmbc.rs:306-349 | Any two writable contents with the same payload agree in constants, code, imports and locals, and are the same if and only if they have equally many schema entries; aligned ones always are the same. |
| `ReadBack.ReadsBackExactly` | src/vmbc.rs:306-471 | For every writable program: its bytes decode to itself, up to absent schemas and the recomputed local count, if and only if it is within the reader's limits; and if its type map is aligned, they decode to nothing else. |
| `ReadBack.MisalignedReadsOther` | src/vmbc.rs:1388-1468 | A writable program whose schema entries are not one for each local never decodes to itself: its bytes are refused, or are those of aligned content with the same constants, code, imports and locals and another number of entries. |
| `Misaligned.ReadAsAnother` | src/vmbc.rs:1388-1468 | A concrete such program: it encodes, and its bytes decode without an error to a program with other debug information and other callables. |
| `Ledger.ContentCosts` | src/vmbc.rs:2138-2147 | What a payload debits is the sum over its sections of every count read, frame-local count and schema node, plus its host debits. |
| `Budgets.Conservation` | src/vmbc.rs:2111-2147 | For every accepted payload, each of the four initial budgets equals what is left plus everything read, so the items total at most one million. |
| `Budgets.StreamingIsAggregate` | src/vmbc.rs:1597-1640 | For every list of import schemas, the streaming reader accepts exactly when depth, nodes, properties and parameters are within limits, which is when the aggregate validator accepts up to its own count of imports; one counts depth from 0 and the other from 1. |
| `ImportChecks.ValidateImports` | src/host_api.rs:3837-3847 | The aggregate validator with its mutable budget accepts exactly the lists whose names, depths and totals are within limits; a fault is that of the first import that cannot be added, and true of it on top of what is charged. |
| `ImportChecks.ValidateImport` | src/host_api.rs:2986-3005 | One import against a fresh budget: accepted exactly when valid, and a fault names a limit that is really passed. |
| `SlimDecoder.SkipPutSchema` | pd-vm-nostd/src/vmbc.rs:250-300 | Skipping a type schema moves exactly as far and debits exactly as much as reading it. |
| `SlimDecoder.SkipPutHost` | pd-vm-nostd/src/vmbc.rs:221-248 | Skipping a host schema moves exactly as far; only the item budget is kept. |
| `SlimDecoder.ImportsMirror` | pd-vm-nostd/src/vmbc.rs:100-116 | Imports of any version: the same names, arities and results at the same place. |
| `SlimSections.TypeMapMirrors` | pd-vm-nostd/src/vmbc.rs:159-204 | Skipping a type map returns the number of locals and ends where reading it does. |
| `SlimSections.DebugMirrors` | pd-vm-nostd/src/vmbc.rs:548-593 | Skipping debug info ends where reading it does. |
| `SlimCodec.CallablesMirrors` | pd-vm-nostd/src/vmbc.rs:362-487 | Callable metadata is read the same but for the dropped schemas. |
| `SlimCodec.DeclListMirrors` | pd-vm-nostd/src/vmbc.rs:302-325 | Skipping declarations ends where reading them does. |
| `SlimCodec.HeadInStep` | pd-vm-nostd/src/vmbc.rs:86-116 | After constants, code and imports both decoders stand at the same offset with the same items left. |
| `SlimCodec.TailInStep` | pd-vm-nostd/src/vmbc.rs:118-129 | The same after the type map, debug info, callables and declarations. |
| `SlimCodec.SlimRefines` | pd-vm-nostd/src/vmbc.rs:65-147 | For every payload the full decoder accepts, the freestanding one either fails with its own call check's error or accepts with the same code, imports, callables and local count, and the same constants up to repeated map keys. |
| `SlimCodec.CheckCallsExact` | pd-vm-nostd/src/vmbc.rs:494-546 | The check passes if and only if no position its sweep comes to, stepping over unknown opcodes, has a cut operand or a wrong script call; an error is that of the first such position. |
| `SlimCodec.SlimTakesExactly` | pd-vm-nostd/src/vmbc.rs:65-147 | Of the payloads the full decoder accepts, the freestanding one takes exactly those where that sweep meets no fault. |
| `MachineFacts.SlimAccepts` | pd-vm-nostd/src/vmbc.rs:65-147 | If the full decoder accepts a payload and the validator the program, the freestanding decoder accepts it as the same program. |
| `MachineFacts.CallsPass` | pd-vm-nostd/src/vmbc.rs:494-546 | The operand check of the freestanding decoder passes at every boundary of an accepted program. |
| `SlimReader.PassKey` | pd-vm-nostd/src/vmbc.rs:327-352 | The in-place resource key check advances like reading the key and fails on the same keys. |
| `SlimReader.PassSchema` | pd-vm-nostd/src/vmbc.rs:250-300 | The recursive skipper on a mutable cursor is the specification, errors included. |
| `SlimReader.PassHost` | pd-vm-nostd/src/vmbc.rs:221-248 | The same for host schemas. |
| `SlimReader.GetSlimTypeMap` | pd-vm-nostd/src/vmbc.rs:159-204 | The same for the type map. |
| `SlimReader.PassDebug` | pd-vm-nostd/src/vmbc.rs:548-582 | The same for debug info. |
| `SlimReader.PassDecls` | pd-vm-nostd/src/vmbc.rs:302-325 | The same for declarations. |
| `SlimReader.CheckCallOperands` | pd-vm-nostd/src/vmbc.rs:494-546 | The loop is that check, error included. |
| `SlimReader.DecodeSlim` | pd-vm-nostd/src/vmbc.rs:65-147 | The whole freestanding decoder equals its decoding function on every byte string. |
| `Bytecode.ReachesBetween` | src/bytecode.rs:553-618 | A sweep visits positions in one order only, whatever code it runs over. |
| `Bytecode.StartDecodes` | src/bytecode.rs:907-953 | In well-formed code every start decodes and is followed by a start or the end. |
| `Bytecode.InferLocalsLeast` | src/bytecode.rs:881-905 | For any code, valid or not, the inferred count is the least number above every local operand the sweep sees. |
| `Bytecode.InferLocalCount` | pd-vm-nostd/src/program.rs:293-312 | The loop, which both crates have, computes that count. |
| `Validator.Analyze` | src/vmbc.rs:786-986 | Accepts if and only if the metadata, every instruction, every branch and every function meet the stated conditions; the local index returned is that of the inference; an error names a real fault, and everything checked before it has passed. |
| `Validator.BlameRejects` | src/vmbc.rs:786-986 | A fault of any kind that an error can name makes the program unacceptable, so errors are never spurious. |
| `Validator.OneError` | src/vmbc.rs:786-986 | Of one program, the errors that are real and come first are one: what the validator may report is determined. |
| `Validator.Sweep` | src/vmbc.rs:797-951 | One pass collects exactly the instruction starts, all branches with their targets, and the largest local. |
| `Validator.CheckJumps` | src/vmbc.rs:953-970 | With those starts, passes only when every branch lands on a start in its own region. |
| `Validator.CheckMetadata` | src/vmbc.rs:698-784 | Passes if and only if regions, prototypes, bindings and exports are sound; a fault it reports is real and the first in the order of the checks. |
| `InstructionCache.DecodedInstructionData.constructor` | src/bytecode.rs:553-618 | For any program at all the four arrays hold, at each offset, the constant, target, validity and local of an instruction starting there, and nothing elsewhere. |
| `InstructionCache.CacheExact` | src/bytecode.rs:553-618 | On an accepted program the cache holds the very operand at exactly the instructions that have one, and marks every branch valid. |
| `Machine.InitGood` | src/vm/instance.rs:104-120 | The state a program starts in satisfies the invariant. |
| `Machine.StepSafe` | src/vm/mod.rs:3115-3456 | One step of an accepted program keeps the invariant (every saved and current position on a boundary, frames nested and inside the locals, bindings inside the frame) or meets a fault whose cause is in the state: fewer operands than the instruction takes, a callee of another arity or environment size, captures or a self slot on a static call, call depth, a local or root binding outside the frame, the end of the code, a value; never a bad opcode, operand, constant, static prototype or jump. |
| `Machine.RunSafe` | src/vm/mod.rs:3115-3456 | The same over every run, of any length and with any choices of values: a run that ends does so by one step from a good state that the run itself reached, and a fault has its cause in that state. |
| `Machine.EnterScriptSafe` | src/vm/mod.rs:1856-2093 | Entering a script function of an accepted program can fail only for depth, a root binding outside the frame, or the closure's own environment. |
| `Machine.ReturnSafe` | src/vm/mod.rs:2096-2208 | Returning restores a good frame, or halts at the root. |
| `MachineFacts.JumpsStay` | src/vm/mod.rs:2787-2829 | In every good state a taken branch goes to its operand, which is a start in the region it came from; one not taken falls through. |
| `MachineFacts.FramesFit` | src/vm/mod.rs:1856-2093 | In every reachable state each frame's parameters, captures and self slot lie inside it and it lies inside the locals. |
| `MachineFacts.RootLocals` | src/vm/mod.rs:1559-1569 | With the local count the decoder computes, the root frame never misses a local. |
| `MachineFacts.RunIsPlain` | src/vm/mod.rs:3115-3456 | The interpreter that uses the operand cache behaves on every run of an accepted program exactly as one that decodes operands from the code. |
| `Interning.PoolGrows` | src/assembler.rs:108-162 | Over any sequence of additions the pool only grows, and no shared value is in it twice if none was. |
| `Interning.IndexLasts` | src/assembler.rs:108-162 | The index given for any of the values still holds that value at the end, floats bit for bit. |
| `Patching.AppendStarts` | src/assembler.rs:187-339 | Appending a whole instruction adds exactly one instruction start, where the code ended. |
| `Patching.PatchedStarts` | src/assembler.rs:170-185 | Patching operands moves no instruction start and changes no opcode. |
| `Patching.AssembledAccepted` | src/assembler.rs:170-185 | For disciplined use the validator accepts the finished program if and only if no branch refers to a label behind the last instruction. |
| `Patching.EndLabelRejected` | src/assembler.rs:170-185 | The shortest program that shows it: one branch to a label right behind it is finished and rejected. |
| `Assembly.Assembler.constructor` | src/assembler.rs:51-65 | A new assembler is empty and disciplined. |
| `Assembly.Assembler.Label` | src/assembler.rs:71-78 | A new label gets the current position, a known one is an error and changes nothing; discipline is kept. |
| `Assembly.Assembler.BranchLabel` | src/assembler.rs:253-276 | Appends the branch with a zero operand and records where to patch it; discipline is kept. |
| `Assembly.Assembler.AddConstant` | src/assembler.rs:108-162 | The five tables keep agreeing with the pool, and the index is that of the value: the earlier one if its kind is shared. |
| `Assembly.Assembler.PushConst` | src/assembler.rs:164-168 | Interns and loads; discipline is kept while the pool has 32-bit indices. |
| `Assembly.Assembler.Ldc` | src/assembler.rs:195-198 | Appends the load; discipline is kept for an index in the pool. |
| `Assembly.Assembler.Simple` | src/assembler.rs:187-246 | Appends one opcode byte and keeps discipline. |
| `Assembly.Assembler.WithByte` | src/assembler.rs:286-304 | Appends an opcode and its operand byte and keeps discipline. |
| `Assembly.Assembler.BranchTo` | src/assembler.rs:248-266 | Appends a branch to a fixed target; no discipline is promised. |
| `Assembly.Assembler.Call` | src/assembler.rs:296-300 | Appends a call; no discipline is promised. |
| `Assembly.Assembler.CallScript` | src/assembler.rs:306-310 | Appends a script call; no discipline is promised. |
| `Assembly.Assembler.FinishProgram` | src/assembler.rs:170-185 | Succeeds exactly when every label is known, else names the first unknown one; every fixup then holds its label's position and no other byte changed, and the debug info is all that was recorded; after disciplined use the validator accepts the result exactly when no used label is at the end. |
| `Assembly.Assembler.MarkLine` | src/assembler.rs:84-87 | Records the line at the current position. |
| `Assembly.Assembler.LineAt` | src/assembler.rs:84-87 | While the code is below 2^32 bytes, a lookup gives the latest mark at or before any offset. |
| `DebugLines.MarkAllIncreasing` | src/debug_info.rs:135-148 | Marks made while the code grows leave strictly increasing offsets, the last mark at the end. |
| `DebugLines.LatestMarked` | src/debug_info.rs:135-148 | Replacing the line of a repeated offset never changes a lookup, for marks in any order. |
| `DebugLines.LineForOffset` | src/debug_info.rs:36-56 | On increasing offsets the binary search returns the latest line at or before the offset, or nothing. |
| `DebugLines.DebugInfoBuilder.MarkLine` | src/debug_info.rs:135-148 | The stored lines stay the fold of all marks made. |
| `DebugLines.DebugInfoBuilder.Lookup` | src/debug_info.rs:36-56 | After marks in order, a lookup gives the most recent mark at or before the offset. |
| `DebugLines.DeclaredExactly` | src/debug_info.rs:114-133 | Over any declarations, there is one local for each name, and looking a name up gives all that was declared under it. |
| `DebugLines.NamedCovers` | src/debug_info.rs:167-183 | That local's first line is at most, and its last line at least, that of every declaration of the name. |
| `DebugLines.DebugInfoBuilder.AddLocal` | src/debug_info.rs:114-133 | The stored locals stay the fold of all declarations made, by name. |
| `DebugLines.DebugInfoBuilder.AddFunction` | src/debug_info.rs:98-108 | Adds the function with its arguments' positions counted in one byte. |
| `DebugLines.DebugInfoBuilder.Finish` | src/debug_info.rs:150-164 | All that was recorded, or nothing if nothing was. |
| `HostTraversal.WalkExact` | src/host_api.rs:2864-2962 | For any work left, the stack walk accepts if and only if all depths and the accumulated totals are within limits, having charged and reported everything in pre-order; each error is a real excess. |
| `HostTraversal.WalkType` | src/host_api.rs:2864-2962 | For one type: accepts exactly within limits, charges its nodes and properties, reports its keys in pre-order and returns whether there is one. |
| `HostTraversal.ValidateType` | src/host_api.rs:2864-2962 | The loop with its stack and mutable budget is that walk, also when it fails half way. |
| `NameChecks.ValidateResourceKey` | src/host_api.rs:286-322 | Accepts exactly well-formed keys; an error points at the first offending character or empty segment. |
| `NameChecks.SkipResourceKey` | pd-vm-nostd/src/vmbc.rs:327-352 | The freestanding one-pass check accepts exactly the same keys. |
| `NameChecks.ValidateFunctionName` | src/host_api.rs:3017-3067 | Accepts exactly names of `::`-separated segments that are identifiers; a fault is the first in the order of the checks, with the offset of the stray byte or of the empty segment in the name. |
| `Sorting.SortExact` | src/host_api.rs:3759-3802 | With distinct keys two lists sort alike if and only if one is a rearrangement of the other. |
| `CanonicalBytes.RawInjective` | src/host_api.rs:4063-4142 | No type encoding is the beginning of another. |
| `CanonicalBytes.TypeBytesExact` | src/host_api.rs:4063-4156 | Two types have the same bytes, whatever follows, if and only if they differ at most in field order inside structs. |
| `TypeEncoder.TryPushType` | src/host_api.rs:4063-4142 | The loop with its stack of pending types appends exactly the canonical bytes of the type. |
| `TypeEncoder.PushNamedFields` | src/host_api.rs:4144-4156 | Appends the fields sorted by name. |
| `Catalogs.SignatureDecodable` | src/host_api.rs:1828-1841 | The bytes of a function determine it up to documentation and field order, and the bytes after it. |
| `Catalogs.StructDecodable` | src/host_api.rs:4158-4164 | The bytes of a declaration determine it up to documentation and field order, and the bytes after it. |
| `Catalogs.CatalogBytesExact` | src/host_api.rs:3759-3802 | Equal bytes if and only if the catalogs agree up to documentation, registration order and field order. |
| `CatalogEncoder.EncodeSignature` | src/host_api.rs:1828-1841 | The pushes produce exactly the semantic bytes. |
| `CatalogEncoder.EncodeOverload` | src/host_api.rs:1843-1854 | The pushes produce exactly the overload identity. |
| `CatalogEncoder.ValidateShape` | src/host_api.rs:2964-2984 | The shape check with its own budget accepts exactly functions whose name, description, names, depths and totals are within limits. |
| `CatalogEncoder.SemanticOrFallback` | src/host_api.rs:1823-1826 | The semantic bytes of a function of a good shape, else the bytes of the error. |
| `CatalogEncoder.PushStruct` | src/host_api.rs:4158-4164 | Appends exactly the bytes of the declaration. |
| `CatalogEncoder.EncodeCatalog` | src/host_api.rs:3759-3802 | Succeeds exactly on valid catalogs; builds each function's bytes with the fallback, sorts by them, and gives the canonical bytes. |
| `Surface.RefsError` | src/host_api.rs:4247-4282 | Reports nothing if and only if every struct reference, at any depth, is to a declared struct with the same fields up to order. |
| `Surface.CheckStructs` | src/host_api.rs:4187-4234 | Passes exactly when names are identifiers, names and fields differ, collected resources are declared and references match. |
| `Surface.ValidateSurface` | src/host_api.rs:3851-3999 | Accepts if and only if all counts, descriptions, names, structs, functions, totals and overloads are in order; an error is true of the catalog, the stages before it have passed, and for functions all earlier ones have. |
| `SurfaceFacts.BuiltCatalog` | src/host_api.rs:3851-3999 | In every accepted catalog: each resource in a parameter or result is declared, none is passed by value, borrows are of resources, and named structs match a declaration with distinct fields at every depth. |
| `SurfaceFacts.OverloadExact` | src/host_api.rs:1843-1854 | Overload identities are equal if and only if name and argument types and modes are, up to field order. |
| `SurfaceFacts.NoAmbiguity` | src/host_api.rs:3976-3996 | No two functions of an accepted catalog share a name and argument sequence. |
| `SurfaceFacts.BuiltBytesExact` | src/host_api.rs:3759-3802 | For accepted catalogs, equal canonical bytes if and only if equivalent. |
| `SurfaceFacts.FunctionsAreValid` | src/host_api.rs:1823-1841 | Every function of an accepted catalog passes the shape check, description included, so the bytes of an error message are never produced for it, whatever the message. |
| `SurfaceFacts.LookupExact` | src/host_api.rs:3703-3710 | Looking up the import identity built from a function finds that function, and no other function has that identity. |
| `SurfaceFacts.SameFieldsExact` | src/host_api.rs:4236-4245 | With distinct names, the field comparison is equality up to outer order. |
| `SurfaceFacts.FieldOrderExact` | src/host_api.rs:4144-4156 | Canonical form forgets exactly the order of fields. |
| `ReachedKeys.KeysOrdered` | src/host_api.rs:2864-2962 | The nodes of a type in pre-order hold exactly its resource keys, in the order the walk reports them. |
| `ReachedKeys.CollectedExactly` | src/host_api.rs:981-985 | The collector, which drops its error, reports exactly the keys of the longest part of the pre-order that is within the limits: a key is collected if and only if some node with it has every node up to it within the depth limit and the nodes and properties up to it within their budgets. |
| `ReachedKeys.ReachedWithin` | src/host_api.rs:981-985 | Within the limits of one schema every key is reached. |
| `StructBodies.SurfaceSplits` | src/host_api.rs:3851-3999 | A catalog is accepted if and only if it is sound without its resources, these are, and the resources reached in struct bodies and all those of functions are declared. |
| `StructBodies.MissedExactly` | src/host_api.rs:4187-4234 | For any structs and functions: some resources make them an accepted catalog with an undeclared resource in a struct body if and only if they are sound without resources, the needed resources fit the limit, and a struct body mentions a key that is reached in no struct body and is in no function. |
| `StructBodies.BodiesDeclared` | src/host_api.rs:4187-4234 | If every struct field is within the limits of one schema, all resources of struct bodies are declared in an accepted catalog. |
| `StructBodies.DeepResourceMissed` | src/host_api.rs:981-985 | A concrete family: a resource inside as many lists as the depth limit or more is let through with nothing declared. |
| `StateRequirements.DedupeExact` | src/host_api.rs:767-799 | Succeeds if and only if no two requirements conflict in type, key or lifetime; then one entry per state in order of first appearance, written if any merged one is. |
| `StateRequirements.DedupeIdempotent` | src/host_api.rs:767-799 | Merging the result changes nothing. |
| `StateRequirements.DedupeOrder` | src/host_api.rs:767-799 | Success and the resulting states do not depend on input order. |
| `StateRequirements.DedupeRequirements` | src/host_api.rs:767-799 | The loop computes it, with the error the code gives. |
| `OwnedCalls.TakenExactly` | src/host_api.rs:4443-4481 | After any requests an argument is taken if and only if its successful takes exceed its restores by one; they never differ by more. |
| `OwnedCalls.NothingLost` | src/host_api.rs:4443-4490 | With a host that restores what it took: the values in its hands are the originals of exactly the arguments taken, and these with those put back are the original arguments, each once, untaken ones in order. |
| `OwnedCalls.OwnedHostCall.TakeArg` | src/host_api.rs:4443-4463 | Returns the argument and leaves the placeholder, or fails and changes nothing. |
| `OwnedCalls.OwnedHostCall.RestoreArg` | src/host_api.rs:4465-4481 | Puts a value back into a taken slot, or fails and changes nothing. |
| `OwnedCalls.OwnedHostCall.IntoUntakenArgs` | src/host_api.rs:4483-4490 | The arguments not taken, in order. |

## Left out

- Error payloads: the field labels inside `LengthTooLarge` and similar errors, and all error text, are dropped; which error is raised is kept in the decoders.
- Surface.ValidateSurface: among several faults of one struct or function, and within the resources, does not say which is reported.
- ImportChecks.ValidateImports: among several faults of one import, does not say which is reported.
- SectionWriters.WriteTypeMap: operand offsets are 32-bit numbers, so the error for a larger offset does not occur.
- Constants.CanonIdempotent: a map constant is an association list of entries with distinct keys; insertion into the hash map one entry at a time is modelled as one normalisation at the end, and keys are compared as values, floats by bit pattern.
- Schemas.CanonIdempotent: a decoded object's fields are kept sorted by name, which stands for the hash map; insertion one field at a time is modelled as one normalisation at the end.
- Allocation: `try_reserve` always succeeds; sharing through `Arc`, `Rc` and `Mutex` is not modelled.
- Floats are 64-bit patterns and strings are byte sequences, valid as section 4 of RFC 3629 says.
- Bytecode.InferLocalCount: the two crates have the same loop and one method stands for both.
- Machine.StepSafe: values are choices of the environment, so a step may report a value fault where the real value would not cause one; the outcome of host calls, yields and epoch checks is such a choice too.
- Machine: fused instructions, the fused call-and-return path, frames entered from the host, the JIT and ahead-of-time code are not modelled; neither is what arithmetic computes.
- Catalogs.CatalogBytesExact: compares canonical bytes; the 64-bit FNV digest of them is not modelled, and lengths are below 2^64 (a `usize` always is).
- SurfaceFacts.LookupExact: the fingerprint in an import identity is a parameter.
- StateRequirements.DedupeExact: a `TypeId` is a number.
- OwnedCalls.OwnedHostCall.TakeArg: the placeholder left behind (null) is a parameter.
- The text assembler, the disassembler, serde support, upgrading of older payloads outside the decoder, the command line, procedural macros and build scripts.
