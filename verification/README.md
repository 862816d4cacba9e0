# WABT translators

A model of the core of the WebAssembly Binary Toolkit: the translation of function bodies to the bytecode of
`wasm-interp` and the machine that runs it, the translation to C by `wasm2c`, the binary format between
them, and the float-to-integer conversions of the interpreter; with proofs that both translations mean what
the instructions mean, and that what is written to a file is what is read back. WebAssembly instructions are
trees with a structured, fuel-bounded semantics (`Semantics.dfy`) that neither translator shares.

`dafny verify dfyconfig.toml` checks everything.

## How it is laid out

Instructions, validation and meaning:

- `Syntax.dfy`, `Semantics.dfy`: instruction trees; values, locals, globals, traps, branches, calls.
- `TypeChecker.dfy`: the validator with its label and type stacks, operand types of unreachable code included.

The interpreter (`binary-reader-interp.cc`, `interp.cc`):

- `Bytecode.dfy`, `Elaborate.dfy`, `Layout.dfy`, `Emission.dfy`, `Linking.dfy`, `Confinement.dfy`: encoded
  instructions; bodies with symbolic jumps; where they come to lie; what emitting with holes and patching
  them later amounts to; the linked program; why no patch reaches earlier code.
- `BinaryReaderInterp.dfy`: the class with its stream, label stack and two tables of fixups.
- `Machine.dfy`, `DropKeep.dfy`: one instruction of `Thread::Run`, and its copy loop.
- `Simulation.dfy`, `SimulateOps.dfy`, `Correctness.dfy`, `Compiler.dfy`: the bytecode does what the trees mean.
- `Heights.dfy`, `Placement.dfy`: static heights are dynamic heights, and one per place.
- `Interpreter.dfy`, `Executor.dfy`: the threads' arrays, and `wasm-interp` from reading to results.
- `Environment.dfy`: loading a module, pending writes, and taking everything back.

`wasm2c` (`c-writer.cc`):

- `CMachine.dfy`: the statements it writes and what running them means: braces, labels, `goto`, `switch`.
- `CLowering.dfy`, `CStatics.dfy`: which statements, for which type stack.
- `CSimulation.dfy`, `CCorrectness.dfy`, `CPreservation.dfy`, `CTheorems.dfy`: they do what the trees mean.
- `CWriter.dfy`: the class that writes them in one walk, with both of its stacks.
- `CNames.dfy`, `CScopes.dfy`, `CNaming.dfy`: mangling, fresh names, and the statements under their names.
- `NamePasses.dfy`: the passes that name labels and locals first (`generate-names.cc`, `apply-names.cc`).

The binary format (`leb128.cc`, `stream.cc`, `binary-writer.cc`, `binary-reader.cc`, `binary-reader-ir.cc`):

- `Leb128.dfy`, `SizeFixup.dfy`: numbers; sizes that are written before they are known.
- `BinaryFormat.dfy`, `FunctionBody.dfy`, `BodyTheorems.dfy`: opcodes, flat bodies, and the trees they build.
- `CodeSection.dfy`, `CodeMeaning.dfy`: locals, sizes and the section; what survives the trip.
- `BinaryWriter.dfy`, `BinaryReaderIR.dfy`, `BinaryReader.dfy`: the classes; the builder works on lists that
  instructions point to, as the original does, and is proved against trees.
- `Sections.dfy`: the sections of a file, and the subsections of the name section.
- `CodeRoundTrip.dfy`: writer and reader one after the other.

The rest: `FloatTrunc.dfy` (truncation, on bit patterns and exact reals), `ExprVisitor.dfy` (the visitor without
recursion), `LocalTypes.dfy` (run-length local types).

## Main results and when they hold

- *Interpreter.* `Compiler.CompiledForward`, `CompiledBackward` and `CompiledDivergence`, for every module that
  validates with drop/keep counts that the copy loop handles, no `if` with parameters but without `else`, and
  code below 4 GiB. `Compiler.NarrowSupported` shows that block types of WebAssembly 1.0 (no parameters, at
  most one result) always qualify. A run that fills the value stack or the call stack is let out, and nothing
  else is. `Execution.ReadAndRun` states it from reading to results, for runs that stop.
- *Heights.* `Heights.ValidatedSteady` and `Placement.ValidatedExact` need no supported counts: only that the
  `if`s balance.
- *wasm2c.* `CTheorems.WrittenForward`, `WrittenBackward` and `WrittenDivergence`, for every validated module
  with block types of WebAssembly 1.0 and arguments of the declared types. A run whose calls nest too deeply
  is let out. `CTheorems.BackEndsAgree` joins the two. `CNaming.WriteNamedFunc` carries the statements over to
  names.
- *Binary format.* `BodyTheorems.RoundTrip`, `CodeMeaning.CodeSectionMeans` and `CodeRoundTrip.WriteThenRead`,
  for indices and sizes that fit 32 bits and block types that the format has.
  `BinaryReaderClass.BinaryReader.ReadSections` frames a whole file.
- *Reader of the interpreter.* `InterpReader.BinaryReaderInterp.ReadModule` accepts exactly what validates and
  emits exactly the linked program; `Environments.Environment.ReadBinaryInterp` leaves no trace of a failed
  load.
- *Truncation.* `FloatTrunc.TruncExact` and `FloatTrunc.TruncSatExact`, for all eight instances and every bit
  pattern.

## Where the code does not do what it is for

Each of these is proved of the model, with the exact condition where there is one:

- `DropKeep` overwrites kept slots before it has moved them when `0 < drop < keep`
  (`DropKeepSpec.InOrderExact`, `DropKeepSpec.OutOfOrder`).
- The validator accepts an `if` with parameters and no `else`, which leaves the stack higher than it says when
  it is skipped (`Compiler.SkippedIfHeight`, `Compiler.UnbalancedIf`).
- The truncation from double to 32 bits tests the number before it is truncated, so it refuses some that
  truncate into range (`FloatTrunc.TruncExact`, `FloatTrunc.RefusedDouble`).
- The tree builder accepts a function body whose last `end` leaves a block open, and the block's label stays
  for the next function (`BodyTheorems.ClosedIffBalanced`, `BodyTheorems.UnclosedBlock`).
- Imports of a memory and of a table with the same module and field get one C symbol
  (`CNames.SymbolInjective`); signatures with two results are not told apart (`CNames.SigAmbiguous`).
- A local and a label of one name share an entry that only the first of them set, so the C then jumps to a
  label that is not declared (`CNaming.NamedWriter.NameFunc`, `CNaming.LocalLikeLabel`).
- The C writer's search for a label by name ends at the function's own label when no name matches
  (`NamePasses.FindLabelInStack`).
- The reader's message for too many locals speaks of 0x10000000; the code compares with 2^32 - 1, and so does
  the model.

## Model

| member | source | states |
|---|---|---|
| `Compiler.CompiledForward` | src/binary-reader-interp.cc:1271-1365 | For a compiled module (validated, supported counts, balanced `if`s, under 4 GiB) and any arguments: unless a stack runs out, the machine on the emitted bytes returns the results and globals, traps with the kind, or still runs, as the structured semantics does within any fuel |
| `Compiler.CompiledBackward` | src/interp.cc:1438-1546 | For a compiled module (validated, supported counts, balanced `if`s, under 4 GiB): a run that stops, other than on a full stack, stopped as the structured semantics says, with exactly the result count on the value stack and an empty call stack; it never does anything undefined |
| `Compiler.CompiledDivergence` | src/interp.cc:1438-1546 | For a compiled module (validated, supported counts, balanced `if`s, under 4 GiB): unless a stack runs out, the machine runs forever if and only if the structured semantics diverges |
| `Compiler.NarrowSupported` | src/binary-reader-interp.cc:498-520 | Every validated module with block types of WebAssembly 1.0 only ever gets drop/keep counts that `DropKeep` handles |
| `Compiler.SkippedIfHeight` | src/type-checker.cc:459-484 | An accepted `if` without `else`, when skipped, leaves the height that validation goes on with if and only if the `if` has no parameters |
| `Compiler.UnbalancedIf` | src/type-checker.cc:459-484 | A concrete function that is accepted although its body ends with two values for one result |
| `Heights.StepSteady` | src/interp.cc:1438-1546 | One machine step keeps: the program counter is on an emitted instruction, the value stack is frame base plus locals plus validated operand height, every return offset is the point behind its call |
| `Heights.RunSteady` | src/interp.cc:1438-1546 | The same over whole runs, across calls and returns, for multi-value labels too |
| `Heights.ValidatedSteady` | src/binary-reader-interp.cc:498-520 | For every validated module whose `if`s balance, whatever its counts: static heights are dynamic heights in every reachable state, nothing undefined happens, and the last return leaves exactly the results that the executor copies |
| `Placement.FuncDistinct` | src/binary-reader-interp.cc:498-520 | Within a function each program counter has one frame size, and each local instruction one local that it was meant for |
| `Placement.ValidatedExact` | src/binary-reader-interp.cc:1470-1504 | In every state of every run of a validated module: the instruction at the program counter was emitted, the frame has the only size it can have there, the next places are those that the code leads to, and a local instruction reaches the slot of the one local that the source named |
| `Correctness.SimList` | src/binary-reader-interp.cc:1271-1365 | The code of an instruction list simulates its structured meaning from any reachable state of a run |
| `Correctness.SimLoop` | src/binary-reader-interp.cc:1279-1285 | A loop's code simulates all of its iterations, however often it is branched back to |
| `Correctness.SimIfElse` | src/binary-reader-interp.cc:1287-1320 | The guarded jump, the first branch, the jump over, the second branch: together they do what `if`/`else` means |
| `Correctness.SimBrTable` | src/binary-reader-interp.cc:1343-1365 | The table lookup with its own drop/keep counts per entry branches to the label that the key selects, and out of range to the default |
| `Correctness.SimCall` | src/interp.cc:1541-1546 | A call through the patched offset comes back behind itself with the callee's results in place of the arguments, or traps or runs on with it |
| `Correctness.SimFunc` | src/binary-reader-interp.cc:1099-1138 | From a function's offset with the arguments on the stack: locals allocated and zero, body simulated, results moved down over the frame, return |
| `SimulateOps.SimOp` | src/binary-reader-interp.cc:1470-1504 | Straight-line instructions on the frame do what they do on locals and operands: every translated depth hits its own local |
| `SimulateOps.SimJump` | src/binary-reader-interp.cc:522-529 | A branch leaves the operands below its label, then the label's values, at the label's offset |
| `SimulateOps.SimReturn` | src/binary-reader-interp.cc:1550-1557 | A return leaves just the results where the frame began |
| `DropKeepSpec.DropKeepAt` | src/interp.cc:731-736 | What the in-place copy loop leaves in every slot, for every pair of counts |
| `DropKeepSpec.DropKeepExact` | src/interp.cc:731-736 | The loop moves the kept slots down in order if and only if they repeat with period `drop` |
| `DropKeepSpec.InOrderExact` | src/interp.cc:731-736 | It is right for every stack if and only if nothing is dropped or no more is kept than dropped |
| `DropKeepSpec.OutOfOrder` | src/interp.cc:731-736 | For all other counts, a stack on which it goes wrong |
| `Layout.PatchGenList` | src/binary-reader-interp.cc:540-553 | Patching the recorded operands of a list turns its code with the label unknown into its code with the label known, and touches nothing else |
| `Layout.PatchFuncs` | src/binary-reader-interp.cc:1114-1126 | The same for the operands of direct calls, over all functions emitted so far |
| `Confinement.PatchAllKeeps` | src/binary-reader-interp.cc:456-459 | Patches of recorded places at or behind the end of the earlier stream leave that stream alone |
| `Confinement.CloseConfined` | src/binary-reader-interp.cc:1309-1320 | Closing a label patches only this load's code and keeps every recorded place in it |
| `Confinement.DivideConfined` | src/binary-reader-interp.cc:1298-1307 | So does the `else` of an `if` |
| `Confinement.TableConfined` | src/binary-reader-interp.cc:1343-1365 | A branch table records only places in this load's code |
| `Emission.BlockEmitted` | src/binary-reader-interp.cc:1271-1277 | After a block's `end` the stream and the fixup lists are those of the block with every branch to it resolved |
| `Emission.LoopEmitted` | src/binary-reader-interp.cc:1279-1285 | A loop resolves its branches at once and leaves no fixups |
| `Emission.IfEmitted` | src/binary-reader-interp.cc:1287-1320 | After the `end` of an `if` its pending jump and its branches lands behind it |
| `Emission.IfElseEmitted` | src/binary-reader-interp.cc:1287-1320 | With an `else`, the guard's jump lands on the second branch and everything else behind the `end` |
| `Emission.TableEmitted` | src/binary-reader-interp.cc:1343-1365 | Every entry of a `br_table` is emitted with its counts, and recorded if its target is ahead |
| `Linking.FuncEmitted` | src/binary-reader-interp.cc:1128-1138 | After `EndFunctionBody` no operand of the body but calls ahead is open |
| `Linking.ProgressLinked` | src/binary-reader-interp.cc:555-563 | After all bodies every direct call holds its callee's offset: the stream is the linked program |
| `Linking.LinkedAt` | src/binary-reader-interp.cc:1114-1126 | In the linked program each function's code lies at its offset |
| `InterpReader.BinaryReaderInterp.EmitDropKeep` | src/binary-reader-interp.cc:461-474 | Nothing, `drop`, or the general instruction - whichever of the three encodings denotes the counts |
| `InterpReader.BinaryReaderInterp.EmitBrOffset` | src/binary-reader-interp.cc:486-496 | A known target's offset, or the invalid offset and a record of where it stands |
| `InterpReader.BinaryReaderInterp.EmitFuncOffset` | src/binary-reader-interp.cc:555-563 | The same for a callee that is not emitted yet |
| `InterpReader.BinaryReaderInterp.FixupTopLabel` | src/binary-reader-interp.cc:540-553 | Every recorded operand of the top label gets the current offset; nothing else changes |
| `InterpReader.BinaryReaderInterp.PopLabel` | src/binary-reader-interp.cc:1089-1097 | The fixup lists never outgrow the label stack |
| `InterpReader.BinaryReaderInterp.OnBlockExpr` | src/binary-reader-interp.cc:1271-1277 | Label stack, validator and stream after the callback |
| `InterpReader.BinaryReaderInterp.OnLoopExpr` | src/binary-reader-interp.cc:1279-1285 | The label's target is the current offset |
| `InterpReader.BinaryReaderInterp.OnIfExpr` | src/binary-reader-interp.cc:1287-1296 | A jump with an open operand that the label remembers |
| `InterpReader.BinaryReaderInterp.OnElseExpr` | src/binary-reader-interp.cc:1298-1307 | The jump over the second branch is open, the guard's jump is patched to behind it |
| `InterpReader.BinaryReaderInterp.OnEndExpr` | src/binary-reader-interp.cc:1309-1320 | Pending jump and recorded branches patched, label popped |
| `InterpReader.BinaryReaderInterp.OnBrIfExpr` | src/binary-reader-interp.cc:1330-1341 | The inverted jump over drop/keep and branch is patched to right behind them |
| `InterpReader.BinaryReaderInterp.OnBrTableExpr` | src/binary-reader-interp.cc:1343-1365 | Header, data size and one entry per target and default |
| `InterpReader.BinaryReaderInterp.OnCallExpr` | src/binary-reader-interp.cc:1375-1380 | A call of a defined function with its offset, or recorded |
| `InterpReader.BinaryReaderInterp.OnReturnExpr` | src/binary-reader-interp.cc:1550-1557 | Everything of the frame dropped but the results, and the rest of the block unreachable |
| `InterpReader.BinaryReaderInterp.OnOpExpr` | src/binary-reader-interp.cc:1470-1504 | Locals as depths from the top of the stack at this point |
| `InterpReader.BinaryReaderInterp.ReadIfElse` | src/binary-reader-interp.cc:1287-1320 | Accepts an `if`/`else` exactly if it validates, and then has emitted exactly its code |
| `InterpReader.BinaryReaderInterp.ReadExpr` | src/binary-reader-interp.cc:1271-1365 | The callbacks of one instruction: accepted exactly if it validates, with exactly its code emitted |
| `InterpReader.BinaryReaderInterp.ReadLocalDecls` | src/binary-reader-interp.cc:1145-1159 | One allocation for all declared locals, or none |
| `InterpReader.BinaryReaderInterp.ReadFunction` | src/binary-reader-interp.cc:1099-1138 | One body: accepted exactly if it validates; its own label fixed up and calls to it patched |
| `InterpReader.BinaryReaderInterp.ReadModule` | src/binary-reader-interp.cc:1099-1138 | The reader accepts a module exactly if all its functions validate; then, below 4 GiB, it has appended the linked program and holds the functions' offsets. On every way out the stream starts with what was there before: every patch was of this load's code |
| `Interpreter.Thread.Push` | src/interp.cc:696-700 | Pushes, or traps on exhaustion and changes nothing |
| `Interpreter.Thread.DropKeep` | src/interp.cc:731-736 | The loop over the array does what `DropKeepSpec` describes |
| `Interpreter.Thread.PushCall` | src/interp.cc:738-742 | Records the return offset, or traps on exhaustion |
| `Interpreter.Thread.ExecuteBranch` | src/interp.cc:1455-1489 | Jumps, tables and returns on the arrays agree with the machine |
| `Interpreter.Thread.ExecuteVariable` | src/interp.cc:1511-1539 | Local and global access on the arrays agrees with the machine |
| `Interpreter.Thread.ExecuteFrame` | src/interp.cc:2368-2394 | `alloca`, `br_unless`, `drop_keep` on the arrays agree with the machine |
| `Interpreter.Thread.Run` | src/interp.cc:1438-1546 | Some number of instructions of the fetch loop is that number of machine steps, or fewer if it stops |
| `Execution.Executor.PushArgs` | src/interp.cc:4515-4531 | Exactly the argument mismatches and exhaustion that make it refuse, else the arguments in order |
| `Execution.Executor.RunDefinedFunction` | src/interp.cc:4493-4513 | A thousand steps at a time until the thread stops |
| `Execution.Executor.CopyResults` | src/interp.cc:4533-4540 | The whole value stack with the signature's types; the height it asserts is a precondition that `RunFunction` establishes |
| `Execution.Executor.RunFunction` | src/interp.cc:4436-4453 | For a defined function of a compiled module: what it answers, stack exhaustion apart, is what the structured semantics says |
| `Execution.ReadAndRun` | src/binary-reader-interp.cc:1607-1635 | For modules with block types of WebAssembly 1.0 whose run stops within a number of steps: rejected exactly if the module does not validate, else answered as the structured semantics does |
| `Elaborate.ListFrame` | src/type-checker.cc:95-122 | Checking a list keeps the labels below the current one and never pops beneath it |
| `Bytecode.FetchEncode` | src/interp.cc:1443-1446 | An emitted instruction is fetched back from its bytes |
| `CTheorems.WrittenForward` | src/c-writer.cc:1409-1469 | For a validated module with block types of WebAssembly 1.0 and arguments of the right types: unless calls nest too deeply, the written C returns, traps or runs on as the structured semantics does within any fuel |
| `CTheorems.WrittenBackward` | src/c-writer.cc:1409-1469 | Under the same hypotheses: a run of the written C that stops stopped as the structured semantics says; it never reads an unassigned variable and never jumps to a label that is not there |
| `CTheorems.WrittenDivergence` | src/c-writer.cc:1555-1569 | Under the same hypotheses: unless calls nest too deeply, the C runs forever if and only if the structured semantics diverges |
| `CTheorems.BackEndsAgree` | src/c-writer.cc:1278-1320 | For a module that both accept: when the interpreter's bytecode finishes or traps, so does the written C, with the same results and globals or the same trap, unless its calls nest too deeply |
| `CPreservation.SimList` | src/c-writer.cc:1421-1445 | The statements of an instruction list simulate it, although the list is cut behind its first unconditional jump |
| `CPreservation.SimBlock` | src/c-writer.cc:1409-1419 | A block's statements, its label behind them if something jumps there, and the type stack reset to its mark |
| `CPreservation.SimLoop` | src/c-writer.cc:1555-1569 | A loop's label in front, through all iterations |
| `CPreservation.SimIf` | src/c-writer.cc:1532-1549 | Both branches of an `if`, with and without `else` |
| `CPreservation.SimCall` | src/c-writer.cc:1447-1469 | A C call with the arguments' stack variables, its result in the variable where the first argument was |
| `CPreservation.SimFunc` | src/c-writer.cc:1278-1320 | A C function from entry to return |
| `CCorrectness.SimGoto` | src/c-writer.cc:706-724 | Copy to the label's own variable and jump; no copy when the value is there already |
| `CCorrectness.SimBrTable` | src/c-writer.cc:1432-1445 | The switch over the key reaches the case's jump or the default's |
| `CStatics.TypesList` | src/c-writer.cc:398-423 | The writer's type stack is the validator's, up to types in unreachable code |
| `CStatics.LabelStack` | src/c-writer.cc:425-437 | A label's mark is the height under its parameters |
| `CWriterClass.CWriter.FindLabel` | src/c-writer.cc:439-460 | The label at the depth, marked as used |
| `CWriterClass.CWriter.WriteGoto` | src/c-writer.cc:706-724 | The copy and the jump of the specification |
| `CWriterClass.CWriter.WriteBrTable` | src/c-writer.cc:1432-1445 | One case per target and the default, all labels marked |
| `CWriterClass.CWriter.WriteList` | src/c-writer.cc:1421-1445 | The walk with its stacks writes exactly the lowered list, cut where the list is, and marks exactly the labels that it jumps to |
| `CWriterClass.CWriter.WriteExpr` | src/c-writer.cc:1593-1621 | The same for each instruction |
| `CWriterClass.CWriter.WriteBlock` | src/c-writer.cc:1409-1419 | Type stack and label stack come back to the block's result |
| `CWriterClass.CWriter.WriteLoop` | src/c-writer.cc:1555-1569 | A loop's label is always written, in front; an empty loop leaves no trace |
| `CWriterClass.CWriter.WriteIf` | src/c-writer.cc:1532-1549 | The type stack is reset between the branches |
| `CWriterClass.WriteFunc` | src/c-writer.cc:1278-1320 | A whole function is written as specified |
| `CWriterClass.WriteModule` | src/c-writer.cc:1268-1276 | And a whole module |
| `CNames.MangleName` | src/c-writer.cc:505-521 | The loop computes the mangled name |
| `CNames.MangleAllInjective` | src/c-writer.cc:505-535 | A row of mangled names determines the names and how many there are |
| `CNames.SigInjective` | src/c-writer.cc:493-529 | With at most one result a signature's letters determine it |
| `CNames.SigAmbiguous` | src/c-writer.cc:493-529 | With two results they do not |
| `CNames.SymbolInjective` | src/c-writer.cc:575-583 | Two imports get one symbol if and only if they are the same, or a memory and a table of one name |
| `CNames.LegalizeName` | src/c-writer.cc:543-553 | The loop computes the legal form |
| `CNames.DefineName` | src/c-writer.cc:555-566 | Terminates with a legal identifier that was not taken, and with the legal form of the name if that is free |
| `CNames.SymbolTable.DefineLocalScopeName` | src/c-writer.cc:591-595 | A fresh symbol is taken; the map refers to it if and only if the name was not mapped before |
| `CNames.SymbolTable.StackVarName` | src/c-writer.cc:736-752 | One fresh name per stack index and type, the same one every time |
| `CScopes.WrittenInScope` | src/c-writer.cc:701-752 | A written function refers only to its own parameters, locals and labels, to globals and functions of the module, and to stack variables of the four value types |
| `CNaming.TablesInjective` | src/c-writer.cc:591-604 | With distinct names no two variables, labels or functions have one symbol |
| `CNaming.SameCode` | src/c-writer.cc:701-752 | The named text of a function body can come from one body only |
| `CNaming.NamedWriter.DefineAll` | src/c-writer.cc:1322-1366 | Fresh, legal, different symbols for parameters, locals and labels; the tables lead back to a declared symbol exactly for the first use of a name |
| `CNaming.NamedWriter.WriteThing` | src/c-writer.cc:731-752 | The symbol of a variable, label or function; a stack variable is named when it is first written |
| `CNaming.NamedWriter.NameFunc` | src/c-writer.cc:1278-1320 | The text is the statements with every variable, label and function replaced by its symbol; uses lead to declarations if and only if no two locals or labels share a name, and then different things have different symbols |
| `CNaming.WriteNamedFunc` | src/c-writer.cc:1278-1320 | The same for the statements that are written for a validated function of WebAssembly 1.0 |
| `CNaming.LocalLikeLabel` | src/generate-names.cc:126-134 | A local called `$B0` gets the same name as the first block |
| `Leb128.WriteU32Leb128` | src/leb128.cc:60-65 | The loop writes the shortest unsigned encoding |
| `Leb128.WriteSLeb128` | src/leb128.cc:98-120 | The loop writes the shortest signed encoding |
| `Leb128.ReadULeb` | src/leb128.cc:150-177 | Every 32-bit number comes back from its shortest encoding |
| `Leb128.ReadFixedULeb` | src/leb128.cc:86-96 | And from the five-byte encoding |
| `Leb128.ReadSLeb32` | src/leb128.cc:179-213 | Every signed 32-bit number comes back, as its bit pattern |
| `Leb128.ReadSLeb64` | src/leb128.cc:215-269 | Every signed 64-bit number comes back |
| `SizeFixup.MemoryStream.WriteDataAt` | src/stream.cc:164-177 | Overwrites in place, growing the buffer if needed |
| `SizeFixup.MemoryStream.MoveData` | src/stream.cc:179-196 | Moves overlapping bytes and leaves what lies before them |
| `SizeFixup.SizeWriter.WriteU32Leb128Space` | src/binary-writer.cc:195-204 | Room for a size: the guess, or five bytes |
| `SizeFixup.SizeWriter.WriteFixupU32Leb128Size` | src/binary-writer.cc:206-226 | The size stands directly in front of the contents whatever the guess was; the result is how much everything moved |
| `SizeFixup.SizeWriter.WriteParts` | src/binary-writer.cc:271-298 | Any nesting of reservations and fixups leaves the nested size-prefixed encoding, in both modes |
| `BinaryFormat.BlockCodeRange` | src/binary-reader.cc:383-393 | An encodable block type is read back from the number it is written as |
| `BinaryFormat.ReadDepthsBack` | src/binary-reader.cc:614-634 | The targets of a `br_table` come back |
| `FunctionBody.ReadTokenBack` | src/binary-reader.cc:552-690 | Every opcode with its operands comes back |
| `FunctionBody.ReadTokensBack` | src/binary-reader.cc:546-690 | Reading any written instructions, balanced or not, makes exactly their callbacks |
| `FunctionBody.ReplayList` | src/binary-reader-ir.cc:619-651 | The callbacks of a tree's instructions add exactly that tree to the list under the top label |
| `FunctionBody.BuildNested` | src/binary-reader-ir.cc:294-300 | The last instruction below each label is the one the label belongs to, so every cast behind `TopLabelExpr` is right |
| `BodyTheorems.ReadBodyBack` | src/binary-writer.cc:617-621 | Reading a written body anywhere in a file rebuilds its tree |
| `BodyTheorems.RoundTrip` | src/binary-writer.cc:500-511 | A tree that the format can express comes back unchanged if and only if its 32-bit constants are 32 bits and it has no empty `else` |
| `BodyTheorems.EndAtDepthZero` | src/binary-reader.cc:651-658 | In a written body an `end` stops at the last byte if and only if no label is open |
| `BodyTheorems.ClosedIffBalanced` | src/binary-reader-ir.cc:884-888 | An accepted body leaves only the function's label behind if and only if its labels balance |
| `BodyTheorems.UnclosedBlock` | src/binary-reader-ir.cc:884-888 | Three bytes that are accepted with a block left open |
| `BodyTheorems.ReadIsWritable` | src/binary-reader.cc:546-658 | The tree of any accepted body that leaves no label open can be written, and reads back the same |
| `CodeSection.LocalsBack` | src/binary-writer.cc:628-641 | The run-length declarations themselves come back |
| `CodeSection.FuncBack` | src/binary-reader.cc:1923-1947 | A sized body comes back, in both size modes |
| `CodeSection.CodeSectionBack` | src/binary-writer.cc:937-954 | The whole code section comes back, in both size modes |
| `CodeMeaning.CodeSectionMeans` | src/binary-writer.cc:937-954 | A module within the format's 32-bit limits whose code went out and came back computes the same from every function, argument list and amount of fuel |
| `BinaryWriterClass.BinaryWriter.GetFuncTypeIndex` | src/ir.cc:282-289 | The first function type that equals the signature |
| `BinaryWriterClass.BinaryWriter.WriteBlockDecl` | src/binary-writer.cc:228-242 | Inline or by index |
| `BinaryWriterClass.BinaryWriter.WriteExpr` | src/binary-writer.cc:403-434 | Appends exactly the instruction's encoding |
| `BinaryWriterClass.BinaryWriter.WriteExprList` | src/binary-writer.cc:617-621 | Appends exactly the list's encoding |
| `BinaryWriterClass.BinaryWriter.WriteFuncLocals` | src/binary-writer.cc:628-641 | Appends the declarations' encoding |
| `BinaryWriterClass.BinaryWriter.WriteCodeSection` | src/binary-writer.cc:937-954 | Section and bodies with all sizes fixed up |
| `IRBuilder.OpenStep` | src/binary-reader-ir.cc:619-626 | A new instruction on the top list and a label on its own list: the lists stand for the tree with a label more |
| `IRBuilder.ElseStep` | src/binary-reader-ir.cc:674-683 | Retargeting the label to the second list completes the first |
| `IRBuilder.CloseStep` | src/binary-reader-ir.cc:697-713 | Popping a label completes its instruction, and nothing that was complete changes |
| `IRBuilder.HoldsOnly` | src/binary-reader-ir.cc:302-308 | A finished list holds exactly one tree: what the builder's lists and pointers contain determines it |
| `IRBuilder.BinaryReaderIR.OnLeafExpr` | src/binary-reader-ir.cc:302-308 | Fails exactly without a label, else appends |
| `IRBuilder.BinaryReaderIR.OnOpenExpr` | src/binary-reader-ir.cc:619-626 | As specified by `Build`, on lists and pointers |
| `IRBuilder.BinaryReaderIR.OnElseExpr` | src/binary-reader-ir.cc:674-683 | Fails exactly if the top label is no `if` or the only label |
| `IRBuilder.BinaryReaderIR.OnEndExpr` | src/binary-reader-ir.cc:697-713 | Fails exactly on the last label; a function's tree is complete when its label goes |
| `IRBuilder.BinaryReaderIR.BeginFunctionBody` | src/binary-reader-ir.cc:562-566 | A new list and label on top of what earlier functions left |
| `IRBuilder.BinaryReaderIR.EndFunctionBody` | src/binary-reader-ir.cc:884-888 | Pops one label, whichever it is |
| `BinaryReaderClass.BinaryReader.ReadFunctionBody` | src/binary-reader.cc:546-658 | Terminates; accepts exactly what the specification accepts, at exactly the end of the body, with its label stack |
| `BinaryReaderClass.BinaryReader.ReadLocals` | src/binary-reader.cc:1928-1943 | The declarations go to the current function in order; zero counts, too many locals and bad types are refused |
| `BinaryReaderClass.BinaryReader.ReadCodePayload` | src/binary-reader.cc:1912-1951 | All functions with their declarations and trees, or refused; nothing is said once an accepted body has left a block open |
| `BinaryReaderClass.BinaryReader.ReadFunction` | src/binary-reader.cc:1918-1948 | One body with its size and locals: accepted exactly as specified, its tree complete when no block is left open |
| `Sections.NextSection` | src/binary-reader.cc:1981-1987 | Any way to cut the rest of the file into sections starts with the sections read so far and goes on with the next header |
| `Sections.SectionsUnique` | src/binary-reader.cc:1981-1987 | The sections of a file are determined by its bytes |
| `Sections.SequenceChecked` | src/binary-reader.cc:2000-2008 | The last known section and the name-section flag are enough to decide whether a section is in order after all sections before it |
| `BinaryReaderClass.BinaryReader.ReadSection` | src/binary-reader.cc:1981-2087 | One section with its end restored on every way out: refused exactly for a bad header, order or contents; skipped to its end if reading may go on |
| `BinaryReaderClass.BinaryReader.ReadSections` | src/binary-reader.cc:1978-2091 | An accepted file is a sequence of sections, known ones in strictly increasing order and none behind the name section, each used up exactly, with nothing left over and every function of the code section in the builder; a refused one is not, or one of its sections is refused |
| `BinaryReaderClass.BinaryReader.ReadCustomSection` | src/binary-reader.cc:1607-1631 | By name: the name section, sections with contents of their own, everything else skipped; exact about where it stops and whether a name section has been read |
| `BinaryReaderClass.BinaryReader.ReadSubsection` | src/binary-reader.cc:1338-1357 | One name subsection with its own end, the section's end restored on every way out |
| `BinaryReaderClass.BinaryReader.ReadNameSection` | src/binary-reader.cc:1334-1357 | Accepted exactly if the section is a sequence of subsections with strictly increasing kinds, each used up, unknown kinds skipped |
| `CodeRoundTrip.WriteThenRead` | src/binary-writer.cc:937-954 | Writer and reader one after the other, whatever the options: the reader accepts, has read everything, and the lists that the new builder points to hold the same declarations and trees and nothing else |
| `FloatTrunc.MagnitudeUp` | src/interp.cc:342-346 | Float patterns without sign are ordered as their numbers are |
| `FloatTrunc.InRangeMeans` | src/interp.cc:342-454 | Each of the eight pattern comparisons is a comparison of the numbers |
| `FloatTrunc.ConvertsWhen` | src/interp.cc:428-454 | The check passes if and only if the truncated number fits and the number is not one that double-to-32-bit refuses |
| `FloatTrunc.IntTrunc` | src/interp.cc:1300-1305 | Success is the number truncated towards zero, and its cast is defined; the invalid-conversion trap is exactly for NaN |
| `FloatTrunc.TruncExact` | src/interp.cc:1300-1305 | It succeeds exactly when the standard's partial function is defined, for single sources and 64-bit targets; from double to 32 bits also the untruncated number must be within the limits |
| `FloatTrunc.RefusedDouble` | src/interp.cc:428-433 | 2147483647.5 truncates into range and traps |
| `FloatTrunc.TruncSatExact` | src/interp.cc:1309-1322 | Saturating truncation is right for every pattern, source and target |
| `ExprVisitorClass.ExprVisitor.VisitExpr` | src/expr-visitor.cc:26-78 | Terminates and makes exactly the callbacks of the recursive traversal, up to the first that fails |
| `ExprVisitorClass.ExprVisitor.HandleList` | src/expr-visitor.cc:43-78 | One turn with an iterator: the next instruction, or the closing callback and the next list |
| `ExprVisitorClass.ExprVisitor.HandleDefaultState` | src/expr-visitor.cc:189-198 | The opening callback and the first list |
| `NamePasses.LabelFound` | src/c-writer.cc:439-460 | A branch finds by name the label its depth meant, and keeps its index if and only if it leaves the function |
| `NamePasses.LocalFound` | src/ir.cc:195-212 | A local's name resolves to the local if and only if no parameter has that name |
| `NamePasses.NamesResolve` | src/apply-names.cc:97-123 | After both passes every branch and every local resolves to what the indices were |
| `NamePasses.NameGenerator.VisitList` | src/generate-names.cc:196-209 | Labels in the order of the walk, counted through the function |
| `NamePasses.NameApplier.FindLabelByVar` | src/apply-names.cc:97-112 | The label at an index, or the innermost one of a name |
| `NamePasses.NameApplier.VisitList` | src/apply-names.cc:209-250 | Labels pushed and popped around each list, uses renamed |
| `NamePasses.FindLabelInStack` | src/c-writer.cc:439-460 | The search loop over the writer's label stack |
| `NamePasses.GenerateAndBindName` | src/generate-names.cc:137-151 | Terminates with a name that was not bound, and binds it |
| `NamePasses.GenerateAndBindLocalNames` | src/generate-names.cc:182-194 | Given names stay, all others become fresh ones, and the hash and its reverse mapping agree |
| `NamePasses.NameFunction` | src/generate-names.cc:220-230 | Both passes over a function without names: all named, and resolved as before |
| `RunLengths.RunsUnique` | src/ir.cc:142-160 | A type vector has only one form as maximal runs |
| `RunLengths.LocalTypes.Set` | src/ir.cc:142-160 | Maximal non-empty runs that expand to exactly the vector |
| `RunLengths.LocalTypes.Get` | src/ir.cc:168-178 | The type at an index, without expanding |
| `Environments.Swap` | src/binary-reader-interp.cc:1595-1603 | A write that waits and a later step do not get into each other's way |
| `Environments.Deferred` | src/binary-reader-interp.cc:1595-1603 | Putting a step's writes off is the same as doing them now |
| `Environments.Environment.ResetToMarkPoint` | src/interp.cc:210-237 | Everything behind the mark goes, and exactly the registered names of modules behind it |
| `Environments.Environment.EraseNames` | src/interp.cc:219-228 | Exactly the registered names of modules behind the mark are removed |
| `Environments.Environment.EndModule` | src/binary-reader-interp.cc:1595-1603 | The pending writes in order |
| `Environments.Environment.ReadBinary` | src/binary-reader-interp.cc:1620-1624 | Sections, code, sections again, then the pending writes; however it ends, earlier code is as it was |
| `Environments.Environment.ReadBinaryInterp` | src/binary-reader-interp.cc:1607-1635 | The reader takes the stream and gives it back: a load that fails leaves the environment as it was, the stream included; one that succeeds has the effect of its steps one after the other and of appending the linked code |

## Left out

- Memories and tables at run time: loads, stores, `memory.size`, `memory.grow` and `call_indirect`, in both
  translations and in the binary format. What loading writes into them is modelled (`Environment.dfy`).
- Host functions and imports, as something to call, and the start function.
- Unary, conversion and further binary instructions: six binary instructions, constants, `select`, `drop` and
  variables stand for all that only pop and push. SIMD, atomics and exceptions.
- Compiler.CompiledForward: the instruction set above only, so not the host call in `OnCallExpr`.
- Compiler.CompiledBackward: likewise.
- CTheorems.WrittenForward: the instruction set above only.
- CTheorems.WrittenBackward: likewise.
- CWriterClass.CWriter.WriteExpr: the instruction set above only, and statements rather than characters.
- CWriterClass.CWriter.WriteList: statements rather than characters, layout and indentation aside.
- BodyTheorems.RoundTrip: the instruction set above only.
- BinaryWriterClass.BinaryWriter.WriteExpr: the instruction set above only, and no relocations.
- BinaryReaderClass.BinaryReader.ReadSections: the contents of the other sections, and the callbacks around
  sections, are a parameter that says where each of their readers stops or that it fails.
- BinaryReaderClass.BinaryReader.ReadCustomSection: names of sections are compared as bytes; whether they are
  UTF-8 is a parameter, and so are the contents of relocation, linking and exception sections.
- BinaryReaderClass.BinaryReader.ReadNameSection: what the three known subsections contain is a parameter.
- BinaryReaderClass.BinaryReader.ReadCodePayload: nothing is said about a section in which an accepted body
  leaves a block open, because the next body is then read into that block.
- InterpReader.BinaryReaderInterp.OnCallExpr: defined functions only.
- ExprVisitorClass.ExprVisitor.VisitExpr: blocks, loops and `if`s; not the states for `try` and `if_except`. The tree
  is not changed while it is walked: passes that rename in place return a new tree here.
- CNaming.NamedWriter.NameFunc: all labels are named before the body is written, not as their blocks begin, and
  locals in index order, not by type. Only the suffixes of names depend on it.
- Imports in the tables of global names: their symbols are entered without a check against other names.
- Magic number and version of a file, and the sections that the writer writes apart from code.
- The intrusive list that holds instructions: a list is a sequence here.
- The upper bytes of a 32-bit value in the interpreter's `Value` union, which are zero here.
- Floating-point arithmetic other than truncation; NaN payloads and canonical NaNs.
- Code of 4 GiB and more, where offsets wrap round; section and body sizes of 4 GiB and more.
- C text: expressions and statements are trees, and names are strings; no grammar of C.
- Tracing, logging, error messages, and source locations.
