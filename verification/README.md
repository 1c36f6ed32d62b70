# Irid: a verified model of the tool chain and its CPU

Irid is a small complete system: a compiler for the Leaf language (`lc`), an assembler
(`as`), an object format with its builder library (`libiridtools`), a linker (`ld`) and a
16-bit CPU (`emul`). This project models every stage and proves what the stages promise
each other, up to one statement across all of them: whatever a call of a function means to
a structured interpreter of the source, the CPU computes from the bytes that compiler,
assembler, object file and linker make of the program (`Pipeline.LinkedProgramRuns`).

`dafny verify dfyconfig.toml` checks the whole project.

## The parts

| part | modules |
|---|---|
| words and memory, the CPU's instructions, straight and jumping code, what a run shows | `Words`, `Machine`, `Images`, `Traces`, `ByteSim` |
| the CPU as an object with registers, memory, devices and an interrupt cache | `CpuCore`, `Interrupts` |
| value trees and the code emitted for them, stores, comparisons, arguments | `Values`, `Emit`, `ExprProof`, `StoreProof`, `Scratch` |
| types, frame layout, where a field or element lies | `Types`, `Frames`, `TypedFrames` |
| the source language and its interpreter | `Nodes`, `Interp`, `Checks`, `Loops` |
| compilation to blocks, blocks to code, the calling convention, and the simulation proof | `Compile`, `FuncCode`, `SimBase`, `SimCode`, `Convention`, `TwoBuilds`, `Simulation` |
| the emitter and the compiler as objects that append and count | `Emitter`, `Compiler` |
| labels, jumps and literals of compiled programs, and that they assemble | `Text`, `LabelNames`, `Literals`, `Acceptance` |
| byte buffer, instruction encoding, one-pass assembly | `ByteBuffers`, `Encoding`, `Assembly`, `Assembler` |
| object format: image, file, builders, readers | `Iof`, `IofFile`, `IofBuilders`, `IofFiles` |
| linker: region chain, placement, image | `Regions`, `RegionChain`, `Placement`, `Linker`, `Linking`, `LinkOutput` |
| expression parser: cursor, printing, round trip | `Parser`, `ParserCursor` |
| inputs at which the code surprises | `Pitfalls` |
| theorems across stages | `Toolchain`, `Listings`, `EndToEnd`, `Objects`, `LinkAlone`, `Pipeline` |

Code that changes state step by step is a class or a loop here as well (`CpuCore.Core`,
`Emitter.Printer`, `Compiler.FuncCompiler`, `Assembler.AsmState`, `ByteBuffers.ByteBuffer`,
`IofBuilders.SectionBuilder`, `IofFiles.FileBuilder`, `RegionChain.Node`, `Linker.Placer`,
`ParserCursor.Cursor`). Its methods are proved to compute what functions on values define,
and the theorems are about those functions.

## How to read the statements

- An instruction ends in `Next` (the new state), `Fault` (a CPU fault) or `Wild`: the C++
  code then does something this model gives no meaning to, such as a 16-bit access at
  0xffff, a shift by sixteen or more, or a call into the host. A theorem that reaches a
  `Next` state says in particular that nothing wild happened on the way.
- `lim` is the first writable address: writes below it count as wild. The whole-program
  theorems set it to the end of the code, so compiled programs do not overwrite themselves.
- The interpreter carries the bytes of stack left (`room`) and a bound on calls and loop
  iterations (`fuel`). It answers `None` when either is used up; `Loops.AnswerUnique` shows
  that its answers depend on neither.
- The compiler's blocks carry marks (`FuncCode.BlockMark`): the last instruction of a block
  is where its stored register, its argument registers, r0 or the flag is looked at. The
  trace of a run is what the marks show; `Interp.TraceF` says the same in source terms.
- A walk (`Convention.Walk`) is a run from block to block, with the activations it calls
  inside it. Its states are the machine's; that ip, bp and sp are where they belong is proved.
- `Dangling` and `Lost` in the placement, and `Undef` in the linking, are the places where
  the linker follows a freed or missing region, or writes outside its buffer.
- Positions that the sources compute in C `int` or `size_t` are unbounded; every value that
  is stored in a 16-bit field or register is cut explicitly with `Wrap`.

## Where the code does not do what one would expect

The model follows the code, and each of these has an exact condition, and in `Pitfalls` an input at
which it shows:

- an operator evaluated into r4 loses its left operand (`Scratch.R4RightIff`);
- a char store also writes the byte behind it (`TypedFrames.StoreRule`), for a char at the
  top of the frame half of the saved r7 (`TypedFrames.ScalarAllowed`);
- negative immediates are written as one zero-extended byte (`Encoding.ImmediateExact`);
- a link point of a misaligned instruction lies before its address field
  (`Assembly.LinkHitsField`), and of several labels in front of such an instruction only
  one moves with it (`Assembly.LaterLabelStays`);
- a second ready device overwrites the saved registers (`Interrupts.CacheRightIff`);
- a region insertion in the middle, at the back or as an exact fill loses everything behind
  it unless nothing is behind (`Regions.InsertTiles`);
- a section that is nothing but an origin does not read back (`Iof.CodeRead`);
- a second cast of one expression replaces the first (`Parser.RoundTrip`);
- a repeated loop index shares its name with an earlier local (`Compiler.AcceptedNamesSs`).

`doc/arch` and the code disagree in two places, and the model follows the code: the text says
that h registers hold the high byte, while its own example and the code give them the byte
stored first, the low-order one; and the zero and overflow flags it describes are never
written.

## Model

| member | source | states |
|---|---|---|
| Words.And16Byte | lc/src/emit.c:239-244 | the final `and r, 0xff` of a byte-sized index keeps exactly the low byte of the word that was loaded |
| Words.Write16Read16 | emul/src/memory.cc:37-48 | a little-endian word written at an address with a second byte is the word read back there |
| Values.EvalFrame | lc/src/emit.c:196-250 | the value of a tree does not depend on the stack words below it, so what an operator pushes cannot disturb its other operand |
| ExprProof.AddrCorrect | lc/src/emit.c:162-194 | the address code of a local, of a field behind a pointer or of a global leaves exactly that address and changes nothing but its register and r4 |
| ExprProof.FoldAgrees | lc/src/emit.c:70-103 | folding with unbounded C integers and computing with 16-bit registers agree modulo 2^16 for ADD, SUB and MUL |
| ExprProof.VarCorrect | lc/src/emit.c:205-218 | a local, global or decayed array ends up in the destination register: its word, or its address when it decays |
| ExprProof.OpCorrect | lc/src/emit.c:105-160 | an operator that is not folded leaves left op right in the destination, with the right operand kept on the stack meanwhile, to any depth |
| ExprProof.IndexCorrect | lc/src/emit.c:220-250 | an element is read from base + index * element size modulo 2^16, through r6 and r4, with the high byte cut off for one-byte elements |
| ExprProof.ExprCorrect | lc/src/emit.c:196-257 | the code of any supported value tree leaves its 16-bit value in the destination register, changes no other register but r4 and r6, restores sp and the flag, and writes only in the 2*depth bytes below sp, with folding on or off |
| Scratch.OperatorIntoR4 | lc/src/emit.c:131-139 | any value evaluated into r4 itself, operators nested to any depth: each operator works on two copies of what its right operand left there, because the pop overwrites the left one |
| Scratch.R4RightIff | lc/src/emit.c:131-139 | an operator evaluated into r4, product or not, whatever its operands are, is right if and only if two copies of what the right operand leaves give the result: a difference exactly of equal values, a product of y with x exactly when y * (y - x) is 0 modulo 2^16 |
| Scratch.ValueSwitches | lc/src/emit.c:107-118 | two builds of a value, with the switches set either way, each in its own frame, layout and symbol table, leave the same register value and each its own flag as it was |
| Scratch.CompareSwitches | lc/src/emit.c:374-388 | two builds of a comparison, each over its own state, layout and symbols, leave the same compare flag |
| StoreProof.PlainStore | lc/src/emit.c:259-321 | a store to a plain local, a field at a fixed offset or a global writes that one word and nothing else |
| StoreProof.ArrayStore | lc/src/emit.c:277-286 | a store to an array element writes the word at bp - offset + index * element size and, of memory, nothing else but scratch below sp |
| StoreProof.PointerStore | lc/src/emit.c:288-304 | a store through a pointer writes the word at pointer + index * element size; the stored register survives the index computation on the stack |
| StoreProof.StoreCorrect | lc/src/emit.c:259-321 | every store form writes exactly the word its place denotes and keeps every other byte from sp up and every register but the scratch ones |
| StoreProof.CmpCorrect | lc/src/emit.c:374-388 | after a comparison block the flag is set if and only if the two 16-bit values are equal, in the literal and in the register form |
| StoreProof.ArgsCorrect | lc/src/emit.c:333-345 | after the argument code register ri holds argument i for all arguments at once: no later argument disturbs an earlier one |
| Frames.LayoutAt | lc/src/emit.c:35-46 | a local's offset is its own size plus the sizes of the locals emitted before it |
| Frames.LayoutOrder | lc/src/emit.c:35-46 | of two locals the earlier declared lies wholly below the later one, so their bytes never overlap |
| Frames.FrameTiles | lc/src/emit.c:35-46 | every byte of the frame below bp belongs to exactly one local |
| Types.TypeSize | lc/src/type.c:150-177 | the recursive size of a type: one byte for char, two for int and pointers, count times element for arrays, the sum of the fields for structs |
| Types.StructFindField | lc/src/type.c:203-211 | the type of the first field of that name, or nothing |
| Types.StructFieldOffset | lc/src/type.c:213-226 | the sizes of the fields in front of the named one, summed |
| Types.FieldsApart | lc/src/type.c:213-226 | two different fields of a struct never share a byte |
| Types.PartInside | lc/src/type.c:150-226 | any field, element or nesting of them lies inside its variable |
| Types.ScalarAt | lc/src/type.c:150-226 | every byte of a variable belongs to a scalar some path of fields and indexes names |
| Types.ScalarUnique | lc/src/type.c:150-226 | no byte belongs to two different scalars: fields and elements tile their variable recursively |
| TypedFrames.FrameByteOwner | lc/src/emit.c:35-46 | every byte of a typed frame belongs to one scalar of one local and to no other |
| TypedFrames.StoreRule | lc/src/emit.c:259-321 | a compiled store to a named scalar writes its word, and changes no other byte from sp up if and only if the scalar is 16 bits wide or the stored high byte already stands behind it |
| TypedFrames.OtherScalar | lc/src/emit.c:259-321 | no byte of another scalar lies inside the bytes of the stored one |
| TypedFrames.OthersUntouched | lc/src/emit.c:259-321 | a 16-bit store leaves every byte of every other scalar of the frame, and everything from bp up, as it was |
| TypedFrames.VarPlace | lc/src/emit.c:273-321 | the address code of a plain local reaches that local's own bytes, stored or loaded |
| TypedFrames.FieldPlace | lc/src/comp-assign.c:33-68 | the offset a field access passes on leads store and load to that field's bytes in the frame |
| TypedFrames.ElementPlace | lc/src/emit.c:277-286 | an in-range index leads store and load to that element's bytes, the 16-bit arithmetic included |
| TypedFrames.ElementFieldPlace | lc/src/comp-assign.c:70-105 | a store to a field of an indexed struct reaches the bytes of that field of that element |
| TypedFrames.StoreThenLoad | lc/src/emit.c:196-321 | a scalar just stored is read back by a later load of any form, run-time index, pointer and field included, as long as computing the address does not read the stored word itself |
| TypedFrames.LoadBack | lc/src/emit.c:196-250 | a load, whatever its address computation, yields the word that stands at its address, cut to a byte for byte-sized elements |
| TypedFrames.ScalarsApart | lc/src/type.c:150-226 | two different 16-bit scalars of a frame have no byte in common |
| TypedFrames.ElementReadBack | lc/src/emit.c:196-286 | `a[i] = x` followed by a read of `a[i]`, the index held in any other 16-bit scalar of the frame, reads x back for every element in range |
| TypedFrames.ScalarAllowed | lc/src/emit.c:14-46 | a store to a scalar of the frame misses the saved registers and the return address if and only if the scalar is 16 bits wide or not the topmost byte of the frame: a char there overwrites half of the saved r7 |
| SimCode.CondJump | lc/src/emit.c:357-372 | the code of a conditional jump block goes to its label if and only if the flag says so, for == and for !=, and moves nothing but ip and the flag |
| SimCode.PreambleRuns | lc/src/emit.c:14-23 | the preamble saves bp and r4 to r7 below the return address and keeps every byte from the entry sp up |
| SimCode.EpilogueRuns | lc/src/emit.c:25-33 | the epilogue restores bp, r4 to r7 and sp from what the preamble saved, whatever the body left in them |
| SimBase.StoreBlock | lc/src/emit.c:323-331 | a store block assigns the value to that one variable of the frame; all other variables and everything above stay |
| SimBase.StoreReturnBlock | lc/src/emit.c:390-394 | a return-value block leaves the value in r0 and the frame as it was |
| SimBase.StoreResultBlock | lc/src/emit.c:396-401 | a result block puts the callee's r0 into its temporary and nowhere else |
| SimBase.CmpBlock | lc/src/emit.c:374-388 | a compare block leaves the frame alone and sets the flag to the equality of the two values over it |
| Convention.EntryTakes | lc/src/emit.c:14-46 | preamble and local blocks, for locals of any sizes, take exactly one step an instruction and leave bp ten below the entry sp, sp below all locals, and the saved words in place |
| Convention.ExitTakes | lc/src/emit.c:25-33 | as long as the saved words and the return address stand, epilogue and ret give control and registers back as the convention says |
| Convention.JumpSteady | lc/src/emit.c:357-372 | in any body a jump block lands on the block its label stands before, or on the next one, exactly as the flag says |
| Convention.BlockSteady | lc/src/emit.c:323-401 | any other block but a call ends at the next block with bp and sp as they were and no protected byte changed |
| Convention.PassSteady | lc/src/emit.c:333-345 | a call block of any body enters its callee with the next block's address on the stack, sp one word lower and no protected byte changed |
| Convention.BlockRuns | lc/src/emit.c:323-401 | a block that is allowed never gets stuck: its code runs to its end without a fault or anything wild, jumps included when their labels are placed |
| Convention.CallEnters | lc/src/emit.c:333-345 | an allowed call enters its callee with every argument's value in its register |
| Convention.WalkKeeps | lc/src/emit.c:410-467 | however many blocks of a body are run, forward or back, through whatever calls: at every block boundary ip is at the block, bp is the frame's and sp is bp minus the size of the locals |
| Convention.FrameKeeps | lc/src/emit.c:410-467 | the calling convention for any emitted body, arrays, pointers, globals and chars included, through calls nested to any depth: if no store hits a saved area of an open activation and foreign callees obey the convention, every activation comes back with ip, sp, bp and r4 to r7 as its caller needs them |
| Convention.StaysBelow | lc/src/emit.c:410-467 | if moreover no store goes to or above the entry sp, nothing there has changed when the function is back |
| Convention.CompiledIsCode | lc/src/comp-func.c:88-159 | every compiled function is code of that form: preamble, locals, a body of blocks with the label of every jump in it, epilogue and ret |
| TwoBuilds.EvalAlike | lc/src/emit.c:196-257 | a value that reads only what can be seen, arrays and pointers included, means the same in both builds |
| TwoBuilds.BlockTwice | lc/src/emit.c:323-401 | a block other than a call, run in two builds with the switches set either way from states alike in what can be seen, shows the same value and leaves them alike |
| TwoBuilds.WalksAgree | lc/src/emit.c:410-467 | two builds of any body, block by block: they go through the same blocks, show the same stored, passed, returned and tested values, callees included, and end alike |
| TwoBuilds.FramesAgree | lc/src/emit.c:410-467 | the same for whole activations: preamble, locals nothing was stored to yet, body, epilogue and ret, calls nested to any depth |
| Simulation.IntLayoutAt | lc/src/emit.c:35-46 | in a frame of 16-bit locals the i-th of n lies 2*(n-i) below bp |
| Simulation.ConvRuns | lc/src/comp-convert.c:45-83 | the blocks queued for an expression run its calls, inner ones first and left to right; afterwards its value over the frame is the interpreter's, and only its own fresh temporaries changed |
| Simulation.ArgsConvRuns | lc/src/comp-call.c:106-120 | the same for a whole argument list: every earlier argument's value survives the calls of the later ones |
| Simulation.PassArgs | lc/src/emit.c:333-345 | at the call instruction registers r0 to r(n-1) hold exactly the n argument values |
| Simulation.CallRuns | lc/src/comp-call.c:82-129 | arguments and call together: r0 holds what the callee means to the interpreter, the argument registers held the interpreter's values at the call, and the caller's frame is intact |
| Simulation.EntryRuns | lc/src/comp-func.c:68-86 | after preamble, locals and argument stores the frame encodes exactly the parameters |
| Simulation.AssignRuns | lc/src/comp-assign.c:129-147 | an assignment with any calls in it updates that one variable as the interpreter does |
| Simulation.ReturnRuns | lc/src/compiler.c:164-197 | a return leaves the value in r0 and control at the exit label |
| Simulation.IfRuns | lc/src/compiler.c:199-259 | a compiled if runs its body or skips it exactly as the interpreter, however deeply nested, and falls out behind its label |
| Simulation.LoopRuns | lc/src/comp-loop.c:30-77 | from the top of its body on, a compiled loop goes through the interpreter's iterations until the wrapped index meets the end value |
| Simulation.ForRuns | lc/src/comp-loop.c:79-105 | a whole compiled for statement is the interpreter's |
| Simulation.StmtsRuns | lc/src/compiler.c:261-287 | so is any list of statements, left early by a return or not; on the way the machine shows the interpreter's stores, calls, returns and tests in order |
| Simulation.FuncRuns | lc/src/emit.c:410-467 | a call of any compiled function, recursion included, comes back to the return address with r4 to r7, bp and sp restored, no byte from the entry sp up changed, and r0 holding the interpreter's result; every value stored, passed, returned or jumped on along the way is the interpreter's, in order |
| Emitter.EmitFromLocals | lc/src/emit.c:35-46 | walking the local blocks while counting emit_locals_size gives out exactly the layout of the slots |
| Emitter.FuncEmitted | lc/src/emit.c:410-467 | the single walk that gives out offsets while it prints yields the code defined over the finished layout, and never meets a value it would stop at |
| Emitter.Printer.StoreValueAddr | lc/src/emit.c:162-194 | prints the address code of a local or global and stops for anything else |
| Emitter.Printer.StoreValue | lc/src/emit.c:196-257 | prints the code of a value, or stops exactly where the tree holds something unsupported |
| Emitter.Printer.EmitOp | lc/src/emit.c:105-160 | prints a folded or a stack-based operator |
| Emitter.Printer.EmitIndex | lc/src/emit.c:220-250 | prints the element access |
| Emitter.Printer.StoreIntoArray | lc/src/emit.c:277-286 | prints a store to an array element |
| Emitter.Printer.StoreThroughPointer | lc/src/emit.c:288-304 | prints a store through a pointer |
| Emitter.Printer.StoreRegister | lc/src/emit.c:259-321 | prints any store form |
| Emitter.Printer.EmitCall | lc/src/emit.c:333-345 | prints the arguments in order and the call |
| Emitter.Printer.EmitCompare | lc/src/emit.c:374-388 | prints the comparison in the form the switches ask for |
| Emitter.Printer.EmitLocal | lc/src/emit.c:35-46 | grows the frame by the local and records its offset |
| Emitter.Printer.EmitPreamble | lc/src/emit.c:14-23 | prints the preamble and restarts the frame size |
| Emitter.Printer.EmitEpilogue | lc/src/emit.c:25-33 | prints the epilogue |
| Emitter.Printer.EmitJump | lc/src/emit.c:357-372 | prints the jump of any of the three kinds |
| Emitter.Printer.EmitFunc | lc/src/emit.c:410-467 | the loop over the blocks appends label, code of all blocks and ret, or stops at the first unsupported one |
| Emitter.Printer.EmitCompiled | lc/src/emit.c:410-467 | for a compiled function it never stops and appends exactly the code the correctness theorem is about |
| Nodes.FindFunc | lc/src/compiler.c:72-80 | the first function of that name, or none |
| Compiler.FuncCompiler.FindLocal | lc/src/compiler.c:52-60 | found exactly if some local has the name |
| Compiler.FuncCompiler.ConvertNode | lc/src/comp-convert.c:142-246 | queues the calls of an expression and returns the value over their temporaries, or stops exactly for undeclared names, unknown functions, void calls and wrong arities |
| Compiler.FuncCompiler.ConvertCall | lc/src/comp-convert.c:45-83 | takes a fresh temporary before the arguments are converted, then queues the call and the store of its result |
| Compiler.FuncCompiler.CompileCall | lc/src/comp-call.c:82-129 | converts the arguments in order, stops at a fifth one or a wrong number, and queues the call last |
| Compiler.FuncCompiler.CompileVarDecl | lc/src/compiler.c:82-97 | a new local, or an error for a declared name |
| Compiler.FuncCompiler.CompileAssign | lc/src/comp-assign.c:129-147 | queues the conversion's blocks and then the store |
| Compiler.FuncCompiler.CompileReturn | lc/src/compiler.c:164-197 | queues value and jump to the exit label; stops where value and return type do not match |
| Compiler.FuncCompiler.CompileIf | lc/src/compiler.c:199-259 | queues comparison, two jumps, body and labels with two fresh label numbers |
| Compiler.FuncCompiler.LoopStart | lc/src/comp-loop.c:13-28 | queues the store of the start value before the blocks its conversion needs |
| Compiler.FuncCompiler.LoopEnd | lc/src/comp-loop.c:30-77 | queues increment and comparison before the blocks the end value needs |
| Compiler.FuncCompiler.CompileLoop | lc/src/comp-loop.c:79-105 | head, body and tail with the index as a new local, without asking whether the name is taken |
| Compiler.FuncCompiler.PlaceNode | lc/src/compiler.c:261-287 | one statement of any kind |
| Compiler.FuncCompiler.AddLocalBlocks | lc/src/comp-func.c:49-66 | puts all local blocks behind the preamble, the last local first |
| Compiler.FuncCompiler.StoreArguments | lc/src/comp-func.c:68-86 | a local and a store for every parameter, in order |
| Compiler.FuncCompiler.CompileFunc | lc/src/comp-func.c:88-159 | accepts exactly the functions of the acceptance predicate and builds exactly the blocks and locals the correctness theorem is about |
| Compiler.AcceptedAssignsSs | lc/src/comp-assign.c:6-20 | an accepted statement list assigns only declared names |
| Compiler.AcceptedNamesSs | lc/src/comp-loop.c:87-90 | among accepted programs the locals have distinct names if and only if no loop index repeats a name in scope |
| Compiler.AcceptedIsGood | lc/src/comp-func.c:88-159 | an accepted function meets the conditions of the correctness theorem if and only if its parameters are distinct, its indices fresh, its loop bounds call-free, it has at most four parameters and a proper name |
| Checks.FuncSlotsGood | lc/src/compiler.c:28-38 | the locals of such a function are pairwise distinct and hold every declared name and every temporary |
| LabelNames.LabelsDiffer | lc/src/compiler.c:218-222 | different label numbers print differently, and no numbered label equals the exit label |
| LabelNames.StmtsLabels | lc/src/compiler.c:199-259 | the labels of a statement list are exactly the numbers it was given, each used once |
| LabelNames.StmtsJumps | lc/src/compiler.c:199-287 | every jump of a statement list, nested to any depth, goes to the exit label or to a label placed in the same list |
| LabelNames.JumpsPlaced | lc/src/comp-func.c:88-159 | in the body of a compiled function the label of every jump is placed |
| LabelNames.FuncLabels | lc/src/comp-func.c:135-137 | every label of a function, the exit label included, is placed exactly once, and every jump goes to one of them |
| Loops.KeepsSs | lc/src/compiler.c:261-287 | running a statement list changes no variable it does not assign |
| Loops.Trips | lc/src/comp-loop.c:30-77 | the least positive number of increments that takes the index to the end value, between 1 and 65536 |
| Loops.LoopTrips | lc/src/comp-loop.c:13-105 | a loop whose body assigns neither index nor end value runs its body exactly ((end - start - 1) mod 65536) + 1 times, so it always ends |
| Loops.RoundsIndex | lc/src/comp-loop.c:30-77 | after n trips the index has gone up by n modulo 65536 |
| Loops.LoopEnds | lc/src/comp-loop.c:30-77 | such a loop leaves its index on the end value |
| Loops.MoreF | lc/src/emit.c:410-467 | a call answered within some stack and fuel has the same answer and the same history of stores, calls, returns and tests with more of either |
| Loops.AnswerUnique | lc/src/emit.c:410-467 | two answered runs of a call agree in answer and history, whatever stack and fuel they had |
| CpuCore.Core.constructor | emul/src/cpu.cc:387-390 | all registers start at zero and interrupts off |
| CpuCore.Core.Load | emul/src/cpu.cc:366-372 | reads a whole register, or one byte of r0 to r3 zero-extended |
| CpuCore.Core.Put | emul/src/cpu.cc:374-380 | writes a whole register, or one byte of r0 to r3 and keeps the other byte |
| CpuCore.Core.Write16At | emul/src/memory.cc:43-48 | writes low byte first |
| CpuCore.Core.Write8At | emul/src/memory.cc:31-35 | writes one byte |
| CpuCore.Core.PushWord | emul/src/cpu.cc:536-543 | faults on sp = 0, else lowers sp by two and writes the word there |
| CpuCore.Core.PushByte | emul/src/cpu.cc:527-534 | faults on sp = 0, else lowers sp by one and writes the byte there |
| CpuCore.Core.PopInto | emul/src/cpu.cc:545-556 | pops a byte into a half register, a word into any other |
| CpuCore.Core.LoadAt | emul/src/cpu.cc:573-601 | loads a byte into a half register and a word into any other; a word at 0xffff has no meaning |
| CpuCore.Core.StoreAt | emul/src/cpu.cc:584-609 | stores a half register as one byte and any other as a word |
| CpuCore.Core.Operate | emul/src/cpu.cc:705-763 | the two-operand instruction with its wrap-around result or compare flag |
| CpuCore.Core.ExecuteStack | emul/src/cpu.cc:511-556 | push, pop and ret in all widths |
| CpuCore.Core.ExecuteMemory | emul/src/cpu.cc:573-609 | load and store through a register or an immediate; a half register as pointer faults |
| CpuCore.Core.ExecuteTwo | emul/src/cpu.cc:558-664 | moves, comparisons and arithmetic from a register or an immediate |
| CpuCore.Core.ExecuteShift | emul/src/cpu.cc:770-800 | shifts by the low byte of a register or an immediate below sixteen |
| CpuCore.Core.ExecuteFlag | emul/src/cpu.cc:636-664 | the byte comparisons and the flag flip |
| CpuCore.Core.ExecuteJump | emul/src/cpu.cc:666-685 | jumps set ip so that the step of four behind them lands on the target |
| CpuCore.Core.ExecuteCall | emul/src/cpu.cc:687-697 | calls push the address of the next instruction |
| CpuCore.Core.Execute | emul/src/cpu.cc:142-308 | every decoded instruction takes the machine where the instruction semantics says, faults included |
| CpuCore.Core.IssueInterrupt | emul/src/cpu.cc:343-351 | saves all registers, marks the interrupt and enters the handler |
| CpuCore.Core.PollDevices | emul/src/cpu.cc:332-341 | the loop issues an interrupt for every ready device that has a handler, one over the other |
| CpuCore.Core.ReturnFromInterrupt | emul/src/cpu.cc:424-428 | puts every cached register back, ip and flags included |
| CpuCore.Core.Dispatch | emul/src/cpu.cc:145-308 | runs the fetched instruction; rti does not step ip |
| CpuCore.Core.Turn | emul/src/cpu.cc:131-310 | one turn: poll only outside handlers and with interrupts on, then fetch, decode and execute |
| CpuCore.Core.Mainloop | emul/src/cpu.cc:122-330 | any number of turns equals the run the interrupt theorems are about |
| Interrupts.PollAllIs | emul/src/cpu.cc:332-341 | the polling loop has the effect of entering only the last ready handler, with a cache that points into the one before |
| Interrupts.CacheRightIff | emul/src/cpu.cc:332-351 | the cache holds the interrupted registers if and only if at most one device with a handler was ready, or the last-but-one handler starts where the program stood |
| Interrupts.CacheHeld | emul/src/cpu.cc:343-351 | inside a handler every step keeps the cache, and rti, which alone ends it, puts exactly the cache back |
| Interrupts.CacheHeldOverRun | emul/src/cpu.cc:139-142 | over a whole run from issue_interrupt to rti the cache is constant, and afterwards the register file is the cached one |
| Interrupts.PollKeepsMain | emul/src/cpu.cc:332-351 | a poll does not move the interrupted program, whether it interrupts or not |
| Interrupts.ExecAlike | emul/src/cpu.cc:142-308 | an instruction that reads no byte in which two memories differ does the same on both, and the bytes it writes agree afterwards |
| Interrupts.HandlerKeepsMain | emul/src/cpu.cc:424-428 | no turn inside a handler moves the interrupted program; after rti the memory differs from what it would be only in bytes the handler changed |
| Interrupts.MainSteps | emul/src/cpu.cc:139-142 | a turn outside a handler is one plain step of the program, also over a memory that differs in bytes the step neither fetches nor reads |
| Interrupts.HandlersInvisible | emul/src/cpu.cc:122-351 | taking the handler turns out of a run leaves, state by state, the run of the program alone: the same registers, and the same bytes but for those a handler changed and the program has not written since; handlers may push, call and keep memory of their own |
| Encoding.RegRoundTrip | as/src/assembler.cc:1019-1046 | every register's number is read back as that register |
| Encoding.TwoRoundTrip | as/src/assembler.cc:612-691 | register, 8-bit and 16-bit forms are all read back as the same instruction |
| Encoding.PtrRoundTrip | as/src/assembler.cc:817-850 | loads and stores through registers, addresses and symbols are read back |
| Encoding.ShiftRoundTrip | as/src/assembler.cc:693-729 | so are shifts |
| Encoding.JumpRoundTrip | as/src/assembler.cc:731-789 | so are jumps and calls, conditional ones included |
| Encoding.PlainRoundTrip | as/src/assembler.cc:602-610 | so are instructions with one register, a fixed immediate or no operand |
| Encoding.EncodeDecode | as/src/assembler.cc:612-850 | whatever form the assembler picks, the four bytes with the symbol's address patched in decode to the instruction with that address |
| Encoding.ImmediateExact | as/src/assembler.cc:672-691 | an immediate survives the choice of form if and only if it is not negative, or its 16-bit value happens to fit the zero-extended byte |
| ByteSim.ExecSpares | emul/src/cpu.cc:142-308 | an instruction that stays off a protected range does what it does without protection and keeps those bytes |
| ByteSim.StepAgrees | emul/src/cpu.cc:142-310 | one fetch, decode and execute over the bytes is one step over the instruction list |
| ByteSim.RunAgrees | emul/src/cpu.cc:122-330 | any number of steps over the bytes passes through the states of the list, as long as no store hits the code |
| ByteSim.TraceAgrees | emul/src/cpu.cc:122-330 | the registers and flags looked at along the way are the same in both |
| Assembly.LabelsAgree | as/src/assembler.cc:210-247 | the one pass ends with the label table a first pass alone would compute, and fails on the same programs |
| Assembly.PatchAppend | as/src/assembler.cc:275-287 | code placed later does not disturb the patch of an earlier link point |
| Assembly.PatchPlaced | as/src/assembler.cc:275-287 | patching an instruction's bytes in the code equals placing the bytes with the address already in them |
| Assembly.CodeAgrees | as/src/assembler.cc:210-287 | code and link points of one pass, patched with the final table, are the code of a second pass |
| Assembly.OnePassIsTwoPass | as/src/assembler.cc:28-54 | for tame programs one-pass assembly with back-patching gives the image of a two-pass assembler, and fails if and only if that fails |
| Assembly.LinkHitsField | as/src/assembler.cc:663-666 | a recorded link point is the instruction's own address field if and only if the instruction needed no alignment |
| Assembly.LaterLabelStays | as/src/assembler.cc:233-238 | of several labels at one misaligned position every later one keeps an address in the padding before the instruction |
| Assembler.AsmState.constructor | as/src/assembler.cc:132-143 | a fresh assembler: no code, position zero, no label, no origin |
| Assembler.AsmState.AlignLabel | as/src/assembler.cc:233-238 | the loop moves the first label at the position and stops |
| Assembler.AsmState.InsertInstruction | as/src/assembler.cc:210-243 | aligns to four bytes, moves the pending label along, and writes four bytes |
| Assembler.AsmState.AddLinkPoint | as/src/assembler.cc:245-259 | records the qualified name, or an error for a local label without a regular one |
| Assembler.AsmState.ParseInstruction | as/src/assembler.cc:365-378 | encodes, records a link point for an unresolved symbol, and places the instruction |
| Assembler.AsmState.ParseLabel | as/src/assembler.cc:315-363 | refuses a repeated name as written, then records label and scope |
| Assembler.AsmState.DirectiveOrg | as/src/assembler.cc:395-414 | moves the position and keeps the lowest origin |
| Assembler.AsmState.DirectiveString | as/src/assembler.cc:416-431 | writes the bytes and a zero |
| Assembler.AsmState.DirectiveByte | as/src/assembler.cc:433-449 | writes one byte |
| Assembler.AsmState.DirectiveResv | as/src/assembler.cc:451-466 | reserves zeroed bytes |
| Assembler.AsmState.DirectiveValue | as/src/assembler.cc:468-484 | defines a named value; the first definition counts |
| Assembler.AsmState.DirectiveExport | as/src/assembler.cc:503-516 | records an exported name |
| Assembler.AsmState.ParseLines | as/src/assembler.cc:28-54 | the whole loop over the lines gives the state of the one-pass functions, or stops where they do |
| Assembler.AsmState.Link | as/src/assembler.cc:275-287 | writes the address of the first label of that name, low byte first, or fails |
| Assembler.AsmState.AsRawBinary | as/src/assembler.cc:117-123 | all link points patched in order |
| Assembler.AssembleBinary | as/src/assembler.cc:28-123 | assembling and writing the raw binary is one-pass assembly with back-patching |
| Literals.ProgramExact | lc/src/emit.c:198-201 | source literals that fit 16 bits, and foldings that stay in range, make code the bytes hold exactly |
| Literals.CodeTame | as/src/assembler.cc:210-243 | pure code always stands aligned, so the conditions of one-pass assembly hold |
| Literals.CompilableIsEncodable | lc/src/emit.c:410-467 | conditions on the source program alone give every condition the assembled program needs |
| Acceptance.TableAccepts | as/src/assembler.cc:315-363 | lines whose labels all differ once qualified are accepted by the duplicate check, which compares them as written |
| Acceptance.EmitsIff | as/src/assembler.cc:275-287 | after the first pass the second one succeeds if and only if every symbol, qualified where it stands, has a label |
| Acceptance.StmtsCalls | lc/src/comp-call.c:82-129 | the code of a statement list names exactly the functions its calls name, and no other symbol but its labels |
| Acceptance.CompiledAssembles | as/src/assembler.cc:28-123 | a compiled program assembles to a raw binary if and only if every function it calls is one of its own: none of its literals, labels or jumps is ever refused |
| Toolchain.CodeDecodes | as/src/assembler.cc:28-123 | the assembled bytes of any code, data behind it or not, decode to exactly its instructions, each symbol replaced by its label's address |
| Listings.ListingsExact | lc/src/emit.c:410-467 | emitted code of any blocks, indexes, pointers, strings and globals included, is code the bytes hold exactly as soon as its immediates fit |
| Listings.AssembledDecodes | as/src/assembler.cc:28-123 | what one-pass assembly with back-patching makes of any code and data starts with bytes that decode to the resolved instructions |
| Listings.AssembledRuns | emul/src/cpu.cc:122-330 | for any code the assembler accepts, the fetch/decode loop over its bytes passes through the states of the resolved instruction list, step for step |
| Listings.EmittedRuns | emul/src/cpu.cc:122-330 | the same for any emitted functions with strings and globals behind them |
| Listings.MixedPlaced | as/src/assembler.cc:210-247 | in lists that mix data and code the final image holds an instruction behind a label 4-aligned at the address the label has, decoding to itself with its symbol resolved |
| Toolchain.ProgramNames | as/src/assembler.cc:245-259 | under the assembler's scoping rule all labels of all functions get different full names |
| Toolchain.AssembledWorld | as/src/assembler.cc:28-123 | in the assembled bytes every function stands decoded at its label's address, every jump and call resolved |
| Toolchain.CompiledProgramRuns | lc/src/emit.c:410-467 | compiler, assembler and CPU: the fetch/decode loop over the assembled bytes returns what the interpreter returns, with the calling convention kept and with the interpreter's values in the registers at every store, call, return and conditional jump |
| EndToEnd.ProgramRuns | lc/src/compiler.c:354-403 | the same result and the same history, from conditions on the source program alone: literals that fit, distinct names, a function for every call; that it assembles is proved |
| EndToEnd.BinaryIs | as/src/assembler.cc:28-123 | a program that passes these checks has a raw binary, and every function of it an address |
| EndToEnd.SwitchesAgree | lc/src/emit.c:374-388 | two builds of a program with the optimisation switches set differently, each with its own code, addresses and stack, hold the same values in the stored register at every store, in the argument registers at every call, in r0 at every return and in the flag at every conditional jump, in the same order, and return the same value |
| ByteBuffers.InsertAt | libiridtools/src/bytebuffer.cc:95-101 | bytes laid over a sequence at an index: the range holds them, a gap in front reads zero, all else stays |
| ByteBuffers.InsertPastEnd | libiridtools/src/bytebuffer.cc:95-101 | inserting past the end appends behind zeros |
| ByteBuffers.InsertsCommute | libiridtools/src/bytebuffer.cc:95-101 | two inserts at disjoint places commute |
| ByteBuffers.AllocationSize | libiridtools/src/bytebuffer.cc:176-207 | the allocation always exceeds the request |
| ByteBuffers.ByteBuffer.constructor | libiridtools/src/bytebuffer.cc:8-13 | a fresh buffer is empty and not frozen |
| ByteBuffers.ByteBuffer.EnsureSize | libiridtools/src/bytebuffer.cc:176-207 | the space covers the request, contents stay, and the bytes behind them are zero across a reallocation |
| ByteBuffers.ByteBuffer.InsertRange | libiridtools/src/bytebuffer.cc:95-101 | the byte-by-byte copy and the size update equal the insertion on sequences; a frozen buffer refuses |
| ByteBuffers.ByteBuffer.InsertByte | libiridtools/src/bytebuffer.cc:87-93 | the same for one byte |
| ByteBuffers.ByteBuffer.InsertFill | libiridtools/src/bytebuffer.cc:103-109 | the same for a fill |
| ByteBuffers.ByteBuffer.AppendRange | libiridtools/src/bytebuffer.cc:73-79 | appends at the end |
| ByteBuffers.ByteBuffer.Clear | libiridtools/src/bytebuffer.cc:57-64 | empties the buffer |
| ByteBuffers.ByteBuffer.At | libiridtools/src/bytebuffer.cc:111-116 | one byte, or an error from the end on |
| ByteBuffers.ByteBuffer.GetRange | libiridtools/src/bytebuffer.cc:118-133 | a read cut off at the end, an error from the end on, and empty on an empty buffer |
| ByteBuffers.RunOps | libiridtools/src/bytebuffer.cc:57-207 | any run of operations on a fresh buffer leaves exactly what the run leaves of the empty sequence, across all reallocations |
| Iof.IndexOf | libiridtools/src/iof_section_builder.cc:122-134 | the first equal string, or the number of strings when there is none |
| Iof.StringRead | ld/src/section.c:41-64 | the string of an id, found through the table's records, is the string that was given that id |
| Iof.TableRead | ld/src/link.c:206-223 | a table read entry by entry gives back every name and address in order |
| Iof.NameRead | ld/src/section.c:36-39 | the section's name reads back up to its terminator |
| Iof.CodeRead | libiridtools/src/iof_section_builder.cc:22-34 | the code reads back if and only if the section is not an empty one with a non-zero origin, whose size field wraps around |
| Iof.RunKeeps | libiridtools/src/iof_section_builder.cc:107-134 | over any run of additions every entry keeps its name and address, although equal names share one string |
| Iof.SectionRoundTrip | libiridtools/src/iof_section_builder.cc:11-82 | a built section below 64 KiB reads back as its code, name and the symbols, links and exports it was given, each in order |
| IofBuilders.SectionBuilder.SetOrigin | libiridtools/src/iof_section_builder.cc:90-95 | sets the origin and the static-origin bit of the flags and no other bit |
| IofBuilders.SectionBuilder.AddString | libiridtools/src/iof_section_builder.cc:122-134 | the loop returns the id of an equal string, or appends it |
| IofBuilders.SectionBuilder.AddSymbol | libiridtools/src/iof_section_builder.cc:107-110 | records the symbol under its string's id |
| IofBuilders.SectionBuilder.AddLink | libiridtools/src/iof_section_builder.cc:112-115 | records the link point |
| IofBuilders.SectionBuilder.AddExport | libiridtools/src/iof_section_builder.cc:117-120 | records the export |
| IofBuilders.SectionBuilder.BuildFront | libiridtools/src/iof_section_builder.cc:11-59 | header place, code after the origin, tables and name, or an error where the origin is out of the code's range |
| IofBuilders.SectionBuilder.BuildStrings | libiridtools/src/iof_section_builder.cc:61-77 | the loop fills in each record over its zeros while the string goes to the end |
| IofBuilders.SectionBuilder.BuildImage | libiridtools/src/iof_section_builder.cc:11-82 | the imperative build produces exactly the image the round trip is about |
| IofFile.HeaderRead | ld/src/object.c:27-39 | the written file header passes the linker's validation |
| IofFile.FileRoundTrip | libiridtools/src/iof_builder.cc:9-56 | every section of a file below 64 KiB is found at its pointer, in order |
| IofFile.ObjectRoundTrip | ld/src/object.c:51-65 | every section of a built object file reads back as the entries its builder was given |
| IofFiles.FileBuilder.AddSection | libiridtools/src/iof_builder.cc:58-66 | builds the section at once, or passes the error on |
| IofFiles.FileBuilder.WriteSection | libiridtools/src/iof_builder.cc:29-53 | one turn of the loop: the pointer over its zeros, the section at the end |
| IofFiles.FileBuilder.BuildFile | libiridtools/src/iof_builder.cc:9-56 | the imperative build produces exactly the file the round trip is about |
| IofFiles.StringRecordById | ld/src/section.c:51-64 | the linear search finds the first record of that id |
| IofFiles.ReadEntries | ld/src/link.c:206-223 | the loop over a table's entries reads the table |
| Regions.InsertTiles | ld/src/region.c:50-103 | after an insertion the forward chain tiles the address range up to the point where it loses its tail; the whole range stays tiled if and only if the insertion is at the front with a rest, or nothing lies behind |
| Regions.InsertSettled | ld/src/region.c:50-103 | free regions stay non-empty and no two of them become neighbours |
| Regions.InsertKeeps | ld/src/region.c:50-103 | an insertion that loses nothing keeps every allocated region with bytes as it was |
| Regions.InsertOnly | ld/src/region.c:50-103 | whatever is in the chain afterwards was there before, is the inserted region, or is a free rest of the split one |
| RegionChain.Node.constructor | ld/src/region.c:8-16 | a fresh free region linked to nothing |
| RegionChain.RegionContains | ld/src/region.c:18-30 | the three tests decide exactly whether the one region, as an interval, lies in the other |
| RegionChain.InsertBefore | ld/src/region.c:32-39 | links in front, leaving the new node's own predecessor unset |
| RegionChain.InsertAfter | ld/src/region.c:41-48 | links behind, leaving the new node's own successor unset |
| RegionChain.InsertMiddle | ld/src/region.c:64-75 | splits a free node in three in the heap; the walk ends at the new free rest |
| RegionChain.InsertBack | ld/src/region.c:77-81 | takes the end of a free node; the walk ends at the new node |
| RegionChain.InsertFront | ld/src/region.c:83-88 | takes the front of a free node; the walk goes on behind it |
| RegionChain.Replace | ld/src/region.c:90-100 | takes the place of a free node; what was behind is no longer reached |
| RegionChain.RegionInsert | ld/src/region.c:50-103 | the rewiring in the heap makes the walk along next see exactly the functional insertion, keeps free nodes' prev links right, and fails without a change where that fails |
| Placement.FindAddr | ld/src/link.c:77-89 | the first region that contains the address |
| Placement.FirstFit | ld/src/link.c:172-180 | the first free region that is large enough |
| Placement.Largest | ld/src/link.c:145-162 | the first of the largest sections without a region, never an empty one |
| Placement.UnplacedDrops | ld/src/link.c:164-198 | every placed section lowers the number of waiting ones by one, so the loop ends |
| Placement.StaticsPlaced | ld/src/link.c:103-143 | statics in ascending order either die or all stand at their origins, with the chain still a tiling |
| Placement.MovablesPlaced | ld/src/link.c:164-198 | the loop either dies or ends with every section that has code in a region of its own size, earlier ones unmoved |
| Placement.PlacementSound | ld/src/link.c:103-198 | placement either stops with an error or tiles the address space with one region per non-empty section |
| Placement.PlacedApart | ld/src/link.c:103-198 | no two sections with code share an address |
| Placement.OrderDescends | ld/src/link.c:145-162 | movable sections are placed in non-increasing order of size |
| Linker.Placer.constructor | ld/src/link.c:63-68 | one free region over the whole address space |
| Linker.Placer.GetFirst | ld/src/link.c:70-75 | walking prev from the remembered node reaches the first region of the chain |
| Linker.Placer.FindRegionWithAddr | ld/src/link.c:77-89 | the walk finds the first region that contains the address |
| Linker.Placer.FindFit | ld/src/link.c:172-180 | the walk finds the first free region that is large enough |
| Linker.Placer.PutNode | ld/src/link.c:133-141 | gives a section its region; reports when the remembered node would be left freed |
| Linker.Placer.PutStaticNode | ld/src/link.c:118-141 | places one static section or dies on a missing or taken region |
| Linker.Placer.PlaceStaticRegions | ld/src/link.c:103-143 | the loop over the heap chain gives the functional placement of all statics |
| Linker.Placer.LargestNonplaced | ld/src/link.c:145-162 | the scan finds the first of the largest waiting sections |
| Linker.Placer.PlaceMovableRegions | ld/src/link.c:164-198 | the loop terminates and gives the functional placement |
| Linking.BaseByte | ld/src/link.c:323-359 | before patching, every byte below the end of the image is written: the section's own code byte in its region, zero in a gap |
| Linking.LinkPointHolds | ld/src/link.c:268-303 | in the finished image a link point holds the little-endian address of the section's own symbol of that name, else of the first export of that name |
| Linking.ImageByte | ld/src/link.c:305-359 | every byte of the image is determined: zero in a gap, the section's code byte, or part of a link point of that very section |
| LinkOutput.CreateOutputBuffer | ld/src/link.c:305-321 | the buffer ends with the last allocated region and is unwritten |
| LinkOutput.CopyCodeSections | ld/src/link.c:323-341 | the walk copies every allocated region's code to its place |
| LinkOutput.ZeroFreeSections | ld/src/link.c:343-359 | the walk zeroes every free region but the last of the chain |
| LinkOutput.ResolveLocalSymbol | ld/src/link.c:244-266 | the first symbol of that name in the section |
| LinkOutput.ResolveGlobalSymbol | ld/src/link.c:233-242 | the first export of that name over all sections |
| LinkOutput.CollectSymbols | ld/src/link.c:207-223 | all exports with their real addresses, in section order |
| LinkOutput.LinkPoint | ld/src/link.c:281-301 | patches one link point, or dies on an unknown symbol |
| LinkOutput.LinkOneSection | ld/src/link.c:268-303 | the loop over a section's link points |
| LinkOutput.WriteImage | ld/src/link.c:371-383 | buffer, code, zeros and links in this order |
| LinkOutput.Link | ld/src/link.c:361-386 | the whole imperative run gives the functional link result |
| LinkOutput.LinkedImage | ld/src/link.c:361-386 | conditions on the sections alone carry over to the image, where they make every byte of it known |
| Objects.ObjectLoads | as/src/assembler.cc:77-115 | the section the linker loads from an assembled object has the assembled code, every label, link point and export, in order, names and addresses included |
| LinkAlone.PatchBytes | as/src/assembler.cc:117-123 | back-patching leaves the label's address at every link point and every other byte alone |
| LinkAlone.LookupsAgree | ld/src/link.c:244-266 | the linker's symbol search and the assembler's label search find the same address |
| LinkAlone.LinkedAloneIsRaw | ld/src/link.c:361-386 | linking one relocatable object alone yields, byte for byte, the assembler's raw binary of the same source |
| Pipeline.LinkedProgramRuns | ld/src/link.c:361-386 | compiler, assembler, object format, linker and CPU: the linked image of a compiled program computes what the program means, step by step storing, passing, returning and testing the same values |
| Pipeline.StatePlain | as/src/assembler.cc:77-115 | a program that passes the source checks, with names the object format can store, has an object: none of its exports is refused |
| Pipeline.ObjectLinks | ld/src/link.c:361-386 | that object, written, read back and linked alone, is the raw binary byte for byte |
| Parser.OperandBack | lc/src/parser.c:306-400 | a printed operand, parenthesised if it is not a leaf, parses back from its first token to its last |
| Parser.ArgsBack | lc/src/parser.c:246-270 | a printed argument list parses back argument by argument, with the cursor on its closing parenthesis |
| Parser.ParseBack | lc/src/parser.c:272-567 | a printed tree, whatever stands around it, parses back, nested casts of one node collapsed into the outer one, with the cursor on its last token |
| Parser.NormIsSame | lc/src/parser.c:375-402 | collapsing changes nothing if and only if no node is cast twice |
| Parser.RoundTrip | lc/src/parser.c:272-567 | printing and parsing, followed by any terminator, gives the same tree if and only if no node is cast twice |
| ParserCursor.Cursor.TokNext | lc/src/parser.c:21-26 | moves on, but stays on the last token |
| ParserCursor.Cursor.TokPeek | lc/src/parser.c:28-33 | the next token; at the last one the cursor steps back by one and that last token is seen again |
| ParserCursor.Cursor.ParseExprInside | lc/src/parser.c:272-567 | the recursive descent over the moving cursor gives the parse functions' tree and cursor, or the error exit where they stop |
| ParserCursor.Cursor.ParsePrimary | lc/src/parser.c:306-402 | parentheses, symbols, literals, addresses and casts |
| ParserCursor.Cursor.ParseField | lc/src/parser.c:407-436 | one field suffix |
| ParserCursor.Cursor.ParseCall | lc/src/parser.c:440-467 | one call suffix |
| ParserCursor.Cursor.ParseCallArgs | lc/src/parser.c:246-270 | the loop over the arguments |
| ParserCursor.Cursor.ParseIndex | lc/src/parser.c:471-492 | one index suffix |
| ParserCursor.Cursor.ParseMath | lc/src/parser.c:496-536 | one operator and everything to its right |
| ParserCursor.Cursor.ParseAssign | lc/src/parser.c:538-566 | one assignment and everything to its right |
| Pitfalls.IndexPlusOne | lc/src/emit.c:131-139 | the index of `a[i + 1] = x` with i == 2 comes out as 2 instead of 3 |
| Pitfalls.CharSpills | lc/src/emit.c:259-321 | storing 0x0141 to a char whose neighbour is 7 makes the neighbour 1 |
| Pitfalls.LoneChar | lc/src/emit.c:14-46 | with a char as the only local its store reaches into the saved r7 |
| Pitfalls.MinusOne | as/src/assembler.cc:672-691 | `mov r0, -1` is read back as `mov r0, 255` |
| Pitfalls.LinkBeforeField | as/src/assembler.cc:663-666 | the link point of a jump behind one byte is 2, its address field is at 5 |
| Pitfalls.SecondLabelStays | as/src/assembler.cc:233-238 | of two labels between one byte and an instruction the second keeps address 1 |
| Pitfalls.TwoDevices | emul/src/cpu.cc:332-351 | with two ready devices rti returns to the first handler instead of the program |
| Pitfalls.LostTail | ld/src/region.c:50-103 | a section that fills a free region exactly drops the allocated region behind it from the chain |
| Pitfalls.OriginOnly | libiridtools/src/iof_section_builder.cc:22-34 | a section with origin 8 and no code does not read its empty code back |
| Pitfalls.CastTwice | lc/src/parser.c:272-567 | a second cast replaces the first |
| Pitfalls.IndexTwice | lc/src/comp-loop.c:87-90 | a loop over a parameter's name is accepted and the function has two locals of it |
| Pitfalls.BoundTooLate | lc/src/comp-loop.c:30-77 | with a call in the end value the comparison stands before the call |

## Left out

- Simulation.FuncRuns: the whole-program theorems that speak of an interpreter cover functions of 16-bit int locals with assignment, if, for, calls and return; fields, indexes, addresses, strings, globals and chars are proved for values, stores, the calling convention and assembled code (`ExprProof`, `StoreProof`, `TypedFrames`, `Convention`, `Listings`) but have no node form in the interpreter.
- ExprProof.ExprCorrect: casts, DIV, MOD and comparisons as run-time values are not modelled, because the emitter stops at them; an index whose base is itself an index is excluded, because both use r6.
- Convention.FrameKeeps: blocks are run from states in which their values can be evaluated and their stores have a place (`CanEval`, `CanStore`, `CanCmp`, `CanPass`); a value the register use of the emitter does not support is outside.
- Acceptance.CompiledAssembles: names are taken to be symbols of the assembler's text syntax; its checks of single characters are left out.
- TwoBuilds.FramesAgree: globals and strings, whose addresses two builds do not share, are outside, as is an entry with sp at 0xfffe, from where the return wraps sp around to 0.
- EndToEnd.SwitchesAgree: what a call with its history means is compared where both builds have the stack for it; an unconditional jump reads no flag and shows none.
- Emitter.Printer.StoreValue: a constant fold of DIV or of a comparison, which the emitter does accept between literals, is not among the operators.
- Compiler.AcceptedIsGood: a call in a loop bound and a repeated loop index are accepted by the compiler and compiled here as it compiles them, but are outside the correctness theorem: the bound's calls run after its store, and a name lookup finds the first local.
- Simulation.IfRuns: label texts are not cut to the seven characters of the source's buffers, so a function with a million labels or more is not described.
- Compiler.FuncCompiler.CompileCall: variadic functions, the inline assembly call, type checks of arguments and the decay of array arguments are not part of the compiler class; a decayed array argument is a value form of `ExprProof.VarCorrect`.
- Compiler.FuncCompiler.CompileFunc: naked and local functions, warnings, and the table of signatures being built are not modelled; signatures are a parameter.
- TypedFrames.StoreRule: places are given as values (local, offset, index); the conversion of a field or index node into a place is modelled only by the offset it computes.
- Types.TypeSize: types are trees; a pointer keeps only the size of what it points to, so the type register's sharing and self-referential structs are not modelled.
- CpuCore.Core.Execute: zf, of and sf are not fields of the model, because nothing ever writes them after the start; device calls into the host are `Wild`, including the one that changes the handler table, which is fixed during a run here.
- CpuCore.Core.Turn: an instruction that straddles the top of memory and register numbers no assembler name stands for are `Wild`; clock and sleep are left out, and each poll's answer is an input.
- Assembler.AsmState.ParseInstruction: starts from a split line; text syntax, comments, number and string parsing, warnings, declarations and value files are left out, and source lines kept only for error messages are dropped.
- Assembler.AsmState.DirectiveResv: a negative amount, which the source turns into a huge one, is excluded.
- Assembly.OnePassIsTwoPass: holds for programs whose symbolic instructions start aligned, whose origins do not go back, and with at most one label at a misaligned position before an instruction; the lemmas beside it say what happens to a link point or label otherwise.
- Iof.SectionRoundTrip: images of 64 KiB and more, whose table addresses wrap around, and names with a zero byte are excluded; symbols, links and exports of an origin-only section read back but its code does not.
- IofFile.FileRoundTrip: the object and section structs of the linker are values; lists of objects, memory mapping and dump functions are left out. The section header in the file builder is read back and written unchanged, with both sizes fixed at the 28 bytes of the section header and 16 bytes of the file header.
- IofBuilders.SectionBuilder.constructor: flag and origin fields that the source leaves uninitialised are parameters.
- Objects.ObjectLoads: needs every label and symbol name to be free of zero characters and above-byte characters; the value the uninitialised origin field holds is a parameter.
- LinkAlone.LinkedAloneIsRaw: for sections without a fixed origin; with one, label offsets keep the origin and the linker adds it again.
- Pipeline.LinkedProgramRuns: one object of one compiled program; programs spread over several objects are covered stage by stage (`Linking.LinkPointHolds`, `Linking.ImageByte`) but not in the statement across all stages.
- Placement.PlacementSound: asks that statics come in ascending order and that no free region but the last is filled exactly; otherwise the chain loses its tail as `Regions.InsertTiles` says.
- Linker.Placer.PutNode: when the first region is filled exactly the linker goes on with a freed node; the model stops there.
- ParserCursor.Cursor.ParseExprInside: nodes are values, without parent links and source places; recursion depth is a parameter and running out of it stands for stack overflow. Token kinds that no expression uses are one kind.
- Parser.RoundTrip: the printer puts parentheses around every operand that is not a leaf; which other token lists parse to the same tree is not characterised.
- ByteBuffers.ByteBuffer.AppendRange: appending a buffer to itself, copying out and assigning onto a longer buffer are left out.
- The tokenizer, the preprocessor, statements and declarations of the parser, the arena allocator, option parsing, error reports, console and serial devices are not modelled.
