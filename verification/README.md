# A verified model of the Xan compiler and virtual machine

Xan compiles a small scripting language in one pass to register bytecode, in the style of LuaJIT, and runs it.
This project models its five cores and proves that they do what they are for.

- **Code generation** (`src/parse.c`, with the instructions of `src/vm.c` and the words of `src/chunk.h`).
  `Source` has the syntax trees of the modelled language and their meaning, by evaluators with fuel. `Machine` has
  the instructions. `CodeGen` is the code generator as functions, where the jump lists are sequences.
  `Compiler` is the code generator as the source has it: a class whose methods update `nextReg`, `actVar`,
  `maxReg`, the code array and the heads of jump lists that are threaded through the displacements of the jumps; every
  method is proved equal to its function. `Shape`, `ExprShape` and `StmtShape` have what every step keeps,
  `ExprRuns`, `StmtRuns` and `Correct` what the code does when it runs. `Operators` says what evaluators and instructions
  compute, of operands and results alone; `Errors` says when a function compiles, and what its errors mean. `Overwrite`, `FarNot`, `Overflow` and
  `Exits` have programs that are compiled wrong, and say when.
- **The collector** (`src/memory.c`): `Heap`, `Collector`, and in `Sites` the places that allocate, with their sizes.
  `WeakStrings` runs the heap and the table of strings together.
- **Closures and the stack** (`src/parse.c`, `src/vm.c`, `src/vm.h`): `Scopes` resolves names to locals and upvalues,
  `Stack` has open upvalues, closures, frames that describe themselves, and the stack that moves.
- **The hash table and interning** (`src/table.c`, `src/xanString.c`): `Probing`, `Table`, `Interning`.
- **Arrays and the constant pool** (`src/object.c`, `src/array.c`, `src/memory.h`, `src/chunk.c`): `Bits`, `Arrays`, `Chunks`.

A statement about compiled code says "the code" for what the functions of `CodeGen` give, and the class `Compiler`
has the same code by `Compiler.Compiler.FunctionBody`. Numbers are an abstract type with abstract arithmetic and a hash
that respects equality.

The premises of the theorems about whole bodies are collected in `StmtShape.BodyOk`:

- There are at most 253 parameters, which is the bound of `Fits` for the registers that hold them.
- `WfStmt`: variables are those that name resolution gives, `break` and `continue` are inside loops, and the right side
  of an assignment to a local is `Safe` for it (see `Overwrite.AssignmentRuns` for what happens when it is not).
- `Fits`: no expression needs a register above 253, counted without looking at which operands are locals or constants.
  The compiler never checks this; `Overflow.FunctionRuns` shows how far the limit can be passed before the code is wrong.
- `ShortStmt`: the position of a unary operator is kept in 16 bits, so that a `-` or `!` must stand before position
  0x10000. `Positions.PositionExact` is exact, and `FarNot.FarNotFails` is a program that is compiled wrong.

Where the code and the documentation of the repository differ, the model follows the code.

## Model

| member | source | states |
|---|---|---|
| Words.Built | src/chunk.h:98-102 | the shift-and-or macros build, from the fields of an instruction, exactly the word that the model takes for it |
| Words.TakenApart | src/chunk.h:111-116 | the masking and shifting accessors give every field of that word back |
| Words.JumpRoundTrip | src/chunk.h:102-114 | building a jump and reading its displacement leads to the destination for every distance in range |
| Bytecode.WordInjective | src/chunk.h:98-104 | two instructions of the modelled opcodes with the same word are the same |
| Bytecode.PatchWord | src/chunk.h:118-127 | replacing the byte of the opcode, A, B or C, or the half D, of a word gives the word of the instruction with that field replaced and no other |
| Bytecode.DisplacementExact | src/parse.c:206-217 | an offset that passes the MAX_D check decodes to its destination, and is the sentinel of an unpatched jump exactly for a jump to itself |
| Compiler.Compiler.PatchTestReg | src/parse.c:182-204 | the word before a jump gets its destination register, or becomes a plain test, exactly as the function on code says, and the result says whether it was a test with a value |
| Compiler.Compiler.PatchInstruction | src/parse.c:206-217 | one displacement is written and nothing else, or the distance is too far and nothing changes |
| Compiler.Compiler.PatchValue | src/parse.c:234-260 | walking a threaded list while overwriting its links visits each member once: the result is the patching of the whole sequence, tests with a value to one target and the others to the other, with an error exactly when a distance is too far; words of all other lists keep their links |
| Compiler.Compiler.JumpAppend | src/parse.c:467-480 | splicing the threaded lists gives a threaded list of the concatenation, changes one link at most, and fails exactly when the link is too far |
| Threads.LinkChain | src/parse.c:467-480 | writing the head of a second, disjoint list into the last link of a first threads the concatenation |
| Compiler.Compiler.JumpNoValue | src/parse.c:482-490 | the walk finds out whether some member of the list leaves no value |
| Shape.PatchListAt | src/parse.c:234-260 | when no distance is too far, patching a sequence changes its members and the tests before them in one way for each, whatever their order, and no other word |
| Compiler.Compiler.EmitJump | src/parse.c:492-506 | a new jump takes over all pending jumps, as one list with its own |
| Compiler.Compiler.RegFree | src/parse.c:313-324 | under what every caller proves, the assertion holds and a temporary on top is released |
| ExprShape.CompileShape | src/parse.c:313-740 | registers are a stack: nextReg ends where it began or one above, maxReg bounds what is written, unresolved jumps are exactly the pending ones and those of the result, each in one list once |
| Compiler.Compiler.ExprToReg | src/parse.c:583-611 | discharging into a register with jump lists, loads and patching in place does what the function says, and leaves all other lists threaded |
| Compiler.Compiler.ExprNextReg | src/parse.c:613-626 | discharging into a fresh register frees and reserves as the function says, and leaves all other lists threaded |
| Compiler.Compiler.Statement | src/parse.c:2018-2050 | the compiler with its fields and threaded lists does for every statement what the functions say, or both fail with the same message |
| Compiler.Compiler.FunctionBody | src/parse.c:872-899 | for every body that meets the premises, the code, the constants and maxReg of the class are those of the functions, so that all theorems below hold of them; it fails exactly when they do, with the same message, and then for the reason that the message gives (Errors.CompileErrors) |
| Errors.CompileErrors | src/parse.c:872-899 | for every body, also one that does not meet the premises: one that compiles has every break and continue inside a loop, and at most the number of instructions that can be read off its tree; else it has one outside of all loops, or code too long for a distance of 16 bits, or more than 0x10000 constants, as the message says |
| Errors.CompilesWhen | src/parse.c:1825-1847 | a body whose instructions and constants, counted on its tree, are at most 0x8000 and 0x10000 compiles if and only if no break or continue is outside of all loops, and that is the only error it can have |
| Errors.CompileStmtResults | src/parse.c:2018-2050 | the same for each statement in whatever state it is compiled, with the loops around it |
| Errors.CompileGives | src/parse.c:332-740 | an expression, in whatever state and with whatever registers, compiles into at most the instructions counted on its tree, and fails only for a distance or for constants |
| Errors.NearExact | src/parse.c:206-217 | the distances that can be written are exactly those from -0x8000 to 0x7fff, from the instruction after the jump |
| Errors.PatchListFails | src/parse.c:234-260 | patching a list fails only when some member is too far from one of its targets |
| Errors.MakeWithin | src/parse.c:401-409 | making a constant fails only when there are more than 0x10000 different ones |
| ExprRuns.CompileRuns | src/parse.c:332-740 | the code of every expression computes what the evaluator gives (see Operators), a value or an error, with short circuits, and changes no register below the first free one, but for the destination of an assignment |
| StmtRuns.CompiledRuns | src/parse.c:1556-2050 | the code of every statement, with loops, break, continue and pending jumps threaded through new ones, lands where the structured meaning says, with its locals and globals |
| Correct.BodyRuns | src/parse.c:872-899 | for every fuel, a compiled body reaches what the body comes to (see Operators): the value returned, the error, or still running after as many steps |
| Operators.ArithEvaluates | src/vm.c:461-518 | an arithmetic operator fails with the first operand that fails, and else its value is: for two strings and `+` the characters of the first and then those of the second, at every index; for two numbers the operation on them in their order; for anything else the error of the operator |
| Operators.ArithRuns | src/vm.c:461-518 | the instruction gives the same for its registers, or register and constant: the result goes to register A and nowhere else, or the error is raised |
| Operators.ComparisonEvaluates | src/vm.c:445-460 | `==` is identity but for two numbers, `!=` is its negation, both without errors; the orders are for two numbers and else an error |
| Operators.ComparisonRuns | src/vm.c:445-460 | the instruction gives the same for its registers |
| Operators.UnaryEvaluates | src/vm.c:408-421 | minus is for numbers and else an error; `!` tells whether the value is nil, false or an empty array or table, which nothing else is |
| Operators.NegationRuns | src/vm.c:408-416 | the instruction gives the same for its register |
| Operators.NotRuns | src/vm.c:417-421 | the instruction gives the same for its register |
| Operators.LogicEvaluates | src/parse.c:1463-1513 | `and` is its right operand exactly when the left one is true, `or` exactly when it is false, and else the left one |
| Operators.TestRuns | src/vm.c:541-562 | a test goes on to its jump exactly when the value is true or not, as its opcode asks; only a copying one changes a register, which is A, in either case |
| Operators.LeavesEvaluate | src/vm.c:403-427 | literals, variables and globals have their values, and an undefined global is an error |
| Operators.PrimitiveRuns | src/vm.c:406-407 | the instruction for nil, true and false puts it into register A and changes nothing else |
| Operators.LoadsRun | src/vm.c:403-405 | a constant, a register or an upvalue goes to register A and nothing else changes |
| Operators.GlobalRuns | src/vm.c:422-431 | the global goes to register A, or it is undefined, which is an error |
| Operators.GlobalStoresRun | src/vm.c:432-444 | exactly the global of the name gets the value of register A; assigning to one that is not defined is an error, although it is defined from then on |
| Operators.UpvalueStoreRuns | src/vm.c:578-580 | exactly the upvalue with index A gets the value |
| Operators.ReturnRuns | src/vm.c:519-536 | a return ends the call with the value of register A |
| Operators.FailuresRaise | src/parse.c:2018-2050 | a statement whose expression fails raises its error and does nothing else |
| Operators.ValuesGo | src/parse.c:1774-1823 | a declaration adds one local with the value at the end, a return gives it, an expression alone changes nothing |
| Operators.GlobalsStore | src/vm.c:432-444 | a global is defined or assigned, and no other changes; assigning to one that is not defined is an error |
| Operators.VariablesStore | src/parse.c:742-756 | an assignment changes exactly its local or its upvalue |
| Operators.BranchesExecute | src/parse.c:1922-1943 | a branch is taken exactly for a condition that is true, and a loop is a branch into its body and then the loop again, which a break leaves and a continue starts over |
| Correct.StopsAsBody | src/parse.c:872-899 | a call stops in a state if and only if the body comes to it with some fuel: both directions, so that a call diverges exactly when its body does |
| Correct.NeverStuck | src/vm.c:378-562 | no state that a compiled body reaches is stuck: constants and upvalues that are read exist, every test has its jump, and no jump leaves the code |
| Correct.FrameSuffices | src/parse.c:872-899 | maxReg, which becomes stackUsed, is enough: every instruction that a call comes to reads and writes registers below it only, and two calls whose registers agree below it run alike for ever |
| Correct.StaysInside | src/vm.c:378-562 | a run of complete code keeps its position inside the code |
| StmtShape.PatchingIsComplete | src/parse.c:872-899 | in the code of a function no jump has the sentinel left, no test has A = NO_REG, every jump lands inside the code, every register that is read or written is below maxReg, every return has one result, and the last instruction is a return |
| Positions.PositionExact | src/parse.c:275-285 | the position kept for a unary operator is that of its instruction if and only if the code is no longer than 0x10000 |
| Positions.FarOperator | src/parse.c:413-465 | when it is not, the destination goes into the instruction 0x10000 earlier, and the operator writes register 0 |
| Positions.SmallStmtIsShort | src/parse.c:262-285 | every statement whose code stays within 0x10000 instructions meets the premise on positions |
| Positions.FreeStmtIsShort | src/parse.c:1274-1300 | every statement without unary operators meets it, however long its code is |
| StmtShape.EasyBodyOk | src/parse.c:872-899 | so the theorems about whole bodies hold for well-formed bodies with registers enough that have no unary operator, or at most 0x10000 instructions |
| FarNot.FarNotFails | src/parse.c:1274-1300 | after 65536 statements `nil;` the function `return !x` returns nil where it means a boolean |
| Overflow.FunctionRuns | src/parse.c:379-399 | `h; return h - (g - (g - ...))` with any depth up to the wrap of nextReg runs to h minus the rest, except at a right operand that wraps into register 0, where h is overwritten by g: 256 plain operands are right and 257 are wrong; with `and` innermost it fails one operand earlier and the jump with A = 255 does no harm |
| Overflow.FunctionExec | src/parse.c:379-399 | by the evaluator these functions return h minus the nested rest at every depth, which is what the runs are compared with |
| Overwrite.AssignmentRuns | src/vm.c:541-551 | `x = y and x`, which `Safe` shuts out, always stores y, because the copy happens even when the jump is not taken: that is its meaning if and only if y is false or x already equals y |
| Source.FreshSafe | src/vm.c:541-551 | an expression that does not read the destination is safe for it |
| Compiler.Compiler.MakeConstant | src/parse.c:401-409 | a constant gets the index of the pool, and too many are an error |
| Scopes.DescriptorExact | src/parse.c:1306-1321 | a descriptor of 16 bits decodes to what it was made from, except for the upvalue with index 255, which reads as the enclosing function's own slot |
| Scopes.LookupExact | src/parse.c:1323-1350 | for every nest of functions and every name, the local, upvalue or global answer denotes the innermost enclosing declaration if and only if no function between the declaration and the innermost one has it, or would get it, as its 256th upvalue |
| Scopes.FewUpvalues | src/parse.c:1306-1321 | that holds whenever every function has fewer than 255 descriptors |
| Scopes.FullFails | src/parse.c:1306-1350 | three nested functions, well formed, where a name resolves to another variable |
| Scopes.LookupExtends | src/parse.c:1306-1350 | a lookup keeps every descriptor at its index, and all locals, but for captured marks |
| Scopes.LookupStable | src/parse.c:1306-1350 | descriptors that were there before stand for the same variables after it, and every answer given before still means the same |
| Scopes.ClosuresHold | src/vm.c:581-593 | closures made at each level by following the descriptors hold, at each index, the cell of the variable that the descriptor stands for |
| Scopes.UpvalueIsVariable | src/vm.c:581-593 | the upvalue that a lookup answers holds, at run time, the cell of the innermost declaration of the name |
| Scopes.LookupMarks | src/parse.c:1302-1350 | every local that an inner function captures is marked as captured |
| Scopes.ScopeRestores | src/parse.c:1595-1609 | what a scope declares is gone after it, and what was before is as it was |
| Scopes.LookUp | src/parse.c:1323-1350 | var_lookup over the linked compilers gives the answer of the specification and the new descriptors of every level, and keeps compilers well formed and marks right; it succeeds if and only if the name is findable (Scopes.LookupSucceeds), and its error says which condition fails |
| Scopes.LookupSucceeds | src/parse.c:1306-1350 | for all well-formed compilers and every name: without a declaration the answer is a global; with one that is not initialized it is the error for that; else it succeeds if and only if each function on the way in has a descriptor for the variable that is carried to it, or fewer than 256, with the index of that descriptor or of a new one at the end; otherwise there are too many closure variables |
| Scopes.LookupPlainly | src/parse.c:1306-1350 | where no function is crowded, in terms of the declared variable alone: the lookup succeeds if and only if it is initialized and every function between, the asking one included, has a descriptor standing for it or fewer than 256 |
| Scopes.DeclaredIs | src/parse.c:913-923 | the declaration of a name is the last local of that name in the innermost function that has one |
| Scopes.Names.ResolveLocal | src/parse.c:913-923 | the innermost local of the name, or none, or the error for one that is not initialized |
| Scopes.Names.VarLookupUv | src/parse.c:1306-1321 | an equal descriptor is found again at its first index and nothing changes, else one is added at the end when there are fewer than 256, else there are too many |
| Scopes.Names.DeclareVariable | src/parse.c:938-953 | a name twice in a scope is an error, as is one local too many, else there is one more local; the state stays well formed |
| Scopes.Names.BeginScope | src/parse.c:1584-1586 | one scope deeper, with the same locals; the state stays well formed |
| Scopes.Names.MarkInitialized | src/parse.c:810-814 | the newest local gets the depth of its scope and can be read from then on; the state stays well formed |
| Scopes.Names.LocalIsCaptured | src/parse.c:1588-1593 | says whether a local of the innermost scope is marked as captured |
| Scopes.Names.EndScope | src/parse.c:1595-1609 | exactly the locals of the scope go; the state stays well formed |
| Scopes.Names.EndCompiler | src/parse.c:872-899 | back to the enclosing function, which is well formed, with the descriptors that the inner one gave it |
| Exits.HeadersFree | src/parse.c:1588-1609 | in programs whose functions are good (no captured local can still be open at a call or declaration where it is no longer active, read off the text), over every run, with calls and recursion: no open upvalue is where a call puts the header of a frame, and none is where a new local is declared |
| Exits.GoodExact | src/parse.c:1588-1609 | the condition is exact: a function is good if and only if no run of it, whatever way the conditions go and with calls that return, calls or declares with anything open above the locals |
| Exits.TidyIsGood | src/parse.c:1825-1847 | a function where no break or continue leaves a block with captured locals is good |
| Exits.BreakFails | src/parse.c:1825-1835 | a break out of a block with a captured local is not good: whatever ran before, the upvalue is left open and the next call writes its header there |
| Exits.ContinueFails | src/parse.c:1837-1847 | a continue makes the variable of the next turn share the upvalue of the one before |
| Exits.HeaderTaken | src/vm.c:65-78 | then the precondition of pushing a frame is false |
| Stack.Thread.CaptureUpvalue | src/vm.c:301-314 | the upvalue that stands for the variable of the slot: the one there is, or a new one; the list stays strictly descending |
| Stack.Thread.CloseUpvalues | src/vm.c:316-323 | every variable keeps its value and every upvalue its variable, and no open upvalue is left from there up |
| Stack.Thread.OnePerVariable | src/vm.c:301-323 | no two upvalues stand for the same variable, open or closed |
| Stack.Thread.GetUpvalue | src/vm.c:573-577 | reading through an upvalue reads its variable |
| Stack.Thread.SetUpvalue | src/vm.c:578-580 | writing through an upvalue writes its variable for all closures that share it, in the slot while it is open, and no other variable |
| Stack.Thread.MakeClosure | src/vm.c:581-593 | the new closure holds the variables that its descriptors capture, in order |
| Stack.Thread.GrowStack | src/vm.c:48-63 | wherever realloc puts the stack, all slots, variables, upvalues and offsets are as before |
| Stack.Thread.IncFrame | src/vm.c:65-78 | the new frame leads back to the one before, its registers are inside the stack even after it moved, and nothing below it changed |
| Stack.Thread.DecFrame | src/vm.c:80-87 | the base and the instruction pointer of the caller are restored from the header alone |
| Stack.Thread.IncCFrame | src/vm.h:12-23 | a frame of native code leads back by the distance in its header, its registers are inside the stack even after it moved, and nothing below it changed |
| Stack.Thread.DecCFrame | src/vm.h:25-29 | the base that was current before the native frame is restored from its header |
| Stack.Thread.Return | src/vm.c:520-536 | back to the caller with base and position from the header; for the one result that the compiler returns, the slot of the called function gets what register A held (the closure itself for A = 255) and no other slot changes; for any D >= 1 exactly the D - 1 values from register A on move down; every variable of the frame lives on in its upvalues (for up to two results), and no open upvalue of the frame is left |
| Stack.Thread.ReturnValue | src/vm.c:519-536 | for a stack that holds register A of the machine of the compiled code, the caller gets the value with which that machine halts |
| Stack.Thread.VisitSlots | src/memory.c:65-94 | the walk through the headers visits every slot from 1 up to stackTop except the links base[-2], and nothing else |
| Collector.Collector.TraceReferences | src/memory.c:203-208 | the loop ends with an empty gray stack and black = reachable from the roots, plus the weak table |
| Collector.TraceStep | src/memory.c:115-208 | one turn keeps: every black object is gray or has black children, and is in every closed set with the roots; and the measure falls |
| Collector.TraceEnd | src/memory.c:203-208 | when nothing is gray, black is exactly what can be reached, and closed |
| Collector.Collector.BlackenObject | src/memory.c:115-201 | exactly the objects that its fields hold, of whatever type it is, become black, and those that were white gray |
| Heap.ChildrenHeld | src/memory.c:115-201 | what the collector follows from an object of any type is what its fields hold: the class and the fields of a table are not among them, all other references are |
| Heap.TableFieldsLost | src/table.c:247-253 | so an object that only the class or the fields of a table hold cannot be reached |
| Collector.Collector.Sweep | src/memory.c:295-319 | exactly the black objects stay linked, in their order, and the accounts balance |
| Collector.Collector.CollectGarbage | src/memory.c:321-343 | exactly the unreachable objects are freed; survivors keep order and contents, but for strings that left the table; the roots stay, and every reference in a field of an object that is left is to one that is left, whatever its type; what is left, but for the table of strings, is in every set that has the roots and what the fields of its members hold; everything is white again; the next limit is set |
| Collector.Collector.FreeObject | src/memory.c:210-282 | the bytes given back, field by field, are the footprint of the object, and the assertion of _free holds |
| Collector.Collector.Reallocate | src/memory.c:355-375 | the accounts follow, and when the limit is passed there is a collection that keeps what can be reached |
| Collector.Collector.AllocateObject | src/memory.c:387-398 | a new first object; everything reachable stays |
| Collector.Collector.Store | src/memory.h:41-43 | a store with its barrier keeps the heap in order, because nothing is black between collections |
| Sites.Allocator.InitVM | src/vm.c:89-128 | the base thread, its stack of 1024 slots and the empty table of strings: all that was allocated is owned |
| Sites.Allocator.Collect | src/memory.c:321-343 | what is left in the heap is what could be reached and the table, and the strings in both are those that could be reached |
| Sites.Allocator.NewPlain | src/object.c:26-32 | an object without buffers is allocated with the size of its structure, and nothing is left unowned |
| Sites.Allocator.NewArray | src/array.c:9-24 | rooted in its slot before its elements are allocated, with a power of two for the capacity |
| Sites.Allocator.SetArray | src/object.c:155-171 | growth by the source's sizes, then the store; nothing is left unowned |
| Sites.Allocator.WriteValueArray | src/array.c:75-85 | one element is appended after growth by the source's sizes; nothing is left unowned |
| Sites.Allocator.WriteChunk | src/chunk.c:28-41 | instructions and lines grow, owned by the chunk of the active compiler |
| Sites.Allocator.AdjustCapacity | src/table.c:95-115 | new entries, then the old ones are freed, although a collection between may remove strings |
| Sites.Allocator.NewTable | src/table.c:117-132 | rooted before its entries are allocated; other slots of the stack keep their objects |
| Sites.Allocator.NewClosure | src/object.c:34-44 | the array of upvalues, unowned during one allocation, goes to the closure |
| Sites.Allocator.NewFunction | src/object.c:12-24 | an object with room for its upvalues and arities, in its slot while its array and table are made |
| Sites.Allocator.InitCompiler | src/parse.c:836-848 | one more chunk without capacity, whose constants the collector finds |
| Sites.Allocator.EndCompiler | src/parse.c:872-899 | the function takes over the bytes of the chunk of its compiler |
| Sites.Allocator.FreeChunk | src/memory.c:284-293 | after errors the chunk's bytes are given back |
| Sites.Allocator.AllocateString | src/xanString.c:12-23 | the characters go to the object, which is rooted while the table grows; the string objects in the heap become those that are left and the new one, and so do the keys of the table |
| Sites.Allocator.CopyString | src/xanString.c:46-56 | for a string that was found nothing is allocated and nothing changes, else a new one owns its copy, and heap and table gain it beside the strings that are left |
| Sites.Allocator.TakeString | src/xanString.c:36-44 | the caller's characters are freed when the string was found, else the new string owns them, and heap and table gain it beside the strings that are left |
| Sites.Allocator.Concatenate | src/vm.c:33-42 | the buffer of length + 1 ends owned or freed; of the strings there were, heap and table keep the same ones |
| Sites.Allocator.GrowStack | src/vm.c:48-63 | the thread owns the bigger stack |
| Sites.Allocator.FreeVM | src/vm.c:146-155 | after any sequence of these operations with no compiler active, bytesAllocated is 0 when everything has been freed |
| WeakStrings.Interned.Follow | src/table.c:255-261 | after any operation on the heap that may collect, removing the strings that are gone from the table makes both agree again; every operation of Sites meets its premise |
| WeakStrings.Interned.Collect | src/memory.c:321-343 | a collection frees exactly the strings that cannot be reached, and just they leave the table |
| WeakStrings.Interned.CopyString | src/xanString.c:46-56 | heap, collector and table together: the object with this content that is in the heap, with nothing changed, or else a new one beside those that are left; afterwards heap and table agree |
| WeakStrings.Interned.TakeString | src/xanString.c:36-44 | the same for characters that the caller has allocated, which end owned or freed |
| WeakStrings.Interned.Concatenate | src/vm.c:33-42 | the answer has the joined content, although the collection at its buffer may free the string that was there before |
| WeakStrings.Interned.OneObject | src/xanString.c:36-56 | so at any time, over any interleaving of these with collections, string objects in the heap are the same if and only if their contents are |
| Collector.KeysCleaned | src/table.c:255-261 | removing white keys leaves the black keys in the table, all of them |
| Probing.PutRepresents | src/table.c:150-167 | putting an entry where findEntry says keeps: unique slots, no empty slot between home and slot, contents = map |
| Probing.RemoveRepresents | src/table.c:169-183 | a tombstone in place of a key keeps all of that, for the map without the key |
| Probing.SomeEmpty | src/table.c:58-82 | fewer used slots than slots means that a truly empty one exists |
| Bits.AndEven | src/table.c:58-60 | the masked hash is the even index of a slot |
| Bits.AndStep | src/table.c:79-79 | the masked step goes through all slots in a circle, also when there is one slot |
| Table.FindEntry | src/table.c:58-82 | the probe ends, at the slot of the key if it has one, else at the first tombstone or empty slot where it may be put |
| Table.Table.Get | src/table.c:84-93 | finds a key if and only if the map has it, with the value of the map |
| Table.Table.Set | src/table.c:150-167 | updates the map at the key; isNewKey says whether it was new; the load stays under 3/4, tombstones included |
| Table.Table.Delete | src/table.c:169-183 | removes the key from the map and nothing else |
| Table.Table.AdjustCapacity | src/table.c:95-115 | the same map without tombstones |
| Table.AddAll | src/table.c:185-191 | the sum of the maps |
| Table.Duplicate | src/table.c:237-241 | a fresh table with the same map |
| Table.Table.RemoveWhite | src/table.c:255-261 | exactly the black keys stay, with their values |
| Table.Table.FindString | src/table.c:193-212 | a string with this content if the table has one, and only then |
| Interning.Strings.SamePointer | src/xanString.c:36-56 | live string objects are the same if and only if their contents are |
| Interning.Strings.CopyString | src/xanString.c:46-56 | whatever the collections in between keep, the answer is the one live string with the content |
| Interning.Strings.TakeString | src/xanString.c:36-44 | the answer is the one live string with the content: the interned one if there is one, else the new one |
| Bits.RoundUpPow2 | src/memory.h:45-51 | for every size up to 2^63, the least power of two that is not below it, and 0 for 0 |
| Arrays.Array.SetArray | src/object.c:155-171 | nil-padded update at every index; the capacity never shrinks and exceeds the index |
| Arrays.Array.GetArray | src/object.c:173-179 | the element, or that there is none, for every index, negative ones too |
| Arrays.Duplicate | src/object.c:148-153 | a fresh array with the same elements |
| Arrays.Array.Append | src/array.c:75-85 | one more element |
| Chunks.PoolStable | src/chunk.c:43-53 | over any sequence of additions earlier constants keep their index, and no key is there twice |
| Chunks.SameIndex | src/chunk.c:43-53 | an equal string or number gets the same index, whatever was added in between |
| Chunks.Chunk.AddConstant | src/chunk.c:43-53 | the array and the index table give the index and the constants of the specification, and stay in agreement |
| Chunks.Chunk.WriteChunk | src/chunk.c:28-41 | one more instruction, with its line |
| Chunks.AddConstIsWithConstant | src/parse.c:401-409 | the pool of the code generator is this one |

## Left out

Statements that are weaker than the source's own promise, or one way only:

- Exits.HeadersFree: exact for each function by itself (Exits.GoodExact); for whole programs one way, because what follows a call that never returns does no harm. The statements are a skeleton: conditions go either way, and calls and closures are not part of the model of the code generator.
- Correct.BodyRuns: calls, closures, assignments inside expressions, and instructions that close upvalues are not in the modelled language, whose statements read and write locals, upvalues and globals.
- Sites.Allocator.AdjustCapacity: pairs go to the front of the new entries; where they really go is proved in Table.
- Sites.Allocator.InitVM: stops at the table of strings; the modules and globals are made by the same methods.
- Sites.Allocator.AllocateString: whether the table grows is a parameter here, and so is whether a string was found, here and in the callers; WeakStrings passes what Table and Interning say. The heap's entries also grow when none is free.
- Sites.Allocator.NewFunction: the frame that initChunk pushes for native code is two slots given by the caller; GrowStack is separate.
- Chunks.Chunk.AddConstant: needs fewer constants than the integers that a double holds exactly.

Not modelled:

- try, catch and throw, for loops, classes, methods, super, default arguments, literals of tables and arrays, import.
- The scanner and the parser: the model starts from syntax trees, and the first error ends the compilation.
- emit_jump for other instructions than OP_JUMP; patching an instruction with A = NO_REG that is no test.
- last_target, which is written and never read.
- Minor collections and DEBUG_STRESS_GC: every modelled collection is one that reallocate starts over the major limit.
- The sizes of structures are parameters, and allocation never fails.
- Classes in static memory, which are linked early and own nothing.
- The contents of memory that was not written yet: new slots and elements hold no reference.
- Keys that are NaN, floating-point arithmetic, and doubles out of the range of an integer.
- Positions beyond 32 bits, and the order of bytes in a word other than little-endian.
- Characters of more than 8 bits.
- The message of an exception (src/exception.c), which is a buffer that takeString takes.
- Printing, input and output, the disassembler, the interactive prompt.
