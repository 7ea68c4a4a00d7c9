# A verified model of the AST backend

This project models the logic of a JIT backend for a small AST language, and proves what the
backend relies on. LLVM and the operating system are outside the model: compiled code is a small
intermediate representation with blocks, single-assignment registers, stack slots and branches.

The parts, with the files that hold them:

- **Compiler** — `Words`, `IR`, `Ast` are the target and the source; `CodeGen` is `generate_IR` as
  a function, and `Compiler` is the class whose methods change the scope stack, the object map,
  the loop catcher, the labels and the insertion point, proved to compute that function.
  `Scopes`, `Typing`, `Layout` prove what every call keeps. `Evaluator` runs ASTs directly,
  without a scope stack, registers or slots, and `Meaning` proves that compiled code does the same.
  `Fuel` runs whole programs of compiled functions that call one another. `Defined` and
  `DefinedCode` prove that accepted code defines every register before it is used, and
  `NeverStuck` that whole programs run until they end.
- **Heap** — `Heap` gives the layout of every object, word by word, and reachability; `FreeList`,
  `Marking`, `Sweeping`, `FunctionPool` and `Collecting` are the allocator and the collector as
  classes over a word array, a free list and two bitmaps; `Retention` and `HeapRuns` are about
  what remains after a collection and about whole runs; `Mutations` is what the program does to
  the heap in between, `LostWords` a heap that a collection damages, and `TypesInHeap` the types of
  the heap as the table of unique types sees them.
- **Types** — `Interning` is the table of unique types, with in-place rewriting of models and its
  reconstruction during a collection; `TypeChecking` is `type_check` and `concatenate_types`.
- **Queue** — `Queue` is the shared-memory queue as interleaved atomic steps of any number of
  senders and one reader.
- **Console** — `Printing` and `Reading` are the printer and the reader, from characters on;
  `RoundTrip` relates them, and `ComesBack` says exactly which graphs come back.
- **Graphs and trees** — `DeepCopy` is the AST copier, `Ancestry` the tree of users, `Vectors` the
  growable vector. `Options`, `Tags` and `Mapping` are shared definitions.

Code that changes state is a class or a method with loops, proved against a function or a relation
on values; the main results are lemmas about those.

Where the code differs from its comments or from what it is for, the code is followed:

- `memory.cpp:297` records the target of a pointer with the size of the pointer, which is one word.
  `HeapRuns.RetainedIffOneWord` shows that a collection keeps all words of what is reachable exactly
  when every reachable pointer has a target of one word, and `LostWords.LosesAWord` gives a heap in
  which every collection frees a word that is reachable. The result over whole runs asks for
  this condition when a collection starts.
- The wrap tests of the queue disagree. `Queue.EndsAgree`, `Queue.ReaderAgrees` say exactly when. As
  written, the reader gets what was sent until it has read a memory full, and `Queue.ReadsStrayWords`
  gives a run in which it then sees two stray words; such runs exist if and only if two words can be
  sent at once (`Queue.StraysIffTwoFit`). A commit at the exact end of the memory stops all later ones
  (`Queue.StuckForever`), and a queue can come to that if and only if anything can be sent
  (`Queue.SticksIffFits`). The second model, `Corrected`, uses `next_offset` everywhere and has neither
  failure.
- What the console prints is not always what it reads. `ComesBack.ComesBackIffPrintable` says exactly
  which graphs come back, and `ComesBack.OwnNameIsRefused` and `ComesBack.ImvIsRefused` say when the
  text is refused.
- A basic block in brackets is filled through a copy of the pointer to its vector
  (`testdriver.cpp:339-341`), so it gets a null element and the first three of the elements that are
  read, and the others are lost, as `Reading.BracketsLose` says.
- Placing a value ignores what pointers point to (`types.cpp:103-113` falls through), as
  `TypeChecking.RvoIsByTag` and `TypeChecking.RvoIgnoresPointees` say.
- A `goto` is given the type "does not return", but `finish_internal` turns a type of size 0 into the
  null type (`cs11.cpp:293`), and the test at `cs11.cpp:359` compares the type of the parameter, which
  is never that. So a `goto` is a statement without a value here.
- `user_node`'s constructor leaves the zombie flag unset and does not enter the node among its
  parent's descendants. The model's constructor does both.

## Model

| member | source | states |
|---|---|---|
| Meaning.CompilePreservesMeaning | src/cs11.cpp:203-482 | every accepted label-free graph has a finite depth, and its code runs to a return of the value of direct evaluation, with all fuel left, for any choice of the undefined word; every living AST is then in its register or slot with the value the evaluator gives it |
| Meaning.Simulate | src/cs11.cpp:203-482 | one accepted call of generate_IR, from related states: the emitted code takes the machine to the new insertion point and relates it to the evaluator's result, with what is handed to the parent usable exactly when the source allows it |
| Meaning.SimulateLookup | src/cs11.cpp:309-323 | an AST that is alive already gives its current value: the cached register, or a fresh load of its slot, even after stores |
| Meaning.SimulateBlock | src/cs11.cpp:381-393 | a basic block evaluates its elements in order in one scope, and has the value of the last one, loaded if it is in a slot |
| Meaning.SimulateIf | src/cs11.cpp:434-482 | exactly one branch runs, its scope ends, and the merge has that branch's value, or none when the types do not join |
| Meaning.SimulateStore | src/cs11.cpp:667-675 | a store changes the slot of the named AST that the target refers to, and no other living value |
| Meaning.SimulateConcatenate | src/cs11.cpp:649-665 | the words of the two values, in order, make up the new value |
| Meaning.RunEmitArith | src/cs11.cpp:394-433 | each operator's code computes its 64-bit meaning, with 0 for division by zero, the dividend for remainder by zero, and 0 for shifts of 64 and more |
| Meaning.RunGuarded | src/cs11.h:85-115 | the two-armed code around a guarded operator ends at the merge with the value of the arm the test selects |
| Meaning.RunFinish | src/cs11.cpp:238-294 | the end of an AST: a named value is in its own slot and temporaries are gone; an unnamed value stays in its register with the temporaries |
| Meaning.RunWritePlace | src/helperfunctions.h:183-214 | writing a value into a slot stores each of its words at its offset and keeps all other memory |
| Meaning.RunLoadFrom | src/helperfunctions.h:269-282 | loading a slot of any size gives back the words stored there |
| Scopes.GenKeeps | src/cs11.cpp:310-371 | on every exit, with or without an error: the old scope stack is a prefix of the new one, the object map has exactly the stack's ASTs, without duplicates, the old entries are unchanged, and no AST under compilation became alive |
| Scopes.GenBlockKeeps | src/cs11.cpp:381-393 | the same for a basic block's elements, from any of them on |
| Scopes.GenIfKeeps | src/cs11.cpp:434-482 | the same for an `if`, whose branches' scopes are cleared |
| Scopes.GenLabelKeeps | src/cs11.cpp:561-580 | the same for a label |
| Scopes.ClearStackRestores | src/cs11.cpp:161-171 | clearing to the height of an earlier state gives back that state's stack and map |
| Scopes.NewLivingKeeps | src/cs11.h:48-56 | entering a new living value keeps the stack and the map in agreement |
| Typing.GenSound | src/cs11.cpp:326-371 | an accepted AST is acyclic, the operands of all nodes below it fit, and it has the static type that follows from its fields alone |
| Typing.GenNoLoop | src/cs11.cpp:326-334 | an acyclic AST is never rejected as an infinite loop, in any scope and whatever else is wrong with it |
| Typing.CompileLoops | src/cs11.cpp:57-75 | for a whole compilation: acyclic graphs give no infinite-loop error, and accepted graphs are acyclic, with operands that fit all the way down, and of their static type |
| Typing.AcceptedIffFitting | src/cs11.cpp:203-482 | without stores, labels and gotos, an AST is accepted if and only if it is acyclic and the operands of all nodes below it fit |
| Layout.GenFine | src/cs11.cpp:203-625 | in accepted code, labels and gotos included, every jump goes to a block placed later, except the fuelled jump of a backward goto; no forward label is left open |
| Layout.GenGotoFine | src/cs11.cpp:582-625 | a forward goto jumps to a block still to be placed; a backward one goes back only through the fuel check |
| Layout.GenLabelFine | src/cs11.cpp:561-580 | in accepted code of a label, every jump goes to a block placed later, except the fuelled one, and no forward label is left open |
| Layout.LabelComesLast | src/cs11.cpp:561-580 | a label's block is placed once, after all blocks of its body, is where emission goes on, and is behind from then on |
| Fuel.CompiledIsOrdered | src/cs11.cpp:561-625 | the code of every accepted AST is laid out so that its only way back is through the fuel check |
| Fuel.StepCost | src/cs11.cpp:603-624 | a step inside a function lowers the measure of what is left of it, or goes back and spends one unit of fuel |
| Fuel.EnterAnswers | src/runtime.h:70-75 | a call of a null function or without fuel gives the word 0 and starts nothing; any other call starts a frame on top of the others and takes one unit of fuel |
| Fuel.EnterProgress | src/runtime.h:70-75 | either lowers the combined measure of fuel and activations, and accounts for the fuel it spends |
| Fuel.StepProgress | src/runtime.h:70-75 | every step of a program lowers the combined measure of fuel and activations, and accounts for the fuel it spends |
| Fuel.RunBound | src/runtime.h:70-75 | a run is no longer than the measure of its start, and backward jumps plus nested calls are exactly the fuel used up |
| Fuel.FuelBoundsEveryRun | src/cs11.cpp:561-625 | every program of compiled functions has a constant that bounds every run by (fuel + 1) times it; backward jumps and nested calls plus the remaining fuel are the starting fuel |
| DefinedCode.GenDefined | src/cs11.cpp:203-625 | one accepted call for an AST without labels below it, gotos included: the emitted code defines every register before it is used, with its number of words, and so are the values that are alive or handed to the parent |
| DefinedCode.GenTame | src/cs11.cpp:203-625 | the same for blocks and labels, when labels are elements of blocks and only blocks and labels are above them |
| NeverStuck.CompiledComplete | src/cs11.cpp:111-111 | the whole code of an accepted AST of that kind passes: every block has its end, and every register is defined on all ways to its use |
| NeverStuck.StepsIffNotEnded | src/cs11.cpp:561-625 | any run of a program of such functions, whatever its calls answer, has a next step if and only if neither the first function returns nor a word that is no function is called |
| NeverStuck.EveryRunEnds | src/runtime.h:70-75 | every run of such a program comes to such an end, within a constant times (fuel + 1) steps |
| Compiler.CompilerObject.constructor | src/cs11.h:120-120 | a new compiler has an entry block and nothing else |
| Compiler.CompilerObject.ClearStack | src/cs11.cpp:161-171 | popping one AST at a time gives the state of clearing to the height at once |
| Compiler.CompilerObject.NewLivingObject | src/cs11.h:48-56 | enters the AST in map and stack, unless it is there already |
| Compiler.CompilerObject.FinishInternal | src/cs11.cpp:238-294 | the new state and the result are those of ending an AST in the specification |
| Compiler.CompilerObject.GenerateIR | src/cs11.cpp:203-334 | state and result are those of the specification, and the loop catcher is as before the call on every exit |
| Compiler.CompilerObject.GenerateFields | src/cs11.cpp:342-371 | the loop over fields stops at the first error, and otherwise has all results |
| Compiler.CompilerObject.GenerateTag | src/cs11.cpp:379-675 | the case for each tag does what the specification says |
| Compiler.CompilerObject.GenerateBlock | src/cs11.cpp:381-393 | the loop over elements does what the specification says |
| Compiler.CompilerObject.GenerateIf | src/cs11.cpp:434-482 | the branches, their clearing and the merge do what the specification says |
| Compiler.CompilerObject.GenerateLabel | src/cs11.cpp:561-580 | labels are entered, expired and placed as the specification says |
| Compiler.CompilerObject.CompileAST | src/cs11.cpp:57-107 | the result is that of the specification: an error with its place, or the whole function |
| FunctionPool.FirstZero | src/memory.cpp:95-100 | finds the lowest zero bit of a word that has one |
| FunctionPool.DifferenceBits | src/memory.cpp:410-410 | when the marked bits are taken bits, the subtraction is set difference, bit by bit |
| FunctionPool.FunctionPool.AllocateFunction | src/memory.cpp:102-123 | takes the first slot that is not in use and no other; fails only when all are in use |
| FunctionPool.FunctionPool.FoundFunction | src/memory.cpp:245-252 | marks exactly one more slot, and says whether it was marked |
| FunctionPool.FunctionPool.SweepFunctions | src/memory.cpp:408-423 | every slot that was taken and is not marked is finalized exactly once, the marked ones never; the marked slots are what is taken afterwards |
| FreeList.TakeKeepsTiling | src/memory.cpp:46-93 | allocation serves a request from a smallest block that is large enough and keeps the tiling of the pool, the order of the list and the count; it fails exactly when no block is large enough |
| FreeList.SplitTile | src/memory.cpp:64-76 | a block may be replaced by its two parts without disturbing a tiling |
| Heap.ClosedHoldsReachable | src/memory.cpp:254-256 | a set with the roots that is closed under typed pointers has everything reachable |
| Marking.ExploredIsReachable | src/memory.cpp:156-200 | what exploring from nothing collects is exactly the reachable set |
| Marking.Marker.FoundLivingObject | src/memory.cpp:222-243 | records one more object with its size, takes it off the count, and says whether it was there |
| Marking.Marker.MarkTarget | src/memory.cpp:259-362 | for any heap, cyclic or not, marking ends; it adds exactly what the value leads to, and all successors of what it adds |
| Marking.Marker.MarkWord | src/memory.cpp:280-362 | the same for each case of a one-word value |
| Marking.Marker.MarkPointer | src/memory.cpp:295-300 | the same for the target of a pointer |
| Marking.Marker.MarkDynamic | src/memory.cpp:301-311 | the same for a dynamic object, whose type is marked before the object is recorded |
| Marking.Marker.MarkVector | src/memory.cpp:313-320 | the same for a vector and its elements |
| Marking.Marker.MarkAst | src/memory.cpp:321-335 | the same for an AST: the object of an imv, the vector of a basic block, or its fields |
| Marking.Marker.MarkType | src/memory.cpp:336-350 | the same for a type pointer; small tags are nothing to mark |
| Marking.Marker.MarkFunction | src/memory.cpp:351-360 | the same for a function, through its AST and its return type |
| Marking.Marker.TraceRoots | src/memory.cpp:125-145 | marking is exact: the living objects and the function marks are what the type roots and event roots reach |
| Sweeping.SweepMemory | src/memory.cpp:364-406 | the walk over living objects leaves the free list that SweepDone describes, and writes only words that no living object has |
| Sweeping.SweepEnds | src/memory.cpp:364-406 | the free blocks are exactly the maximal gaps, tile the pool with the living objects, and add up to what these leave |
| Sweeping.OneGap | src/memory.cpp:381-389 | maximal gaps that share a word are the same |
| Collecting.Collector.constructor | src/memory.cpp:11-23 | the pool starts as one free block |
| Collecting.Collector.Allocate | src/memory.cpp:46-93 | the new state is the old one with the block taken, tiled and counted; refused for size 0, out of memory exactly when nothing fits |
| Collecting.Collector.StartGC | src/memory.cpp:148-153 | a whole collection: exactly what the roots reach is kept, the free list is rebuilt, dead functions are finalized once |
| Collecting.Collector.TraceObjects | src/memory.cpp:156-219 | the same, from the count set to the whole pool |
| Collecting.Collector.SweepySweep | src/memory.cpp:364-424 | from exact marks to the collected state, for memory and for functions |
| Collecting.KeptAreLiving | src/memory.cpp:222-243 | the recorded objects do not overlap and lie in the pool |
| Retention.PreservedIsWellTyped | src/memory.cpp:259-362 | what is closed under typed pointers, and kept word for word, is a well typed heap by itself |
| HeapRuns.RetainedIffOneWord | src/memory.cpp:295-298 | a collection keeps every word of what is reachable if and only if every reachable pointer has a one-word target |
| HeapRuns.SecondWordFreed | src/memory.cpp:297-297 | after a collection, the second word of a longer target that is reachable is in a free block |
| LostWords.LosesAWord | src/memory.cpp:295-298 | a heap, well typed and rooted, in which a pointer to two words is reachable and every collection frees the second one |
| HeapRuns.SecondWord | src/memory.cpp:297-297 | the second word of a longer pointer target belongs to no living object |
| HeapRuns.ReachableKnown | src/memory.cpp:336-349 | the types that reachable words depend on are reachable themselves |
| HeapRuns.CollectionIsSound | src/memory.cpp:148-153 | after a collection the heap is well typed, its roots included, every remaining object has its block, and the pool is tiled and counted |
| HeapRuns.CollectionIsSafe | src/memory.cpp:148-424 | a collection changes no word of an object that the roots reach, and keeps its block |
| HeapRuns.AllocationIsSafe | src/memory.cpp:46-93 | no allocation returns a word of an object of the heap |
| HeapRuns.RunsAreSafe | src/memory.cpp:46-424 | both, with all invariants, in any interleaving of allocations, type-safe changes and collections |
| HeapRuns.FirstIsGood | src/testdriver.cpp:532-533 | the heap with nothing but the type of vectors of ASTs, which is the first root, meets all invariants, so runs can start from it |
| Mutations.ChangedIsWellTyped | src/memory.cpp:259-362 | a heap stays well typed when types and sizes stay, the words of old objects are right for their types, and so are those of new objects and functions |
| Mutations.StoreIsMutation | src/memory.cpp:280-362 | storing a word of the right type into any object is a change that runs allow |
| Mutations.PushIsMutation | src/vector.h:39-49 | so is pushing a word of the element type to a vector that has room |
| Mutations.MakeIsMutation | src/ASTs.h:211-230 | so is making an object of any kind in a block that was allocated and is not in use |
| Mutations.CompileIsMutation | src/memory.cpp:102-123 | so is making a function in a slot of its own |
| Mutations.RootIsMutation | src/memory.cpp:29-30 | so is entering a type or a function as a root |
| TypesInHeap.CellsAreWords | src/type_creator.h:12-47 | two heaps have the same cells of types if and only if they have the same words in all type objects |
| TypesInHeap.Reintern | src/memory.cpp:336-349 | clearing the table and putting the marked types of a heap back enters only types that were there, all marked ones, and changes no word of a type |
| Interning.Canonical | src/type_creator.cpp:1-6 | entries of the table with the same structure are the same pointer |
| Interning.PointerEquality | src/type_creator.h:29-46 | for entries, pointer equality is structural equality |
| Interning.ShortcutSound | src/type_creator.cpp:35-64 | when a subtype was new, no equal type is in the table, even counting what the same call inserted meanwhile |
| Interning.RewriteKeeps | src/type_creator.cpp:48-51 | writing the unique version of a field into a model changes the structure of no type |
| Interning.WriteField | src/type_creator.cpp:48-51 | the in-place write keeps the table, and changes no cell of an entry |
| Interning.TypeTable.Find | src/type_creator.cpp:65-66 | finds an entry that equals the model field by field, if there is one |
| Interning.TypeTable.CopyType | src/types.h:216-225 | a fresh cell with the same contents; a small tag is its own copy |
| Interning.TypeTable.UniquefyFields | src/type_creator.cpp:41-52 | all fields become entries, the model keeps its structure, and the flag implies that no equal type is in the table |
| Interning.TypeTable.GetUnique | src/type_creator.cpp:24-75 | the result is an entry of the model's structure; it was created exactly when the table had none; entries are untouched, the table stays closed, and new entries are subtypes of the model |
| Interning.TypeTable.UniquefyPremadeType | src/type_creator.cpp:77-84 | the same for any type or null |
| Interning.TypeTable.UniquefyAll | src/type_creator.cpp:77-84 | after any sequence of calls, two results are equal pointers exactly when the types are structurally equal |
| Interning.TypeTable.Remark | src/memory.cpp:336-349 | re-interning a marked type after its fields allocates nothing, changes no cell, and puts the type itself in the table |
| Interning.TypeTable.RebuildTable | src/memory.cpp:194-195 | clearing and rebuilding the table during a collection gives entries of the old table only, among them all roots |
| Interning.EqualCells | src/type_creator.h:27-46 | the scan of tag and fields decides equality |
| TypeChecking.ReferenceIsEquality | src/types.cpp:30-81 | on storable types, a reference fits perfectly if and only if the types are structurally equal |
| TypeChecking.ReferencePrefix | src/types.cpp:55-80 | of two con_vecs, the verdict says which is a prefix of the other, or that neither is |
| TypeChecking.RvoIsByTag | src/types.cpp:96-129 | placing a single value depends on the two tags only |
| TypeChecking.RvoIgnoresPointees | src/types.cpp:103-113 | pointers to different types fit for placing, and do not as references |
| TypeChecking.FitsIsTypeCheck | src/types.cpp:96-129 | the compiler model's test of fitting is type_check on the types of the fragment |
| TypeChecking.ConcatenateTypes | src/types.cpp:171-193 | the loops compute the flattening |
| TypeChecking.ConcatenateNests | src/types.cpp:171-193 | joining groups that were joined before is joining everything: associativity at any number of arguments |
| TypeChecking.ConcatenateNull | src/types.cpp:177-177 | null is neutral at any position, and a single argument is given back |
| TypeChecking.ConcatenateWellFormed | src/types.cpp:190-192 | no nested con_vec, and none with fewer than two components |
| TypeChecking.SizeAdds | src/types.h:271-282 | sizes add up if and only if "does not return" is not one of several components |
| Queue.StepKeepsInv | src/generic_ipc.h:131-206 | every atomic step of any sender or the reader keeps positions, ownership and contents right |
| Queue.Delivery | src/generic_ipc.h:131-206 | in any interleaving, the reader has seen exactly a prefix of the committed messages' words, in reservation order; as written, for as long as it has not read past the end of the memory |
| Queue.ReadsInside | src/generic_ipc.h:131-140 | as written, a read is from inside the memory if and only if less than a memory full was read before; any other read gives a stray word |
| Queue.ReadsStrayWords | src/generic_ipc.h:131-206 | as written, every queue in which two words can be sent at once has a run in which everything was committed and the reader saw two stray words in the middle |
| Queue.Progress | src/generic_ipc.h:150-187 | reservations in flight tile the interval from done to reserve, each with one owner; when there are any, the commit of the first one's owner is the only one that can succeed, and it can once its words are written, unless, as written, the done position is at the end of the memory |
| Queue.CommitInOrder | src/generic_ipc.h:178-187 | a sender finds the done position at its start exactly when its message is the first in flight and the done position is not at the end of the memory |
| Queue.WalkIsReserveEnd | src/generic_ipc.h:163-176 | going on word by word with next_offset comes to the end that the reservation computed |
| Queue.EndsAgree | src/generic_ipc.h:164-182 | as written, reservation and commit end at the same place if and only if the message does not end exactly at the end of the memory |
| Queue.ReaderAgrees | src/generic_ipc.h:136-137 | as written, the reader goes where the writers go if and only if it is not at the last word |
| Queue.StuckForever | src/generic_ipc.h:182-186 | as written, once the done position is at the end of the memory, no commit ever succeeds again |
| Queue.CommitAtEndSticks | src/generic_ipc.h:182-182 | as written, the commit of a message that ends at the end of the memory leads there |
| Queue.SticksInSomeRun | src/generic_ipc.h:164-187 | as written, every queue in which anything can be sent has a run that leads there, with a reader that keeps up |
| Queue.SticksIffFits | src/generic_ipc.h:164-187 | as written, a queue with any number of senders can come to a state from which no commit succeeds if and only if a word can be sent at all |
| Queue.StraysIffTwoFit | src/generic_ipc.h:131-206 | as written, the reader can see something else than what was sent if and only if two words can be sent at once |
| Queue.MultipleSenderQueue.AllocateMemory | src/generic_ipc.h:150-171 | undisturbed, the room starts at the old reserve position and the position moves to its end |
| Queue.MultipleSenderQueue.WriteValues | src/generic_ipc.h:190-206 | undisturbed, the message is stored whole and committed; done and reserve agree again unless the wrap tests disagree |
| Queue.StoredAt | src/generic_ipc.h:198-203 | each word of the message is at its place, and no other word of the memory changes |
| Queue.MultipleSenderQueue.GetNextValue | src/generic_ipc.h:131-140 | the word at the reader's position, or the stray word past the end of the memory; the position moves on |
| Printing.AstPrinter.constructor | src/debugoutput.h:114-120 | the two passes give the printed text of the graph |
| Printing.AstPrinter.DetermineReferences | src/debugoutput.h:122-136 | the first pass collects the nodes that are come across again, on any graph |
| Printing.AstPrinter.OutputOutput | src/debugoutput.h:139-197 | the text that is added, and the nodes it shows |
| Printing.NamesDiffer | src/debugoutput.h:154-154 | different nodes have different names |
| Reading.SourceReader.GetToken | src/testdriver.cpp:227-261 | the character loops take exactly the next token |
| Reading.SourceReader.ReadSingleAst | src/testdriver.cpp:264-360 | reads one AST as the specification does, or stops with an error exactly when it does |
| Reading.SourceReader.ReadNamedAst | src/testdriver.cpp:284-359 | the same after an optional declared name |
| Reading.SourceReader.ReadAllFields | src/testdriver.cpp:309-348 | the same for the loop over fields |
| Reading.SourceReader.ReadText | src/testdriver.cpp:384-395 | the whole text is read as the elements of one block, or refused, as the specification does |
| Reading.BracketsLose | src/testdriver.cpp:339-341 | a basic block in brackets has a null element and the first three of the elements read into it, so all of them if and only if there are no more than three |
| Reading.SourceReader.ReadImv | src/testdriver.cpp:322-338 | a decimal number below 2^64 becomes a new object; any other word must be a known name |
| Reading.SourceReader.CreateSingleBasicBlock | src/testdriver.cpp:363-380 | the same for the loop over the elements of a block |
| RoundTrip.TextTokens | src/debugoutput.h:139-197 | the printed text of a node is cut back into the tokens it was made of |
| RoundTrip.ReadPrinted | src/testdriver.cpp:264-360 | reading the text of a node gives the node made for it before, or a new one that corresponds to it with all it leads to, if no block is come across again inside its own braces; otherwise it is an error |
| RoundTrip.ReadsIffClear | src/testdriver.cpp:291-296 | for a root block that is not come across again, with nodes shown as what they are: the printed text is accepted if and only if no block is come across again inside its own braces, and then gives an isomorphic graph |
| RoundTrip.PrintThenRead | src/debugoutput.h:109-197 | printing then reading gives an isomorphic graph, with sharing and cycles, for every printable root |
| ComesBack.ComesBackIffPrintable | src/debugoutput.h:109-197 | whatever the root and the graph, the text is accepted and gives an isomorphic graph if and only if the root is a block with elements, every node printed below is an ordinary node or a block with elements that has a name or several of them, and no block, the root included, is come across again inside its own braces |
| ComesBack.ReadCounts | src/testdriver.cpp:363-380 | whatever text is accepted closes every brace it opens, opens a bracket or brace for each node but the root, and gives a root that no pointer leads to |
| ComesBack.PrintedCount | src/debugoutput.h:139-197 | the text of a node opens at most as many brackets and braces as nodes are printed, and fewer, or one that stays open, when some node is not shown as what it is |
| ComesBack.ImvIsRefused | src/testdriver.cpp:322-338 | a text with an imv is refused, since what it points to is printed as an address that has no name |
| ComesBack.OwnNameIsRefused | src/testdriver.cpp:291-296 | a graph with a block that holds itself: all its nodes are shown as what they are, and its text is refused |
| ComesBack.AroundNameComesBack | src/testdriver.cpp:300-304 | graphs with a block that leads back to itself through a node around it: they come back |
| RoundTrip.OneElementIsHidden | src/debugoutput.h:161-182 | a nested block of one element without a name has the text of its element |
| RoundTrip.EmptyBlockIsLost | src/debugoutput.h:164-168 | an empty root block is read back as a block with one null element |
| DeepCopy.DeepAstCopier.CopyAst | src/ASTs.h:235-260 | a new node with the same fields; an imv gets its own object, a basic block its own vector with the old elements, neither of which was there before the call |
| DeepCopy.DeepAstCopier.InternalCopy | src/helperfunctions.h:351-366 | ends on every graph; the map stays injective onto new nodes, all but the nodes under way are complete copies, and no two of them share an object or a vector; nothing older than the call changes |
| DeepCopy.DeepAstCopier.CopyFields | src/helperfunctions.h:361-362 | the loop over fields replaces each by its copy |
| DeepCopy.DeepCopy | src/helperfunctions.h:344-367 | the copy is isomorphic over pointer fields, with sharing, to what the starter reaches; all its nodes, objects and vectors are new and its own, and the original is unchanged |
| DeepCopy.PathsCopied | src/helperfunctions.h:361-362 | everything that pointer fields reach was copied, and every path of the original is a path of the copy |
| Ancestry.RemoveKeepsAbove | src/ancestry.h:26-58 | taking a node out keeps the ancestor relation of all others |
| Ancestry.NotLowest | src/ancestry.h:26-58 | a node with at most one child is not the lowest common ancestor of others |
| Ancestry.RemoveIsPruning | src/ancestry.h:26-58 | taking out a dead node with at most one child keeps living nodes, ancestors and lowest common ancestors |
| Ancestry.UserNode.constructor | src/ancestry.h:18-18 | a living node, linked with its parent both ways |
| Ancestry.UserNode.Death | src/ancestry.h:20-24 | exactly one living node goes, every dead node left joins at least two, ancestors and lowest common ancestors of survivors are kept; it fails only for a sole node |
| Ancestry.UserNode.KillIfUseless | src/ancestry.h:26-58 | the same from any node that may be useless, for the chain of prunings |
| Ancestry.UserNode.Detach | src/ancestry.h:29-57 | the pointer changes of each case amount to handing the node's descendants to its parent |
| Ancestry.UserNode.ListAllLiving | src/ancestry.h:69-80 | each living node from here down, without those reached through the node to avoid, exactly once |
| Vectors.VectorBuild | src/vector.h:25-35 | a new vector with the given elements and room for half as many more and three |
| Vectors.PushbackInt | src/vector.h:39-49 | appends one element; a full vector is copied first and the old one is left as it was |
| Vectors.PushAll | src/vector.h:39-49 | any number of pushes appends their values in order, and moves at most three words a push |
| Vectors.AmortizedCost | src/vector.h:27-27 | after n pushes at most 3n words were moved, and at most half of n and three words are spare |
| Vectors.Svector.Load | src/vector.h:68-72 | the element at an offset, or 0 past the end |

## Left out

- Meaning.CompilePreservesMeaning: labels, gotos and calls are covered by `Layout` and `Fuel` only, since a label that is a field of another AST clears its scope late (`cs11.cpp:261`).
- Fuel.FuelBoundsEveryRun: the instructions emitted for a backward jump (load, compare, decrement, store, two branches) are one terminator, and the object that a call returns is any word.
- Fuel.EnterProgress: overwriting a function while it runs is not modelled; the table of functions is fixed during a run.
- NeverStuck.StepsIffNotEnded: labels below operands, conditions and branches; there a backward goto can go around the definition of a register.
- HeapRuns.RunsAreSafe: when a collection starts, the pointer targets that the roots reach have one word, as the collector needs; what the program does between allocations and collections is any change that leaves a typing of the blocks it owns, of which `Mutations` proves the stores, pushes, new objects, functions and roots of the source to be cases.
- Marking.Marker.MarkType: the entry of a marked type into the table that is being rebuilt is in `Interning.TypeTable.Remark` and `TypesInHeap.Reintern`, not in this method.
- Collecting.Collector.TraceObjects: the same for the table as a whole.
- Queue.Delivery: what is unread or in flight stays below the capacity in every run. The overflow branch is empty in the source and does nothing here. Crashing senders are not modelled.
- Interning.TypeTable.Find: the hash table is a set that is searched for an equal entry; the hash function is left out, since equal fields have equal hashes.
- RoundTrip.PrintThenRead: a printed address is `0x` followed by lower-case hexadecimal digits.
- ComesBack.ComesBackIffPrintable: an imv points to an object that is no AST; its value is not printed.
- Printing.AstPrinter.OutputOutput: ordinary nodes, basic blocks and imvs; nothing else has an AST tag.
- Reading.SourceReader.ReadAllFields: more than one field of an imv, which the source writes past the end of the node, is an error here.
- DeepCopy.DeepCopy: the words a vector reserves beyond its size are not part of the model.
- Ancestry.UserNode.constructor: sets the flag and links the node, which the source leaves to its caller.
- Ancestry.UserNode.Death: creation times and `find_far_user`, which returns nothing.
- Compiler fragment: integer operators, immediate values, `if`, basic blocks, `store` into a named AST, `concatenate`, labels, gotos and calls without parameters. Pointers, vectors, dynamic sub-objects, `try_store`, hidden subtypes, random numbers and AST-valued operations would add cases.
- LLVM: instruction selection, optimisation, module management and the `{i64, i64}` form of pairs. A comparison gives the word 0 or 1, without a separate one-bit value; an undefined value is the same arbitrary word throughout a run.
- Serialization: pointer relocation, and the mode of the collector that corrects pointers.
- Allocation of the result of a call, trampolines, system calls, the agency, the fuzzer, argument parsing, shared-memory setup and processes.
