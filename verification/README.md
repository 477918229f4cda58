# Lua 5.1 in Dafny: compiler, collector, tables, patterns

The repository carries the C source of Lua 5.1.5 under `librarys/src/main/jni/lua`. This project
models the parts of it that are hard to get right and proves what they are for. All paths below are
relative to the repository.

`dafny verify dfyconfig.toml` checks the whole project. One module is one file. Modules named after a
C file (`LCode`, `LParser`, `LTable`, `LStrLib`, `LTabLib`, `LLex`, `LAuxLib`, `LDump`, `LUndump`),
together with `Vm`, `Collector`, `Barriers` and `Programs`, hold the imperative code: classes with the
fields the C structures have, and methods that change them step by step. The other modules hold what
that code is measured against: specification functions, invariants, independent definitions of what a
result should be, and the lemmas that connect them.

## The parts

**Expression compiler and interpreter.** Lua compiles expressions in one pass, with jumps that are
emitted before their targets are known and threaded as lists through the instructions themselves.
`CodeGen` describes each function of `lcode.c` on symbolic code, in which an unresolved jump is just
open; `PartialCode` says what running such incomplete code means. `ExpMeaning` defines when a
descriptor (`expdesc`), with its pending jumps, stands for a value, and the modules from
`RegisterLoads` to `Compilation` prove that every operation keeps that meaning, up to
`Compilation.CompileOk` and, for function bodies, `ReturnStatements.FunctionOk`. `LCode` is the same
code on the real instruction array, with lists linked through jump offsets, each method proved to do
exactly what its specification does. `LParser` reads tokens and drives it, against the reading
functions in `Syntax`, which `Grammar` proves to accept what the manual's grammar derives, and `Vm`
executes the result. `Chunk.CompileAndRun` puts all of it together.

**Incremental collector.** `GcHeap` holds the object graph, the four colours and reachability;
`GcLists` the lists the collector links objects into and what sweeping may do; `Collector` the state
machine; `Barriers` everything the running program does to the heap, upvalues and interned strings
included; `Programs` runs of such programs with collector steps anywhere in between. `Programs.Does`
says what each instruction does as if there were no collector, and `Programs.Run` proves that every run
is a run of that kind in which only garbage disappears. `ColourBits` ties the colours to the bits of
the byte `marked`.

**Tables.** `TableNodes` proves that the three ways of inserting into the chained scatter table with
Brent's variation keep every key on the chain of its main position; removed entries keep their place in
the chain. `TableSizes` and `TableCounts` are about the sizes a rehash computes. `LTable` is the table,
proved to agree with a map. The ghost parameter `nested` of its methods says that a rehash does not start
inside a rehash; `Settable` is the condition under which that is so, which every array part without
values above slot 2^26 meets.

**Pattern matching.** `PatternSpec` and `PatternResults` define what a pattern matches, once as a
relation (`Matches`) and once as the list of all results in the order of preference (`Results`);
`PatternProof` connects the two, and `LStrLib` is the matcher with its capture array. `PatternText`
gives patterns as trees a meaning that shares no table with the matcher, every class and range written
out, and proves that it is the same.

**Smaller parts.** `LTabLib` sorts; `LLex` quotes and reads strings, whose spellings `StringText` lists
piece by piece; `LAuxLib` keeps references in a table of `LTable`; `Bytecode`, `BytecodeProof`,
`LoadedChunks`, `LDump` and `LUndump` write precompiled functions and read them back through a stream of
arbitrary pieces; `BytecodeLayout` is their format, byte by byte.

## How the C code is rendered

- A C function that is long is cut into several methods at the places its comments or blocks suggest;
  their names are in the table.
- Errors that C raises with `longjmp` are results: `Result`, `Outcome`, `Scanned`, or a flag.
- Numbers are compared by identity of representation, so NaN and -0 are outside the model. Primitive
  operations (arithmetic, comparison, conversion, metamethods) are parameters; every result holds for
  any choice of them. Folding a negated numeral needs that negation does not make a NaN.
- Hash functions, the writer of a dump, the bytecode checker, and the comparison function of a sort are
  parameters too. The allocator may hand out any address not in use.
- The object graph and the colours are two dictionaries; linked lists of objects are sequences, and the
  sweep pointer an index. Links of table nodes and of jump lists are kept as they are.
- Where the documentation and the code differ, the code is followed. `numusearray` counts only the first
  2^26 slots of a longer array part; `TableCounts.AllArray` says exactly when it misses a value.

## Results that are not what one might expect

- `LStrLib.PlainIff`: the plain search and the matcher differ on a pattern that has no special character
  but a `)` or a zero.
- `TableCounts.LostKey`: a value beyond slot 2^26 of an array part is not counted by a rehash. What
  that means is in `LTable.RoomyIff`: the parts that it makes may be too small, as in
  `LTable.NoRoomBeyond`, and re-inserting the keys then starts a rehash inside the rehash.
- `BytecodeProof.RoundTrip` asks for a source in every function. A function without one cannot come
  from this code: `open_func` (`lparser.c:345`) sets it, and loading substitutes that of the enclosing
  function, or "=?". `LoadedChunks.Reload` proves that whatever has been loaded comes back.
- `LTable.OverflowKeeps`: although `resize` enlarges the array part before it raises "table overflow", a
  program that catches the error finds every value where it was.

## Model

| member | source | states |
|---|---|---|
| Compilation.CompileOk | librarys/src/main/jni/lua/lcode.c:390-781 | For every expression over constants, locals, upvalues, globals, indexing, arithmetic, `..`, comparisons, `not`, `and`, `or`: from any reachable generator state, running the emitted code fails exactly when evaluating the expression is an error, and otherwise delivers its value where the descriptor says (register, pending instruction, or jump lists), with every register below the entry free register unchanged |
| Compilation.CompileBool | librarys/src/main/jni/lua/lcode.c:710-748 | The induction step for `and` and `or`: the second operand runs exactly when the first one does not decide, and the joined exit lists deliver the first operand's value |
| Compilation.CompileStrict | librarys/src/main/jni/lua/lcode.c:710-781 | The induction step for arithmetic, concatenation and comparison: both operands are evaluated once, in order, and the operator is applied to their values |
| Compilation.CompileIndex | librarys/src/main/jni/lua/lcode.c:621-624 | The induction step for `t[k]`: both parts stay in registers or constants until the access |
| Compilation.PrefixOk | librarys/src/main/jni/lua/lcode.c:689-707 | After luaK_prefix the descriptor means the negated, complemented or measured value, folded numerals included |
| Compilation.ConcatMerge | librarys/src/main/jni/lua/lcode.c:753-760 | When the right operand is a concatenation, extending its instruction by one register means concatenating the left operand in front |
| Operators.PosfixArith | librarys/src/main/jni/lua/lcode.c:653-670 | codearith: the descriptor means the operator applied to both operands' values, whether it was folded or emitted |
| Operators.PosfixCompare | librarys/src/main/jni/lua/lcode.c:673-686 | codecomp: the comparison and its jump mean the comparison of both values, also for `~=`, `>` and `>=`, which exchange operands or invert the condition |
| Operators.FoldedValue | librarys/src/main/jni/lua/lcode.c:627-650 | A folded constant is the value the instruction would compute |
| Operators.ArithOperands | librarys/src/main/jni/lua/lcode.c:653-670 | Settling the second operand first, and then the first, leaves both in place at the same time |
| Operators.KeptAgain | librarys/src/main/jni/lua/lcode.c:710-734 | An operand that luaK_infix has settled is not changed by a second luaK_exp2RK |
| Negation.CodeNotOk | librarys/src/main/jni/lua/lcode.c:586-618 | codenot: the descriptor means the negated value on every way out, after exchanging both lists and dropping the values their tests would have carried |
| Negation.RemoveRun | librarys/src/main/jni/lua/lcode.c:144-147 | removevalues changes no run of code whose listed jumps are still open |
| Conditions.GoIfOk | librarys/src/main/jni/lua/lcode.c:539-583 | goiftrue and goiffalse: control goes on exactly when the value counts as true (false), and otherwise leaves by the false (true) list |
| Conditions.JumpOnCondOk | librarys/src/main/jni/lua/lcode.c:524-536 | jumponcond: the jump is taken exactly on the condition, also when a NOT just emitted is removed and its operand tested the other way round |
| Conditions.InvertSwaps | librarys/src/main/jni/lua/lcode.c:516-521 | Inverting a comparison exchanges falling through and leaving through its jump, and nothing else |
| Operands.Exp2RKOk | librarys/src/main/jni/lua/lcode.c:444-469 | The operand returned by luaK_exp2RK is a register or a constant with the value of the expression |
| Operands.OperandLimit | librarys/src/main/jni/lua/lcode.c:460-468 | Exactly the constants with an index up to 255 are operands themselves; others go to a register |
| Operands.Exp2NextRegOk | librarys/src/main/jni/lua/lcode.c:414-419 | The value is in the first register that was free, which is the only one reserved |
| Operands.Exp2AnyRegOk | librarys/src/main/jni/lua/lcode.c:422-433 | The value is in some register: its own one, if it is not pending |
| Operands.Exp2ValOk | librarys/src/main/jni/lua/lcode.c:436-441 | The value is no longer pending in jump lists |
| JumpClosing.Exp2RegOk | librarys/src/main/jni/lua/lcode.c:390-411 | exp2reg: on every way the expression can deliver its value, falling through or through either list, the value is in `reg` at the final label |
| JumpClosing.CloseRun | librarys/src/main/jni/lua/lcode.c:394-407 | After both lists are patched, leaving through a member means arriving at the end with its value in `reg`: through the TESTSET that carries it, or through the load of true or false |
| JumpClosing.TwoPatchesRun | librarys/src/main/jni/lua/lcode.c:404-406 | Patching both lists of an expression changes a run only where it left through a member, which now goes on at its own destination |
| RegisterLoads.Discharge2RegOk | librarys/src/main/jni/lua/lcode.c:343-379 | discharge2reg: whatever kind of value the descriptor stands for, it is in `reg` afterwards, and its pending jumps are as before |
| RegisterLoads.NilRun | librarys/src/main/jni/lua/lcode.c:35-56 | luaK_nil sets exactly the n registers to nil, whether it emits an instruction, extends the previous one, or relies on the registers of a fresh activation |
| ExpMeaning.DischargeVarsOk | librarys/src/main/jni/lua/lcode.c:304-334 | luaK_dischargevars keeps the meaning of a descriptor and leaves a register or a pending instruction |
| GenInvariant.JumpSem | librarys/src/main/jni/lua/lcode.c:59-66 | luaK_jump: whoever arrives here, or was waiting to, leaves through the new list, and nobody else does |
| GenInvariant.DischargeRun | librarys/src/main/jni/lua/lcode.c:163-166 | dischargejpc: running the patched code arrives here exactly when it arrived before, or had left through a jump that was waiting for this place |
| GenInvariant.EmitRun | librarys/src/main/jni/lua/lcode.c:789-801 | luaK_code: a run that reaches the old end, the jumps waiting for it included, executes the new instruction, and every other run is as before |
| GenInvariant.CondJumpRun | librarys/src/main/jni/lua/lcode.c:74-77 | condjump: a run that arrives leaves through the new jump or goes on, as the test says |
| PartialCode.RunAppend | librarys/src/main/jni/lua/lcode.c:789-801 | Appending instructions matters only to runs that reach the old end |
| PartialCode.RunRetest | librarys/src/main/jni/lua/lcode.c:144-147 | Turning TESTSETs of open jumps into TESTs changes no run |
| ReturnStatements.ReturnOk | librarys/src/main/jni/lua/lparser.c:1238-1268 | From any generator state with no temporary in use, the code of `return e1, ..., en` returns exactly the values of the expressions in the registers that a run has when it comes there, fails exactly when one of them is an error, and does not touch runs that failed, returned or left before |
| ReturnStatements.FunctionOk | librarys/src/main/jni/lua/lparser.c:1238-1268 | The same for a whole function body entered with its arguments in the first registers |
| Chunk.CompileAndRun | librarys/src/main/jni/lua/lparser.c:1238-1268 | From tokens to results: the function is refused exactly when it cannot be read or its code does not fit the instruction format, and otherwise reading, compiling in place and executing it gives what the expressions that the grammar derives from the tokens mean |
| LuaValues.ArithMeanings | librarys/src/main/jni/lua/lvm.c:364-373 | Arithmetic on two numbers is the machine operation, and anything else goes to the slow path with the operands in order; likewise negation, length, concatenation and access |
| LuaValues.LogicMeanings | librarys/src/main/jni/lua/lobject.h:103 | Only nil and false are false for not, and, or |
| LuaValues.CompareMeanings | librarys/src/main/jni/lua/lcode.c:673-686 | a > b means b < a and a >= b means b <= a; inequality is the negation of equality |
| LuaValues.OperandErrors | librarys/src/main/jni/lua/lcode.c:710-720 | The second operand is evaluated only when the first does not decide, and otherwise an error in an operand is an error |
| Chunk.RetStatement | librarys/src/main/jni/lua/lparser.c:1238-1268 | retstat on the parser's and the generator's state: it succeeds exactly when the list can be read and its code fits, and the code is that of the specification |
| Chunk.ExpList1 | librarys/src/main/jni/lua/lparser.c:596-606 | explist1: every value but the last is pushed before the next expression is read |
| Chunk.EmitReturn | librarys/src/main/jni/lua/lparser.c:1257-1267 | One value is returned from wherever it is, several from the row of registers above the active variables |
| LCode.FuncState.FixJump | librarys/src/main/jni/lua/lcode.c:80-87 | The offset is written exactly when it is in range; otherwise the code is unchanged and an error is raised |
| LCode.FuncState.GetLabel | librarys/src/main/jni/lua/lcode.c:94-97 | The current position is returned and recorded as the last target |
| JumpLists.ChainAt | librarys/src/main/jni/lua/lcode.c:100-106 | Every member of a list links to the next one, and the last to NO_JUMP |
| JumpLists.ChainAppend | librarys/src/main/jni/lua/lcode.c:185-196 | Redirecting the last link of one list to another list's head gives their concatenation, when they have no common member |
| LCode.FuncState.ConcatList | librarys/src/main/jni/lua/lcode.c:185-196 | luaK_concat: the result lists the first list's members and then the second's; it fails exactly when the link does not fit, and no other jump changes |
| LCode.FuncState.GetJumpControl | librarys/src/main/jni/lua/lcode.c:109-115 | The instruction controlling a jump: the test in front of it, or the jump itself |
| LCode.FuncState.NeedValue | librarys/src/main/jni/lua/lcode.c:122-128 | True exactly when some member of the list is not controlled by a TESTSET |
| LCode.FuncState.PatchTestReg | librarys/src/main/jni/lua/lcode.c:131-141 | A controlling TESTSET gets its register, or becomes a TEST when none is wanted or it is the tested one; anything else is left alone and reported |
| LCode.FuncState.RemoveValues | librarys/src/main/jni/lua/lcode.c:144-147 | Exactly the TESTSETs controlling members of the list become TESTs |
| LCode.FuncState.PatchListAux | librarys/src/main/jni/lua/lcode.c:150-160 | Each member goes to vtarget with its register filled in if a TESTSET controls it, and to dtarget otherwise, whatever these targets are; it fails exactly when one is out of range; no jump outside the list changes |
| LCode.FuncState.DischargeJpc | librarys/src/main/jni/lua/lcode.c:163-166 | All jumps waiting for the current position now lead there, and none waits any more |
| LCode.FuncState.PatchToHere | librarys/src/main/jni/lua/lcode.c:179-182 | The members of the list wait for the next instruction, after those that waited before |
| LCode.FuncState.Code | librarys/src/main/jni/lua/lcode.c:789-801 | The instruction is appended after the waiting jumps have been resolved; no other jump changes |
| LCode.FuncState.Jump | librarys/src/main/jni/lua/lcode.c:59-66 | The jumps that waited for this place now wait with the new jump, which heads their list |
| LCode.FuncState.CondJump | librarys/src/main/jni/lua/lcode.c:74-77 | The test is followed by a jump that is a list of its own |
| LCode.FuncState.CheckStack | librarys/src/main/jni/lua/lcode.c:199-206 | The frame size grows as needed; it fails exactly at MAXSTACK |
| LCode.FuncState.ReserveRegs | librarys/src/main/jni/lua/lcode.c:209-212 | n registers are reserved within the frame |
| LCode.FuncState.FreeReg | librarys/src/main/jni/lua/lcode.c:215-220 | Only a temporary is freed, and it was the topmost register |
| LCode.FuncState.FreeExp | librarys/src/main/jni/lua/lcode.c:223-226 | The register of a value is freed if it is a temporary |
| LCode.FuncState.AddK | librarys/src/main/jni/lua/lcode.c:229-247 | A constant equal to an earlier one shares its index; a new one gets the next, up to MAXARG_Bx |
| LCode.FuncState.Nil | librarys/src/main/jni/lua/lcode.c:35-56 | The previous LOADNIL is extended, nothing is emitted at the start of a function, or a LOADNIL is, just as the specification says |
| LCode.FuncState.DischargeVars | librarys/src/main/jni/lua/lcode.c:304-334 | The generator's state and the descriptor are those of the specification; jumps waiting for somebody else keep their links |
| LCode.FuncState.CodeLabel | librarys/src/main/jni/lua/lcode.c:337-340 | A jump target is recorded in front of the emitted LOADBOOL |
| LCode.FuncState.Discharge2Reg | librarys/src/main/jni/lua/lcode.c:343-379 | As the specification, on the code array: SETARG_A on a pending instruction, one load otherwise |
| LCode.FuncState.Discharge2AnyReg | librarys/src/main/jni/lua/lcode.c:382-387 | As the specification: a value not in a register gets the next one |
| LCode.FuncState.WithLoads | librarys/src/main/jni/lua/lcode.c:398-403 | The loads of false and true, jumped over unless control falls into them, and their positions |
| LCode.FuncState.PatchBoth | librarys/src/main/jni/lua/lcode.c:405-406 | Both lists go to the final label with their values, or to the load of their truth value |
| LCode.FuncState.CloseJumps | librarys/src/main/jni/lua/lcode.c:394-407 | The end of exp2reg as the specification has it, with the loads only when a jump needs one |
| LCode.FuncState.Exp2Reg | librarys/src/main/jni/lua/lcode.c:390-411 | As the specification JumpClosing.Exp2RegOk is about; it fails exactly when a jump does not fit |
| LCode.FuncState.Exp2NextReg | librarys/src/main/jni/lua/lcode.c:414-419 | As the specification Operands.Exp2NextRegOk is about |
| LCode.FuncState.Exp2AnyReg | librarys/src/main/jni/lua/lcode.c:422-433 | As the specification Operands.Exp2AnyRegOk is about |
| LCode.FuncState.Exp2Val | librarys/src/main/jni/lua/lcode.c:436-441 | As the specification Operands.Exp2ValOk is about |
| LCode.FuncState.Exp2RK | librarys/src/main/jni/lua/lcode.c:444-469 | As the specification Operands.Exp2RKOk is about, with the operand encoded as a register or a constant index |
| LCode.FuncState.InvertJump | librarys/src/main/jni/lua/lcode.c:516-521 | The condition of the comparison in front of the jump is flipped, and no jump changes |
| LCode.FuncState.JumpOnCond | librarys/src/main/jni/lua/lcode.c:524-536 | As the specification Conditions.JumpOnCondOk is about |
| LCode.FuncState.GoIfTrue | librarys/src/main/jni/lua/lcode.c:539-560 | As the specification Conditions.GoIfOk is about |
| LCode.FuncState.GoIfFalse | librarys/src/main/jni/lua/lcode.c:563-583 | As the specification Conditions.GoIfOk is about |
| LCode.FuncState.CodeNot | librarys/src/main/jni/lua/lcode.c:586-618 | As the specification Negation.CodeNotOk is about |
| LCode.FuncState.Indexed | librarys/src/main/jni/lua/lcode.c:621-624 | The key becomes an operand and the descriptor an indexed one |
| LCode.FuncState.ConstFolding | librarys/src/main/jni/lua/lcode.c:627-650 | Two numerals are folded unless the operation is a division or modulo by zero or the result is not a number |
| LCode.FuncState.CodeArith | librarys/src/main/jni/lua/lcode.c:653-670 | As the specification Operators.PosfixArith is about |
| LCode.FuncState.CodeConcat | librarys/src/main/jni/lua/lcode.c:653-670 | As the specification: one CONCAT over both registers |
| LCode.FuncState.CodeUnary | librarys/src/main/jni/lua/lcode.c:653-670 | As the specification: the operand is settled, freed, and the instruction left pending |
| LCode.FuncState.CodeComp | librarys/src/main/jni/lua/lcode.c:673-686 | As the specification Operators.PosfixCompare is about |
| LCode.FuncState.Prefix | librarys/src/main/jni/lua/lcode.c:689-707 | As the specification Compilation.PrefixOk is about |
| LCode.FuncState.Infix | librarys/src/main/jni/lua/lcode.c:710-734 | As the specification: the first operand is settled as its operator needs it |
| LCode.FuncState.Posfix | librarys/src/main/jni/lua/lcode.c:737-781 | As the specification Compilation.CompileOk is about, operand order and inverted comparisons included |
| LCode.FuncState.JoinExits | librarys/src/main/jni/lua/lcode.c:739-752 | The exits of the first operand of `and` or `or` follow those of the second |
| LCode.FuncState.PosfixConcat | librarys/src/main/jni/lua/lcode.c:753-766 | A concatenation to the right takes one more operand instead of a second instruction |
| Vm.Execute | librarys/src/main/jni/lua/lvm.c:376-653 | The interpreter loop on a code array: where a run of the symbolic code ends, the loop ends with the same results or the same error |
| Vm.CompleteEnds | librarys/src/main/jni/lua/ldebug.c:276-285 | Code whose last instruction is a return and whose jumps stay inside ends by a return or an error from every position, with any registers |
| Vm.ExecuteOne | librarys/src/main/jni/lua/lvm.c:407-540 | One instruction that falls through has the effect its specification gives it on the registers |
| Vm.SetNils | librarys/src/main/jni/lua/lvm.c:420-426 | OP_LOADNIL sets exactly registers a to b |
| Vm.Concatenate | librarys/src/main/jni/lua/lvm.c:282-314 | Concatenating from the right gives the right-associated result, and an error exactly when that has one |
| Grammar.ReadsGrammar | librarys/src/main/jni/lua/lparser.c:828-853 | subexpr reads an expression from tokens if and only if the manual's grammar, with the operators of each level and their associativity written out, derives it from them, unless it is nested too deeply |
| Grammar.SubSound | librarys/src/main/jni/lua/lparser.c:828-853 | With any limit, what subexpr reads is derived at the level of that limit from exactly the tokens it takes, and no tighter operator follows |
| Grammar.SubComplete | librarys/src/main/jni/lua/lparser.c:828-853 | What is derived at a level is read as one operand, whatever follows that does not bind tighter |
| Grammar.Unambiguous | librarys/src/main/jni/lua/lparser.c:806-815 | No tokens are derived as two expressions |
| Grammar.TwoOperators | librarys/src/main/jni/lua/lparser.c:806-815 | In a o1 b o2 c the operator of the tighter level takes b, and of one level the left one does, except for .. and ^ |
| Grammar.UnaryFirst | librarys/src/main/jni/lua/lparser.c:821-840 | A unary operator before a o b applies to a, and to the whole only when o is ^ |
| Grammar.ReturnReads | librarys/src/main/jni/lua/lparser.c:1238-1268 | The expressions of a return statement are those the grammar derives between its commas |
| Syntax.RoundTrip | librarys/src/main/jni/lua/lparser.c:775-853 | Printing any operator tree with parentheses wherever the priority table needs them and reading it with subexpr gives the same tree back, exactly when it nests no deeper than LUAI_MAXCCALLS; with right-associative `^` and `..`, and unary operators between `*` and `^` |
| Syntax.ReadBack | librarys/src/main/jni/lua/lparser.c:828-853 | The same in any context: at any limit and level, followed by any tokens that do not extend the expression |
| Syntax.MarkedStrip | librarys/src/main/jni/lua/lparser.c:810-820 | The tree that is read differs only in the parentheses that printing added |
| Syntax.SearchVar | librarys/src/main/jni/lua/lparser.c:207-214 | The innermost declaration of a name, or none |
| LParser.LexState.FindVar | librarys/src/main/jni/lua/lparser.c:207-214 | The loop finds the innermost declaration |
| LParser.LexState.SingleVar | librarys/src/main/jni/lua/lparser.c:224-253 | A name is a local variable, a variable of an enclosing function or a global one, in that order, and its descriptor means its value |
| LParser.LexState.CodeString | librarys/src/main/jni/lua/lparser.c:133-135 | A string is a constant of the function |
| LParser.LexState.Field | librarys/src/main/jni/lua/lparser.c:407-415 | `v.s` compiles to an access with the constant key |
| LParser.LexState.Subscript | librarys/src/main/jni/lua/lparser.c:418-424 | `v[e]` is read and compiled to an access with the value of e as key |
| LParser.LexState.PrefixExp | librarys/src/main/jni/lua/lparser.c:667-687 | A variable or a parenthesized expression is read, or an error is raised, as the grammar says, and compiled |
| LParser.LexState.PrimaryExp | librarys/src/main/jni/lua/lparser.c:690-724 | With all its suffixes |
| LParser.LexState.SimpleExp | librarys/src/main/jni/lua/lparser.c:727-775 | Literals and primary expressions are read and compiled |
| LParser.LexState.SubExpr | librarys/src/main/jni/lua/lparser.c:828-853 | subexpr in place: exactly the tokens the grammar assigns to the expression are consumed, it fails exactly when they cannot be read or the code does not fit, and the code is that of the tree |
| LParser.LexState.OperatorLoop | librarys/src/main/jni/lua/lparser.c:839-850 | The loop reads exactly the operators that bind tighter than the limit |
| LParser.LexState.Binary | librarys/src/main/jni/lua/lparser.c:844-849 | The right operand is read with the operator's right priority and combined with the left one |
| ColourBits.Tests | librarys/src/main/jni/lua/lgc.h:65-70 | The bit tests of the byte `marked` decide the colour, deadness, and survival in the sweep, fixed objects included |
| ColourBits.Changes | librarys/src/main/jni/lua/lgc.c:32-38 | Each bit operation of the collector makes the colour change its name says and leaves the fixed bit alone |
| Collector.GlobalState.ReallyMark | librarys/src/main/jni/lua/lgc.c:69-112 | The object and everything it refers to that cannot wait in a gray list is marked; only objects of any closed set that contains it are, and no marked one changes |
| Collector.GlobalState.PropagateMark | librarys/src/main/jni/lua/lgc.c:277-320 | One gray object is traversed, threads stay gray for the atomic phase, and no black object refers to a white one |
| Collector.GlobalState.PropagateAll | librarys/src/main/jni/lua/lgc.c:323-327 | The gray list is empty, and no black object refers to a white one |
| Collector.GlobalState.MarkRoot | librarys/src/main/jni/lua/lgc.c:501-512 | Main thread, registry and metatables are marked, and the mark phase begins with its invariant |
| Collector.GlobalState.RemarkUpvals | librarys/src/main/jni/lua/lgc.c:515-522 | What open upvalues of unmarked threads hold is marked |
| Collector.GlobalState.FinishMarking | librarys/src/main/jni/lua/lgc.c:525-542 | When the atomic phase has traversed everything again, no marked object refers to a white one and all roots are marked |
| Collector.GlobalState.Atomic | librarys/src/main/jni/lua/lgc.c:525-553 | The whites change roles; nothing reachable has the dead white, and everything alive belongs to any closed set that contains the roots |
| Collector.GlobalState.SweepOneString | librarys/src/main/jni/lua/lgc.c:407-428 | A string is freed exactly when it has the dead white and is not fixed, and otherwise becomes current white |
| Collector.GlobalState.SweepBucket | librarys/src/main/jni/lua/lgc.c:572-580 | A whole bucket is swept, and the string table still holds exactly the strings |
| Collector.GlobalState.SweepOneUpval | librarys/src/main/jni/lua/lgc.c:407-428 | An open upvalue is freed exactly when it has the dead white, and leaves all lists |
| Collector.GlobalState.SweepOneObject | librarys/src/main/jni/lua/lgc.c:407-428 | One turn of the sweep of the root list frees only a dead object and whitens a live one, with the open upvalues of a thread swept first |
| Collector.GlobalState.FreeObject | librarys/src/main/jni/lua/lgc.c:378-401 | A dead object leaves the heap and its list; a thread closes its upvalues first, which keep their values |
| Collector.GlobalState.SweepRoot | librarys/src/main/jni/lua/lgc.c:407-428 | What has been swept stays so while upvalues closed during the sweep join the list |
| Collector.GlobalState.CheckSizes | librarys/src/main/jni/lua/lgc.c:431-437 | The string table is halved exactly when it is less than a quarter full, is large enough and no string sweep is under way |
| Collector.GlobalState.SingleStep | librarys/src/main/jni/lua/lgc.c:556-607 | One step of the state machine: each phase makes progress or goes over to the next one, the whites exchange roles only in the atomic step, objects are freed only while sweeping and only dead ones, and whatever the roots reach is still there with the same contents |
| Collector.GlobalState.StepPropagate | librarys/src/main/jni/lua/lgc.c:564-571 | The invariant of marking is kept by each step, with strict progress |
| Collector.GlobalState.StepSweepString | librarys/src/main/jni/lua/lgc.c:572-580 | The invariant of the string sweep is kept by each step, with strict progress |
| Collector.GlobalState.StepSweep | librarys/src/main/jni/lua/lgc.c:581-591 | The invariant of the root sweep is kept by each step, with strict progress |
| Collector.GlobalState.FinishSweep | librarys/src/main/jni/lua/lgc.c:636-652 | From any state the first part of a full collection ends the sweep; when a mark phase was abandoned, it frees nothing |
| Collector.GlobalState.FullGc | librarys/src/main/jni/lua/lgc.c:635-658 | From any collector state it terminates in the pause, and exactly the reachable and the fixed objects survive, with what they held |
| GcHeap.ReachLive | librarys/src/main/jni/lua/lgc.h:65-97 | Whatever the roots reach is in the heap and does not have the dead white |
| GcLists.NothingFreed | librarys/src/main/jni/lua/lgc.c:637-652 | A sweep that starts while nothing is dead frees nothing |
| GcLists.ExactlyFreed | librarys/src/main/jni/lua/lgc.c:407-428 | A complete sweep frees exactly the objects that were dead and not fixed |
| Barriers.BarrierF | librarys/src/main/jni/lua/lgc.c:661-671 | The forward barrier restores the invariant: it marks the white object while marking, and whitens the black one otherwise; the phases it excludes do not occur |
| Barriers.Barrier | librarys/src/main/jni/lua/lgc.h:86-87 | The macro acts exactly when a black object was made to refer to a white one |
| Barriers.BarrierBack | librarys/src/main/jni/lua/lgc.c:674-682 | A black table becomes gray and will be traversed again |
| Barriers.Link | librarys/src/main/jni/lua/lgc.c:685-691 | A new object is current white, heads the root list, and keeps the invariant of every phase |
| Barriers.CloseOne | librarys/src/main/jni/lua/lgc.c:694-710 | One turn of closing, with luaC_linkupval: a live upvalue gets its value and joins the root list under the invariant of the phase, a dead one is freed |
| Barriers.SetTable | librarys/src/main/jni/lua/lgc.h:89-90 | A write to a table with its barrier changes that field only and keeps the invariant of every phase |
| Barriers.SetField | librarys/src/main/jni/lua/lgc.h:92-94 | The same for other objects, with the forward barrier |
| Barriers.SetStack | librarys/src/main/jni/lua/lgc.c:256-274 | A write to a stack slot needs no barrier in any phase |
| Barriers.Safety | librarys/src/main/jni/lua/lgc.h:65-67 | Whatever the program can reach is in the heap and is not about to be freed |
| Programs.Run | librarys/src/main/jni/lua/lgc.c:556-710 | For every program of allocations, reads, barriered and stack writes, closures, string creation and thread switches, with collector steps and full collections anywhere in between: each instruction does what it means without a collector, the collector only takes away unreachable objects, and at every moment everything reachable is in the heap |
| Programs.RunNew | librarys/src/main/jni/lua/lstate.c:143-190 | The same for any program that starts in a new state |
| Programs.NewState | librarys/src/main/jni/lua/lstate.c:70-81 | A new state has a main thread with an empty stack, which is fixed, and an empty registry, and meets every invariant of the collector |
| Programs.Perform | librarys/src/main/jni/lua/lgc.c:556-710 | One instruction, or collector step, has exactly its effect on what the program can see |
| Programs.StackLaw | librarys/src/main/jni/lua/lvm.c:407-410 | A slot that is written reads the value and no other slot changes |
| Programs.FieldLaw | librarys/src/main/jni/lua/lvm.c:457-460 | So does a field of a table |
| Programs.CaptureLaw | librarys/src/main/jni/lua/lvm.c:723-741 | A captured slot is read through its upvalue, and an inherited upvalue is the same cell |
| Programs.StepCollector | librarys/src/main/jni/lua/lgc.c:556-607 | A collector step only takes away what the program cannot reach |
| Programs.Collect | librarys/src/main/jni/lua/lgc.c:610-632 | So does any number of them |
| Programs.GetField | librarys/src/main/jni/lua/lvm.c:427-443 | The value read through a table, object or upvalue cell, which is never a dead object |
| Programs.PutField | librarys/src/main/jni/lua/lvm.c:444-460 | The value is written to the field or the shared cell, each with its barrier |
| Programs.FindUpvals | librarys/src/main/jni/lua/lvm.c:723-741 | OP_CLOSURE: each captured slot gets the upvalue that shares it already, or a new one |
| Programs.SetStackSize | librarys/src/main/jni/lua/lfunc.c:96-112 | Slots disappear only after their upvalues are closed |
| Barriers.FindUpval | librarys/src/main/jni/lua/lfunc.c:53-79 | The upvalue of a live slot: the one there is, taken back from the dead white if need be, or a new one, with the list still strictly descending |
| Barriers.UpvalUnique | librarys/src/main/jni/lua/lfunc.c:53-79 | No two open upvalues share a slot |
| Barriers.CloseDead | librarys/src/main/jni/lua/lfunc.c:89-93 | A dead upvalue leaves the lists and the heap, and nothing else changes |
| Barriers.Close | librarys/src/main/jni/lua/lfunc.c:96-112 | No slot at the level or above is shared any more; every surviving upvalue reads what it read before, and only dead ones disappear |
| Barriers.SetUpval | librarys/src/main/jni/lua/lvm.c:451-456 | The write goes to the one abstract cell: the slot while the upvalue is open, its own value afterwards |
| Barriers.CellReads | librarys/src/main/jni/lua/lvm.c:427-431 | After a write to a slot the open upvalue of that slot reads the new value, and every other upvalue what it read before |
| Barriers.CellsApart | librarys/src/main/jni/lua/lfunc.c:96-112 | Once closed, an upvalue and its old slot are two independent cells |
| StringTables.Interned | librarys/src/main/jni/lua/lstring.c:75-93 | A string with given bytes is in the bucket of their hash, if anywhere |
| Barriers.NewString | librarys/src/main/jni/lua/lstring.c:75-93 | There is exactly one string with the bytes; an existing one is returned, taken back from the dead white when the sweep has not reached it, and is not freed by that sweep |
| Barriers.AddString | librarys/src/main/jni/lua/lstring.c:50-72 | A new string is chained and counted; the table doubles exactly when it is too crowded, not too large and not being swept |
| Barriers.CountsStrings | librarys/src/main/jni/lua/lstring.c:50-93 | `nuse` counts the chained strings, which are exactly the strings of the heap |
| Barriers.Fix | librarys/src/main/jni/lua/lstring.h:24 | A fixed string survives every collection |
| Collector.GlobalState.Resize | librarys/src/main/jni/lua/lstring.c:22-47 | Every string moves to the chain of its hash in the new table, except during the string sweep |
| Collector.GlobalState.Rechain | librarys/src/main/jni/lua/lstring.c:32-41 | One string moves to the head of its new chain |
| LTable.SetAll | librarys/src/main/jni/lua/ltable.c:399-505 | After any run of assignments, removals and re-insertions included, every key has the last value assigned to it; assignments to nil, and those refused with "table overflow", change nothing, and the latter takes 2^26 assignments before |
| LTable.Table.Set | librarys/src/main/jni/lua/ltable.c:494-505 | The key has the value and no other key changes; nil keys are refused; "table overflow" happens only for a key without a value when too many keys remain for the hash part, and then no key loses its value |
| LTable.OverflowKeeps | librarys/src/main/jni/lua/ltable.c:297-304 | When the new hash part is refused after the array part has grown, the table is valid and every key has its value, because every node then holds a key that stays in the hash part |
| LTable.RoomyIff | librarys/src/main/jni/lua/ltable.c:333-349 | The parts that a rehash asks for hold all keys if and only if the values above slot 2^26, which it does not count, fit in what the rounding to a power of two leaves |
| LTable.RoomNeeded | librarys/src/main/jni/lua/ltable.c:306-321 | Without that room, no table with those parts can have values for all keys |
| LTable.CountedRoomy | librarys/src/main/jni/lua/ltable.c:222-244 | There is room whenever the array part has no value above slot 2^26 |
| LTable.NoRoomBeyond | librarys/src/main/jni/lua/ltable.c:333-349 | An array part with more than 2^26 values and nothing else leaves no room for a string key |
| LTable.Table.Get | librarys/src/main/jni/lua/ltable.c:435-491 | The value of a key, wherever it is |
| LTable.Table.Find | librarys/src/main/jni/lua/ltable.c:435-491 | The place of a key in the array or the hash part; none exactly when it is absent |
| LTable.Table.WalkChain | librarys/src/main/jni/lua/ltable.c:481-489 | The chain of the main position holds the key, if any node does |
| LTable.Table.GetFreePos | librarys/src/main/jni/lua/ltable.c:382-388 | The free pointer only moves down and stops at a node without a key; it fails only when every node has one |
| LTable.NoRoom | librarys/src/main/jni/lua/ltable.c:382-388 | When no node is free the hash part is full |
| LTable.Table.PlaceKey | librarys/src/main/jni/lua/ltable.c:399-429 | The new key gets a node, the colliding one moving if it is not at home, and no key's value changes |
| TableNodes.OverwriteOk | librarys/src/main/jni/lua/ltable.c:400-401 | Overwriting an entry without value in place, its link kept, breaks no chain |
| TableNodes.ChainOk | librarys/src/main/jni/lua/ltable.c:418-427 | Inserting the free node behind the key at home breaks no chain |
| TableNodes.MoveOk | librarys/src/main/jni/lua/ltable.c:409-417 | Moving a displaced node to the free one and taking its place breaks no chain, because its predecessor is unique and its own main position is held by a key at home |
| TableNodes.Absent | librarys/src/main/jni/lua/ltable.c:14-18 | A key that is not in the chain of its main position is nowhere |
| TableNodes.MainPosIs | librarys/src/main/jni/lua/ltable.c:84-113 | Strings and booleans go to their hash modulo the size, anything else modulo the odd number below it, and the number 0 to the first node |
| LTable.Table.NewKey | librarys/src/main/jni/lua/ltable.c:399-429 | The key gets a place and no value changes, also when it is refused; inside a rehash there is always a place, so that rehashes never nest |
| LTable.Table.Rehash | librarys/src/main/jni/lua/ltable.c:333-349 | The new parts have room for all keys and the new one, the array size is the optimal one, and no value changes; it overflows exactly when more than 2^26 keys are asked for the hash part, and then no value changes either |
| LTable.Table.Resize | librarys/src/main/jni/lua/ltable.c:297-324 | All keys move to parts that are large enough for them, without another rehash, and no value changes; too many nodes are an error, after which only the array part may be longer |
| LTable.Table.CountKeys | librarys/src/main/jni/lua/ltable.c:336-344 | The counts by slice, the number of candidates for the array part and the number of keys are those of the values below slot 2^26, the nodes and the new key |
| LTable.Table.NewSizes | librarys/src/main/jni/lua/ltable.c:333-347 | The keys are counted and the sizes computed: the optimal array size, and for the hash part the keys that are left, less those not counted |
| LTable.Table.SetNodeVector | librarys/src/main/jni/lua/ltable.c:272-294 | A new empty hash part of a power of two that holds the size, or the dummy node; more than 2^26 nodes are an error |
| LTable.Table.GrowArray | librarys/src/main/jni/lua/ltable.c:263-269 | The array part keeps its values and gets nils |
| LTable.Table.ResizeArray | librarys/src/main/jni/lua/ltable.c:327-330 | The array part gets the size and no value changes; a larger one never fails |
| LTable.NewTable | librarys/src/main/jni/lua/ltable.c:358-371 | A new table has parts of the sizes asked for and no key; more than 2^26 nodes are an error |
| LTable.Table.GetN | librarys/src/main/jni/lua/ltable.c:560-576 | luaH_getn returns a border |
| LTable.Table.UnboundSearch | librarys/src/main/jni/lua/ltable.c:532-553 | The search beyond the array part ends at a border, with the linear search when the index would overflow |
| TableSizes.ComputeSizes | librarys/src/main/jni/lua/ltable.c:189-208 | n is 0 or the largest power of two such that more than half of 1..n are in use, and na is exactly the number of keys there, despite skipping empty slices and stopping early |
| TableSizes.Log2 | librarys/src/main/jni/lua/lobject.c:54-69 | luaO_log2 is the floor of the logarithm, and -1 for 0 |
| TableSizes.CeilLog2 | librarys/src/main/jni/lua/lobject.h:367 | The slice a number falls into |
| TableSizes.SliceUnique | librarys/src/main/jni/lua/ltable.c:189-208 | Slices do not overlap |
| TableCounts.CountInt | librarys/src/main/jni/lua/ltable.c:211-219 | A key that may index the array part is counted in its slice, any other is not |
| TableCounts.NumUseArray | librarys/src/main/jni/lua/ltable.c:222-244 | All values of the array part up to 2^26 are counted slice by slice |
| TableCounts.AllArray | librarys/src/main/jni/lua/ltable.c:222-244 | That misses no value if and only if there is none above 2^26 |
| TableCounts.LostKey | librarys/src/main/jni/lua/ltable.c:222-244 | A value above 2^26 in the array part is not counted |
| TableCounts.NumUseHash | librarys/src/main/jni/lua/ltable.c:247-260 | The live keys of the nodes are counted, and those that may index the array part in their slices |
| TableCounts.ArrayIndexWithin | librarys/src/main/jni/lua/ltable.c:120-129 | Exactly the integers from 1 to n index an array part of n slots |
| PatternText.TextMeans | librarys/src/main/jni/lua/lstrlib.c:365-440 | For every pattern written from a tree of pieces, with each character, class and range written out, the matches are those that the tree means |
| PatternText.EveryPattern | librarys/src/main/jni/lua/lstrlib.c:365-440 | Every pattern without a zero whose pieces can be read, and no range of which ends in a percent sign, is written from such a tree |
| PatternText.TreeWellFormed | librarys/src/main/jni/lua/lstrlib.c:185-200 | Such a pattern is well formed, and then never raises an error, if and only if its captures close what is open, are at most 32, and its copies name closed ones |
| PatternText.ClassIs | librarys/src/main/jni/lua/lstrlib.c:226-242 | match_class is the range of characters of its letter, the complement for a capital, and the character itself otherwise |
| PatternText.ClassLetters | librarys/src/main/jni/lua/lstrlib.c:226-242 | The ten classes as single-character items, range by range |
| PatternText.ClassOthers | librarys/src/main/jni/lua/lstrlib.c:226-242 | A capital is the complement of its letter, and any other character stands for itself |
| PatternText.SetIs | librarys/src/main/jni/lua/lstrlib.c:245-265 | A set, from bracket to bracket, has the characters of its members, or all others after ^ |
| PatternText.RangeSet | librarys/src/main/jni/lua/lstrlib.c:255-259 | [x-y] has exactly the characters from x to y |
| PatternProof.FoundIffMatches | librarys/src/main/jni/lua/lstrlib.c:365-440 | The results of the matcher are exactly the matches of the declarative relation, captures included |
| PatternProof.NoError | librarys/src/main/jni/lua/lstrlib.c:365-440 | A well-formed pattern raises no error on any subject |
| PatternProof.Greedy | librarys/src/main/jni/lua/lstrlib.c:301-313 | A greedy repetition takes the largest count for which the rest matches |
| PatternProof.Lazy | librarys/src/main/jni/lua/lstrlib.c:316-326 | A lazy repetition takes the smallest count for which the rest matches |
| PatternProof.ItemIn | librarys/src/main/jni/lua/lstrlib.c:414-437 | An item followed by `?`, `*`, `+`, `-` or nothing has exactly the results of its allowed repetitions |
| PatternProof.BalanceIs | librarys/src/main/jni/lua/lstrlib.c:281-298 | `%bxy` matches the shortest text from an x on with as many x as y |
| LStrLib.MatchState.Match | librarys/src/main/jni/lua/lstrlib.c:365-440 | match terminates with the result the search prefers, with NULL exactly when there is none, all captures being as on entry then, or with an error |
| LStrLib.MatchState.MaxExpand | librarys/src/main/jni/lua/lstrlib.c:301-313 | The same for a greedy repetition |
| LStrLib.MatchState.MinExpand | librarys/src/main/jni/lua/lstrlib.c:316-326 | The same for a lazy one |
| LStrLib.MatchState.StartCapture | librarys/src/main/jni/lua/lstrlib.c:329-340 | The capture is undone when the rest does not match; the 33rd is an error |
| LStrLib.MatchState.EndCapture | librarys/src/main/jni/lua/lstrlib.c:343-351 | The capture is open again when the rest does not match |
| LStrLib.MatchState.MatchCapture | librarys/src/main/jni/lua/lstrlib.c:354-362 | The subject must repeat the text of a closed capture |
| LStrLib.MatchState.CaptureToClose | librarys/src/main/jni/lua/lstrlib.c:194-200 | The last capture that is open |
| LStrLib.MatchState.FindClassEnd | librarys/src/main/jni/lua/lstrlib.c:202-223 | The end of a single-character item, or an error when it has none |
| LStrLib.MatchState.MatchBracketClass | librarys/src/main/jni/lua/lstrlib.c:245-265 | A character is in a set exactly when one of its items has it, complemented after `^` |
| LStrLib.MatchState.MatchSingle | librarys/src/main/jni/lua/lstrlib.c:268-275 | Whether a character matches an item |
| LStrLib.MatchState.MatchBalance | librarys/src/main/jni/lua/lstrlib.c:281-298 | The end of the balanced text |
| LStrLib.PlainIff | librarys/src/main/jni/lua/lstrlib.c:444-535 | For a pattern without special characters the plain search and the matcher agree on every subject and start if and only if the pattern holds no `)` and no zero |
| LStrLib.PlainResults | librarys/src/main/jni/lua/lstrlib.c:365-440 | On plain characters the matcher compares character by character |
| LStrLib.LMemFind | librarys/src/main/jni/lua/lstrlib.c:444-463 | The first occurrence from the start on, or none |
| LStrLib.SearchLoop | librarys/src/main/jni/lua/lstrlib.c:513-532 | The first start at which the matcher has a result, or just the first start for an anchored pattern |
| LStrLib.SearchMeans | librarys/src/main/jni/lua/lstrlib.c:513-532 | A search that succeeds matches where it says and nowhere before |
| LStrLib.HasNoSpecials | librarys/src/main/jni/lua/lstrlib.c:502-503 | strpbrk finds no special character before the first zero |
| LStrLib.InitOf | librarys/src/main/jni/lua/lstrlib.c:499-501 | Positions count from 1, or from the end when negative; those before the subject become its start, those behind it its end |
| LStrLib.PushedIff | librarys/src/main/jni/lua/lstrlib.c:466-492 | Pushing the captures fails exactly when one is still open |
| LStrLib.StrFindAux | librarys/src/main/jni/lua/lstrlib.c:495-535 | find gives the first occurrence of a plain pattern; otherwise the first start with a result decides: an error, or start + 1 and end with the captures as texts or positions in order, or for match these captures or the whole match; nothing exactly when no start has a result |
| LStrLib.PushedShown | librarys/src/main/jni/lua/lstrlib.c:466-492 | Capture i is pushed as the text it took or as its position counted from 1, in order, and only an open capture is an error |
| LTabLib.Sort | librarys/src/main/jni/lua/ltablib.c:193-265 | For any strict weak order the array is a sorted permutation, no access is out of bounds, the order errors are not raised, and calls nest at most 1 + log2(n + 1) deep |
| LTabLib.AuxSort | librarys/src/main/jni/lua/ltablib.c:193-254 | The part from l to u is sorted in place, nothing outside changes, and the nesting is bounded |
| LTabLib.SortSmaller | librarys/src/main/jni/lua/ltablib.c:245-252 | The recursive call is on the smaller part; the larger one is left to the loop |
| LTabLib.Partition | librarys/src/main/jni/lua/ltablib.c:222-240 | Everything before the meeting point is at most the pivot, everything from it on at least the pivot |
| LTabLib.ScanUp | librarys/src/main/jni/lua/ltablib.c:225-229 | The upward scan stops at the pivot at the latest, so that it stays inside and raises no error |
| LTabLib.ScanDown | librarys/src/main/jni/lua/ltablib.c:230-234 | The downward scan stops at what the upward scan has passed |
| LTabLib.Divide | librarys/src/main/jni/lua/ltablib.c:194-244 | Parts of two and three elements are sorted; a longer one is divided around a pivot in its final place |
| LTabLib.OrderEnds | librarys/src/main/jni/lua/ltablib.c:196-202 | The ends of the part are put in order |
| LTabLib.OrderMiddle | librarys/src/main/jni/lua/ltablib.c:204-216 | The middle element is put in order with both ends |
| LTabLib.PlacePivot | librarys/src/main/jni/lua/ltablib.c:241-244 | The pivot gets its final place |
| LTabLib.Swap | librarys/src/main/jni/lua/ltablib.c:173-176 | Two elements change places |
| LLex.QuoteRead | librarys/src/main/jni/lua/lstrlib.c:696-723 | For every byte string, whatever follows: reading its quoted form gives the same bytes and the right line number, and it is refused exactly when the line counter would run over |
| LLex.QuoteThenRead | librarys/src/main/jni/lua/llex.c:269-322 | addquoted and then read_string, in place: the same bytes, with the lexer just behind the closing quote |
| LLex.AddQuoted | librarys/src/main/jni/lua/lstrlib.c:696-723 | The quoted form is written character by character |
| LLex.Lexer.ReadString | librarys/src/main/jni/lua/llex.c:269-322 | read_string gives the meaning of the quoted text and consumes exactly that |
| LLex.Lexer.ReadEscape | librarys/src/main/jni/lua/llex.c:280-314 | Each escape stands for one byte, or ends the string with an error |
| LLex.Lexer.ReadDigits | librarys/src/main/jni/lua/llex.c:297-306 | A decimal escape takes up to three digits |
| LLex.Lexer.IncLineNumber | librarys/src/main/jni/lua/llex.c:129-137 | A pair of different line ends counts once; the counter's limit is an error |
| LLex.ZeroEscape | librarys/src/main/jni/lua/lstrlib.c:711-714 | A zero followed by digits is still read as a zero |
| StringText.PieceRead | librarys/src/main/jni/lua/llex.c:280-314 | Each spelling of a byte is read as that byte and takes its characters: itself, \a \b \t \n \v \f \r as 7 to 13, one to three digits, an escaped line end as 10, any other escaped character as itself |
| StringText.LiteralRead | librarys/src/main/jni/lua/llex.c:269-322 | A literal spelled in such pieces is read as their bytes, with its first error, whatever follows its delimiter |
| StringText.EveryLiteral | librarys/src/main/jni/lua/llex.c:269-322 | Every literal the lexer accepts is spelled in such pieces |
| StringText.UnfinishedRead | librarys/src/main/jni/lua/llex.c:271-279 | A line end or the end of the input before the delimiter leaves the literal unfinished |
| LAuxLib.Refs.Ref | librarys/src/main/jni/lua/lauxlib.c:481-501 | The reference was not live and reads the value now; the one freed last is used first, and a new one comes from a border only when none is free; after "table overflow" all live references are as they were |
| LAuxLib.RunRefs | librarys/src/main/jni/lua/lauxlib.c:481-512 | After any run of luaL_ref and luaL_unref, refused calls included, every reference that is held reads the value it was made for, no call has returned one that was held, the last one freed comes back first, and a call is refused only when the keys that the table had and the calls before it number 2^26 |
| LAuxLib.Perform | librarys/src/main/jni/lua/lauxlib.c:481-512 | One call changes what is held, and what is free, as its answer alone tells |
| LAuxLib.Refs.Unref | librarys/src/main/jni/lua/lauxlib.c:504-512 | The reference is not live any more and all others read their values; it heads the free list, unless the table is full and has no slot 0 |
| LAuxLib.Refs.Deref | librarys/src/main/jni/lua/lauxlib.c:481-512 | A live reference reads its value |
| LAuxLib.ReuseOk | librarys/src/main/jni/lua/lauxlib.c:488-494 | Taking the head off the free list through slot 0 keeps list and live references apart, and the head is in neither |
| LAuxLib.PlaceOk | librarys/src/main/jni/lua/lauxlib.c:495-499 | A slot that is neither live nor free can take a value |
| LAuxLib.FreeOk | librarys/src/main/jni/lua/lauxlib.c:504-512 | Putting a reference at the head keeps the list acyclic and apart from the live ones |
| LAuxLib.UnrefOk | librarys/src/main/jni/lua/lauxlib.c:506-510 | The same when the assignment to slot 0 is refused: then the list was empty, and the reference is only forgotten |
| BytecodeLayout.DumpIs | librarys/src/main/jni/lua/ldump.c:129-163 | A dump is the documented format byte by byte: the twelve header bytes, the fields of a function in order, ints from the lowest byte, strings with size and final zero, constants with their tags |
| BytecodeLayout.UndumpReads | librarys/src/main/jni/lua/lundump.c:185-211 | Such bytes load as that function if and only if every function has a source and the loader accepts it, and any other header is refused |
| BytecodeLayout.StrippedReads | librarys/src/main/jni/lua/lundump.c:161-211 | A stripped chunk loads with the source "=?" |
| BytecodeLayout.ConstReads | librarys/src/main/jni/lua/lundump.c:103-129 | The tags 0, 1, 3 and 4 are read as nil, boolean, number and string, and 2 is an error |
| BytecodeLayout.IntIs | librarys/src/main/jni/lua/ldump.c:45-48 | An int is its four bytes, the lowest first, in two's complement |
| BytecodeProof.RoundTrip | librarys/src/main/jni/lua/ldump.c:153-163 | Undump inverts dump if and only if every function of the tree has a source and the loader accepts it: no negative number, nesting within the limit, code the checker accepts |
| LoadedChunks.Reload | librarys/src/main/jni/lua/lundump.c:195-211 | Whatever bytes load, the function they give has sources, ranges and numbers as a dump needs them, and dumping and loading it gives it again |
| LoadedChunks.FunctionLoads | librarys/src/main/jni/lua/lundump.c:161-181 | A function loads only when it fits the machine, every function of its tree gets a source, and the loader accepts it |
| BytecodeProof.Stripped | librarys/src/main/jni/lua/ldump.c:111-141 | A stripped dump keeps everything but sources and debug information |
| BytecodeProof.SameTree | librarys/src/main/jni/lua/lundump.c:161-167 | Loading gives functions without a source that of the enclosing one, so that the tree is the same just when all have one |
| BytecodeProof.FunctionRead | librarys/src/main/jni/lua/lundump.c:161-181 | Loading the dump of a function, with anything behind it, consumes exactly the dump |
| BytecodeProof.TextRead | librarys/src/main/jni/lua/lundump.c:76-88 | A string comes back, NULL and the empty one told apart |
| Bytecode.IntBack | librarys/src/main/jni/lua/lundump.c:61-67 | A 32-bit int comes back from its four bytes |
| LUndump.ReloadPieces | librarys/src/main/jni/lua/lundump.c:195-211 | The same in place, through a reader that cuts the dump into any non-empty pieces |
| LDump.DumpState.DumpAll | librarys/src/main/jni/lua/ldump.c:153-163 | luaU_dump writes exactly the bytes of the documented format, unless the writer fails |
| LDump.DumpState.DumpBlock | librarys/src/main/jni/lua/ldump.c:29-37 | Nothing is written after a failure, and the failure is kept |
| LDump.DumpState.PutFunction | librarys/src/main/jni/lua/ldump.c:129-141 | A function's bytes are written, its source only when it differs from the enclosing one's |
| LDump.DumpState.PutConsts | librarys/src/main/jni/lua/ldump.c:80-105 | The constants' bytes are written with their type tags |
| LDump.DumpState.PutProtos | librarys/src/main/jni/lua/ldump.c:106-108 | The nested functions' bytes are written, each told the source of this one |
| LDump.DumpState.PutText | librarys/src/main/jni/lua/ldump.c:61-74 | NULL is written as size zero, an empty string as size one |
| LDump.DumpState.PutDebug | librarys/src/main/jni/lua/ldump.c:111-127 | The debug information, or three zero counts |
| LUndump.Zio.Read | librarys/src/main/jni/lua/lzio.c:58-71 | The next n bytes of the stream, however the pieces cut it, or how many are missing |
| LUndump.Zio.Fill | librarys/src/main/jni/lua/lzio.c:21-32 | The first byte of the next piece, or the end of the stream |
| LUndump.Zio.Lookahead | librarys/src/main/jni/lua/lzio.c:35-45 | A byte is at hand without being consumed, or the stream is at its end |
| LUndump.FlatIsConcat | librarys/src/main/jni/lua/lzio.c:58-71 | A stream of non-empty pieces is their concatenation |
| LUndump.LoadState.LoadAll | librarys/src/main/jni/lua/lundump.c:195-211 | Header and root function are read, or it fails exactly when they cannot be |
| LUndump.LoadState.LoadFunction | librarys/src/main/jni/lua/lundump.c:161-181 | A function is read, its missing source replaced; the nesting level is restored |
| LUndump.LoadState.LoadConsts | librarys/src/main/jni/lua/lundump.c:103-129 | The constants are read by their type tags; an unknown tag is an error |
| LUndump.LoadState.LoadProtos | librarys/src/main/jni/lua/lundump.c:130-134 | The nested functions are read with this function's source |
| LUndump.LoadState.LoadDebug | librarys/src/main/jni/lua/lundump.c:137-159 | The debug information is read |
| LUndump.LoadState.LoadString | librarys/src/main/jni/lua/lundump.c:76-88 | A string, or NULL for size zero |
| LUndump.LoadState.LoadInt | librarys/src/main/jni/lua/lundump.c:61-67 | An int that is not negative |
| LUndump.LoadState.LoadBlock | librarys/src/main/jni/lua/lundump.c:48-52 | The bytes asked for, or an error when some are missing |

## Left out

- Calls, methods, varargs, table constructors, nested functions and assignments in compiled code; the
  parser model refuses them. Statements other than `return`. Line information.
- The growth of the code vector and its limit; registers, jumps, constants and nesting do have theirs.
- luaK_patchlist to an earlier position, which only loops need.
- IEEE arithmetic, NaN and -0; the conversion of strings to numbers.
- Metamethods, coroutine switches inside library code, hooks, and reallocation of stacks.
- Weak tables, finalizers, and the pacing of the collector.
- The split of a thread's stack into frames: the stack is its live part.
- luaH_next, and keys of collected objects in tables; the collector's own traversal of table nodes.
- gsub, gmatch, format; the limit of the C stack in the matcher's recursion.
- Locales other than "C".
- The buffer of the lexer and its limit; tokens other than strings.
- zgetc after the end of a stream.
- The bytecode checker; only its verdict is used.
- Other byte orders and sizes than little-endian with 4-byte int, size_t and Instruction and 8-byte numbers.
- LTable.Table.ResizeArray: only sizes for which the old number of nodes holds the keys that are left over, as it does for every larger size; for others the re-insertion rehashes.
- LTable.Table.Set: only keys that do not start a rehash inside a rehash; that needs values above slot 2^26, and what such a rehash does is not modelled.
- LTable.Table.Rehash: only when its parts have room for all keys, which `LTable.RoomyIff` states exactly, for the same reason.
- PatternText.EveryPattern: not for patterns with a zero, at which the matcher stops, or with a range that ends in a percent sign, whose meaning the manual leaves open.
- Grammar.ReadsGrammar: an expression nested more than 200 deep may be refused, which `Syntax.RoundTrip` states exactly for printed ones.
- LTabLib.Sort: only for strict weak orders, because an inconsistent comparison may raise an error or read beyond the ends.
- LAuxLib.RunRefs: a table whose array part is not longer than 2^26 and has no slot 0, as a new one, because of the condition on rehashes; a call that gives back what is not held does nothing.
- LAuxLib.Refs.Unref: only for live references or negative numbers, because freeing any other slot breaks the free list.
- LCode.FuncState.Nil: relies on registers of a fresh activation being nil, because it emits nothing at the start of a function.
- Vm.Execute: only runs that end by a return or an error inside the function it was entered for, because calls are not modelled; `Vm.CompleteEnds` proves it of complete code.
- Programs.NewState: without the global table and the strings that a new state fixes.
