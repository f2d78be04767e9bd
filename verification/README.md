# Verified models of elune's core

elune is Lua 5.1 with a taint-tracking extension. This project models its algorithms and protocols in
Dafny and proves what they are for. Every module stands for one source file or one part of it, in the
form of the source: objects with fields that methods update, loops, and recursion where the source
recurses; the pure functions beside them say what those methods compute.

| file | module | what is modelled |
|---|---|---|
| `lobject.dfy`, `ltablesize.dfy`, `ltable.dfy` | LuaObject, TableSizes, LuaTable | tables: array part and chained scatter hash with Brent's variation, rehash by counting, traversal, length |
| `lvm.dfy`, `lcodesem.dfy` | Vm, CodeSemantics | the instructions expression code consists of, as an interpreter loop and as a run semantics with pending jumps |
| `lcode.dfy`, `lcodeexp.dfy`, `lparserexp.dfy` | LuaCode, LuaExpressions, LuaSubexpr | the code generator for expressions, with jump lists threaded through the code |
| `lgcheap.dfy`, `lgc.dfy`, `lgcrun.dfy` | GcHeap, LuaGc, LuaCollected | the incremental collector with two whites, barriers, the atomic phase and the sweeps, and programs running in between |
| `ldebug.dfy` | LuaChecker | the bytecode checker and the runs of what it accepts |
| `lpattern.dfy`, `lstrlib.dfy` | LuaPatterns, LuaStrLib | pattern matching: a declarative semantics, its ways in order of preference, and the backtracking matcher |
| `lsec.dfy` | LuaTaint | the taint machine under all instructions of Lua functions |
| `ldo.dfy` | LuaCalls | call frames and the open-call counters of closures |
| `lfunc.dfy` | LuaUpvalues | open upvalues, their pointers into the stack, and stack reallocation |
| `ltm.dfy` | LuaMeta | the cache of absent metamethods |
| `ltablib.dfy` | LuaSort | quicksort of `table.sort` |
| `lparser.dfy` | LuaPrecedence | precedence climbing |
| `llex.dfy` | LuaQuote | the `%q` format and the lexer's string reader |
| `ldump.dfy` | LuaChunk | precompiled chunks, written and read |
| `lauxlib.dfy` | LuaRef | references in a table |

Conventions. An error of the source is a value of a result type. Where an operation can fail because of a
limit (2^26 entries in a hash part, 249 registers, the offset of a jump, the number of constants, the
number of frames), its contract also says that it fails only then. Strings are interned values; the hash
function of a table is arbitrary. Ghost state carries the proofs: chain coordinates of hash nodes, the
jumps that are pending, the sources a value depends on.

Four properties do not hold of the code on all inputs, and the exact condition is proved instead. The
bytecode checker lets a LOADBOOL with C >= 2 pass that the machine lets skip (`AcceptedRuns`, with a
witness in `SkipLeavesCode`). A dump brings a function without a source back with its parent's
(`FullDump`). `string.find` searches for the bytes themselves when the pattern has no special characters, but
neither a zero nor a closing parenthesis counts as one (`ShortcutMeaning`). `luaO_int2fb` gives 0 for the largest unsigned int (`Int2Fb`).

## Model

| member | source | states |
|---|---|---|
| LuaTable.LinksAcyclicAndInjective | liblua/ltable.c:385-416 | links of hash nodes never lead back and no two nodes link to the same one, in every state the operations reach |
| LuaTable.BrentInvariant | liblua/ltable.c:385-416 | the invariant of Brent's variation: a node holding a key away from its main position is no key's main position, and the node at that position holds a key that belongs there |
| LuaTable.Table.FindInChain | liblua/ltable.c:421-452 | following links from the main position finds the key or proves it absent from every node |
| LuaTable.Table.LuaHGet | liblua/ltable.c:457-485 | the slot of the key, in the array or in a node; the shared nil exactly for keys with no slot |
| LuaTable.Table.GetFreePos | liblua/ltable.c:369-376 | the last node with a nil key below lastfree; -1 only when no node is free |
| LuaTable.MoveGuest | liblua/ltable.c:385-416 | relocating a colliding node that is out of its main position keeps the whole node structure in order |
| LuaTable.LinkAfter | liblua/ltable.c:385-416 | so does chaining the new key behind a colliding node that is in its own main position |
| LuaTable.ReuseNode | liblua/ltable.c:385-416 | so does taking over, link included, a main position whose value is nil |
| LuaTable.Table.NewKey | liblua/ltable.c:385-416 | a slot for the new key; every key reads as before; fails only for a table of at least 2^26 entries; with a free node there is no rehash |
| LuaTable.Table.LuaHSet | liblua/ltable.c:487-500 | the slot to write the key; nil is refused; a key that has a slot already moves nothing; after a rehash made room the insertion cannot rehash again (the termination measure and the Settled clause) |
| LuaTable.Table.LuaHSetNum | liblua/ltable.c:502-511 | the same for integer keys |
| LuaObject.Log2 | liblua/lobject.c:53-69 | the position of the highest set bit |
| LuaObject.CeilLog2 | liblua/lobject.h:270 | the exponent of the least power of two that is at least x |
| TableSizes.CountInt | liblua/ltable.c:199-207 | exactly the slice of the key counts one more, and only keys from 1 to 2^26 are counted |
| TableSizes.ComputeSizes | liblua/ltable.c:176-197 | the largest power of two n with more than n/2 of 1..n in use, 0 if none, and how many keys that takes from the hash |
| TableSizes.BestSizeUnique | liblua/ltable.c:176-197 | that size is unique |
| LuaTable.NumUseArray | liblua/ltable.c:209-233 | the slice counts of the non-nil array entries |
| LuaTable.NumUseHash | liblua/ltable.c:235-248 | the number of hash entries, and the slice counts with their integer keys added |
| LuaTable.Table.Resize | liblua/ltable.c:283-314 | every entry survives a change of both sizes, and the re-insertions find room without rehashing |
| LuaTable.Table.LuaHResizeArray | liblua/ltable.c:316-319 | a larger array part with every entry kept; it cannot fail |
| LuaTable.Table.Rehash | liblua/ltable.c:321-340 | the best array size for the keys in use and the new one, and a node vector with room for exactly the other keys |
| LuaTable.Table.RawGet | liblua/ltable.c:457-485 | a lookup in the finite map the table stands for |
| LuaTable.Table.RawSet | liblua/lapi.c:639-652 | an update of that finite map; storing nil removes the key; assigning to a key with a slot keeps the traversal order |
| LuaTable.Table.RawSetAll | liblua/ltable.c:487-500 | any sequence of assignments acts on the table as on the finite map |
| LuaTable.Table.RemoveEntry | liblua/lgc.c:58-63 | marking the key of an empty entry dead changes no field |
| LuaTable.Table.FindIndex | liblua/ltable.c:126-149 | the place of a key in the traversal order, dead keys included; an error exactly when the key has none |
| LuaTable.FindIndexInverts | liblua/ltable.c:126-149 | a key that was returned is found again at the place it came from, after any overwriting and dying of entries |
| LuaTable.Table.LuaHNext | liblua/ltable.c:151-168 | the first non-nil entry behind the given key |
| LuaTable.TraversalVisitsOnce | liblua/ltable.c:151-168 | a traversal visits no key twice and ends after at most as many steps as there are slots |
| LuaTable.TraversalVisitsAll | liblua/ltable.c:151-168 | a finished traversal has visited every key that stayed non-nil |
| LuaTable.Table.UnboundSearch | liblua/ltable.c:524-550 | a border above the array part, also through the fall-back to linear search |
| LuaTable.Table.LuaHGetN | liblua/ltable.c:556-577 | a border of the table (section 2.5.5) |
| Vm.Execute | liblua/lvm.c:428-652 | the interpreter loop computes the outcome of the run semantics |
| Vm.EvalAgree | liblua/lvm.c:620-652 | the value of an expression depends on the active locals only |
| Vm.NotMeaning | liblua/lvm.c:588-592 | `not` gives true exactly for nil and false, and false for every other value |
| Vm.AndMeaning | liblua/lparser.c:796-807 | `and` gives the first value if that is nil or false, else the value of the second operand |
| Vm.OrMeaning | liblua/lparser.c:796-807 | `or` gives the first value unless that is nil or false, else the value of the second operand |
| Vm.TestRuns | liblua/lvm.c:638-652 | a run takes the jump behind a TEST or TESTSET exactly if the register is neither nil nor false, or exactly if it is one of them, as C says |
| CodeSemantics.PatchRun | liblua/lcode.c:123-153 | patching a list of jumps: runs that left through it now arrive at their target with the tested value where it is wanted, all other runs are unchanged |
| CodeSemantics.HoldRun | liblua/lcode.c:155-187 | jumps put on hold in jpc fall through to fs->pc; relinking lists and dropping test registers changes no run |
| CodeSemantics.NilRun | liblua/lcode.c:30-52 | widening the LOADNIL at the end of the code makes the new registers nil on every run that reaches the end |
| LuaCode.FuncState.LuaKConcat | liblua/lcode.c:174-187 | the list threaded through the jump instructions is the concatenation |
| LuaCode.FuncState.PatchListAux | liblua/lcode.c:143-153 | exactly the jumps of the list get their targets, their tests the register |
| LuaCode.FuncState.DischargeJpc | liblua/lcode.c:155-158 | the jumps waiting for fs->pc are resolved to it |
| LuaCode.FuncState.LuaKJump | liblua/lcode.c:54-61 | a jump without a target that takes the waiting list with it |
| LuaCode.FuncState.LuaKNil | liblua/lcode.c:30-52 | runs that reach the end have the registers set to nil, whether by a new instruction, a wider old one or none at function start |
| LuaCode.FuncState.NeedValue | liblua/lcode.c:113-121 | true exactly if some jump of the list does not produce a value |
| LuaCode.FuncState.LuaKDischargeVars | liblua/lcode.c:284-315 | the descriptor stands for the same value |
| LuaCode.FuncState.Discharge2Reg | liblua/lcode.c:322-360 | the value without the jumps is in the register |
| LuaCode.FuncState.Exp2Reg | liblua/lcode.c:369-391 | the value of the expression, jumps included, is stored in the register on every run, no other register of the caller changes, control ends at fs->pc; it only fails at a limit |
| LuaCode.FuncState.LuaKExp2NextReg | liblua/lcode.c:393-398 | the same for the next free register |
| LuaCode.FuncState.LuaKExp2AnyReg | liblua/lcode.c:400-413 | the same for some register; nothing is coded for a value that is in one |
| LuaCode.FuncState.LuaKExp2RK | liblua/lcode.c:423-452 | the same for a constant or register operand |
| LuaExpressions.JumpOnCond | liblua/lcode.c:502-514 | the new jump is taken exactly when the truth of the value is the condition, and carries the value |
| LuaExpressions.InvertJump | liblua/lcode.c:496-500 | the comparison jumps on the opposite outcome |
| LuaExpressions.GoIf | liblua/lcode.c:516-562 | control goes on when the truth of the value is not the condition and leaves through the kept list otherwise |
| LuaExpressions.RemoveValues | liblua/lcode.c:137-141 | the jumps of the list are taken as before and carry no value |
| LuaExpressions.CodeNot | liblua/lcode.c:564-603 | the descriptor stands for the negation of what it stood for |
| LuaSubexpr.PosfixLogical | liblua/lcode.c:753-768 | the second operand takes over the list of the first |
| LuaSubexpr.Logical | liblua/lcode.c:721-768 | the code of `and` and `or` computes the short-circuit value of both operands |
| LuaSubexpr.Comparison | liblua/lcode.c:679-693 | the code of a comparison computes its outcome, > and >= by exchanged operands |
| LuaSubexpr.ConstFolding | liblua/lcode.c:610-659 | folding gives the value the machine would compute, and never folds a division by zero or a NaN |
| LuaSubexpr.Arithmetic | liblua/lcode.c:661-677 | the code of an arithmetic operator computes its value |
| LuaSubexpr.Expression | liblua/lparser.c:814-840 | compiling any expression tree gives a descriptor that stands for its value |
| LuaSubexpr.AssignLocal | liblua/lcode.c:454-482 | an assignment stores exactly the value of the expression in the local and leaves the other active locals alone |
| LuaSubexpr.NextValue | liblua/lcode.c:393-398 | the value of the expression in the next register, active locals unchanged; fails only when a limit is reached |
| LuaSubexpr.CompileAndRun | liblua/lcode.c:369-391 | compiling an expression and running the code gives its value, on every environment and register file; `not`, `and` and `or` take nil and false for false and every other value for true; a failure means that the function has reached the limit of its code, registers or constants |
| GcHeap.SurvivesMeaning | liblua/lgc.c:444-466 | the mask test of the sweep means: not of the other white, or fixed |
| GcHeap.FlipMeaning | liblua/lgc.c:564-593 | flipping the current white makes exactly the unmarked objects dead |
| LuaGc.GlobalState.ReallyMarkObject | liblua/lgc.c:65-111 | the object becomes marked; no black object points to a white one |
| LuaGc.GlobalState.PropagateMark | liblua/lgc.c:314-352 | one gray object is traversed and the marking invariant kept |
| LuaGc.GlobalState.MarkRoot | liblua/lgc.c:542-553 | the roots are marked |
| LuaGc.GlobalState.RemarkUpvals | liblua/lgc.c:555-562 | the values of open upvalues of threads that may be dead are marked |
| LuaGc.GlobalState.Atomic | liblua/lgc.c:564-593 | after the flip everything reachable is alive and nothing has changed but colours |
| LuaGc.GlobalState.SweepObject | liblua/lgc.c:444-466 | only dead, non-fixed objects go; survivors become white for the next cycle |
| LuaGc.GlobalState.SweepList | liblua/lgc.c:444-466 | the same for a bounded number of objects |
| LuaGc.GlobalState.LuaFClose | liblua/lfunc.c:104-120 | closing upvalues in any collector state keeps the collector invariant and every value |
| LuaGc.GlobalState.SingleStep | liblua/lgc.c:595-649 | every step keeps the invariant, frees nothing that can be reached, and makes progress through the cycle |
| LuaGc.GlobalState.LuaCFullGc | liblua/lgc.c:676-699 | afterwards the objects left are exactly those reachable or fixed |
| LuaGc.GlobalState.LuaCBarrierF | liblua/lgc.c:701-712 | restores the invariant after a store into a black object |
| LuaGc.GlobalState.LuaCBarrierBack | liblua/lgc.c:714-722 | the same for tables, by making the table gray again |
| LuaGc.GlobalState.SetField | liblua/lgc.h:76-98 | a store with its barrier keeps the invariant and changes that field only |
| LuaGc.GlobalState.SetUpval | liblua/lvm.c:530-535 | a store through an upvalue keeps the invariant and changes its value, or for an open one its stack slot, only |
| LuaGc.GlobalState.SetStack | liblua/lgc.c:290-308 | stack writes need no barrier |
| LuaGc.GlobalState.SetRoots | liblua/lgc.c:564-593 | roots stored without a barrier are safe because the atomic phase marks them again |
| LuaGc.GlobalState.NewObject | liblua/lgc.c:724-731 | an object created in any collector state is alive |
| LuaGc.GlobalState.FindString | liblua/lstring.c:73-92 | a string found dead is resurrected |
| LuaGc.GlobalState.LuaFFindUpval | liblua/lfunc.c:61-89 | one open upvalue for a slot, found, revived or created in its place |
| LuaGc.GlobalState.NothingReachableFreed | liblua/lgc.c:595-649 | the invariant means that nothing reachable is freed or dead |
| LuaGc.GlobalState.constructor | liblua/lstate.c:169-226 | the initial state satisfies the invariant |
| LuaCollected.Step | liblua/lgc.c:595-649 | whatever the collector is doing, an operation of the program changes the heap the program sees as it says and not otherwise, and a collector step changes nothing reachable |
| LuaCollected.Exec | liblua/lgc.c:595-699 | any sequence of moves, loads, stores, stack cuts, allocations, captures, thread switches, collector steps and full collections: every operation has its effect and in every state all that is reachable is there |
| LuaCollected.Kept | liblua/lgc.c:595-649 | over any run, memory that stays reachable changes by the stores that name it, and by nothing else |
| LuaCollected.StoredThenLoaded | liblua/lgc.c:595-649 | a value stored is the value loaded, whatever collections and other operations lie between |
| LuaChecker.ListRun | liblua/ldebug.c:322-497 | how long the run of words is that look like open SETLISTs before a jump target |
| LuaChecker.CountParity | liblua/ldebug.c:322-497 | in such a run instructions and count words alternate, so the parity test tells them apart |
| LuaChecker.CheckCode | liblua/ldebug.c:505-507 | the pass accepts exactly the lawful prototypes |
| LuaChecker.AcceptsExactly | liblua/ldebug.c:322-507 | a prototype is accepted exactly if its limits hold, the operands its instructions touch exist, every step lands on an instruction, values left open are taken by the next instruction, and the listed stricter checks hold |
| LuaChecker.FieldsABC | liblua/lopcodes.h:50-89 | an instruction built from fields has these fields |
| LuaChecker.FieldsABx | liblua/lopcodes.h:50-89 | the same for the long operand, signed and unsigned |
| LuaChecker.AcceptedRuns | liblua/ldebug.c:322-497 | in accepted code every pc a run reaches is an instruction inside the code, exactly if every LOADBOOL met with C >= 2 skips over something it may skip |
| LuaChecker.AcceptedCode | liblua/ldebug.c:322-497 | a condition on the code alone under which every run stays on instructions |
| LuaChecker.SkipLeavesCode | liblua/ldebug.c:322-497 | the concrete accepted code whose run leaves it: the check compares C with 1, the machine tests it against 0 |
| LuaChecker.OperandsInRange | liblua/ldebug.c:305-320 | registers, constants, upvalues and prototypes an accepted instruction names exist |
| LuaChecker.PseudoOperands | liblua/ldebug.c:322-497 | the words behind a CLOSURE are MOVEs and GETUPVALs in range, one for each upvalue |
| LuaChecker.OpenCallsTaken | liblua/ldebug.c:291-303 | an open call or vararg is followed by an instruction that takes the values up to the top |
| LuaPatterns.AllComplete | liblua/lstrlib.c:401-495 | the ordered list of ways contains exactly the matches the declarative semantics allows |
| LuaPatterns.Greedy | liblua/lstrlib.c:336-350 | the first way through * takes the most repetitions after which the rest can match |
| LuaPatterns.Frugal | liblua/lstrlib.c:352-363 | the first way through - takes the fewest |
| LuaPatterns.ClassLetters | liblua/lstrlib.c:235-272 | the characters the letters of character classes stand for |
| LuaPatterns.ClassLaws | liblua/lstrlib.c:235-272 | upper-case letters are complements, bytes that are no class letter stand for themselves, and letters, digits, punctuation and control characters are disjoint and leave only the space |
| LuaStrLib.StarTakesMost | liblua/lstrlib.c:475-477 | a class with * behind it: the first way takes the most repetitions after which the rest of the pattern has a way |
| LuaStrLib.PlusTakesMost | liblua/lstrlib.c:478-480 | with +: the most, and at least one |
| LuaStrLib.MinusTakesFewest | liblua/lstrlib.c:481-483 | with -: the fewest |
| LuaStrLib.OneBeforeNone | liblua/lstrlib.c:467-474 | with ?: one before none |
| LuaStrLib.ExactlyOne | liblua/lstrlib.c:484-491 | with anything else behind it: exactly one |
| LuaStrLib.NoRepetition | liblua/lstrlib.c:336-363 | a repetition has no way exactly if no number of repetitions leaves the rest one |
| LuaStrLib.WaysOfOpen | liblua/lstrlib.c:404-410 | an opening parenthesis opens a capture, or notes the position if the closing one follows; the 33rd capture is an error |
| LuaStrLib.WaysOfClose | liblua/lstrlib.c:411-413 | a closing parenthesis ends the innermost open capture, and is an error if there is none |
| LuaStrLib.WaysOfEnd | liblua/lstrlib.c:452-461 | the end of the pattern matches anywhere, $ before it only at the end of the subject |
| LuaStrLib.WaysOfEscape | liblua/lstrlib.c:414-451 | what %b, %f and a digit behind % match |
| LuaStrLib.FindClassEnd | liblua/lstrlib.c:207-233 | the end of a single-character class, or that the pattern is malformed |
| LuaStrLib.MatchBracketClass | liblua/lstrlib.c:274-296 | membership in a set |
| LuaStrLib.MatchState.MatchBalance | liblua/lstrlib.c:313-334 | the end of the balanced string, or -1 |
| LuaStrLib.MatchState.MaxExpand | liblua/lstrlib.c:336-350 | the first way in greedy order, captures restored on failure |
| LuaStrLib.MatchState.MinExpand | liblua/lstrlib.c:352-363 | the first way in lazy order, captures restored on failure |
| LuaStrLib.MatchState.StartCapture | liblua/lstrlib.c:365-378 | an open capture for the rest of the pattern, undone on failure |
| LuaStrLib.MatchState.EndCapture | liblua/lstrlib.c:380-389 | closes the innermost open capture, and opens it again on failure |
| LuaStrLib.MatchState.MatchCapture | liblua/lstrlib.c:390-399 | a back reference matches exactly what was captured |
| LuaStrLib.MatchState.Match | liblua/lstrlib.c:401-495 | terminates with the first way to match in order of preference; on NULL all captures are as they were |
| LuaStrLib.MatchMeaning | liblua/lstrlib.c:401-495 | a match found is a match of the declarative semantics, and NULL means there is none |
| LuaStrLib.StrFind | liblua/lstrlib.c:571-590 | the leftmost position with a match |
| LuaStrLib.StrGSub | liblua/lstrlib.c:691-730 | the subject with the first matches replaced, counted, empty matches included |
| LuaPatterns.SubstitutedPieces | liblua/lstrlib.c:661-730 | the result is what lies between the leftmost matches with the replacement of each in its place, or the match itself where there is none, and the number of matches; or the error of the first match that fails |
| LuaPatterns.SubstitutedNothing | liblua/lstrlib.c:661-689 | a replacement that is always nil or false gives the subject back |
| LuaStrLib.LMemFind | liblua/lstrlib.c:497-517 | the first occurrence, or that there is none |
| LuaStrLib.StrFindAux | liblua/lstrlib.c:549-592 | find and match: the start position, counted from the end if negative, is brought into the subject; the first occurrence of the very bytes if that is asked for or the pattern has no special characters, else the leftmost match |
| LuaStrLib.PlainWays | liblua/lstrlib.c:401-495 | a pattern without special characters matches its bytes up to the first zero, or is malformed at a closing parenthesis |
| LuaStrLib.ShortcutMeaning | liblua/lstrlib.c:560-563 | the shortcut for patterns without special characters answers as matching would, on every subject and at every position, exactly if the pattern has neither a zero nor a closing parenthesis |
| LuaStrLib.ShortcutSound | liblua/lstrlib.c:560-563 | for such a pattern the plain search finds the position and the end the matcher would find |
| LuaTaint.LuaState.SetTaintMode | liblua/lsec.h:28-31 | write taint follows the mode |
| LuaTaint.LuaState.TaintStack | liblua/lsec.h:51-55 | the stack takes a taint unless it is fixed or reading does not taint |
| LuaTaint.LuaState.TaintAlloc | liblua/lsec.h:73-87 | which taint a new object gets |
| LuaTaint.LuaState.SaveThenLoad | liblua/lsec.h:99-111 | saving and loading gives the taint state back, write taint included |
| LuaTaint.LuaState.SetObj2S | liblua/lmanip.h:93-105 | a tainted value taints the stack, a clean one takes the taint of the stack |
| LuaTaint.LuaState.LuaVGetTable | liblua/lvm.c:96-119 | the value found along the chain of __index objects arrives with its taint and its sources and nothing else changes; a function on the chain is called with the object reached and the key; an error exactly if the chain fails or its function is not known |
| LuaTaint.LuaState.LuaVSetTable | liblua/lvm.c:121-150 | the value goes as it is into one field of the table the chain of __newindex objects leads to; a function on the chain is called with object, key and value; an error exactly otherwise; a tainted object on the chain, and no other, taints the stack |
| LuaTaint.Heap.AccessFollows | liblua/lvm.c:96-150 | an access ends at a table or at a function exactly at the end of a chain of at most MAXTAGLOOP objects, each but the last lacking the key and leading to its metamethod |
| LuaTaint.MetatablesApart | liblua/ltm.c:51-64 | values of one type share their metamethods, and no two types do, tables apart |
| LuaTaint.OperandMeaning | liblua/lvm.c:430-444 | the registers, constants, environment and upvalues of the running closure |
| LuaTaint.LuaState.CallTM | liblua/lvm.c:73-94 | the pushed values become the parameters of the metamethod, above everything the caller has, and a tainted one taints the stack |
| LuaTaint.LuaState.AdjustVarargs | liblua/ldo.c:264-286 | the arguments are the parameters with values and sources, then nil |
| LuaTaint.LuaState.CallClosure | liblua/lvm.c:441-444 | fails exactly if neither the value nor its __call is a known function; running a tainted closure taints the stack, and its taint is fixed then; the arguments become the parameters with their sources; frame and slots of the caller are kept |
| LuaTaint.LuaState.DoReturn | liblua/ldo.c:397-418 | the results and their sources arrive where the caller wants them, missing ones nil: over the function, in the slot of a metamethod's result, or in the loop variables; the frame is the one that was kept, and a tainted caller taints the stack again |
| LuaTaint.LuaState.DoClosure | liblua/lvm.c:815-832 | a new closure of the prototype in the environment of the running one, with its captures in order, one open upvalue for a register; what tainted code creates is tainted |
| LuaTaint.LuaState.DoTailCall | liblua/lvm.c:680-720 | the callee takes over the frame with its arguments and their sources, the frames below are the same, the upvalues of the old frame are closed |
| LuaTaint.LuaState.DoSelf | liblua/lvm.c:547-553 | the object is kept as first argument with its taint, and the method comes from the object |
| LuaTaint.LuaState.DoBinTM | liblua/lvm.c:152-162 | the metamethod of the first operand, else that of the second, is called with both |
| LuaTaint.LuaState.DoConcat | liblua/lvm.c:613-619 | the result has the sources of every operand |
| LuaTaint.LuaState.DoForLoop | liblua/lvm.c:742-752 | index and loop variable have the sources of the old index and the step |
| LuaTaint.LuaState.DoTForLoop | liblua/lvm.c:768-783 | state and control variable become the arguments of the iterator and stay in the loop's own slots |
| LuaTaint.LuaState.DoSetList | liblua/lvm.c:784-810 | the elements arrive in the list as they are, and no other field changes |
| LuaTaint.LuaState.DoVararg | liblua/lvm.c:833-852 | the extra arguments arrive with their sources, as many as wanted, then nil |
| LuaTaint.LuaState.constructor | liblua/lstate.c:109-114 | a new state with untainted constants, put into mode rw, satisfies the invariant |
| LuaTaint.LuaState.Step | liblua/lvm.c:484-852 | each instruction raises an error exactly as the state before it decides, the listed ones never; otherwise it moves values, taints and sources where it should, leaves everything else as it was and keeps the taint invariant |
| LuaTaint.LuaState.Execute | liblua/lvm.c:428-855 | over any run in mode rw, moment by moment: every instruction has its effect, and the run stops early only where one fails; write taint is stack taint, a tainted stack stays tainted, a tainted slot means a tainted stack |
| LuaTaint.LuaState.TaintMeaning | liblua/lsec.h:28-55 | every value moved or computed from a tainted source is tainted, wherever it is |
| LuaCalls.ThreadState.TryFuncTM | liblua/ldo.c:288-303 | the metamethod takes the place of the object, which becomes the first argument |
| LuaCalls.ThreadState.AdjustVarargs | liblua/ldo.c:264-286 | fixed parameters above the extra arguments, missing ones nil |
| LuaCalls.ThreadState.IncCi | liblua/ldo.c:222-232 | fails exactly when the frames are used up and may not be doubled, and then before L->ci moves |
| LuaCalls.ThreadState.PreCall | liblua/ldo.c:307-384 | a frame with the arguments in place, for Lua and for C functions, and its closure's counter raised by one; an error, for exactly the stated reasons, changes no counter and no frame |
| LuaCalls.ThreadState.UnwindCi | liblua/ldo.c:109-152 | exactly the frames between are taken off the counters; in the tail-call form exactly the replaced frame |
| LuaCalls.ThreadState.PosCall | liblua/ldo.c:397-418 | the frame is taken off, the wanted results delivered, missing ones nil |
| LuaCalls.ThreadState.TailCall | liblua/lvm.c:680-720 | the callee takes over the frame: one counter up, one down, arguments in place |
| LuaCalls.ThreadState.Recover | liblua/ldo.c:527-548 | the frames above the protected call are taken off and the message moved to where the function stood |
| LuaCalls.ThreadState.RestoreStackLimit | liblua/ldo.c:87-95 | shrinking the array of frames loses none |
| LuaCalls.ThreadState.Exec | liblua/ldo.c:307-418 | any run of calls, returns, tail calls, nested protected calls and errors does one operation after the other until one throws or the frame it started in returns; each closure's counter is the number of frames holding it all the while |
| LuaCalls.ThreadState.Protected | liblua/ldo.c:527-548 | a protected call calls, runs the body and then finishes or recovers; its status is the way they ended; every counter and every frame is as before |
| LuaCalls.ProtectedMeans | liblua/ldo.c:527-548 | it ends with an error exactly if the call or its body did, with the message where the function stood; else the results stand there, as many as the caller asked for |
| LuaCalls.ThrownFrom | liblua/ldo.c:68-85 | an error that escapes from a run was raised outside every protected call in it, or is that of a failing call there; its message is on top of the stack |
| LuaCalls.DoneWhen | liblua/lvm.c:655-740 | in the frame of a Lua function every operation on its own slots is done, none is passed over |
| LuaCalls.RaiseThrows | liblua/ldo.c:288-303 | raising an error or calling what cannot be called ends a run with that error, whatever comes behind |
| LuaUpvalues.Thread.OnePerSlot | liblua/lfunc.c:61-89 | captures of one live slot share one upvalue |
| LuaUpvalues.LuaThread.FindUpval | liblua/lfunc.c:61-89 | the upvalue of the slot, at its place in the descending list; nothing any closure sees changes |
| LuaUpvalues.LuaThread.Close | liblua/lfunc.c:104-120 | exactly the upvalues from the level up are closed, with the value they had |
| LuaUpvalues.LuaThread.SetSlot | liblua/lfunc.c:61-89 | an open upvalue reads the current value of its slot, all others what they read before |
| LuaUpvalues.LuaThread.SetUpval | liblua/lvm.c:530-535 | the upvalue reads the value written; for an open one so does its slot, and nothing else changes |
| LuaUpvalues.LuaThread.ReallocStack | liblua/ldo.c:181-204 | moving the stack, to a larger or a smaller block, changes nothing any closure sees |
| LuaSort.OrderThree | liblua/ltablib.c:177-206 | first, middle and last element in order; two or three elements are sorted by it |
| LuaSort.Partition | liblua/ltablib.c:207-237 | the pivot splits the segment; the flag for an invalid order function is never set, as both scans stay inside the segment |
| LuaSort.AuxSort | liblua/ltablib.c:177-253 | for any strict weak order: sorted, a permutation, nothing outside touched, recursion no deeper than the logarithm of the length |
| LuaSort.OneSideDone | liblua/ltablib.c:239-252 | after the smaller half is sorted only the larger one is left to do |
| LuaPrecedence.LexState.SubExpr | liblua/lparser.c:814-840 | the recursion and loop consume the tokens of the tree and leave the rest, with the nesting level restored |
| LuaPrecedence.SubExprExactly | liblua/lparser.c:814-840 | subexpr returns a tree exactly if its tokens are a prefix of the input, it respects the priority table, the next operator is not above the limit, and it nests within the limit on C calls |
| LuaPrecedence.OneReading | liblua/lparser.c:796-807 | only one tree with a given reading respects the priority table |
| LuaPrecedence.TighterInside | liblua/lparser.c:796-807 | an operator stands inside another without brackets only if it is of a tighter level of section 2.5.6, or of the same level and grouped to the right for ^ and .., to the left for the others |
| LuaPrecedence.TwoOperators | liblua/lparser.c:814-840 | how any two binary operators side by side are read |
| LuaPrecedence.NoOperatorLeft | liblua/lparser.c:828-836 | no binary operator is left over behind an expression, and one without an operand behind it is a syntax error |
| LuaPrecedence.UnaryBelowPower | liblua/lparser.c:808 | a unary operator before and behind any binary one: it binds below ^ and above everything else |
| LuaQuote.AddQuoted | liblua/lstrlib.c:739-768 | the bytes %q writes |
| LuaQuote.LexState.IncLineNumber | liblua/llex.c:106-116 | passes one line break of one or two bytes |
| LuaQuote.LexState.ReadEscape | liblua/llex.c:274-324 | the byte an escape sequence stands for, and how much input it takes |
| LuaQuote.EscapeLetters | liblua/llex.c:274-324 | the letters abtnvfr stand for the bytes 7 to 13, other bytes for themselves |
| LuaQuote.EscapeDigits | liblua/llex.c:304-319 | up to three digits give a byte by its number, and an error above 255 |
| LuaQuote.EscapeBreak | liblua/llex.c:297-301 | an escaped line break, of one or of two different bytes, is one newline |
| LuaQuote.LexState.ReadString | liblua/llex.c:261-332 | the string token of the grammar, or its error |
| LuaQuote.QuoteThenRead | liblua/lstrlib.c:739-768 | reading what %q wrote gives one token holding the very bytes, whatever follows, exactly if the line counter does not run over |
| LuaChunk.DumpState.Dump | liblua/ldump.c:139-149 | status 0 means exactly the chunk was written; any other status is the writer's and a prefix was written |
| LuaChunk.DumpState.DumpFunction | liblua/ldump.c:117-128 | the bytes of a function and the functions nested in it |
| LuaChunk.LoadState.LoadFunction | liblua/lundump.c:162-187 | reads one function with the nesting limit, the inherited source and the bytecode check |
| LuaChunk.LoadState.UndumpChunk | liblua/lundump.c:200-214 | reads a chunk, from any depth of C calls |
| LuaChunk.DumpThenUndump | liblua/lundump.c:162-214 | undumping a dump at any depth of C calls succeeds exactly if no stored number is negative, the nesting fits into what is left and every function passes the check as it comes back |
| LuaChunk.FullDump | liblua/ldump.c:117-128 | a full dump brings back the very tree exactly if every function in it names its source |
| LuaChunk.StrippedDump | liblua/ldump.c:98-128 | a stripped dump brings it back with debug information erased and "=?" for every source |
| LuaChunk.AcceptedWithoutDebug | liblua/ldebug.c:279-287 | the bytecode checker accepts code without its debug information if it accepts it with it |
| LuaChunk.CheckedFlags | liblua/lobject.h:164-166 | the vararg flags are the bits of is_vararg |
| LuaChunk.StrippedLoads | liblua/lundump.c:162-187 | what loading a stripped dump asks for, with the bytecode checker in place, is that the erased tree is sound |
| LuaChunk.FullLoads | liblua/lundump.c:162-187 | what loading a full dump of a tree that names its sources asks for, with the bytecode checker in place, is that the tree is sound and no line number is negative |
| LuaChunk.AcceptedAgain | liblua/lundump.c:162-214 | a tree whose functions the bytecode checker accepts, dumped in full or stripped, is accepted again by loading |
| LuaMeta.GetTM | liblua/ltm.c:40-49 | the field itself; only a true absence is noted |
| LuaMeta.State.FastTM | liblua/ltm.h:36-38 | through the cache the same answer as the plain lookup |
| LuaMeta.State.GetTable | liblua/lvm.c:96-119 | an access ends where the plain rules without a cache say |
| LuaMeta.ResolveFollows | liblua/lvm.c:96-150 | an access ends at a table, a function or an error exactly at the end of a chain of values that each lack the key and name the next; a present field wins over the metamethod; more than 100 values are a loop |
| LuaMeta.State.SetTable | liblua/lvm.c:121-150 | an assignment ends there too, changes that one field, and leaves no cache with a false claim, a table that is its own metatable included; it fails only when a table is full |
| LuaMeta.SecondClearNeeded | liblua/lvm.c:126-134 | without the second clearing of flags the claim would become false |
| LuaMeta.State.RawSet | liblua/ltable.c:487-489 | a raw assignment leaves every cache truthful |
| LuaMeta.State.NewTable | liblua/ltable.c:346-359 | a new table may claim everything absent |
| LuaMeta.State.SetMetatable | liblua/lapi.c:670-700 | a table or userdata gets its own metatable, any other value changes that of its whole type; no cache needs a change |
| LuaMeta.Metas.SharesMeaning | liblua/lapi.c:670-700 | which values share a metatable: those of one type, except tables and userdata |
| LuaRef.Ref | liblua/lauxlib.c:386-406 | a reference that is not live, a freed one before a fresh one, the fresh one the border plus one; it reads back its value and no other live reference changes |
| LuaRef.Unref | liblua/lauxlib.c:408-418 | the reference is no longer live and heads the free list |
| LuaRef.OneBorder | liblua/ltable.c:556-577 | with no free reference every border of the table is the number of references |
| LuaRef.Play | liblua/lauxlib.c:386-418 | one use of the table keeps it in step with the free list and the live references, a new reference was not live, and it fails only when the table is full |
| LuaRef.Session | liblua/lauxlib.c:386-418 | any sequence of ref and unref on an empty table does so, and stops early only when the table is full |
| LuaObject.Int2Fb | liblua/lobject.c:30-41 | the least floating point byte standing for at least x, exactly if x is not the largest unsigned int |
| LuaObject.Fb2IntMonotone | liblua/lobject.c:44-51 | larger bytes stand for larger sizes |

## Left out

Tables (LuaTable)
- Nothing is claimed about a table once an operation on it has failed with an overflow.
- LuaTable.Table.constructor: does not model the pre-sizing of `luaH_new`; the array part is limited to 2^26 slots as the counting loop is.
- LuaTable.Table.UnboundSearch: integers are unbounded; the switch to linear search is made at LUA_INT_MAX as in the source.
- LuaObject.Log2: the 256-entry table of bit lengths is replaced by the rule it tabulates.

Code generation (LuaCode, LuaExpressions, LuaSubexpr)
- Upvalues, table access, calls, varargs, concatenation, unary minus and length as operands; assignments to anything but locals; line information.
- Numbers are an abstract type with operations given from outside; NaN and the two zeros sharing one constant are not modelled.
- LuaExpressions.GoIf: `luaK_goiftrue` and `luaK_goiffalse` are one method with a flag, as they mirror each other.
- LuaSubexpr.Expression: `luaK_infix` and `luaK_posfix` appear operator by operator instead of as two switches.
- LuaSubexpr.CompileAndRun: how much code, how many registers and constants an expression needs is not bounded by its size.

Collector (LuaGc)
- Weak tables, finalizers and `tmudata`, pacing, resizing of the string table, clearing of unused stack slots, `luaC_freeall`.
- LuaCollected.Exec: the program has in its hands what is in the stack of the running thread; upvalues and prototypes are held in slots like any object. References are identities chosen by the allocator; an address that is in use is an allocation failure.
- LuaGc.GlobalState.FreeObject: frees the open upvalues of a thread in one go before the thread; the list `uvhead` is a set.

Bytecode checker (LuaChecker)
- The tracing mode of `symbexec` that looks for the last instruction setting a given register.
- Types of values: accepted code may still raise errors.

Patterns (LuaStrLib)
- LuaStrLib.StrFindAux: pushing the captures, with its error for a capture never closed; `gmatch`; the expansion of `%1` in replacement strings.
- LuaStrLib.StrGSub: the replacement is a function from the match and its captures to a string, nil or false.

Taint machine (LuaTaint)
- C functions, hooks, coroutines, finalizers, debug functions, and the other modes than rw.
- LuaTaint.LuaState.Step: metamethods of concatenation and of comparisons are not called; arithmetic on numbers and the numeric loops are given their results; SETLIST is given the number of its elements. Calls say what becomes of their arguments when the top of the stack is above the function, as every call leaves it.
- LuaTaint.LuaState.DoTailCall: what becomes of the arguments is promised for functions with room for their parameters, as the bytecode checker asks.

Calls (LuaCalls)
- Hooks, yields and resumes, threads that died from an error or are collected while suspended, C stack overflow, the fixed taint.
- LuaCalls.ThreadState.PreCall: stack memory is unbounded, so that nothing is said of `luaD_checkstack` and `stack_last`.
- LuaCalls.ThreadState.Exec: steps that are not possible in the running frame are passed over.

Upvalues (LuaUpvalues)
- Dead upvalues, which `luaF_close` frees, are part of LuaGc.

Sorting (LuaSort)
- LuaSort.AuxSort: asks for a strict weak order; with an inconsistent one the scans may leave the segment and the source raises its error.
- Comparison functions that raise errors, yield or change the table.

Other
- LuaPrecedence.LexState.SubExpr: a simple expression other than a parenthesized one is a single token; suffixes of primary expressions are not parsed.
- LuaQuote.LexState.ReadString: the growth limit of the lexer's buffer.
- LuaChunk.DumpThenUndump: the machine is little-endian with 4-byte ints and 8-byte sizes and numbers; the check is any predicate here and the bytecode checker in LuaChunk.AcceptedAgain; `luaU_undump` is proved as a function, `lua_load` does not call it.
- LuaMeta.State.SetTable: calling a metamethod ends the operation, since anything may happen in it.
- LuaRef.Ref: the reference is unbounded, and taints of the stored links are not modelled.
- The remaining parts of `lauxlib.c` (buffers), `lapi.c`, statements in `lparser.c`, and everything outside `liblua`'s core.
