# mysql-proxy: a Dafny model of its hard core

This project models four parts of mysql-proxy and proves properties of them over all inputs, all runs and
all reachable states:

* **LPeg** (`lib/lpeg.c`), the pattern library that is linked into the proxy for its Lua scripts: the optimizing
  compiler from pattern operators to a backtracking byte code, the machine that runs the code, the abstract
  interpreter that rejects loops over empty matches, and grammars with tail calls.
* **The event queue** (`src/chassis-event-thread.c`) that all event threads share, with the pipe that wakes them.
* **The connection pool, connecting to backends and the backend swap** (`src/network-conn-pool.c`,
  `src/network-conn-pool-lua.c`, `src/network-mysqld-lua.c`, `plugins/proxy/proxy-plugin.c`).
* **Codecs**: the ASN.1 validator, MySQL packet integers, the 4.1 password exchange and the `master.info` file.

`dafny verify dfyconfig.toml` checks the whole project.

## How LPeg is modelled

| file | contents |
|---|---|
| `lpeg_code.dfy`, `lpeg_captures.dfy` | instructions, capture lists, `findopen` |
| `lpeg_semantics.dfy` | pattern expressions and their meaning as parsing expressions, with the exact capture list |
| `lpeg_machine.dfy`, `lpeg_behaviour.dfy` | the machine as a step function on fragments of code, and how fragments compose |
| `lpeg_compile.dfy` | the constructors: the code each operator builds |
| `lpeg_rewrite.dfy`, `lpeg_optcaps.dfy`, `lpeg_optjumps.dfy` | moving captures over checks and collapsing jumps keep every run |
| `lpeg_invariant.dfy`, `lpeg_basic.dfy` | what all constructed code satisfies |
| `lpeg_union.dfy`, `lpeg_predicates.dfy`, `lpeg_loops.dfy`, `lpeg_optional.dfy`, `lpeg_pattern.dfy` | correctness of each constructor |
| `lpeg_verify.dfy`, `lpeg_compiler.dfy` | the verifier; compiler correctness and termination |
| `lpeg_match.dfy`, `lpeg_build.dfy`, `lpeg_safety.dfy` | `match` with its arrays, the whole path from pattern to result, safety of all runs |
| `lpeg_arrays.dfy` | the optimizers in place on the instruction array |
| `lpeg_limits.dfy`, `lpeg_narrow.dfy` | exactly where compiled unions and meaning part, and a check that keeps clear of it |
| `lpeg_grammar.dfy`, `lpeg_fix.dfy`, `lpeg_rules.dfy` | grammars: layout, fixing, what a match returns |
| `lpeg_table.dfy`, `lpeg_checkrule.dfy` | what rules mean to the verifier, and that the check of a rule answers with it |
| `lpeg_leftrec.dfy`, `lpeg_checkends.dfy` | left recursion is found, and every check ends |
| `lpeg_checkgrammar.dfy` | `verify` and the check of a whole grammar with its arrays |
| `lpeg_heights.dfy`, `lpeg_stack.dfy`, `lpeg_grammar_stack.dfy` | stack discipline over all runs, ending or not |
| `lpeg_tailcalls.dfy`, `lpeg_endless.dfy` | tail calls as jumps against calls, and a grammar on which they differ |

An instruction carries its character set, and jump offsets are relative to the instruction.  The meaning of an
expression (`Eval`) is a success with end position and captures, a failure, or `Diverge` where the expression has no
result.  The machine is `Stuck` whenever one of its assertions would fail, a byte outside the subject and its final
NUL would be read, a position would leave the subject, a closing capture would find no opener, or the in-place merge of
a closing capture would change an entry that a pending choice still needs; correctness therefore includes that none of
this happens.  `Good(code, e)` says that code computes `e` in every mode (on every subject, and for the verifier, which
fails every check), at every position and under every capture list, and that the alternatives of the code, if it is a
union, can be taken apart again.

The verifier is the same machine in another mode: with `Verify` open calls fail, and with `Table` they have the answer
the table has for their rule.  `Empties` iterates the table from nothing, one call deeper each time.

Tail calls: `CallCode` is the grammar with all its calls, `GrammarCode` what `fix_l` makes of it.  Their runs are
related by a stack from which return addresses that lead straight to a return are missing.

## The proxy

`common.dfy` holds the types that several parts share.  `event_queue.dfy` is the event queue, `conn_pool.dfy` the pool
of one backend.  `backend_steps.dfy` has the steps of clients and backends, `backend_swap.dfy` what they keep over all
runs, `backend_choice.dfy` which backend a client is connected to, `backend_examples.dfy` two runs that upset a count,
and `backend_proxy.dfy` the operations on the proxy's own objects.  The count of connected clients is an unsigned 32-bit
number.  It is right exactly as long as no client leaves while its connect is pending and no script keeps a pooled
connection while its index is negative, or that of a backend that is down, and another backend can be used: the client
is then sent there with the connection of the first backend.

`asn1.dfy`, `mysql_ints.dfy`, `password.dfy` and `master_info.dfy` are the codecs.

Where code and documentation differ, the model follows the code.  `network_asn1_proto_get_length` announces support for
lengths up to 2^64, but its assertion stops at seven length octets; the model has that as an outcome of its own.
The decoder of length-encoded integers is documented for all 64-bit values, but extends the sign of the low word.

## Model

| member | source | states |
|---|---|---|
| `LpegMachine.SpanEnd` | lib/lpeg.c:487-502 | the end of a span: all bytes before it are in the set, the byte there (if any) is not |
| `LpegInvariant.PassesIsMatches` | lib/lpeg.c:441-486 | on sets whose opcode says whether they hold NUL, the unchecked test on a NUL-terminated subject agrees with the bounds-checked meaning, and a passed check stays in the subject |
| `LpegMachine.Embed` | lib/lpeg.c:410-634 | a run of a fragment is a run of any code that holds it, on any stack and with captures that need no more protection |
| `LpegMachine.Deterministic` | lib/lpeg.c:410-634 | a run has at most one end |
| `LpegMatch.NestedStep` | lib/lpeg.c:556-565 | every step keeps the capture lists of pending choices prefixes of the current one, so that restoring by length is enough |
| `LpegMatch.TestInput` | lib/lpeg.c:441-486 | the check opcodes, checked and unchecked |
| `LpegMatch.SpanInput` | lib/lpeg.c:487-502 | the span loops, checked and unchecked, end where `SpanEnd` says |
| `LpegMatch.PushCapture` | lib/lpeg.c:383-392 | appending an entry, and doubling the array when it is full, keep all entries |
| `LpegMatch.CloseCapture` | lib/lpeg.c:594-607 | closing a capture, merged in place when it is short and nothing is nested |
| `LpegMatch.RunCapture` | lib/lpeg.c:594-626 | the four capture instructions on the capture array |
| `LpegMatch.StackOp` | lib/lpeg.c:436-555 | the stack instructions on the array of 400 entries agree with the step function; `full` exactly when there is no room |
| `LpegMatch.Backtrack` | lib/lpeg.c:556-565 | drops return addresses, takes the newest pending alternative and cuts the captures to its level |
| `LpegMatch.ExecOp` | lib/lpeg.c:425-633 | one instruction on the stack and capture arrays is one step of the machine; when it fails, stack and captures are still those before it |
| `LpegMatch.Round` | lib/lpeg.c:419-633 | one instruction with the backtracking it causes is one or more steps of the machine |
| `LpegMatch.Match` | lib/lpeg.c:410-634 | `match` returns whenever the run ends or outgrows the stack: the end of the run, or "too many pending calls/choices" exactly when the run needs more than 400 entries |
| `LpegCaptures.FindOpen` | lib/lpeg.c:1774-1782 | `findopen` returns the opener whose capture is still open: everything after it is balanced |
| `LpegCaptures.Completable` | lib/lpeg.c:594-626 | a well-nested capture list is the beginning of a balanced one |
| `LpegSemantics.EvalBalanced` | lib/lpeg.c:1594-1615 | the captures of a complete match are balanced, and their sizes fit in a byte |
| `LpegSafety.StepSound` | lib/lpeg.c:419-633 | every step that does not fail an assertion keeps all positions in the subject and all capture lists well nested, also those of pending choices |
| `LpegSafety.PatternSafe` | lib/lpeg.c:410-634 | over all runs of accepted grammar-free patterns no assertion of the machine fails, reads stay in the subject, capture lists stay well nested, and the run ends with an empty stack |
| `LpegRewrite.SwapReach` | lib/lpeg.c:853-878 | a capture and the check behind it may change places: every run ends in the same state, and ends only where the original ends or fails an assertion |
| `LpegRewrite.HopReach` | lib/lpeg.c:881-893 | a jump may skip the unconditional jump it leads to: the new code ends in a state exactly when the old code does, endless runs and failed assertions included |
| `LpegRewrite.HopDeep` | lib/lpeg.c:881-893 | both reach the same stack heights |
| `LpegOptCaps.OptCapsGood` | lib/lpeg.c:853-878 | `optimizecaptures` keeps the meaning with the exact capture list, and offsets stay at most 15 |
| `LpegOptJumps.LoopJumpsGood` | lib/lpeg.c:881-893 | on loop code every chain of jumps ends, and `optimizejumps` keeps the meaning |
| `LpegArrays.Invert` | lib/lpeg.c:815-822 | reverses a slice in place |
| `LpegArrays.Rotate` | lib/lpeg.c:829-833 | three reversals rotate a slice |
| `LpegArrays.SkipInstrs` | lib/lpeg.c:839-848 | how many checks fit beside an offset, and their bytes |
| `LpegArrays.OptimizeCaptures` | lib/lpeg.c:853-878 | in place: equals the function proved to keep the meaning |
| `LpegArrays.FindTarget` | lib/lpeg.c:881-884 | the end of a chain of jumps |
| `LpegArrays.OptimizeJumps` | lib/lpeg.c:887-893 | in place: equals the function proved to keep the meaning |
| `LpegArrays.OptimizeChoiceAt` | lib/lpeg.c:896-906 | in place: a choice before a check becomes a test and a choice behind it |
| `LpegPredicates.LitGood` | lib/lpeg.c:1216-1228 | a string matches itself |
| `LpegPredicates.NumGood` | lib/lpeg.c:1229-1251 | a number matches that many bytes; a negative one matches where fewer are left |
| `LpegCompiler.SetGood` | lib/lpeg.c:1067-1106 | a set matches one of its bytes |
| `LpegPattern.SeqGood` | lib/lpeg.c:1293-1307 | concatenation, with its captures optimized, is sequence |
| `LpegPredicates.DiffGood` | lib/lpeg.c:1310-1338 | `p1 - p2` in its three forms is "p2 does not match here, then p1" |
| `LpegPredicates.AndGood` | lib/lpeg.c:1348-1357 | `#p` matches where `p` does, keeps its captures and consumes nothing |
| `LpegUnion.BasicUnionGood` | lib/lpeg.c:1406-1435 | the three forms of a plain union are ordered choice |
| `LpegUnion.SeparatePartsGood` | lib/lpeg.c:1438-1469 | taking an existing union apart and rebuilding it in front of a new alternative is ordered choice, if rebuilt alternatives start with a test of one byte |
| `LpegUnion.UnionGood` | lib/lpeg.c:1472-1487 | `p1 + p2` is ordered choice, under the same guard |
| `LpegLoops.RepeatCharsetGood` | lib/lpeg.c:1490-1501 | a repeated set is `n` checks and a span |
| `LpegLoops.RepeatHeadFailGood` | lib/lpeg.c:1504-1516 | a repeated head-fail pattern, optimized, is at-least-`n` repetition |
| `LpegLoops.RepeatsGood` | lib/lpeg.c:1519-1533 | a repeated pattern, optimized, is at-least-`n` repetition |
| `LpegOptional.OptionalHeadFailGood` | lib/lpeg.c:1536-1544 | an optional head-fail pattern is at-most-`n` repetition |
| `LpegOptional.OptionalsGood` | lib/lpeg.c:1547-1559 | an optional pattern is at-most-`n` repetition |
| `LpegPattern.CaptureGood` | lib/lpeg.c:1594-1615 | a capture leaves exactly its entries, in its full form and as a bracket with optimized captures |
| `LpegPattern.MarkGood` | lib/lpeg.c:1632-1656 | position, back-reference and argument captures leave one entry |
| `LpegCompiler.RepGood` | lib/lpeg.c:1562-1585 | every form of `p ^ n` that is built is repetition |
| `LpegCompiler.CompileGood` | lib/lpeg.c:1293-1615 | compiler correctness: the code built for any expression computes its meaning, with the exact captures, in every mode, as long as no union rebuilds an alternative behind a test of several bytes (`Narrow`) |
| `LpegVerify.VerifyOp` | lib/lpeg.c:651-748 | one instruction of the verifier on its stack of 400 slots |
| `LpegVerify.VerifyBody` | lib/lpeg.c:646-757 | `verify` without a position table halts, accepts exactly when the body's meaning fails on the empty subject with predicates pretended, and reports overflow exactly when the run needs more than 400 slots |
| `LpegCompiler.VerifyMeaning` | lib/lpeg.c:646-757 | whether the verifier accepts a body is decided by the body's meaning |
| `LpegCompiler.VerifySound` | lib/lpeg.c:646-757 | an accepted grammar-free body never succeeds without consuming input, on no subject and at no position |
| `LpegCompiler.Defined` | lib/lpeg.c:1490-1585 | every accepted grammar-free pattern has a result on every subject at every position |
| `LpegBuild.BuildRep` | lib/lpeg.c:1562-1585 | `star_l` with the verifier as it runs: optional matches are always built, an unbounded loop is refused as too deep exactly when the verifier outgrows its stack, as empty exactly when it does not and the body may match the empty string, and is built otherwise |
| `LpegCompiler.RepAnswer` | lib/lpeg.c:1519-1577 | which repetitions are built and which error the others get, by the meaning of the body alone but for the verifier's stack |
| `LpegCompiler.BuiltIff` | lib/lpeg.c:1293-1615 | a pattern is built exactly when the bodies of all its unbounded loops fail on the empty subject and fit the verifier's stack |
| `LpegBuild.Build` | lib/lpeg.c:1293-1615 | building operands first yields the specified code or error, and code exactly when all unbounded loops consume |
| `LpegBuild.MatchPattern` | lib/lpeg.c:2114-2134 | building a pattern and matching with it returns exactly the parsing expression's result: same end position and captures, or failure, unless the stack overflows |
| `LpegLimits.EmptySetMismatch` | lib/lpeg.c:1455-1467 | a pattern and a subject on which a rebuilt union matches where the expression fails: the constant step of the new choice is wrong after a test of two bytes |
| `LpegLimits.RebuildIff` | lib/lpeg.c:1455-1467 | exactly when a rebuilt alternative is right: where it fails behind its test, the other alternatives must have the same result one byte before the end of the test, which is the position itself after a test of one byte |
| `LpegNarrow.FilledNarrow` | lib/lpeg.c:1394-1467 | only an empty set makes `separateparts` rebuild an alternative behind a test of several bytes |
| `LpegNarrow.CompileFilled` | lib/lpeg.c:1293-1615 | no constructor makes an empty set out of sets that are not, but for a difference of two sets |
| `LpegNarrow.EmptyFreeNarrow` | lib/lpeg.c:1293-1615 | a check a caller can make: expressions without empty sets, and without empty differences of sets, are compiled to their meaning |
| `LpegGrammar.DeeperAgrees` | lib/lpeg.c:1133-1197 | the result of a rule does not depend on the depth of calls at which it is found |
| `LpegGrammar.FixedTarget` | lib/lpeg.c:1186-1192 | while calls are fixed from left to right, the test for a tail call sees the jump chains of the draft |
| `LpegFix.CallRun` | lib/lpeg.c:524-532 | a call runs its rule and comes back behind itself, or fails below its return address |
| `LpegFix.TailRun` | lib/lpeg.c:1186-1192 | a tail call as a jump: the rule's return is the caller's |
| `LpegFix.RulesWork` | lib/lpeg.c:1133-1197 | at every depth of calls the fixed grammar does what the rules say, whatever is on the stack |
| `LpegFix.OptJumpsReach` | lib/lpeg.c:887-893 | collapsing all jump chains keeps how every run ends, which runs do not end, and how high the stack gets |
| `LpegRules.DraftSettles` | lib/lpeg.c:881-893 | when no rule starts with a call that leads back to itself, every chain of jumps of the grammar ends |
| `LpegRules.LayOut` | lib/lpeg.c:1133-1173 | the rules laid out behind the initial call and jump, and their positions |
| `LpegRules.CorrectCalls` | lib/lpeg.c:1186-1192 | open calls become calls, or jumps in tail position, in place |
| `LpegRules.FixGrammar` | lib/lpeg.c:1133-1197 | `fix_l` yields the grammar code that is proved to run right |
| `LpegRules.GrammarRuns` | lib/lpeg.c:1133-1197 | wherever the initial rule has a result, the fixed grammar runs to it |
| `LpegRules.MatchGrammar` | lib/lpeg.c:2114-2134 | matching with a grammar returns whenever the run ends or outgrows the stack: the overflow exactly when 400 entries are not enough, and otherwise the initial rule's result, at whatever depth of calls that is found |
| `LpegRules.GrammarStops` | lib/lpeg.c:410-634 | where the initial rule has a result, the run does stop |
| `LpegRules.GrammarSafe` | lib/lpeg.c:410-634 | over all runs of a grammar whose initial rule has a result no assertion of the machine fails, reads stay in the subject, capture lists stay well nested, and the run ends with an empty stack |
| `LpegTailCalls.SimStep` | lib/lpeg.c:1186-1192 | one step of the grammar with calls is one step of the grammar with tail calls as jumps, or brings a chain of returns nearer to its end |
| `LpegTailCalls.TailCallsEnd` | lib/lpeg.c:1186-1193 | `fix_l` keeps how every run of a grammar ends, and which runs do not end, whether the rules have a result or not |
| `LpegTailCalls.TailCallsDeep` | lib/lpeg.c:1186-1193 | the fixed grammar outgrows the stack only where the grammar with calls does |
| `LpegTailCalls.TailCallsReport` | lib/lpeg.c:1186-1193 | a match with the fixed grammar and one with calls report the same, or both never return, exactly unless the calls outgrow the stack and the jumps do not |
| `LpegEndless.EndlessMatch` | lib/lpeg.c:1186-1192 | the grammar `A <- &'x' / A` on a subject without x is accepted; with its call the match reports too many pending calls, with the jump `fix_l` makes of it the match never ends on a stack of at most three entries |
| `LpegEndless.NoResult` | lib/lpeg.c:1133-1197 | that rule has no result there, at no depth of calls |
| `LpegTable.FailingRuleConsumes` | lib/lpeg.c:646-757 | a rule that fails for the verifier with its table, at whatever depth of calls, consumes input wherever it matches a subject |
| `LpegCheckRule.OpChecks` | lib/lpeg.c:652-752 | but for open calls, every instruction does to the stack of `verify` what it does to the stack of the machine in which checks fail and predicates are pretended |
| `LpegCheckRule.CheckMeaning` | lib/lpeg.c:646-757 | the check of a rule whose meaning to the verifier is known, through any depth of calls, ends with exactly that meaning, and never calls it left recursive |
| `LpegCheckRule.PlainRule` | lib/lpeg.c:760-776 | the check of a rule without calls ends, and says that it fails or may match the empty string exactly as the verifier without a table does |
| `LpegLeftRec.CircleUnknown` | lib/lpeg.c:672-688 | a rule on a circle of calls that are reached before anything is consumed has no meaning to the verifier |
| `LpegLeftRec.CircleRejected` | lib/lpeg.c:672-688 | such a rule is never accepted |
| `LpegCheckEnds.CheckEnds` | lib/lpeg.c:646-757 | the check of every rule ends, and no assertion of `verify` fails in it |
| `LpegCheckEnds.CircleReported` | lib/lpeg.c:676-680 | a rule on such a circle is reported as left recursive |
| `LpegCheckGrammar.CheckInstr` | lib/lpeg.c:652-752 | one instruction on the array of slots |
| `LpegCheckGrammar.VerifyRule` | lib/lpeg.c:646-757 | `verify` with its table on 400 slots: overflow exactly when the check outgrows them, and otherwise what the check finds |
| `LpegCheckGrammar.CheckedHeadsFall` | lib/lpeg.c:646-776 | if the check of every rule is answered, no rule starts with a call that leads back to itself, which is what fixing needs |
| `LpegCheckGrammar.CheckRules` | lib/lpeg.c:1171-1177 | all rules are checked, up to the first that does not pass |
| `LpegCheckGrammar.FixChecked` | lib/lpeg.c:1133-1197 | `fix_l` with its checks: it fails exactly when some rule does not pass, and otherwise yields the grammar code that is proved to run right, with nothing assumed about heads of rules |
| `LpegStack.StepMoves` | lib/lpeg.c:425-633 | every step of the machine is a move of its control and stack, with the outcome of checks left open |
| `LpegStack.CompileLevel` | lib/lpeg.c:1293-1615 | every instruction of a compiled pattern runs at one fixed number of pending choices |
| `LpegStack.RunReady` | lib/lpeg.c:425-565 | on code with fixed heights, on every subject and after any number of steps, no stack instruction but a choice gets stuck, and a run that has ended has nothing pending |
| `LpegStack.PatternReady` | lib/lpeg.c:425-565 | this holds of every compiled pattern |
| `LpegGrammarStack.GrammarProgram` | lib/lpeg.c:1133-1197 | grammars keep fixed heights through layout, fixing and collapsing |
| `LpegGrammarStack.GrammarReady` | lib/lpeg.c:425-565 | over all runs of a grammar, ending or not, a commit finds a choice, a return finds a call, and an end finds nothing pending |
| `EventQueue.NextGood` | src/chassis-event-thread.c:130-266 | every locked step keeps: pipe bytes never outnumber operations, a pending operation has a byte in the pipe or a thread in its loop |
| `EventQueue.RunAccounts` | src/chassis-event-thread.c:121-266 | in every run what the callers asked for, each event with its own timeout, has been applied exactly once and in order, by the thread that took it out, or waits in the queue |
| `EventQueue.RunGood` | src/chassis-event-thread.c:130-266 | the same in every state of every interleaving |
| `EventQueue.SleepIffIdle` | src/chassis-event-thread.c:222-266 | with no thread in the handler, the pipe is readable exactly when there is work |
| `EventQueue.ShutdownAccounts` | src/chassis-event-thread.c:356-375 | after the shutdown everything that was asked for was applied once and in order, or was freed |
| `EventQueue.RoundsDrain` | src/chassis-event-thread.c:222-266 | each round of a handler takes out one operation or one thread, whoever is scheduled |
| `EventQueue.HandlersFinish` | src/chassis-event-thread.c:222-266 | handlers that are left alone empty the queue and leave |
| `EventQueue.Threads.AddWithTimeout` | src/chassis-event-thread.c:121-169 | pushes the event with the timeout that was given and sends a byte unless the pipe is full |
| `EventQueue.Threads.HandleRound` | src/chassis-event-thread.c:229-265 | one round of the handler's loop |
| `EventQueue.Threads.Handle` | src/chassis-event-thread.c:222-266 | the undisturbed loop applies everything that was queued, in order, and empties the pipe |
| `EventQueue.Threads.Free` | src/chassis-event-thread.c:356-375 | frees what is left in the queue |
| `ConnPool.Pool.GetConns` | src/network-conn-pool.c:130-163 | the known user's queue, or any queue with more than the minimum |
| `ConnPool.Pool.Get` | src/network-conn-pool.c:175-217 | takes the oldest entry of the selected queue and removes the asking user's queue when that one is empty |
| `ConnPool.Pool.Add` | src/network-conn-pool.c:223-246 | appends the connection to its user's queue |
| `ConnPool.Pool.Remove` | src/network-conn-pool.c:251-262 | removes exactly that entry |
| `ConnPool.KnownUser` | src/network-conn-pool.c:130-217 | a user with a queue gets their own oldest connection, or none, and no other queue changes |
| `ConnPool.UnknownUser` | src/network-conn-pool.c:130-217 | an unknown named user takes one connection from a queue above the minimum, which stays at the minimum or above; no other entry goes |
| `ConnPool.TakesOneIff` | src/network-conn-pool.c:175-217 | nothing but the returned entry goes, exactly unless the removal hits a non-empty queue of the name asked for, which needs the empty name |
| `ConnPool.EmptyNameDestroys` | src/network-conn-pool.c:194-199 | a pool in which the empty name loses its own queue |
| `ConnPool.FirstInFirstOut` | src/network-conn-pool.c:175-246 | over all runs of adds and gets the connections of a user leave in the order in which they came |
| `BackendSwap.NextKeeps` | plugins/proxy/proxy-plugin.c:1738-1933 | every step keeps each open connection with exactly one client or pool queue, under its own user there; each backend's count stays the number of clients whose connect has finished, exactly unless a client leaves while its connect is pending or a client that keeps a pooled connection is sent to another backend; connections stay with their own backend exactly unless the latter |
| `BackendSwap.RunKeeps` | plugins/proxy/proxy-plugin.c:1738-1933 | the same in every state of every run of a fresh proxy |
| `BackendExamples.KeptRun` | plugins/proxy/proxy-plugin.c:1810-1861 | a run from a fresh proxy in which a script keeps a pooled connection of a backend that is down: one backend counts a client it does not have, another has one it does not count, and that client's connection leads to the first |
| `BackendExamples.LeftRun` | plugins/proxy/proxy-plugin.c:2091-2094 | a run in which a client is shut down while its connect is pending: the count falls below zero, to the largest number there is |
| `BackendSteps.ShortestLeast` | plugins/proxy/proxy-plugin.c:1832-1852 | shortest queue first: no eligible backend has fewer clients than the one chosen, none before it as few, and none is chosen only if every eligible one shows the largest count |
| `BackendChoice.DialsWished` | plugins/proxy/proxy-plugin.c:1810-1903 | the backend a script asks for is the one that is dialed, and no other, as long as it is not down |
| `BackendChoice.DialsShortest` | plugins/proxy/proxy-plugin.c:1832-1903 | without a wish, or when the wished backend is down, the first of the usable backends with the fewest clients is dialed; the client is refused exactly when none is usable |
| `BackendChoice.NoSuchBackend` | plugins/proxy/proxy-plugin.c:1855-1867 | an index behind the last backend leaves the client without one |
| `BackendChoice.NeverDialsDown` | plugins/proxy/proxy-plugin.c:1810-1903 | a backend that is down is never dialed |
| `BackendChoice.KeptIsUsed` | plugins/proxy/proxy-plugin.c:1904-1930 | a connection that is kept is used, and nothing is dialed |
| `BackendChoice.FinishTells` | plugins/proxy/proxy-plugin.c:1746-1778 | a pending connect marks the backend it leads to as up or down, and after a failure the client can try again |
| `BackendChoice.RetryForgets` | plugins/proxy/proxy-plugin.c:1780-1781 | trying again starts without a wish |
| `BackendChoice.WishAnswered` | src/network-mysqld-lua.c:128-142 | an assigned index takes the oldest idle connection of that backend's selected queue at once |
| `BackendChoice.OwnConnection` | src/network-conn-pool-lua.c:240-287 | a client that has logged in gets a connection of its own user whenever the backend has an idle one |
| `BackendChoice.ReturnsUnderUser` | src/network-conn-pool-lua.c:176-229 | a connection goes back into its backend's pool under the user it was last authenticated as, behind the others |
| `BackendChoice.WishRemembered` | src/network-mysqld-lua.c:137-141 | an index that no idle connection answers is remembered and changes nothing else for the client |
| `BackendChoice.WishDialed` | plugins/proxy/proxy-plugin.c:1783-1903 | in every run, whatever other clients do between the script's assignment and the end of the hook, the client is then connected to the backend it asked for, unless that one is down by then |
| `BackendProxy.Proxy.AddConnection` | src/network-conn-pool-lua.c:206-229 | puts the server connection back into the pool and disconnects the client from its backend |
| `BackendProxy.Proxy.Swap` | src/network-conn-pool-lua.c:240-287 | takes a pooled connection and drops the current one |
| `BackendProxy.Proxy.SetBackendNdx` | src/network-mysqld-lua.c:128-142 | assigning `backend_ndx` drops or swaps the connection |
| `BackendProxy.Proxy.FinishConnect` | plugins/proxy/proxy-plugin.c:1746-1778 | a pending connect that finishes, fails or times out |
| `BackendProxy.Proxy.BeginConnect` | plugins/proxy/proxy-plugin.c:1780-1781 | connecting starts over |
| `BackendProxy.Proxy.ShortestQueue` | plugins/proxy/proxy-plugin.c:1832-1852 | the loop picks the shortest queue |
| `BackendProxy.Proxy.ChooseBackend` | plugins/proxy/proxy-plugin.c:1832-1861 | the script's index, or the shortest queue |
| `BackendProxy.Proxy.ConnectAfterHook` | plugins/proxy/proxy-plugin.c:1810-1930 | the rest of `proxy_connect_server` after the script |
| `BackendProxy.Proxy.DialBackend` | plugins/proxy/proxy-plugin.c:1872-1903 | a connect that succeeds at once, is pending or is refused |
| `BackendProxy.Proxy.DisconnectClient` | plugins/proxy/proxy-plugin.c:2091-2094 | a leaving client is taken off the count of its backend |
| `Asn1.JudgeIff` | src/network-asn1.c:196-273 | the validator accepts exactly the data that start with a value of the grammar, and consumes exactly that value |
| `Asn1.HeaderReads` | src/network-asn1.c:40-134 | a header is read from every encoding that X.690 allows for it in up to seven length octets, whatever follows |
| `Asn1.HeaderWritten` | src/network-asn1.c:40-134 | what is read as a header is such an encoding |
| `Asn1.HeaderIff` | src/network-asn1.c:40-134 | a header is found exactly where one is written, for all classes, low tags and lengths |
| `Asn1.HeaderShort` | src/network-asn1.c:40-134 | the end of the data is reported exactly on proper beginnings of an encoding |
| `Asn1.HeaderErrors` | src/network-asn1.c:59-111 | which data are rejected as not supported or not valid, and on which the assertion fails |
| `Asn1.Packet.GetLength` | src/network-asn1.c:72-128 | short and long lengths, with their three errors and the failing assertion |
| `Asn1.Packet.GetHeader` | src/network-asn1.c:40-134 | identifier and length octets |
| `Asn1.IsValidContent` | src/network-asn1.c:229-268 | the content loop with its nested packets |
| `Asn1.IsValidInternal` | src/network-asn1.c:196-273 | one value with everything nested in it |
| `Asn1.IsValid` | src/network-asn1.c:276-285 | valid exactly when the rest starts with a value of the grammar; the offset is restored |
| `MysqlInts.ValueBytes` | src/network-mysqld-proto.c:192-235 | a number written in `size` bytes reads back modulo 256^size, and unchanged exactly when it fits |
| `MysqlInts.BytesValue` | src/network-mysqld-proto.c:836-845 | every sequence of bytes is what its value is written as |
| `MysqlInts.ByteAt` | src/network-mysqld-proto.c:836-845 | the lowest byte comes first |
| `MysqlInts.LenencForms` | src/network-mysqld-proto.c:768-795 | which of the four forms a number gets, with its marker and its bytes |
| `MysqlInts.NoNumber` | src/network-mysqld-proto.c:153-158 | the markers 251 and 255 are not numbers |
| `MysqlInts.FixedRoundTrip` | src/network-mysqld-proto.c:836-845 | fixed sizes round-trip exactly when the number fits, with any suffix left untouched |
| `MysqlInts.LenencRoundTrip` | src/network-mysqld-proto.c:112-165 | length-encoded integers with any suffix: exactly the encoder's bytes are taken, and the number survives exactly when it is below 2^24, its bit 31 is clear or its upper word is all ones |
| `MysqlInts.SignFills` | src/network-mysqld-proto.c:112-165 | the smallest number that does not survive: 2^31 comes back as 2^64 - 2^31 |
| `MysqlInts.Buffer.AppendIntLen` | src/network-mysqld-proto.c:836-845 | appends the `size` lowest bytes |
| `MysqlInts.Buffer.AppendLenencInt` | src/network-mysqld-proto.c:768-795 | appends the length-encoded form |
| `MysqlInts.Packet.GetLenencInt` | src/network-mysqld-proto.c:112-165 | decodes and advances, or fails and stays |
| `MysqlInts.Packet.PeekIntLen` | src/network-mysqld-proto.c:192-223 | the value of the next bytes through two 32-bit words |
| `MysqlInts.Packet.GetIntLen` | src/network-mysqld-proto.c:225-235 | decodes and advances, or fails and stays |
| `Password.Scramble` | src/network-mysqld-proto.c:957-1015 | the response to a challenge of 20 or 21 bytes; anything else fails |
| `Password.SeparatorIgnored` | src/network-mysqld-proto.c:988-996 | a 21st byte of the challenge does not change the response |
| `Password.Unscramble` | src/network-mysqld-proto.c:1030-1077 | unmasks the hashed password; needs the 20-byte challenge |
| `Password.Check` | src/network-mysqld-proto.c:1091-1134 | accepts exactly the scrambles of password hashes whose own hash is the stored one |
| `Password.Login` | src/network-mysqld-proto.c:929-1134 | the right password is always accepted, and a 20-byte challenge gives back exactly the hashed password |
| `MasterInfo.PrintedNumber` | src/network-mysqld-masterinfo.c:91-155 | a decimal 32-bit number is read back by the base-guessing parser |
| `MasterInfo.NumberLines` | src/network-mysqld-masterinfo.c:91-111 | a line is accepted as a number exactly when it is empty or a numeral of base 8, 10 or 16 with white space and a sign in front of it and nothing behind it |
| `MasterInfo.NumberRead` | src/network-mysqld-masterinfo.c:91-111 | the number that is read from such a line, saturated or negated in 64 bits and cut to 32 |
| `MasterInfo.LineCount` | src/network-mysqld-masterinfo.c:158-183 | a record has 14 lines, and 15 from 15 announced lines on |
| `MasterInfo.SampleLines` | tests/unit/t_network_mysqld_masterinfo.c:60-94 | the lines of the record that the program's own test uses |
| `MasterInfo.RoundTrip` | src/network-mysqld-masterinfo.c:116-183 | reading a printed record gives it back and consumes exactly its text; the certificate field only from 15 lines on |
| `MasterInfo.Buffer.Append` | src/network-mysqld-masterinfo.c:144-183 | prints a record behind what is there |
| `MasterInfo.Packet.GetString` | src/network-mysqld-masterinfo.c:68-89 | a line up to its newline, or an error at the end of the data |
| `MasterInfo.Packet.Get` | src/network-mysqld-masterinfo.c:116-142 | reads a record, or fails when a line is missing or not a number |

## Left out

- LpegCompiler.CompileGood: requires `Narrow`, which is wider than "no empty sets" and shuts out exactly the unions that take the branch with the wrong step; for one rebuilt alternative and one position `LpegLimits.RebuildIff` has the exact condition, but for a whole expression an error in one part can be cancelled by another, and that is not characterised.
- LpegRules.GrammarRuns: states nothing where the rules have no result; how such runs end or do not end is compared before and after fixing by `LpegTailCalls.TailCallsEnd`, but it is not proved that a run without a result never ends.
- LpegRules.FixGrammar: takes the ranks of rule heads as a ghost argument; `LpegCheckGrammar.FixChecked` finds them by the check.
- LpegCheckGrammar.FixChecked: of `checkrule` it has the check of the whole rule, not the checks of loop bodies that contain calls before it; rules that are called but not defined are shut out.
- LpegCheckRule.CheckMeaning: says nothing about rules whose meaning is not known at any depth; the check of those ends too, by `LpegCheckEnds.CheckEnds`, but may be answered where a pretended predicate hides a call, as in `LpegEndless.EndlessMatch`.
- LpegRules.GrammarSafe: for runs without a result only the stack assertions are covered, by `LpegGrammarStack.GrammarReady`, not positions and captures.
- LpegMatch.PushCapture: leaves out the error for more than `INT_MAX` bytes of captures.
- MasterInfo.Packet.Get: does not say which fields were already set when reading fails.
- Password.Unscramble: answers `None` on lengths that are not 20, where the source returns FALSE, which is also its code for success.
- BackendSwap.NextKeeps: the hook of a script that answers the client itself is not a step; a client that leaves while its connect is pending occurs only at shutdown.
- LPeg: match-time captures (`ICloseRunTime`), `IFunc`/`span`, evaluation of captures into Lua values, Lua environments and printing.
- LPeg: the cells that hold set payloads, and the 16-bit limits of offsets and pattern sizes; `separateparts` and the other constructors that copy whole patterns are functions on code, and only the optimizers and `fix_l` work in place.
- LPeg: a grammar used as an operand of another operator.
- Event queue: libevent, sockets and threads; a step is one locked section, sending fails only on a full pipe, and receiving fails only on an empty one.
- Connection pool: time stamps, and `max_idle_connections`, which is not used by this code; of a backend's state only whether it is down.
- Codecs: SHA1 is any function with 20-byte digests; `printf` and `strtoul` are functions on text; the packet helpers add offsets without overflow.
- The rest of the repository: the other plugins, protocol state machine, binlog and MyISAM printers, options, logging and daemon code.
