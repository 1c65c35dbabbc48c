# TealScript in Dafny

A model of the TealScript engine: its lexer, parser and code generator, the interpreter with jump
flags and scoped frames, the single- and multi-threaded cell scheduler, publish/subscribe between
runtimes, the binned allocator and the Adler-32 checksum. Code that changes things step by step is
imperative here too (classes with the same fields, methods with loops), and is proved against
functions on values; the properties are proved about those functions.

| files | content |
|---|---|
| `CellGraph`, `CycleScheduler`, `ThreadedScheduler`, `ThreadProgress`, `CellHistory` | cells as a graph; one pass after the other; ticket, try-lock, read, write and unlock as separate steps of any number of threads; why no thread waits; what stateful cells hold after any runs |
| `Syntax`, `Semantics`, `ExecutionContext`, `Interpreter`, `InterpretedCells`, `FuelLaws` | node trees, their structured meaning, the context object with stack, barriers and flags, the flag-driven executor, interpreted cell bodies in the scheduler, laws of the fuel |
| `Denotation`, `FaithfulDenotation`, `TameCells` | what programs mean as values, without boxes, handles and flags; the interpreter gives them this meaning; cells and their graphs |
| `FrameMerging`, `BlockCollapse` | blocks of none or one statement are dropped by the code generator: when that keeps the meaning, and when not |
| `Ast`, `Codegen`, `CodegenLaws`, `CodegenInverse`, `Pipeline` | syntax trees, the explicit-stack translation, what it accepts, reading the text off what it builds, parser and generator together |
| `Grammar`, `StatementGrammar`, `Parser`, `ParserLaws`, `Printer`, `RoundTrip`, `StatementPrinter`, `StatementLayout`, `StatementRoundTrip`, `GrammarCorners` | what token lists mean, the parser object, printing, round trips of expressions, statements and scripts, texts the printer never writes |
| `Lexer`, `LexerWords`, `LexerRoundTrip`, `LexerPositions`, `LexerEscapes`, `LexerComments` | the character automaton, newline spellings, the round trip of token lists, where tokens stand, escapes, comments |
| `LookupCache`, `ConstantFolding` | the caches inside expression nodes |
| `Allocator`, `AllocatorSafety`, `AllocatorProgress`, `AllocatorReuse`, `AllocatorExact`, `AllocatorOvershoot` | small steps of allocation and deallocation, their invariant, why they never get stuck, the reuse of freed blocks, exactly when runs are safe, exhaustion |
| `Publisher`, `PubSubSafety`, `Adler`, `Wrappers` | subscriptions and ticks, what extern cells hold and which publication they show, the checksum, an option type |

Where the code surprises, the model follows the code:

- `continue` starts the body again without testing the condition or running the increment, so a `for` whose body continues never ends. All rounds of a loop share one frame; a handler's frame lies inside the frame of its `try`.
- A function called with fewer actuals than formals reads beyond the argument vector (outcome `Fault`); the guard compares `i`, not `i + 2`.
- A literal's node owns one box, shared by all uses: a function that assigns to its parameter changes the literal it was passed. So do a name that stands for a global constant and an operator over such operands, once they were evaluated: the second `f(pi)` or `f(1 + 2)` passes what the first call made of the box.
- Division and remainder evaluate their right operand first, all other operators the left one. Compound assignments treat undefined operands each in its own way; `/=` and `%=` throw.
- In an argument list a missing expression does not end the loop: `f(a,)` goes on behind the parenthesis. `()` as an expression yields nothing and has consumed both tokens. Commas between array items are optional. An `if` without `else` cannot be the last thing in a script. The first two parts of a `for` may be empty, the third may not.
- Adjacent string literals join; one before a character literal is taken in and leaves an empty one behind; one at the end of the input is lost.
- Carriage return and line feed in a row are one newline even where two were meant.
- A name without a cell is published as undefined only when the clock is more than three seconds past the last answer. A second alias for a name replaces the first, a name that lost its cell and got the same value back is not published again, and an extern cell can go back to an older publication.
- Freeing a block by its size fails for a block of zero bytes, which was allocated as one byte.
- Blocks can overlap once two allocations of different sizes overshoot the buffer at the same time.

## Model

| member | source | states |
|---|---|---|
| CellGraph.DenoteRankIrrelevant | src/tealscript_runtime.hpp:1247-1261 | the value the graph denotes does not depend on the ranking that proves it acyclic |
| CellGraph.ReadsSettled | src/tealscript_runtime.hpp:1452-1489 | reading the arguments of a cell whose upstream is settled gives exactly the denoted arguments |
| CycleScheduler.Runtime.SetInput | src/tealscript_runtime.hpp:1822-1829 | a known name gets the value, an unknown one is refused, nothing else changes |
| CycleScheduler.Runtime.CollectArgs | src/tealscript_runtime.hpp:1452-1489 | the loop over argument infos yields all values in order, or nothing if one is missing |
| CycleScheduler.Runtime.RunWorker | src/tealscript_runtime.hpp:1439-1517 | one cell in place is the functional run: value, fields, output, failure |
| CycleScheduler.Runtime.RunCycle | src/tealscript_runtime.hpp:1428-1519 | one pass in any order of the map is the functional pass, up to the first failure |
| CycleScheduler.FailureStays | src/tealscript_runtime.hpp:1493-1507 | a failure ends the pass: cells after it are untouched |
| CycleScheduler.SettlesOne | src/tealscript_runtime.hpp:1508-1517 | running a cell with settled upstream settles it and its output, and unsettles no other |
| CycleScheduler.CycleProgress | src/tealscript_runtime.hpp:1428-1519 | a pass settles the next rank, whatever the order |
| CycleScheduler.Convergence | src/tealscript_runtime.hpp:1428-1519 | after k passes in any orders from any values, all cells of rank up to k and their outputs hold the denoted values |
| CycleScheduler.SettledIsStable | src/tealscript_runtime.hpp:1428-1519 | once all is settled further passes change no value and no output |
| CycleScheduler.TopologicalOrderSettlesAtOnce | src/tealscript_runtime.hpp:1439-1519 | a pass in an order that respects the arguments settles everything in one go |
| ThreadedScheduler.MutualExclusion | src/tealscript_runtime.hpp:1639-1716 | in every interleaving at most one thread is inside a cell, and the holder of the lock is that thread |
| ThreadedScheduler.MoveElsewhere | src/tealscript_runtime.hpp:1661-1714 | a step of a thread that is not inside a cell changes neither its value nor its output |
| ThreadedScheduler.MoveInside | src/tealscript_runtime.hpp:1661-1714 | a step inside a cell whose upstream is settled keeps the arguments read so far correct and never writes a wrong value |
| ThreadedScheduler.StepOnTrack | src/tealscript_runtime.hpp:1639-1716 | no execution in flight can undo a settled cell, and one that finishes settles it |
| ThreadedScheduler.StepKeepsSettled | src/tealscript_runtime.hpp:1628-1716 | every step of every thread keeps all cells below a settled rank settled |
| ThreadedScheduler.SettledForever | src/tealscript_runtime.hpp:1628-1716 | so does every run |
| ThreadedScheduler.WindowSettles | src/tealscript_runtime.hpp:1639-1716 | an execution from start to finish after the upstream settled settles the cell |
| ThreadedScheduler.ThreadedConvergence | src/tealscript_runtime.hpp:1598-1751 | if every cell is executed start to finish in each of D windows, from then on all cells of rank up to D hold the denoted value, in every interleaving |
| ThreadedScheduler.DrawsFollowTickets | src/tealscript_runtime.hpp:1629-1637 | how often a cell was offered follows from the first and last ticket alone |
| ThreadedScheduler.OffersOnce | src/tealscript_runtime.hpp:1629-1637 | among up to n consecutive tickets exactly those in a cell's residue offer it, once |
| ThreadedScheduler.TicketsAreFair | src/tealscript_runtime.hpp:1629-1637 | n consecutive tickets of n cells offer each cell exactly once, in every interleaving |
| ThreadProgress.StepBringsNearer | src/tealscript_runtime.hpp:1628-1716 | every step of a thread brings it nearer to the end of its ticket, whoever holds which lock: a locked cell is skipped, not waited for |
| ThreadProgress.TicketsAreDealtWith | src/tealscript_runtime.hpp:1628-1716 | in every run a thread that drew a ticket is done with it after at most five more steps of its own than the cell has arguments |
| ThreadProgress.LocksAreReleased | src/tealscript_runtime.hpp:1639-1716 | so the lock of a cell is released once its holder has taken that many steps |
| CellHistory.FailsIff | src/tealscript_runtime.hpp:1439-1507 | the execution of a cell fails if and only if its type is missing or takes another number of arguments, an argument names no cell, or the body throws; unless it threw, nothing has changed |
| CellHistory.CellsLive | src/tealscript_runtime.hpp:1439-1517 | for arbitrary bodies, after any sequence of executions, failing or not, the fields of a cell are the fold of its body over the arguments it found, its value and output are what it returned last, and no other cell's fields change |
| CellHistory.CellsLiveOn | src/tealscript_runtime.hpp:1428-1519 | so after any passes in any orders |
| CellHistory.OncePerPass | src/tealscript_runtime.hpp:1428-1519 | in a pass without failure each cell is executed once |
| CellHistory.ThreadedCellsLive | src/tealscript_runtime.hpp:1639-1716 | in every interleaving of any number of threads the fields of a cell are the fold of its body over its executions in the order of their locks; value and output follow but for the one on its way |
| ExecutionContext.Context.ClearStackSoft | src/tealscript_exec_ctx.hpp:182-189 | the frames in use are emptied, pointer, barriers and depth reset |
| ExecutionContext.Context.SetStackBarrier | src/tealscript_exec_ctx.hpp:146-148 | everything up to the top frame is out of sight for the callee |
| ExecutionContext.Context.ClearStackBarrier | src/tealscript_exec_ctx.hpp:150-155 | the last barrier is undone |
| ExecutionContext.Context.NewStackFrame | src/tealscript_exec_ctx.hpp:161-166 | a pushed frame starts empty, the frames below are kept |
| ExecutionContext.Context.DelStackFrame | src/tealscript_exec_ctx.hpp:168-173 | the top frame is emptied and dropped |
| ExecutionContext.Context.FindLocal | src/tealscript_exec_ctx.hpp:266-281 | the loop with the late barrier finds the innermost binding above the barrier, and only that |
| ExecutionContext.Context.FindValBySymName | src/tealscript_exec_ctx.hpp:219-303 | lookup is the specified one, creates at most one binding in the top frame and restores all else |
| ExecutionContext.Context.FindFunc | src/tealscript_exec_ctx.hpp:317-350 | user functions hide host functions of the same name |
| ExecutionContext.Context.FindField | src/tealscript_expr.hpp:2110-2129 | fields of the instance are refused inside functions, and created only with the flag set |
| ExecutionContext.Context.Assign | src/tealscript_expr.hpp:1240-1257 | storing through a handle changes that box alone |
| Interpreter.RunExpr | src/tealscript_expr.hpp:17-2224 | evaluation in the context equals the meaning; pointer, barriers, depth and create flag end as found, also when it throws |
| Interpreter.RunPrefix | src/tealscript_expr.hpp:153-455 | prefix operators in place; all but NOT turn a thrown value into an unknown error |
| Interpreter.RunPostfix | src/tealscript_expr.hpp:521-575 | postfix operators create a missing variable and restore the create flag |
| Interpreter.RunAssign | src/tealscript_expr.hpp:1240-1257 | the right side is evaluated first, with the create flag as it stands, then the left side with the flag set |
| Interpreter.RunUpdate | src/tealscript_expr.hpp:1258-1755 | compound assignment: operands as for assignment; an undefined right or left side is kept, overwritten, zeroed or refused, operator by operator |
| Interpreter.RunShortCircuit | src/tealscript_expr.hpp:1926-1961 | the right operand is evaluated only if the left one does not decide |
| Interpreter.RunTernop | src/tealscript_expr.hpp:676-684 | exactly one branch is evaluated |
| Interpreter.RunCall | src/tealscript_expr.hpp:595-655 | callee first, then the arguments in order with the create flag off, then the call |
| Interpreter.RunInvoke | src/tealscript_expr.hpp:634-643 | barrier set and cleared around a user function whichever way it ends; no frame at or below it is touched |
| Interpreter.CallsAreIsolated | src/tealscript_exec_ctx.hpp:146-173 | two callers with the same boxes get the same result, whatever their frames and fields |
| Interpreter.SelectUserFunction | src/tealscript_runtime.hpp:2062-2099 | depth, frame and flags are undone on every exit; the result is that of the body in a frame of its own |
| Interpreter.BindActuals | src/tealscript_runtime.hpp:2083-2092 | the binding loop binds every formal, or faults |
| Interpreter.BindsIffEnoughActuals | src/tealscript_runtime.hpp:2085-2091 | binding succeeds if and only if there are at least as many actuals as formals |
| Interpreter.RunStmt | src/tealscript_statement.hpp:177-445 | from clear flags the final flags, result and exception encode exactly the structured outcome, at most one flag is set, and the frames are as specified |
| Interpreter.RunCompound | src/tealscript_statement.hpp:177-215 | a block stops at the first jump or exception and drops its frame |
| Interpreter.RunIf | src/tealscript_statement.hpp:124-155 | the condition and the branch it selects run in one frame of the statement |
| Interpreter.RunTry | src/tealscript_statement.hpp:62-99 | the handler runs for catchable exceptions only, in frames that are dropped on every exit |
| Interpreter.RunLoop | src/tealscript_statement.hpp:229-281 | while and for with all their flags equal the structured loop |
| Interpreter.RunRounds | src/tealscript_statement.hpp:304-400 | the rounds of a loop: break and return end it, continue restarts the body |
| Interpreter.NoStrayJump | src/tealscript_statement.hpp:415-445 | a well-nested statement outside loops never ends in break or continue |
| Interpreter.NoJumpOutOfLoop | src/tealscript_statement.hpp:229-281 | a loop consumes its break and continue |
| Interpreter.RunCell | src/tealscript_runtime.hpp:1493-1517 | a cell body leaves the context clean, whatever happened |
| InterpretedCells.RunCell | src/tealscript_runtime.hpp:1452-1517 | one execution of a cell body in the context is a function of the argument values, the boxes and the instance fields |
| InterpretedCells.PureYields | src/tealscript_expr.hpp:153-2224 | an expression of parameters, constants and operators yields its meaning, stores into no box and binds nothing |
| InterpretedCells.ExpressionCell | src/tealscript_runtime.hpp:1493-1517 | a cell that returns such an expression returns its meaning for the arguments, whatever boxes and fields it finds |
| InterpretedCells.InterpretedConvergence | src/tealscript_runtime.hpp:1428-1519 | an acyclic graph of such cells converges, in any orders, to the meaning of their expressions for the settled arguments |
| FaithfulDenotation.CalmGives | src/tealscript_expr.hpp:17-2224 | an expression that assigns nothing evaluates to its value-level meaning, or fails as it says, and stores into no box: names, literals, fields, operators, choices, calls of host functions and of tame user functions |
| FaithfulDenotation.EffectMoves | src/tealscript_expr.hpp:1240-1755 | an assignment, compound assignment, increment or decrement gives the value it means (the old one behind the operand, the new one otherwise) and changes the named variable or field alone |
| FaithfulDenotation.CombinesAsTabled | src/tealscript_expr.hpp:1258-1755 | compound assignments with undefined operands, in a table operator by operator |
| FaithfulDenotation.UserGives | src/tealscript_runtime.hpp:2062-2099 | a call of a user function gives the meaning of its body, in which each parameter stands for the argument in its place, and stores into no box of the caller |
| FaithfulDenotation.RunGives | src/tealscript_statement.hpp:62-445 | every statement (blocks, branches, loops, try, jumps, return, throw) ends as it means and leaves the variables and fields it means, for all tame programs and any fuel |
| TameCells.CellMeans | src/tealscript_runtime.hpp:1452-1517 | one execution of a tame cell body ends as the body means for the arguments and fields, leaves the literals alone and the fields as they are meant to be |
| TameCells.RunsAreMeant | src/tealscript_runtime.hpp:1452-1517 | so after any number of executions: the fields are those of as many meant runs |
| TameCells.TameConvergence | src/tealscript_runtime.hpp:1428-1519 | an acyclic graph of cells with tame bodies (loops, calls, literals) that return converges, in any orders, to what the bodies mean |
| TameCells.BranchesAreAChoice | src/tealscript_statement.hpp:124-155 | `if (c) return a; else return b;` means `return c ? a : b;` |
| TameCells.BranchingCell | src/tealscript_statement.hpp:145-149 | a cell with such a body returns the meaning of the choice, whatever boxes and fields it finds |
| TameCells.CallMeansItsBody | src/tealscript_runtime.hpp:2083-2096 | a function that returns an expression gives what it means for the values of the arguments, each bound to the parameter in its place |
| FuelLaws.MoreFuelExpr | src/tealscript_expr.hpp:595-655 | an evaluation that does not run out of fuel gives the same with any larger fuel |
| FuelLaws.MoreFuelStmt | src/tealscript_statement.hpp:229-400 | so does the execution of a statement |
| FuelLaws.ContinueSkipsTest | src/tealscript_statement.hpp:259-261 | after a continue that recurs the loop runs out of any fuel, whatever its condition |
| FuelLaws.ForContinueDiverges | src/tealscript_statement.hpp:335-385 | a for whose body continues never ends once its first test succeeded |
| FuelLaws.CreationReachesPlaces | src/tealscript_expr.hpp:676-684 | where names are created on demand, the branches of a choice and both sides of an assignment create theirs |
| FrameMerging.MergedStmt | src/tealscript_exec_ctx.hpp:161-173 | running in two adjacent frames and in their union gives the same outcome and the union of the final frames |
| BlockCollapse.SameFunction | src/tealscript_codegen.hpp:286-300 | a function with its body's small blocks dropped gives the same result and boxes |
| BlockCollapse.SameBody | src/tealscript_codegen.hpp:286-300 | so does a cell body: same outcome, boxes and fields, all frames but the top equal |
| BlockCollapse.SameBranch | src/tealscript_statement.hpp:118-121 | so does a branch of an if that runs in the frame of the if |
| BlockCollapse.SameLoopBody | src/tealscript_codegen.hpp:259-284 | so does the body of a loop or try, unless it is a block within a block that may bind a name |
| BlockCollapse.SameStmt | src/tealscript_codegen.hpp:286-300 | so does every statement whose free-standing blocks of one statement bind no name; equal in everything, frames included |
| BlockCollapse.FramedNeedsNoBlock | src/tealscript_codegen.hpp:286-300 | a statement that brings its own frame, or whose expression assigns to no name, needs no block around it |
| BlockCollapse.CollapsesIff | src/tealscript_codegen.hpp:286-300 | a block of one statement means that statement if and only if the statement leaves the frame it runs in as it finds it |
| BlockCollapse.BlockNeedlessIff | src/tealscript_statement.hpp:177-215 | the same for the frame of a block of any number of statements |
| BlockCollapse.BindsNothing | src/tealscript_exec_ctx.hpp:280-285 | an expression without assignment to a name, increment or decrement creates no name |
| BlockCollapse.FreeBlockLeaks | src/tealscript_codegen.hpp:286-300 | not so a free-standing block: its variable becomes visible behind it |
| BlockCollapse.LoopBodyLeaks | src/tealscript_codegen.hpp:259-284 | nor a loop body: a loop that never ends as written, whatever the fuel, ends after its first round when collapsed |
| Codegen.Generator.ChopExpression | src/tealscript_codegen.hpp:308-607 | the loop over stacked frames and phases ends, and returns the tree or the first error of the plain recursion |
| Codegen.Generator.Turn | src/tealscript_codegen.hpp:320-606 | one turn of the loop keeps the meaning of stack and register and does some of the remaining work |
| Codegen.Generator.Advance | src/tealscript_codegen.hpp:335-606 | a phase that wants a child puts it on the stack in the order of the operands |
| Codegen.Generator.Complete | src/tealscript_codegen.hpp:335-606 | the last phase builds the node the recursion builds |
| Codegen.Generator.FuncCallArgs | src/tealscript_codegen.hpp:609-616 | arguments in order, up to the first error |
| Codegen.Generator.ChopStatement | src/tealscript_codegen.hpp:214-284 | statements are translated as specified, up to the first error |
| Codegen.Generator.ChopCompoundStatement | src/tealscript_codegen.hpp:286-300 | blocks of none or one statement lose their node |
| Codegen.GeneratorCollapses | src/tealscript_codegen.hpp:286-300 | translating with the shortcut is translating as written and dropping small blocks afterwards: same errors, same boxes |
| Codegen.ChopKeepsNesting | src/tealscript_codegen.hpp:214-284 | break and continue stay inside loops |
| CodegenLaws.ChopOwns | src/tealscript_codegen.hpp:335-606 | a tree is accepted if and only if its kinds are those dispatched on and its literals convert; it then owns one new box per literal other than `undefined`, in order |
| CodegenLaws.ChopOwnsAll | src/tealscript_codegen.hpp:609-616 | the same for argument lists |
| CodegenInverse.NodeSaysTheText | src/tealscript_codegen.hpp:308-607 | what was written can be read off the node: operators, names, the order of operands, the values of literals, an array as a call of `array` |
| CodegenInverse.SameNodesSameText | src/tealscript_codegen.hpp:308-607 | two expressions that become the same node say the same |
| CodegenInverse.StatementSaysTheText | src/tealscript_codegen.hpp:214-300 | so for statements, with blocks kept or small ones dropped, standing free or as the body of another statement |
| CodegenInverse.TreeAccepted | src/tealscript_codegen.hpp:214-300 | a statement is accepted if and only if all its expressions are |
| CodegenInverse.RejectsAtFault | src/tealscript_codegen.hpp:308-607 | a rejection points at a part of the expression that has the fault it names |
| Pipeline.AcceptedBodyNeverJumps | src/tealscript_parser.hpp:692-746 | a body the parser accepted ends normally, by return or by an exception, never by a stray jump |
| Pipeline.AcceptedBodyMeansItsText | src/tealscript_codegen.hpp:286-300 | running the generated code of a body is running it as written, if no block that loses its frame to the one around it assigns to a name |
| Grammar.ParseExpr | src/tealscript_parser.hpp:788-846 | total on every token list; the position never passes the end and advances if a tree was read |
| Grammar.ParseBinary | src/tealscript_parser.hpp:848-1112 | the same for every binary level, with the measure (tokens left, level) |
| Grammar.ChainTail | src/tealscript_parser.hpp:1152-1250 | the same for the postfix chain |
| Grammar.ParseArgs | src/tealscript_parser.hpp:1176-1210 | the same for the argument loop, which always consumes |
| StatementGrammar.ParseStatement | src/tealscript_parser.hpp:56-85 | total; consumes, and what it returns has break and continue inside loops only |
| StatementGrammar.ParseTop | src/tealscript_parser.hpp:41-54 | total; bodies of definitions hold no stray jump |
| StatementGrammar.ParseScript | src/tealscript_parser.hpp:27-36 | total on every token list: a script or the first error |
| Parser.TokenParser.GetExpr | src/tealscript_parser.hpp:788-846 | the routine with its mutable position is the grammar: same tree or error, same position |
| Parser.TokenParser.GetBinary | src/tealscript_parser.hpp:848-1112 | the left-associative loop of a level |
| Parser.TokenParser.GetPrefix | src/tealscript_parser.hpp:1114-1150 | prefix operators and casts |
| Parser.TokenParser.GetPostfix | src/tealscript_parser.hpp:1152-1250 | calls, indexes, members; an increment or decrement ends the chain |
| Parser.TokenParser.GetPrimary | src/tealscript_parser.hpp:1256-1450 | literals, words, parentheses, arrays |
| Parser.TokenParser.GetStatement | src/tealscript_parser.hpp:56-85 | statements in the order of the alternatives; the stack of enclosing loops ends as found |
| Parser.TokenParser.GetIf | src/tealscript_parser.hpp:416-453 | the condition needs no parentheses; running out of tokens where else may follow is an error |
| Parser.TokenParser.GetTry | src/tealscript_parser.hpp:329-414 | try, catch and the name in parentheses told by their text |
| Parser.TokenParser.GetWhile | src/tealscript_parser.hpp:455-509 | a while pushes itself on the loop stack for its body and pops on every exit |
| Parser.TokenParser.GetFor | src/tealscript_parser.hpp:511-638 | the same for a for; empty parts stand for literals |
| Parser.TokenParser.GetJump | src/tealscript_parser.hpp:692-746 | break and continue are refused outside loops |
| Parser.TokenParser.GetBlock | src/tealscript_parser.hpp:298-327 | statements up to the closing brace |
| Parser.TokenParser.GetTop | src/tealscript_parser.hpp:41-54 | functions, cells and instances |
| Parser.TokenParser.Parse | src/tealscript_parser.hpp:27-36 | the loop over top-level statements is the grammar of scripts |
| ParserLaws.EmitsExpr | src/tealscript_parser.hpp:788-1450 | every node the parser emits is one the code generator dispatches on, with operators where the grammar has them |
| ParserLaws.PrintableIffComplete | src/tealscript_parser.hpp:788-1450 | such a tree can be printed if and only if no operand is missing |
| ParserLaws.ReparsedIsSame | src/tealscript_parser.hpp:788-1450 | a parsed complete expression printed and parsed again is the same |
| RoundTrip.Reading | src/tealscript_parser.hpp:788-1450 | wherever a printed expression stands, each level reads it back and goes on behind it |
| RoundTrip.ExpressionRoundTrip | src/tealscript_parser.hpp:788-1450 | a printed expression followed by anything that cannot continue it is parsed to the same tree, consuming exactly its tokens |
| RoundTrip.PrintingIsUnambiguous | src/tealscript_parser.hpp:788-1450 | two expressions with the same text are the same |
| StatementRoundTrip.StatementRoundTrip | src/tealscript_parser.hpp:56-786 | the same for statements; one that ends with an if without else must not be followed by else or the end |
| StatementRoundTrip.ElseGoesToTheNearestIf | src/tealscript_parser.hpp:416-453 | why: two different nestings of if have one text |
| StatementRoundTrip.ReadingTop | src/tealscript_parser.hpp:41-296 | the same for function and cell definitions and the three forms of instances |
| StatementRoundTrip.ScriptRoundTrip | src/tealscript_parser.hpp:27-36 | parsing the text of a script gives the script |
| GrammarCorners.SparseForIsFilled | src/tealscript_parser.hpp:511-638 | a `for` whose first or second part is empty is read as with `false` or `true` there |
| GrammarCorners.NoIncrementNoFor | src/tealscript_parser.hpp:554-570 | the third part cannot be left out |
| GrammarCorners.CommasAreOptional | src/tealscript_parser.hpp:1433-1447 | the comma after an array item is optional, the last one included, wherever the next item does not go on with the one before |
| GrammarCorners.TrailingCommaGoesOn | src/tealscript_parser.hpp:1180-1199 | a comma before the closing parenthesis makes the argument list go on behind it |
| GrammarCorners.EmptyParentheses | src/tealscript_parser.hpp:1417-1423 | empty parentheses are nothing, and both are consumed |
| GrammarCorners.IfCannotBeLast | src/tealscript_parser.hpp:416-453 | an `if` without `else` is refused at the end of the tokens |
| Lexer.Scanner.ProcessInputChar | src/tealscript_lexer.hpp:81-165 | the automaton's step on its fields |
| Lexer.Scanner.ConsumeChar | src/tealscript_lexer.hpp:27-46 | newlines are passed on as one line feed, with the carriage return held back one character |
| Lexer.Scanner.Scan | src/tealscript_lexer.hpp:27-51 | a whole text and its end |
| Lexer.NewlineSpellings | src/tealscript_lexer.hpp:27-46 | spelling newlines as CR, LF or CRLF gives the automaton the same input if and only if no CR newline is directly followed by an LF one |
| Lexer.NewlinesDoNotMatter | src/tealscript_lexer.hpp:27-46 | then tokens, rows and columns are the same |
| LexerRoundTrip.ReadsWord | src/tealscript_lexer.hpp:167-777 | the spelling of any token and a blank yield exactly that token |
| LexerRoundTrip.LexingJoins | src/tealscript_lexer.hpp:723-777 | what lexing a spelled token list yields, joined strings included |
| LexerRoundTrip.LexingGivesBackIff | src/tealscript_lexer.hpp:723-777 | the list is given back if and only if no string literal stands directly before a string, a character literal or the end |
| LexerRoundTrip.LastStringIsLost | src/tealscript_lexer.hpp:723-777 | a single string literal yields no token |
| LexerWords.JoinsNothingIff | src/tealscript_lexer.hpp:723-777 | joining changes nothing exactly for separated lists |
| LexerPositions.TokensStandWhereTheyBegin | src/tealscript_lexer.hpp:81-190 | after any text the line is the count of its newlines and the column that of the characters behind the last one; each token reported carries the place of its first character |
| LexerPositions.AllTokensStand | src/tealscript_lexer.hpp:723-782 | so for all tokens of a text with its end |
| LexerEscapes.EscapeTable | src/tealscript_lexer.hpp:490-508 | what each character behind a backslash denotes |
| LexerEscapes.NumericEscape | src/tealscript_lexer.hpp:389-491 | octal and hexadecimal escapes give the character of their number |
| LexerEscapes.EscapeRoundTrip | src/tealscript_lexer.hpp:389-508 | every character written as an escape of two, four or eight hexadecimal digits is read back |
| LexerComments.CommentIsABlank | src/tealscript_lexer.hpp:517-541 | a comment outside literals changes no word and no error: it counts as a blank |
| LookupCache.RememberingAgreesIff | src/tealscript_exec_ctx.hpp:219-265 | a lookup by a remembered dictionary gives the value and frames of one from scratch if and only if the dictionary lacks the name, or the name is not visible locally nor to be created and no dictionary searched earlier holds another value |
| LookupCache.WhatIsRemembered | src/tealscript_expr.hpp:73-113 | what a node remembers after any sequence of uses and assignments: the dictionary, and the box of the first use since the last assignment |
| LookupCache.SequenceAgreesIff | src/tealscript_expr.hpp:73-113 | over any sequence of uses, a use gives the value and frames of uncached lookup if and only if its name was not yet found in a dictionary, or the kept box (else the dictionary) has what the name now stands for and nothing is to be created |
| LookupCache.UnshadowedAgreesIff | src/tealscript_expr.hpp:73-97 | without shadowing a use agrees if and only if the kept box of the constant, if there is one, still holds the constant |
| LookupCache.CallChangesTheConstant | src/tealscript_value.hpp:330-346 | a run without shadowing that disagrees: a constant passed twice to a function that increments its parameter |
| LookupCache.ShadowingIsMissed | src/tealscript_exec_ctx.hpp:258-264 | a concrete miss: a constant looked up first, then assigned to |
| LookupCache.SymbolNode.FindVal | src/tealscript_exec_ctx.hpp:219-303 | lookup with the remembered category is the specified one, and updates the category |
| LookupCache.SymbolNode.Eval | src/tealscript_expr.hpp:73-113 | evaluation of the node is the specified use: the kept box is given out, a constant found is kept |
| LookupCache.SymbolNode.ResetPrimary | src/tealscript_expr.hpp:69-71 | an assignment drops the box and keeps the category |
| LookupCache.SymbolNode.FindRemembered | src/tealscript_exec_ctx.hpp:219-264 | lookup by category, falling through when it misses |
| LookupCache.SymbolNode.FindOnStack | src/tealscript_exec_ctx.hpp:233-257 | the category of locals needs no hypothesis |
| LookupCache.SymbolNode.FindCallee | src/tealscript_exec_ctx.hpp:351-389 | lookup of a callee agrees with uncached lookup if and only if a host function is not remembered for a name that has a user function; the method keeps it so |
| ConstantFolding.ClosedIgnoresLocals | src/tealscript_expr.hpp:206-210 | an expression of literals and constants does not depend on locals unless one of them has another value under a name of the tree |
| ConstantFolding.Node.Eval | src/tealscript_expr.hpp:2209-2224 | evaluation stores into no box there was; while the kept boxes hold their values it agrees with plain evaluation, for all locals that give no name of the tree another value; a marked node gives out its box, whatever is in it; an operator is marked when its operands are |
| ConstantFolding.Node.EvalUnary | src/tealscript_expr.hpp:153-490 | the same for prefix operators and casts; plus shares the box of its operand, complement is never marked |
| ConstantFolding.Node.EvalBinary | src/tealscript_expr.hpp:2209-2224 | the same for binary operators, with short circuits and division right to left |
| ConstantFolding.NameAgreesIff | src/tealscript_expr.hpp:73-97 | over any sequence of evaluations of a name, all agree with plain evaluation if and only if it is no constant or, after the constant was found, the kept box always holds what the name stands for |
| ConstantFolding.UntouchedNameAgreesIff | src/tealscript_expr.hpp:73-97 | with boxes left alone: if and only if no local of another value takes the name after the constant was found |
| ConstantFolding.StoringReachesTheNode | src/tealscript_expr.hpp:2218-2222 | a concrete miss without names: storing into the box of a folded sum changes what the node gives from then on |
| ConstantFolding.ShadowingIsMissed | src/tealscript_expr.hpp:90-100 | a concrete miss when a local takes the name of a constant |
| Allocator.AlignedSizes | src/inc/binned_allocator.hpp:32-34 | rounding goes up to the next multiple and no further |
| Allocator.BinsAndSizes | src/inc/binned_allocator.hpp:41-43 | bin i holds blocks of (i + 1) * ALIGNMENT bytes, and every small size has a bin |
| Allocator.SizedDeallocation | src/inc/binned_allocator.hpp:87-102 | deallocating by size finds the block's size unless the size asked for was 0 |
| AllocatorSafety.SwapsTheTop | src/inc/binned_allocator.hpp:67-74 | no ABA: a successful pop had read the true top of the bin and the true link below it |
| AllocatorSafety.StepKeepsStructure | src/inc/binned_allocator.hpp:55-139 | every step of every thread keeps bins acyclic lists of distinct blocks of one size and gives each block one place: client, thread or bin |
| AllocatorSafety.StepKeepsLayout | src/inc/binned_allocator.hpp:76-85 | blocks tile the buffer from the start, and the offset is their end plus the pending overshoots |
| AllocatorSafety.StepKeepsCount | src/inc/binned_allocator.hpp:55-139 | the byte counter is the live bytes plus what threads still owe |
| AllocatorSafety.StepKeepsInv | src/inc/binned_allocator.hpp:55-139 | all of it together, for every step that does not carve while an overshoot is pending |
| AllocatorSafety.CalmPlayStaysGood | src/inc/binned_allocator.hpp:55-139 | so does every such run |
| AllocatorSafety.GoodStateIsSafe | src/inc/binned_allocator.hpp:55-139 | blocks are aligned, inside the buffer and disjoint with their headers; none is both live and free, and none has two owners |
| AllocatorSafety.QuiescentCounts | src/inc/binned_allocator.hpp:145-160 | with all threads idle the offset is the sum of full sizes and the counter the sum of live ones |
| AllocatorSafety.QuiescentBlocks | src/inc/binned_allocator.hpp:55-139 | then no block is lost: each is live or in a bin |
| AllocatorProgress.BusyThreadsProceed | src/inc/binned_allocator.hpp:55-139 | a thread that works can take its next step if and only if it does not wait for a taken lock: every header, link and bin it looks at is there |
| AllocatorProgress.StepKeepsLocksOwned | src/inc/binned_allocator.hpp:60-75 | every lock is held by a thread inside that bin |
| AllocatorProgress.NeverStuck | src/inc/binned_allocator.hpp:55-139 | a thread that works can go on, or waits for one that can |
| AllocatorProgress.FreshRunsNeverStick | src/inc/binned_allocator.hpp:55-139 | so in every state reached without carving past a pending overshoot |
| AllocatorReuse.CarvesIffEmpty | src/inc/binned_allocator.hpp:66-77 | a thread that looks into a bin goes on to carve if and only if the bin is empty |
| AllocatorReuse.CarvingFoundEmpty | src/inc/binned_allocator.hpp:66-85 | in every run, a thread that carves had found the bin empty when it last looked |
| AllocatorReuse.AllocatesAlone | src/inc/binned_allocator.hpp:55-86 | undisturbed, an allocation ends with a block if and only if the bin has one or the buffer has room; a bin with blocks gives its top and leaves the offset alone |
| AllocatorReuse.DeallocatesAlone | src/inc/binned_allocator.hpp:87-139 | undisturbed, a deallocation puts the block on top of its bin |
| AllocatorReuse.FreedIsReused | src/inc/binned_allocator.hpp:55-139 | so the next request of that bin gets the block just freed |
| AllocatorExact.RunIsGoodIffCalm | src/inc/binned_allocator.hpp:55-139 | a run of a fresh allocator ends in a good state if and only if it never carved a block while an overshoot was pending |
| AllocatorExact.GoodIffCalm | src/inc/binned_allocator.hpp:76-85 | the same from any good state |
| AllocatorExact.GapStays | src/inc/binned_allocator.hpp:76-85 | the gap such a carving leaves is never filled: the offset stays behind it under every step |
| AllocatorExact.GapIsNotGood | src/inc/binned_allocator.hpp:76-85 | no ledger explains a state with a gap |
| AllocatorOvershoot.CarvesCleanlyIffQuiet | src/inc/binned_allocator.hpp:76-79 | one carving from a tiled state lies where the blocks end if and only if no overshoot is pending |
| AllocatorOvershoot.SoloSchedulesAreSafe | src/inc/binned_allocator.hpp:55-85 | runs in which bump attempts do not interleave are safe |
| AllocatorOvershoot.OneAllocatorIsSolo | src/inc/binned_allocator.hpp:55-85 | in particular those with one allocating thread, whatever the others free |
| AllocatorOvershoot.UniformPlayIsSafe | src/inc/binned_allocator.hpp:55-85 | and all interleavings in which only one size is asked for |
| AllocatorOvershoot.OverlappingOvershootsShareABlock | src/inc/binned_allocator.hpp:76-79 | a concrete run with two overshoots ends with one block given to two owners |
| Publisher.PublisherState.Subscribe | src/tealscript_runtime.hpp:2306-2311 | a subscription replaces the former one of that name and forgets what was sent |
| Publisher.PublisherState.Unsubscribe | src/tealscript_runtime.hpp:2312-2317 | that name alone is dropped, and the client counts as alive |
| Publisher.PublisherState.Remove | src/tealscript_runtime.hpp:2318-2323 | the connection is forgotten |
| Publisher.PublisherState.Tick | src/tealscript_runtime.hpp:2347-2417 | one run of the publisher sends exactly the answers due, drops silent connections and remembers what it sent |
| Publisher.PublisherState.Serve | src/tealscript_runtime.hpp:2358-2404 | the loop over one connection's names |
| Publisher.SubscribeForcesPublish | src/tealscript_runtime.hpp:2347-2404 | after a subscribe the next tick in time publishes the current value, changed or not |
| Publisher.RepublishesIffChanged | src/tealscript_runtime.hpp:2366-2385 | over any ticks without a resubscribe, the next publication after one comes exactly when the bytes differ, however often the name had no cell in between |
| Publisher.RemembersLastPublished | src/tealscript_runtime.hpp:2366-2396 | what is remembered for a name is what was published last |
| Publisher.AbsentIsPublishedIffOverdue | src/tealscript_runtime.hpp:2386-2396 | a name without a cell is published as undefined exactly when nothing was sent for it for more than three seconds |
| Publisher.SurvivesIffHeardOf | src/tealscript_runtime.hpp:2353-2356 | a connection from which nothing is heard outlives exactly the ticks of its next ten seconds |
| Publisher.SilentGetsNothing | src/tealscript_runtime.hpp:2353-2356 | the first tick after that, and every later one, sends it nothing |
| Publisher.UnsubscribeSilences | src/tealscript_runtime.hpp:2312-2317 | after an unsubscribe only the other names are served |
| PubSubSafety.TickKeepsInv | src/tealscript_runtime.hpp:2347-2417 | a tick puts only values on the wire that the named cell then holds, or undefined for a name without one |
| PubSubSafety.HearKeepsInv | src/tealscript_runtime.hpp:1869-1880 | a server that hears a subscription, however late or often, stores only what the wiring stands for |
| PubSubSafety.OtherKeepsInv | src/tealscript_runtime.hpp:2175-2219 | asking for a subscription, a client storing a published value and cells that change keep every extern value explained |
| PubSubSafety.ExternCellsStaySound | src/tealscript_runtime.hpp:2175-2219 | with lost, repeated and reordered datagrams an extern cell holds its initial value, undefined, or a value its server cell held at an earlier tick |
| PubSubSafety.PublicationsExist | src/tealscript_runtime.hpp:2347-2417 | every value a client learns was published by an earlier tick |
| PubSubSafety.HoldsWhatIsShown | src/tealscript_runtime.hpp:2208-2219 | in every state of every run an extern cell holds exactly what its server cell held at the tick whose publication was learnt last, or its initial value |
| PubSubSafety.NeverGoesBackIff | src/tealscript_runtime.hpp:2208-2219 | an extern cell never goes back to an earlier publication if and only if deliveries to it follow the order of publication |
| PubSubSafety.ValuesCanGoBack | src/tealscript_runtime.hpp:2208-2219 | every run in which two values were published to a client can go on so that it shows the later one and then the earlier |
| PubSubSafety.ARunGoesBack | src/tealscript_runtime.hpp:2347-2417 | such a run from the start: subscribe, publish, compute, publish, learn in the wrong order |
| Adler.Adler32 | src/inc/hash/adler.hpp:7-16 | the loop in 32 bits, without overflow, computes the two sums of section 2.2 of RFC 1950 |
| Adler.OneMore | src/inc/hash/adler.hpp:10-14 | the closed-form sums obey the loop's recurrence |
| Adler.Unpacks | src/inc/hash/adler.hpp:15-16 | the halves of the checksum are the two sums |
| Adler.SumOfConcatenation | src/inc/hash/adler.hpp:7-16 | both sums of a concatenation from those of its parts |
| Adler.ChecksumOfConcatenation | src/inc/hash/adler.hpp:7-16 | the checksum of a concatenation is determined by the checksums of its parts and the length of the second |

## Left out

- Values: conversions, containers, pointers and class objects with their operator tables. A value is an abstract datatype with boxes, and operators are parameters; indexing and members other than `this.x` end in `Unsupported`.
- Fuel bounds loops and calls in the semantics; `MoreFuelExpr` and `MoreFuelStmt` show that results do not depend on it.
- `exit`, `assert`, the termination request, the sleeps of the threads, the failure flag's effect on running bodies and the `LINEAR_CELLS_TRAVERSING` build.
- `BlockCollapse.SameStmt`: excludes free-standing blocks whose single statement assigns to a name, and `BlockCollapse.SameLoopBody` a block within a block that does. Whether such a block may be dropped depends on the run (`CollapsesIff`): not if the name is new there (`FreeBlockLeaks`, `LoopBodyLeaks`).
- `Pipeline.AcceptedBodyMeansItsText`: excludes the same blocks, for the same reason.
- `Interpreter.RunExpr`: looks every name up and applies every operator anew; what nodes remember between evaluations is modelled apart, in `LookupCache` and `ConstantFolding`. Indexing, members of values and class objects end in `Unsupported`.
- `Interpreter.RunPrefix`: the same.
- `InterpretedCells.InterpretedConvergence`: leaves literals out of the expressions, as their boxes are shared and what they hold is state; `TameCells.TameConvergence` covers them in bodies that keep them.
- `FaithfulDenotation.RunGives`: covers programs in which an assignment is a whole expression or the right side of another, and no function assigns to its parameters. An assignment inside an operator or an argument, and one to a parameter, is seen through shared boxes (`x + x++` adds the old value to the new one) and has no meaning as values.
- `TameCells.CellMeans`: takes fields with boxes of their own, which it keeps so.
- `ThreadedScheduler.ThreadedConvergence`: takes stateless cells that always return and an acyclic graph; the ticket counter does not wrap around at 64 bits. Boxes shared between the values of different cells are not modelled.
- `Interpreter.RunCall`: host functions are pure functions of their argument values.
- `Grammar.ParseExpr` and the other parsing functions: positions of errors are token indexes; line and column of nodes are not kept. An empty token list has position 0 where the code keeps -1.
- `StatementRoundTrip.StatementRoundTrip`: asks that the first branch of an `if` does not begin with a token the condition could go on with, and that an inner `if` without `else` is not followed by one, because the text would mean something else.
- `Lexer.Scanner.ProcessInputChar`: the fields of the automaton are one record; letters, digits and spaces are a parameter; the values of numbers are left to a later stage. `LexerRoundTrip.ReadsWord` spells no numeric escapes; those are in `LexerEscapes`.
- `Codegen.Generator.ChopStatement`: the order in which C++ evaluates the arguments of a constructor call is left to the compiler; left to right here. Filling the maps of functions and cells and the check for repeated names are not modelled.
- `ConstantFolding.Node.Eval`: covers literals, names, and operators without side effects; the per-argument cache of cell constants is not modelled.
- `AllocatorSafety.StepKeepsInv`: excludes carving while an overshoot is pending, after which no state is good (`RunIsGoodIffCalm`). Blocks above the largest bin go to `malloc` and are not modelled, nor are sizes near the width of the machine word. Memory orders are taken as sequentially consistent.
- `Publisher.PublisherState.Tick`: serialisation does not fail; sockets, timers and the message format are a bag of datagrams.
- Extensions, the console, dynamic libraries, base16 and `map_array`: wrappers and I/O, or easy members only.
