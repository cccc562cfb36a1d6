# A verified model of the rule engine

The engine takes business rules as text, compiles them, and decides which rules a user record
matches. This project models the parts of it that carry the logic and proves what they promise.

**The rule pipeline.** A rule text is lexed and parsed into a tree (the IR), the tree is flattened
and deduplicated, lowered to stack code with constant pools, and run on a 256-slot stack. A printer
turns trees back into SQL text, and the optimiser uses that text as its equality key. A second
evaluator walks the tree, and an explaining one lists why a rule refused a row. The theorems chain:

0. the lexer is the longest-lexeme rule (`Lexemes.LexIff`) and the parser a grammar (`Grammar.ParseIff`);
1. a tree survives printing and parsing exactly when it is clean (`RoundTripExact.RoundTripIff`);
2. so the printed text of a clean tree is a key (`RoundTrip.PrintedIsKey`);
3. so the optimiser keeps the meaning, never needs more stack and reaches a normal form
   (`OptimizerCorrect.OptimizeSound`, `OptimizerCorrect.OptimizeNeed`, `Optimizer.OptimizeIdempotent`);
4. compiled code computes the meaning of the tree exactly when it fits the stack, and false
   otherwise (`CompilerCorrect.CompileCorrect`);
5. together: rule text to answer (`Pipeline.RuleMeans`), and above it the gate (`Gate.GateIsMatch`)
   and decision tables (`DecisionTable.TableFaithful`).

**The Kafka consumer.** Poll loop, partition workers, bounded commit channel, serial commit worker
with retries, revoke barrier and shutdown drain form a state machine over arbitrary interleavings.
Module `Kafka` proves what is never committed too early, module `Delivery` that what was handled does get
committed, and that nothing blocks for good.

**Rule cache and Manager.** A map with a sorted snapshot under an editable, versioned rule set.

**Worker pool and latency ring.** Every schedule of the pool refines the sequential loop; the ring
refines the full history of observations.

## How the model is made

- One module per component. State that the source updates in place is a class (`LexerState`,
  `ParserState`, `CompilerState`, `RuleCache`, `EngineState`, `ManagerState`, `LatencyRecorder`);
  each method is proved against a specification function, and the theorems are about those functions.
- Strings are sequences of code points. Character classes are a parameter `Classes`, of which only
  `Sane()` is assumed: letters, digits, spaces and the lexer's punctuation are disjoint, A to Z
  are letters and the blank is a space.
- A float64 is a 64-bit pattern. Parsing, formatting and the three comparisons are the fields of a
  parameter `Floats`, about which nothing is assumed except where a decision table says so.
- A row value is nil, a boolean, a number, a text or some other Go value; an absent key is absent.
- A literal is a text or a number: the source's `ir.Value` has both fields, and the one that is not
  active is never read. Tokens carry no positions.
- Go's map iteration order is an arbitrary choice, so results that depend on it would not verify.
- The cache keeps a ghost list of its elementary writes, so the step order that the visibility theorem
  is about is the order in which the methods write.
- A cell of a decision table that is a float is assumed to read back from its printed form, as
  strconv.FormatFloat with precision -1 guarantees; everything else about tables holds for all cells.
- Rounding to float64 in the percentiles is a parameter that is monotone and keeps zero.
- A backend's compile and eval are functions of their arguments; the engine, Manager and pool are
  proved over every backend, and `Pipeline.Native` is the bytecode one.
- In the Kafka state machine the broker, client, timers and scheduler are the environment. Two facts about
  it are parameters, and the theorems say exactly what hangs on them: `lossy` (a poll that reports
  an error may also carry records) and `hurried` (a revoke may give up its flush). A batch size and
  a channel capacity above zero are what pkg/kafka/consumer.go:545-546 guarantees.

Words used below. A tree is *shaped* when its field names are non-keyword identifiers, its numbers are
digits and dots starting with a digit, its operators are the lexer's, its IN lists are not empty and
its AND/OR nodes have at least two operands. It is *quiet* when no string in it holds a single quote
or a backslash, and *clean* when both. A *clash* is two different sibling operands (after flattening)
that print alike. *Need* is the number of stack slots evaluation takes, defined on the tree.

## Where code and documentation disagree

- pkg/ir/optimize.go:6-14 calls every transform strictly semantics-preserving and safe on any node.
  A string literal with a quote in it can print like a different operand, and deduplication then drops
  that operand: `OptimizerCorrect.OptimizeCanChangeMeaning` gives a rule that parses and changes.
- pkg/runtime/ast/ast.go:6-8 says the walker mirrors the bytecode machine. They differ on missing
  fields, on `==`, on number literals compared as text, and on IS NULL of a non-scalar value:
  `Agreement.ScalarAgreement`, `Agreement.NullAgreement` and `Agreement.AlwaysAgree` say exactly which
  predicates agree, `Agreement.MissingFieldDiffers` shows one that does not.
- The printer does not escape, so print-then-parse is not the identity on every parsed rule:
  `RoundTripExact.ReparseIff` says for which ones it is.
- The consumer means to lose no record. A poll with an error in it is discarded whole, records
  included: `Kafka.AtLeastOnceIff`, `Kafka.LossyPollSkips`.

## Model

| member | source | states |
|---|---|---|
| `RoundTripExact.RoundTripIff` | pkg/ir/emit.go:37-91 | for every tree, parsing its printed text gives that tree back if and only if the tree is clean |
| `RoundTripExact.ReparseIff` | pkg/ir/parser.go:6-20 | a tree that came from the parser survives print-then-parse if and only if no string in it holds a quote or backslash |
| `RoundTripExact.ParsedIsShaped` | pkg/ir/parser.go:62-226 | every tree the parser returns is shaped, and its strings are exactly the quoted texts of the input, in order |
| `RoundTripExact.DirtyNode` | pkg/ir/emit.go:57-83 | the printed text of a shaped tree with a quote or backslash in some string never lexes to that tree's strings, whatever follows it |
| `RoundTrip.ParsePrinted` | pkg/ir/parser.go:6-226 | character-level round trip for every clean tree, nested same-operator groups, NOT groups and the AND of BETWEEN included |
| `RoundTrip.PrintedIsKey` | pkg/ir/optimize.go:37-47 | two clean trees with the same printed text are the same tree |
| `RoundTrip.ParseTokens` | pkg/ir/parser.go:62-214 | the parser reads the token list of a shaped tree back to that tree and stops right after it, anywhere in a longer input |
| `RoundTrip.LexNode` | pkg/ir/lexer.go:63-214 | the lexer turns the printed text of a shaped, quiet tree into exactly that tree's tokens and goes on with the rest |
| `Lexemes.LexIff` | pkg/ir/lexer.go:63-214 | from the characters alone: a text lexes to a token list if and only if it is those tokens in order, spaces between them, each the longest lexeme where it starts, in a table of spellings in which `<>` is `!=` and keywords count up to ASCII case |
| `Lexemes.DispatchLongest` | pkg/ir/lexer.go:72-95 | the scanner returns a token if and only if it is what the longest lexeme at that place spells |
| `Lexemes.OperatorLongest` | pkg/ir/lexer.go:119-155 | an operator is read if and only if it is denoted by the longest operator lexeme, `<>` denoting `!=` |
| `Lexemes.WordSpells` | pkg/ir/lexer.go:171-195 | a word is a keyword if and only if its letters are the keyword's up to ASCII case, and else an identifier as written |
| `Lexemes.BodyOf` | pkg/ir/lexer.go:98-116 | a quoted text ends at its first unescaped quote, a backslash taking the next character as it is |
| `Grammar.ParseIff` | pkg/ir/parser.go:6-226 | for every text and tree: the parser returns the tree if and only if the tokens of the text derive it in a grammar written from the precedence rules, OR over AND over NOT over predicates, parentheses anywhere |
| `Grammar.Complete` | pkg/ir/parser.go:62-214 | whatever the grammar derives is parsed to that tree, anywhere in a longer token list |
| `Grammar.Sound` | pkg/ir/parser.go:62-213 | whatever the parser returns is derived from exactly the tokens it consumed |
| `Grammar.Unambiguous` | pkg/ir/parser.go:62-226 | a token list has at most one tree |
| `Lexer.UpperInPlace` | pkg/ir/lexer.go:206-214 | the in-place ASCII upper-casing loop equals the character map |
| `Lexer.LexerState.constructor` | pkg/ir/lexer.go:51 | a new lexer stands at the first character |
| `Lexer.LexerState.PeekNext` | pkg/ir/lexer.go:54-60 | one character of lookahead, NUL at the end |
| `Lexer.LexerState.SkipSpaces` | pkg/ir/lexer.go:65-67 | the cursor moves past the longest run of spaces and no further |
| `Lexer.LexerState.NextToken` | pkg/ir/lexer.go:63-70 | token or error, and the unread rest, are those of the specification scanner on the old rest |
| `Lexer.LexerState.LexHere` | pkg/ir/lexer.go:72-95 | dispatch on the first character agrees with the specification scanner |
| `Lexer.LexerState.LexString` | pkg/ir/lexer.go:98-117 | the quoted text with backslash pairs resolved, or an error when it is unterminated |
| `Lexer.LexerState.LexOp` | pkg/ir/lexer.go:119-156 | operator or error, and the unread rest, as the specification scanner reads them |
| `Lexer.LexerState.LexNumber` | pkg/ir/lexer.go:158-169 | the longest run of digits and dots |
| `Lexer.LexerState.LexIdent` | pkg/ir/lexer.go:171-196 | the longest identifier, as a keyword when its upper-case form is one |
| `Lexer.LexAll` | pkg/ir/parser.go:22-35 | all tokens up to and including the end marker, or an error at the first bad one |
| `Parser.ParserState.Current` | pkg/ir/parser.go:42-47 | the token at the cursor, the end marker past the end |
| `Parser.ParserState.Advance` | pkg/ir/parser.go:49-53 | returns the current token and moves one on, past the end as well |
| `Parser.ParserState.Expect` | pkg/ir/parser.go:55-60 | moves on exactly when the current token is the wanted one |
| `Parser.ParserState.ParseOr` | pkg/ir/parser.go:62-80 | the cursor-moving loop refines the OR level of the grammar: same tree, same end position, same failures |
| `Parser.ParserState.ParseAnd` | pkg/ir/parser.go:82-100 | the same for the AND level |
| `Parser.ParserState.ParseUnary` | pkg/ir/parser.go:102-126 | the same for NOT and parentheses |
| `Parser.ParserState.ParsePredicate` | pkg/ir/parser.go:128-143 | the same for a field with an optional NOT |
| `Parser.ParserState.ParseTest` | pkg/ir/parser.go:145-214 | the same for the test that follows the field |
| `Parser.ParserState.ParseBetween` | pkg/ir/parser.go:154-168 | the same for BETWEEN, whose AND is its own |
| `Parser.ParserState.ParseIn` | pkg/ir/parser.go:169-191 | the same for a parenthesised IN list |
| `Parser.ParserState.ParseInList` | pkg/ir/parser.go:174-186 | the loop over comma-separated values, never empty |
| `Parser.ParserState.ParseIs` | pkg/ir/parser.go:200-211 | the same for IS NULL and IS NOT NULL |
| `Parser.ParserState.ParseValue` | pkg/ir/parser.go:217-226 | a number or a string, nothing else |
| `Parser.ParseText` | pkg/ir/parser.go:6-20 | a tree exactly when the whole text is one expression |
| `Printer.EmitSql` | pkg/ir/emit.go:37-69 | the loop that fills the parts slice equals the recursive printer |
| `Printer.EmitWrapped` | pkg/ir/emit.go:71-76 | AND/OR operands, and only those, are parenthesised |
| `Printer.EmitValList` | pkg/ir/emit.go:85-91 | the loop over values equals their joined texts |
| `CompilerCorrect.CompileCorrect` | pkg/vm/compile.go:13-186 | compilation succeeds exactly on compilable trees, and then for every row the program answers the tree's meaning when need is at most 256 and false otherwise |
| `CompilerCorrect.RunNode` | pkg/vm/vm.go:15-118 | code of a subtree, run on any stack and under any later pools, pushes that subtree's value or overflows exactly when need says so |
| `CompilerCorrect.LowerGrows` | pkg/vm/compile.go:38-72 | pools only grow, so indices already emitted stay valid |
| `CompilerCorrect.LowerSucceeds` | pkg/vm/compile.go:74-172 | compilation fails exactly on an empty AND/OR, an unknown operator or a number that does not parse |
| `Vm.Execute` | pkg/vm/vm.go:19-55 | one instruction on the stack array refines the step on its live prefix, overflow and underflow included |
| `Vm.Run` | pkg/vm/vm.go:15-61 | the array machine computes the specification machine's answer |
| `Compiler.CompilerState.constructor` | pkg/vm/compile.go:14-17 | a new compiler has no code and empty pools |
| `Compiler.CompilerState.Add` | pkg/vm/compile.go:38-40 | appends one instruction |
| `Compiler.CompilerState.FieldSlot` | pkg/vm/compile.go:42-50 | a field gets one slot, found again on every later use |
| `Compiler.CompilerState.NumConst` | pkg/vm/compile.go:52-56 | appends a number and returns its index |
| `Compiler.CompilerState.StrConst` | pkg/vm/compile.go:58-62 | appends a string and returns its index |
| `Compiler.CompilerState.SetConst` | pkg/vm/compile.go:64-72 | appends the set of the values and returns its index |
| `Compiler.CompilerState.PushVal` | pkg/vm/compile.go:175-186 | the push of a literal, or failure when a number does not parse |
| `Compiler.CompilerState.Emit` | pkg/vm/compile.go:74-172 | appends exactly the specification code of the node and leaves exactly its pools, or fails when that does |
| `Compiler.CompilerState.EmitLogic` | pkg/vm/compile.go:76-93 | the loop that folds operands pairwise |
| `Compiler.CompilerState.EmitCompare` | pkg/vm/compile.go:95-105 | load, literal, comparison |
| `Compiler.CompilerState.EmitBetween` | pkg/vm/compile.go:107-120 | both bounds must be numbers |
| `Compiler.CompilerState.EmitIn` | pkg/vm/compile.go:122-132 | membership in a pooled set, negated where asked |
| `Compiler.CompilerState.EmitLike` | pkg/vm/compile.go:134-151 | the four-way LIKE classification, negated where asked |
| `Compiler.ValStrs` | pkg/vm/compile.go:124-127 | the texts of the IN values, in order and as a set |
| `Compiler.CompileNode` | pkg/vm/compile.go:13-22 | the object-based compiler refines the recursive one |
| `LikeExact.LikeRefines` | pkg/vm/compile.go:221-235 | for a pattern whose trimmed core has no wildcard, the classified test equals a general `%`/`_` matcher (section 8.5, like predicate, of ISO/IEC 9075-2) on every subject |
| `LikeExact.LikeExactlyWhenPlain` | pkg/vm/vm.go:99-106 | it equals the general matcher on every subject if and only if the trimmed core has no wildcard |
| `Agreement.LikesAgree` | pkg/runtime/ast/ast.go:162-176 | the walker's LIKE and the machine's are the same test for all subjects and patterns |
| `Agreement.LeafAgreement` | pkg/runtime/ast/ast.go:46-160 | row by row: walker and compiled meaning agree on a predicate if and only if a condition on row and literal holds |
| `Agreement.ScalarAgreement` | pkg/runtime/ast/ast.go:122-159 | over all rows in which the field holds a scalar, a predicate agrees if and only if it is not `==` and its number literal is in canonical form; BETWEEN, IN, LIKE and IS NULL always do |
| `Agreement.NullAgreement` | pkg/runtime/ast/ast.go:46-118 | over all rows in which the field is absent or nil, it agrees if and only if the positive predicate fails of the empty string, which is read off the literal, the IN list or the trimmed pattern |
| `Agreement.AlwaysAgree` | pkg/runtime/ast/ast.go:46-117 | over all rows whatever, it agrees if and only if both conditions hold and it is not IS NULL, which a value of another type tells apart |
| `Agreement.TreesAgree` | pkg/runtime/ast/ast.go:46-119 | where all predicates of a compilable tree agree, so does the tree |
| `Agreement.OrdinaryAgrees` | pkg/runtime/ast/ast.go:178-245 | trees whose predicates are portable and reject the empty string where a scalar is missing agree in every predicate |
| `Agreement.EvaluatorsAgree` | pkg/vm/value.go:32-95 | within the stack, tree walk and compiled program answer alike whenever the predicates agree |
| `Agreement.MissingFieldDiffers` | pkg/runtime/ast/ast.go:121-160 | a missing field satisfies `A != 'x'` for the walker and not for the machine |
| `Optimizer.OptimizeNode` | pkg/ir/optimize.go:15-53 | the loops and the seen-map refine the recursive optimiser |
| `Optimizer.FlattenArgs` | pkg/ir/optimize.go:26-35 | the flattening loop |
| `Optimizer.KeepFirst` | pkg/ir/optimize.go:37-47 | the deduplicating loop keeps the first node of each printed text |
| `Optimizer.OptimizeNormal` | pkg/ir/optimize.go:26-52 | for every tree the result has no one-operand AND/OR, no operand with its parent's operator and no repeated sibling text |
| `Optimizer.NormalFixed` | pkg/ir/optimize.go:26-53 | a tree in normal form is returned unchanged |
| `Optimizer.OptimizeIdempotent` | pkg/ir/optimize.go:15-52 | optimising twice is optimising once, and the fixed points are exactly the normal trees |
| `OptimizerCorrect.DedupKeepsIff` | pkg/ir/optimize.go:37-48 | deduplication loses no operand if and only if there is no clash |
| `OptimizerExact.OptimizeExactIff` | pkg/ir/optimize.go:36-53 | for every tree, deduplicating by printed text gives what deduplicating by tree equality would if and only if the tree has no clash anywhere |
| `OptimizerCorrect.TidyNoClash` | pkg/ir/optimize.go:37-46 | clean trees, one-operand AND/OR allowed, have no clash anywhere |
| `OptimizerCorrect.OptimizeSound` | pkg/ir/optimize.go:6-53 | every tree without a clash keeps its value on every row, and its compilability when no AND/OR is empty |
| `OptimizerCorrect.OptimizeNeed` | pkg/vm/compile.go:74-93 | with no empty AND/OR, the optimised tree never needs more stack |
| `OptimizerCorrect.OptimizeThenCompile` | pkg/engine/backend_bytecode.go:27-33 | the optimised program compiles exactly when the original does, answers the original's meaning within its own need, and answers as the original program wherever that fits the stack |
| `OptimizerCorrect.OptimizeCanChangeMeaning` | pkg/ir/optimize.go:36-47 | a rule text that parses, has a clash, and answers differently after optimising |
| `Pipeline.CompileRule` | pkg/engine/backend_bytecode.go:27-34 | parse, optimise, compile; failing when parsing or compiling fails |
| `Pipeline.RuleMeans` | pkg/engine/backend_bytecode.go:27-50 | a rule text without a clash compiles exactly when its tree is compilable, and then answers the tree's meaning, or false when the optimised tree needs more than the stack |
| `Pipeline.QuietRule` | pkg/ir/parser.go:6-21 | a parsed rule with no quote or backslash in its strings has no clash |
| `Walker.WalkNode` | pkg/runtime/ast/ast.go:46-119 | the early-returning loops compute the denotational tree walk |
| `Walker.ExplainNode` | pkg/runtime/ast/ast.go:262-305 | the explaining evaluator, by node kind |
| `Walker.ExplainOr` | pkg/runtime/ast/ast.go:265-280 | the OR loop with its early return |
| `Walker.ExplainAnd` | pkg/runtime/ast/ast.go:281-288 | the AND loop that collects reasons |
| `Walker.ExplainSound` | pkg/runtime/ast/ast.go:262-306 | for every tree and row: passed equals the walk, there are no reasons if and only if it passed, and every reason names a subtree that is false on the row |
| `Walker.ExplainExactly` | pkg/runtime/ast/ast.go:253-305 | the reasons are the texts of exactly the false conjuncts, in order, a conjunct being what is left once every nested AND is opened |
| `Walker.ConjunctsMean` | pkg/runtime/ast/ast.go:281-290 | a tree holds exactly when all its conjuncts do, and each is a part of it |
| `Walker.FailuresComplete` | pkg/runtime/ast/ast.go:281-289 | every failing operand of an AND contributes a reason that names a false part of it |
| `Walker.FailuresSound` | pkg/runtime/ast/ast.go:281-287 | every reason collected by an AND comes from a failing operand |
| `Cache.RuleCache.constructor` | pkg/engine/cache.go:29 | an empty map, an empty snapshot and no writes yet |
| `Cache.RuleCache.Put` | pkg/engine/cache.go:33-35 | stores one program, one write, and leaves the snapshot alone |
| `Cache.RuleCache.PutAll` | pkg/engine/cache.go:38-43 | stores all programs, later ones winning; the snapshot is again the sorted listing; the writes are the stores and then one rebuild |
| `Cache.RuleCache.ReplaceAll` | pkg/engine/cache.go:49-52 | the map holds exactly the given programs and the snapshot is its sorted listing; the writes are a clear, the stores and one rebuild |
| `Cache.RuleCache.Delete` | pkg/engine/cache.go:55 | removes one id |
| `Cache.RuleCache.Rebuild` | pkg/engine/cache.go:68-83 | whatever order the map is ranged over in, the snapshot becomes exactly the map's programs, priority descending and id ascending; it ranges, sorts and then swaps |
| `Cache.SnapshotUnique` | pkg/engine/cache.go:74-79 | a map has only one such listing |
| `Cache.SnapshotOrder` | pkg/engine/cache.go:74-78 | a snapshot runs from high to low priority, and by increasing id within a priority |
| `Cache.StoredIsLast` | pkg/engine/cache.go:38-42 | after storing, an id has the last program given for it, or what it had |
| `Cache.SortedIsSnapshot` | pkg/engine/cache.go:68-79 | any ordering of the programs found by any range over the map is that listing |
| `Visibility.ReadersSeeFinishedEdits` | pkg/engine/cache.go:33-93 | for every list of load, replace, add and remove edits and every prefix of their writes as the code issues them, the snapshot a reader takes is the sorted listing of the rule set after exactly the completed edits |
| `Visibility.EditDone` | pkg/engine/engine.go:88-116 | the writes of one edit leave the map that edit should, and its sorted listing |
| `Visibility.SnapshotStays` | pkg/engine/cache.go:45-52 | until the last write of an edit, even between clear and rebuild, the published snapshot is the one from before it |
| `Engine.MatchInto` | pkg/engine/engine.go:145-154 | the ids whose program holds on the row, in snapshot order |
| `Engine.MatchExactly` | pkg/engine/engine.go:145-153 | a match is the ids of exactly the rules that hold on the row, in snapshot order |
| `Engine.CompilesExactly` | pkg/engine/engine.go:68-83 | loading keeps exactly the enabled rules that compile, in order, each with its own id, name, text, priority, version and program |
| `Engine.FailsExactly` | pkg/engine/engine.go:74-78 | the failure count is the number of enabled rules that do not compile |
| `Engine.EngineState.constructor` | pkg/engine/engine.go:54-56 | a fresh engine with an empty cache |
| `Engine.EngineState.CompileAll` | pkg/engine/engine.go:68-84 | programs of the enabled rules that compile, in order, and the number of enabled ones that do not |
| `Engine.EngineState.LoadRules` | pkg/engine/engine.go:88-92 | adds those programs to the cache, keeps it consistent, and issues the writes of a load edit |
| `Engine.EngineState.ReplaceRules` | pkg/engine/engine.go:95-99 | makes those programs the whole cache, issuing the writes of a replace edit |
| `Engine.EngineState.AddRule` | pkg/engine/engine.go:102-110 | succeeds exactly for an enabled rule that compiles; a failure writes nothing |
| `Engine.EngineState.RemoveRule` | pkg/engine/engine.go:113-116 | the id is gone and the snapshot is sorted again, in the writes of a remove edit |
| `Engine.EngineState.Match` | pkg/engine/engine.go:140-142 | matches against the current snapshot |
| `Manager.PublishRollback` | pkg/engine/manager.go:104-151 | publish, then any run of commands, then rollback to the published number: it succeeds and rules and cache are as at publication, the empty set included |
| `Manager.RollbackRestores` | pkg/engine/manager.go:46-151 | hence the listing, the snapshot and every user's matches are as at publication |
| `Manager.StepKeeps` | pkg/engine/manager.go:59-151 | every command keeps cache and editable set coupled and only appends versions |
| `Manager.RunKeeps` | pkg/engine/manager.go:35-151 | so does every run; versions are numbered 1 to k and never change |
| `Manager.CoupledMeans` | pkg/engine/manager.go:35-90 | an id is cached exactly when its editable rule is enabled, with that rule's name, text, version, priority and compiled program |
| `Manager.UpsertStores` | pkg/engine/manager.go:63-81 | a successful upsert stores the rule as given but for the version, which is one past the previous when that is not older, 1 when none is given, and else the given one; it is cached exactly when enabled; every other id is untouched |
| `Manager.UpsertSucceedsIff` | pkg/engine/manager.go:59-78 | an upsert is refused exactly for id 0 or an enabled rule that does not compile, and then changes nothing |
| `Manager.RemoveForgets` | pkg/engine/manager.go:85-90 | a removed id is in neither set nor cache, and every other id is untouched |
| `Manager.RollbackKeeps` | pkg/engine/manager.go:129-151 | rollback keeps the coupling and succeeds exactly for published numbers |
| `Manager.VersionsIncrease` | pkg/engine/manager.go:63-69 | while a rule stays, each edit of it gets a later version |
| `Manager.ListingUnique` | pkg/engine/manager.go:46-54 | a rule set has only one listing in id order |
| `Manager.SeedRules` | pkg/engine/manager.go:37-41 | one enabled editable rule per cached program |
| `Manager.FindVersion` | pkg/engine/manager.go:130-138 | the loop finds the first version with the number |
| `Manager.ManagerState.constructor` | pkg/engine/manager.go:35-43 | one enabled editable rule per cached program and nothing published; coupled wherever the programs were compiled from their sources |
| `Manager.ManagerState.List` | pkg/engine/manager.go:46-55 | every editable rule once, in id order |
| `Manager.ManagerState.UpsertRule` | pkg/engine/manager.go:59-82 | performs the upsert command and keeps the coupling; a refused upsert changes nothing |
| `Manager.ManagerState.RemoveRule` | pkg/engine/manager.go:85-90 | performs the remove command and keeps the coupling |
| `Manager.ManagerState.PublishVersion` | pkg/engine/manager.go:104-117 | appends the current listing under the next number and touches nothing else |
| `Manager.ManagerState.RollbackTo` | pkg/engine/manager.go:129-150 | performs the rollback command and keeps the coupling |
| `Pool.RunInv` | pkg/engine/workerpool.go:40-107 | in every state of every schedule each sent user is in exactly one place and the counters equal what is stored |
| `Pool.DoInv` | pkg/engine/workerpool.go:60-98 | every action of sender or worker keeps that invariant |
| `Pool.BatchIsSequential` | pkg/engine/workerpool.go:40-106 | when all goroutines are done, results are the sequential ones, hits equal the sum of result lengths and of the per-rule counts, and a rule's count is the number of users it hit |
| `Pool.PoolRefinesMatch` | pkg/engine/engine.go:145-165 | the same over a snapshot: each result is the sequential match of its user |
| `Pool.ResultsFrozen` | pkg/engine/workerpool.go:75-82 | no later action, reuse of the scratch buffer included, alters a stored result |
| `Pool.Progress` | pkg/engine/workerpool.go:55-98 | no reachable state that is not final is stuck |
| `Pool.ActionsShrink` | pkg/engine/workerpool.go:55-99 | every action lowers a measure, so every schedule ends |
| `Pool.MergePartials` | pkg/engine/workerpool.go:100-105 | the merge loop sums hits and per-rule counts over the workers |
| `Pool.EffectiveWorkers` | pkg/engine/workerpool.go:41-48 | what was asked for, or the processor count when that is not positive, capped by the number of users |
| `Pool.InProgress` | pkg/engine/workerpool.go:68-98 | no more users are in progress than there are workers |
| `Pool.BoundedWorkers` | pkg/engine/limiter.go:50-56 | the smaller of 200 and the number of users |
| `Pool.BoundedInProgress` | pkg/engine/limiter.go:46-56 | in every state of every run of a bounded batch at most 200 users, and no more than the batch has, are in progress |
| `Gate.EvaluateAll` | internal/service/rule_service.go:172-206 | passed and failed ids in snapshot order, reasons for each failed rule, counts, and passed if and only if there is a rule and none failed |
| `Gate.EvaluateOne` | internal/service/rule_service.go:182-200 | a rule is accepted exactly when it parses and holds; else the reasons are its text when it does not parse, and exactly its false conjuncts when it does |
| `Gate.GateSplits` | internal/service/rule_service.go:182-203 | every id lands on exactly one side as often as it occurs, and the counts add up to the total |
| `Gate.GateOpens` | internal/service/rule_service.go:201-205 | nothing failed if and only if every rule passes |
| `Gate.RefusedHaveReasons` | internal/service/rule_service.go:186-200 | every failed rule comes with a reason |
| `Gate.RefusedExactly` | internal/service/rule_service.go:182-203 | the failed rules are reported one by one in the order of the failed ids, each with its own id, name, text and reasons |
| `Gate.SelectExactly` | internal/service/rule_service.go:190-201 | passed and failed ids are those of exactly the accepted and refused rules, in snapshot order |
| `Gate.ReasonsBlame` | internal/service/rule_service.go:190-200 | the reasons of a rule that parses are none if and only if it holds; each is the text of a false part; a leaf, OR or NOT has one, its own text |
| `Gate.OperandBlamed` | pkg/runtime/ast/ast.go:281-288 | each failing operand of an AND is blamed by some reason |
| `Gate.GateRuleIsMatch` | pkg/engine/engine.go:140-154 | for a rule without a clash, within the stack and with agreeing predicates, the gate's verdict is the compiled program's |
| `Gate.GateIsMatch` | internal/service/rule_service.go:172-205 | over a snapshot of such rules the passed ids are exactly what Match returns for the row |
| `DecisionTable.ConvertVals` | pkg/dtable/table.go:121-130 | all values converted, or failure at the first unsupported one |
| `DecisionTable.ConvertCond` | pkg/dtable/table.go:96-143 | translates exactly the supported conditions, and the tree holds of a row if and only if the condition, read from its operator, cells and field, does |
| `DecisionTable.CondMeans` | pkg/dtable/table.go:96-157 | the same of the translation as a function: defined exactly for a known operator with as many scalar cells as it takes, and meaning what the condition says, for floats that read back from their printed form |
| `DecisionTable.ConvertRow` | pkg/dtable/table.go:78-93 | the loop builds the conjunction of the row's conditions; an empty row fails |
| `DecisionTable.Rules` | pkg/dtable/table.go:59-76 | one rule per row in order, numbered from the table's base, with the row's name, priority and text, enabled unless switched off; or failure exactly when some row fails |
| `DecisionTable.RowMeans` | pkg/dtable/table.go:78-94 | a row translates exactly when it has conditions and all are supported, and its tree holds of a user if and only if every condition, as the table states it, does |
| `DecisionTable.RowTextIff` | pkg/dtable/table.go:57-76 | the rule text of a row parses back to the row's tree if and only if that tree is clean |
| `DecisionTable.TableFaithful` | pkg/dtable/table.go:59-157 | for such a row the text compiles exactly when the tree is compilable, and within the stack it matches a user if and only if every condition of the row holds, as the table states it |
| `Kafka.AtLeastOnceIff` | pkg/kafka/consumer.go:162-382 | in every reachable state no committed offset passes a record whose handler has not run, if and only if error polls carry no records |
| `Kafka.LossyPollSkips` | pkg/kafka/consumer.go:186-190 | a run that commits past a record no handler saw, when they do |
| `Kafka.RunInv` | pkg/kafka/consumer.go:162-463 | the protocol invariant in every state of every run |
| `Kafka.DoInv` | pkg/kafka/consumer.go:162-462 | every action keeps it |
| `Kafka.FlushesAreComplete` | pkg/kafka/consumer.go:406-463 | when a revoke's barrier closes, and when the shutdown drain completes, every message sent has had at least one commit attempt and its retry loop has returned; what those messages add up to is Delivery.FlushCommitsAll |
| `Kafka.BarrierOrder` | pkg/kafka/consumer.go:325-337 | the same for every barrier and the messages before it, at any later time |
| `Kafka.NoSendAfterClose` | pkg/kafka/consumer.go:294-321 | nothing is sent on the commit channel after it is closed, so no send panics |
| `Kafka.CommitsAreMonotone` | pkg/kafka/consumer.go:323-382 | no step moves back the committed offset of a held partition that was assigned with no commit outstanding |
| `Kafka.MonotoneWhileHeld` | pkg/kafka/consumer.go:323-383 | the same over any stretch of a run in which the partition stays held |
| `Kafka.MonotoneIff` | pkg/kafka/consumer.go:323-435 | committed offsets of held partitions never go back in any run, if and only if revokes wait for their flush |
| `Kafka.FlushedMeansClean` | pkg/kafka/consumer.go:406-435 | a partition given up after a completed flush is assigned again with no commit outstanding |
| `Kafka.LeftoverCommitGoesBack` | pkg/kafka/consumer.go:418-434 | a run in which a commit left over from an abandoned flush moves the offset back |
| `Kafka.GroupByPartition` | pkg/kafka/consumer.go:689-696 | each partition that occurs gets its records |
| `Kafka.OfPartitionExactly` | pkg/kafka/consumer.go:689-695 | these are exactly the records of that partition, in poll order |
| `Delivery.MessagesTile` | pkg/kafka/consumer.go:256-321 | in every state of every run, unless an enqueue was dropped or a poll discarded: the messages sent for a held partition since its assignment are consecutive, from its first offset to the worker's buffer, or to all that was handled, which without cancellation is all that was fetched |
| `Delivery.TilesCover` | pkg/kafka/consumer.go:294-303 | tiling means that exactly the offsets from start to end lie in a message |
| `Delivery.TilesApart` | pkg/kafka/consumer.go:294-302 | and that no two messages share one |
| `Delivery.TilesAdjacent` | pkg/kafka/consumer.go:298-302 | each message begins where the one before it ends |
| `Delivery.TilesFirst` | pkg/kafka/consumer.go:299-302 | the first begins at the start |
| `Delivery.TilesLast` | pkg/kafka/consumer.go:300-302 | the last ends at the end |
| `Delivery.FlushCommitsAll` | pkg/kafka/consumer.go:323-463 | when a barrier closes or the drain completes and the last message took effect, the committed offset is exactly past the last record handled, and without cancellation the fetch position |
| `Delivery.RetriesAreExact` | pkg/kafka/consumer.go:339-382 | a message is tried at most once more than the retry limit, and given up on only after all those attempts or in a cancelled consumer |
| `Delivery.BatchSizes` | pkg/kafka/consumer.go:262-292 | a message holds the worker's whole buffer, never more than the batch size, and less only at the end of a poll or when cancelled |
| `Delivery.Progress` | pkg/kafka/consumer.go:162-462 | no reachable state short of the exit is stuck: some ordinary step is possible without any timeout |
| `Latency.LatencyRecorder.constructor` | internal/handler/latency.go:20-25 | an empty ring, 4096 slots when the capacity is not positive |
| `Latency.LatencyRecorder.Record` | internal/handler/latency.go:28-37 | the ring, read from its oldest slot, stays the last observations of the whole history |
| `Latency.LatencyRecorder.Percentiles` | internal/handler/latency.go:41-63 | each percentile is an observation of the window with more than i at or below it and at least size - i at or above, i being p*(size-1)+0.5 rounded at every operation and cut to an integer; it is given as its whole microseconds over 1000; and p50 <= p90 <= p99 |
| `Latency.PercentileTaken` | internal/handler/latency.go:54-61 | what stands at the computed rank of the sorted copy is that percentile of the window |
| `Latency.ExactRank` | internal/handler/latency.go:56-59 | without rounding the rank is the integer i with i <= p*(size-1)+0.5 < i+1 |
| `Latency.PercentilesOrdered` | internal/handler/latency.go:55-62 | percentiles of a sorted window grow with the fraction |
| `Latency.RankInRange` | internal/handler/latency.go:55-59 | rounded at every operation, every rank falls inside the window and ranks grow with the fraction |
| `Latency.WindowShifts` | internal/handler/latency.go:28-36 | adding to a full window drops its oldest observation |
| `Latency.WindowIsLatest` | internal/handler/latency.go:28-35 | whatever was recorded before, the window is where the history ends |

## Left out

- OptimizerCorrect.OptimizeSound: a clash is exactly when an operand is lost (DedupKeepsIff), but for the value on all rows its absence is only sufficient, since two operands that print alike may still be equivalent; as functions on trees the two are compared exactly (OptimizeExactIff).
- Delivery.FlushCommitsAll: says nothing of a partition from which an enqueue was dropped or a poll discarded, nor of a flush whose last commit failed for good; the broker then redelivers, which at-least-once delivery allows.
- Delivery.Progress: no deadlock and no need of timeouts, but not that the consumer ends within a number of steps, since polls, handlers and failing commits are up to the environment.
- Agreement.TreesAgree: exact for one predicate (LeafAgreement, AlwaysAgree); for a whole tree it goes one way, since two disagreeing predicates can cancel out.
- HTTP handlers, router, middleware and the web editor: input, output and plumbing.
- uss, mcs and wps clients, Redis, Oracle, the Kafka producer, configuration, logs and metrics: wrappers over libraries outside the repository.
- The qlbridge, CEL, Expr and Vitess front-ends and runtimes: their trees and meanings are external.
- The code-emitting half of pkg/ir/emit.go: the meanings of its target languages are external.
- JSON front-ends, JSON decoding, rule files and the file watcher: structural copying.
- IEEE float arithmetic and strconv, which are parameters; Go's sort, modelled as insertion sort; clocks and timeouts, which are free choices of the environment.
- Error message texts, token positions, the wording of Explain's reasons and Stats.Report.
- Integer widths: int32 pool indices, reached only past 2^31 literals, and the wrap-around of rule versions and ids.
- Text that is not valid UTF-8.
- Nil nodes and node kinds unknown to the walker, which the Go type system allows and no front-end builds.
- Version timestamps, the user id copied into a result, Manager.Test and Versions, cache Get and Len, and the Semaphore type of pkg/engine/limiter.go.
- Concurrent Manager edits, and edits of the engine behind the Manager's back: the coupling holds for runs in which all edits after creation go through the Manager, one at a time.
- A revoke callback outside AllowRebalance or racing with shutdown; pkg/kafka/consumer.go:406-409 says it does not happen.
- The worker semaphore of the consumer, maxPollRecords and backoff durations: they only remove interleavings.
- Commits that reach the broker late or out of order: an attempt takes effect before it returns, or not at all.
