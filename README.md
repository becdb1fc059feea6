# SLR(1) analyzer, lexer and quadruple-generating parser, modelled in Dafny

This project models the core of `slr1_project`, a small compiler front end
in C++. It has three parts:

- **GrammarAnalyzer** reads a grammar one production per line
  (`LHS -> sym1 sym2 …`). It computes the First and Follow sets, builds the
  canonical collection of LR(0) item sets (the DFA), and fills the SLR(1)
  ACTION and GOTO tables. A shift-reduce or reduce-reduce conflict makes the
  build fail.
- **Lexer** splits a source line into tokens: keywords, identifiers,
  numbers (with a context-sensitive leading sign), one- and two-character
  operators, and a closing `#`.
- **Parser** drives the tables with a state stack and an attribute stack.
  On each reduction it runs the semantic action of the production. Those
  actions produce quadruples `(op, arg1, arg2, result)` for while loops,
  assignments, relations and additions, using fresh temporaries `T<n>` and
  labels `L<n>`.

The model follows the source's form:

- **Classes.** `GrammarAnalyzer`, `Parser` and `Lexer` are classes whose
  fields the methods update.
- **Loops.** The source's loops become loops with their invariants, in
  the same places, with two exceptions named below:
  - index and range loops over a vector are `for` loops (`LoadGrammar`,
    `CollectTerminals`, `FindState`, `FirstPass`, `FollowPass`,
    `ExpandItem`, `ProductionToString`);
  - loops over a set, a map or the growing state list, the parser's
    loops and the lexer's scanning loops are `while` loops;
  - not a loop: the `while (ss >> sym)` word extraction is the recursive
    function `Text.Words`;
  - not a loop: the `for (f : firstSets[Y])` insertion loops of First and
    Follow are set unions.
- **Specifications.** Each method is proved against a function that states
  what it computes:
  - from grammar loading to the table fill: `LoadedProductions`,
    `FirstSets`/`FollowSets`, `ClosureOf`/`GotoOf`, `Canonical`, `TableFill`;
  - for the parser and lexer: `Run`/`Step`, and `Lex`/`NextToken`.
- **Properties proved about those functions:**
  - least-fixpoint characterisations of First, Follow and closure;
  - DFA states are exactly the reachable goto sets;
  - conflict detection is sound and complete;
  - the parser's stack discipline and the freshness of labels;
  - round trips of the textual formats;
  - lexing loses nothing but whitespace.

Modules:

- `Text`: character classes, `to_string`, word splitting, string order.
- `Ordering`: generic strict total orders and minima.
- `Sets`: generic set and sequence facts.
- `Common`: `common.h`.
- `Propagation`: a generic "apply the rules until nothing grows" fixpoint
  behind both First and Follow.
- `FirstFollow`, `Lr0`, `Collection` and `SlrTable`: the specification of
  each stage.
- `Grammar`: class `GrammarAnalyzer`.
- `ParseSteps`: the parser's step function.
- `Parser`: class `Parser`.
- `Scanning`: the lexer's specification.
- `Lexer`: class `Lexer`.
- `Example`: the driver program's sentence, lexed and translated.

Design conventions:

- **Set and map order.** Iteration over a `std::set` or `std::map` takes
  elements in ascending order:
  - `FillShifts`, `FillReduce`, `FillItems` and `ProcessState` take the
    least remaining element at each step;
  - `ClosureRound`, `GotoState` and `NextSymbolsOf` take any remaining
    element, as the set each of them builds is the same in every order;
  - strings compare lexicographically by character, and items by
    production index, then by dot position.
- **`operator[]` lookups.** A lookup of a missing key reads as the empty
  set or the empty row.
- **The model follows the code here, including where the code departs
  from the usual SLR(1) construction:**
  - loading an empty grammar is not an error;
  - a failed table build leaves the rows it has written so far;
  - the accept entry is written without a conflict check, and a later
    reduce on `#` can overwrite it (the "masked" cell in `SlrTable`).

## Model

| member | source | states |
|---|---|---|
| Text.NatToString | parser.cpp:8-15 | the decimal text of a counter is a non-empty digit string without a leading zero except for 0 |
| Text.DecimalRoundTrip | parser.cpp:8-15 | reading the decimal text of n back gives n |
| Text.NatToStringInjective | parser.cpp:8-15 | different counter values give different texts |
| Text.Words | grammar.cpp:23-37 | the words extracted by `>>` from a line are non-empty and free of whitespace |
| Text.WordsOfWord | grammar.cpp:23-37 | a word followed by whitespace or the end is extracted whole, then extraction continues after it |
| Text.StrLessIsStrictTotalOrder | grammar.cpp:270 | the `std::string` comparison that orders sets of symbols is a strict total order |
| Text.LeastString | grammar.cpp:270 | the first symbol of a non-empty set is in it and no member is smaller |
| Text.Smallest | grammar.cpp:317 | the method picking the next key of a set or map returns exactly that least element |
| Common.QuadToString | common.h:25-28 | Quad::toString: the four fields in order, separated by ", " inside parentheses |
| Common.QuadTextRoundTrip | common.h:25-28 | Quad::toString can be parsed back into the same quadruple when no field holds a comma |
| Common.ProductionToString | common.h:41-46 | Production::toString, built one symbol at a time: the lhs, " ->", then each rhs symbol after a space |
| Common.ProductionText | common.h:41-46 | the text Production::toString returns: the lhs, " ->", then each rhs symbol after a space |
| Common.ItemLess | common.h:60-64 | Item::operator<: production index first, then dot position |
| Common.ItemEq | common.h:67-70 | Item::operator==: both fields equal |
| Common.ItemLessIsStrictTotalOrder | common.h:60-64 | Item::operator< (production index, then dot) is a strict total order |
| Common.ItemEqIsEquivalence | common.h:67-70 | Item::operator== holds exactly for equal items and exactly when neither is less than the other |
| Common.LeastItem | grammar.cpp:346 | the first item of a non-empty item set is in it and no member is smaller |
| Common.SmallestItem | grammar.cpp:346 | the method picking the next item returns exactly that least item |
| Common.Action.Type | common.h:87-91 | the type character: 's' for shift, 'r' for reduce, 'a' for accept |
| Common.Action.Val | common.h:87-91 | the val field: the target state of a shift, the production id of a reduce, 0 for accept |
| Common.ActionFieldsRoundTrip | common.h:87-91 | the (type, val) fields of Action encode shift, reduce and accept without loss |
| Grammar.LineProduction | grammar.cpp:23-39 | the production of one line: the first word is the lhs, the second is skipped, the rest form the rhs |
| Grammar.LoadedProductions | grammar.cpp:17-40 | the productions of the non-empty lines, numbered from 0 in line order |
| Grammar.LoadedIdsDense | grammar.cpp:19-39 | loaded productions are numbered 0, 1, 2, … in order |
| Grammar.LoadedStep | grammar.cpp:20-39 | an empty line adds nothing; any other line appends its production, keeps the first production first and adds its lhs to the non-terminals |
| Grammar.LineWords | grammar.cpp:23-37 | the words of a printed production are its lhs, "->" and its rhs |
| Grammar.LineRoundTrip | grammar.cpp:23-39 | reading the printed text of a production back as a grammar line gives the same production |
| Grammar.LoadRoundTrip | grammar.cpp:16-40 | loading the printed lines of a densely numbered grammar gives that grammar back |
| Grammar.CollectTerminals | grammar.cpp:43-53 | the terminals are exactly the rhs symbols that are not non-terminals |
| Grammar.FindState | grammar.cpp:277-286 | returns the first state with the given item set, or -1 when there is none |
| Grammar.FillShifts | grammar.cpp:317-339 | the transition loop of buildSLRTable: the shift entries, the GOTO entries, and the refusal on an occupied cell, as ShiftFill describes |
| Grammar.FillReduce | grammar.cpp:359-374 | the Follow loop of one completed item: reduce entries and the two conflict tests, as ReduceFill describes |
| Grammar.FillItems | grammar.cpp:345-377 | the item loop of buildSLRTable: accept entries and each completed item's reduces, as ItemsFill describes |
| Grammar.GrammarAnalyzer.constructor | grammar.h:25-37 | a fresh analyzer has an empty grammar, empty symbol sets, no states and empty tables |
| Grammar.GrammarAnalyzer.LoadGrammar | grammar.cpp:16-55 | appends the productions of the non-empty lines; the start symbol is the first lhs; the lhs symbols become non-terminals; the rest of the rhs symbols and "#" become terminals |
| Grammar.GrammarAnalyzer.FirstPass | grammar.cpp:79-103 | one pass over the productions updates the First sets as the First rules say, and reports change exactly when some set grew |
| Grammar.GrammarAnalyzer.ComputeFirst | grammar.cpp:73-105 | ends with the least sets above the start ones closed under the First rules |
| Grammar.GrammarAnalyzer.FollowPass | grammar.cpp:124-170 | one pass updates the Follow sets as the Follow rules say, and reports change exactly when some set grew |
| Grammar.GrammarAnalyzer.ComputeFollow | grammar.cpp:116-172 | ends with the least sets above the start ones, with "#" in Follow(start), closed under the Follow rules |
| Grammar.GrammarAnalyzer.ExpandItem | grammar.cpp:192-210 | adds Item(q, 0) for every production q of the non-terminal after the dot, and sets changed when something was added |
| Grammar.GrammarAnalyzer.ClosureRound | grammar.cpp:184-214 | one round of closure adds exactly the expansion of the current set, with changed true exactly when the set grew |
| Grammar.GrammarAnalyzer.Closure | grammar.cpp:179-217 | returns the closure of the item set |
| Grammar.GrammarAnalyzer.GotoState | grammar.cpp:224-238 | returns the closure of the items advanced over X |
| Grammar.GrammarAnalyzer.NextSymbolsOf | grammar.cpp:259-267 | returns exactly the symbols standing after a dot in the state |
| Grammar.GrammarAnalyzer.ScanSymbol | grammar.cpp:270-298 | one symbol of a state: adds a transition to the state holding its goto set, appending that state when it is new |
| Grammar.GrammarAnalyzer.ProcessState | grammar.cpp:258-299 | completes one state's transitions and keeps the collection invariant |
| Grammar.GrammarAnalyzer.BuildDFA | grammar.cpp:244-301 | state 0 is the closure of the first item; every state has exactly one transition per symbol after its dots, leading to its goto set; states are distinct and each later one is reached from an earlier one |
| Grammar.GrammarAnalyzer.BuildSLRTable | grammar.cpp:308-433 | the tables and the verdict are those of the table fill over the states in order: it stops at the first refused cell |
| Grammar.GrammarAnalyzer.Build | grammar.cpp:436-442 | First, Follow, the canonical collection and the table fill, each as specified |
| Propagation.ApplyFacts | grammar.cpp:82-102 | applying one rule only grows its target; the target grew exactly when the sets changed, exactly when the rule did not hold already |
| Propagation.GrewIff | grammar.cpp:101-102 | the changed flag of a pass is set exactly when some set differs after the pass |
| Propagation.UnchangedPassHolds | grammar.cpp:79-104 | a pass that changes nothing leaves every rule satisfied |
| Propagation.MeasureShrinks | grammar.cpp:79-104 | a pass that changes something shrinks the bounded measure, so the loop ends |
| Propagation.FixpointStep | grammar.cpp:79-104 | a growing pass has the same final result and fewer passes to go; a pass that changes nothing is the result |
| Propagation.FixpointHolds | grammar.cpp:73-105 | the repeated passes end with every rule satisfied |
| Propagation.FixpointAbove | grammar.cpp:73-105 | the result contains the start sets |
| Propagation.FixpointLeast | grammar.cpp:73-105 | the result is contained in any sets above the start ones that satisfy all rules |
| Propagation.FixpointBounded | grammar.cpp:116-172 | the result only holds symbols from the start sets and the rules' constants |
| Propagation.FixpointOfHolding | grammar.cpp:79-104 | sets that already satisfy all rules come back unchanged |
| FirstFollow.FirstRules | grammar.cpp:79-98 | one rule per production with a non-empty rhs: its first symbol, or First of it when that is a non-terminal, flows into First of the lhs |
| FirstFollow.FirstSets | grammar.cpp:73-105 | computeFirst: the passes repeated from the start sets until one changes nothing |
| FirstFollow.FirstRuleApply | grammar.cpp:84-98 | the rule of a production adds its first rhs symbol when that is terminal, else First of it, to First of the lhs |
| FirstFollow.FirstPassStep | grammar.cpp:79-103 | one production of the pass: an empty rhs is skipped; otherwise the lhs set is updated and "changed" grows by whether it got bigger |
| FirstFollow.FirstRulesMembers | grammar.cpp:79-98 | the First rules are one per production with a non-empty rhs, and their constants are terminals |
| FirstFollow.FirstRulesMeaning | grammar.cpp:79-98 | all First rules hold exactly when the sets satisfy the First equations |
| FirstFollow.FirstSetsClosed | grammar.cpp:73-105 | computeFirst's result satisfies the First equations |
| FirstFollow.FirstSetsAbove | grammar.cpp:73-105 | computeFirst's result contains the sets it started from |
| FirstFollow.FirstSetsLeast | grammar.cpp:73-105 | computeFirst's result is the least solution of the First equations above the start sets |
| FirstFollow.FirstSetsStable | grammar.cpp:73-105 | running computeFirst again on its own result changes no set |
| FirstFollow.FirstSetsTerminals | grammar.cpp:86-98 | First sets hold only terminals |
| FirstFollow.FollowRules | grammar.cpp:124-165 | one rule per non-terminal position of every rhs, in the order of the passes |
| FirstFollow.FollowSets | grammar.cpp:116-172 | computeFollow: "#" into Follow(start), then the passes repeated until one changes nothing |
| FirstFollow.FollowRuleApply | grammar.cpp:137-165 | for a non-terminal B at position i of a rhs: a terminal after it, or First of the symbol after it, or Follow(lhs) at the end, is added to Follow(B) |
| FirstFollow.FollowPassStep | grammar.cpp:127-169 | one rhs position in the pass: terminals are skipped; otherwise Follow(B) is updated and "changed" grows by whether it got bigger |
| FirstFollow.FollowPassNext | grammar.cpp:124-170 | the pass over production p ends where the pass over p + 1 starts |
| FirstFollow.ProdFollowRulesMembers | grammar.cpp:127-165 | the rules of one production are one per non-terminal rhs position |
| FirstFollow.FollowRulesMembers | grammar.cpp:124-165 | the Follow rules are one per non-terminal rhs position of every production |
| FirstFollow.FollowRulesMeaning | grammar.cpp:124-165 | all Follow rules hold exactly when the sets satisfy the Follow equations |
| FirstFollow.FollowSetsClosed | grammar.cpp:116-172 | computeFollow's result satisfies the Follow equations |
| FirstFollow.FollowSetsAbove | grammar.cpp:118 | "#" is in Follow(start), and the result contains the sets it started from |
| FirstFollow.FollowSetsLeast | grammar.cpp:116-172 | computeFollow's result is the least solution above the start sets with "#" in Follow(start) |
| FirstFollow.FollowSetsStable | grammar.cpp:116-172 | running computeFollow again on its own result changes no set |
| FirstFollow.FollowSetsTerminals | grammar.cpp:116-172 | Follow sets hold only terminals |
| Lr0.ClosureOf | grammar.cpp:179-217 | closure(I): rounds adding Item(q, 0) for every production q of a non-terminal after a dot, until a round adds nothing |
| Lr0.Advance | grammar.cpp:226-236 | the items with X after the dot, their dot moved past X |
| Lr0.GotoOf | grammar.cpp:224-238 | gotoState(I, X): the closure of the advanced items |
| Lr0.NextSymbols | grammar.cpp:259-266 | the symbols standing right after a dot in a state |
| Lr0.ExpandBounds | grammar.cpp:186-213 | a round only adds dot-0 items, and adds nothing new exactly when the set is closed |
| Lr0.ClosureStepShrinks | grammar.cpp:181-215 | a round that adds an item brings the set nearer to all dot-0 items, so the loop ends |
| Lr0.ClosureContains | grammar.cpp:179-217 | the closure contains the items it started from |
| Lr0.ClosureIsClosed | grammar.cpp:179-217 | the closure is closed: every non-terminal after a dot has all its dot-0 items in it |
| Lr0.ClosureAddsDotZero | grammar.cpp:196-208 | the closure adds only dot-0 items |
| Lr0.ClosureLeast | grammar.cpp:179-217 | the closure is contained in every closed set that contains the start items |
| Lr0.ClosureOfClosed | grammar.cpp:181-216 | a closed set is its own closure |
| Lr0.ClosureIdempotent | grammar.cpp:179-217 | closing twice is closing once |
| Lr0.ClosureValid | grammar.cpp:189-205 | the closure of valid items holds only valid items |
| Lr0.ClosureRoundStep | grammar.cpp:181-216 | a growing round keeps the closure and has fewer rounds left; a round that adds nothing is the closure |
| Lr0.GotoEmptyIff | grammar.cpp:224-238 | goto(I, X) is empty exactly when no item of I has X after its dot |
| Lr0.GotoKernel | grammar.cpp:224-238 | every item of goto(I, X) has dot 0 or comes from an item of I whose dot stood before X |
| Lr0.GotoValid | grammar.cpp:229-237 | goto sets hold only valid items |
| Collection.BuildingInit | grammar.cpp:246-252 | the one-state collection holding the start closure satisfies the construction invariant |
| Collection.ScanFound | grammar.cpp:277-297 | a transition to an existing state with the goto set keeps the scan invariant |
| Collection.ScanNew | grammar.cpp:288-297 | appending a new state with the goto set, and a transition to it, keeps the scan invariant |
| Collection.ScanEnd | grammar.cpp:270-299 | once every next symbol has a transition the state is complete and the next state is processed |
| Collection.RetargetComplete | grammar.cpp:295-297 | transitions for exactly the next symbols, each leading to the goto set, make a state complete |
| Collection.BuildingEnd | grammar.cpp:256-300 | when every state is processed the collection is canonical |
| Collection.StatesBounded | grammar.cpp:256 | distinct states are at most as many as the sets of valid items, so the construction ends |
| Collection.CanonicalHasReachable | grammar.cpp:244-301 | every non-empty item set reachable from the start by a symbol string is a state |
| Collection.CanonicalReachable | grammar.cpp:244-301 | every state is the item set reached by some symbol string |
| SlrTable.ShiftFill | grammar.cpp:317-339 | the transition loop of one state in increasing symbol order: shifts on terminals, GOTO on non-terminals, refused on an occupied ACTION cell |
| SlrTable.ReduceFill | grammar.cpp:359-374 | reduce p on each Follow symbol in increasing order, refused on a shift or a different reduce |
| SlrTable.ItemFill | grammar.cpp:346-376 | one item: accept on "#" for a completed start production, reduces on Follow(lhs) for any other completed item, nothing while the dot is inside |
| SlrTable.ItemsFill | grammar.cpp:345-377 | the items in increasing order, stopping at the first refusal |
| SlrTable.StateFill | grammar.cpp:310-377 | one state: its transitions, then its items |
| SlrTable.TableFill | grammar.cpp:310-378 | the states in order; the first refused state stops the fill |
| SlrTable.ShiftFillOk | grammar.cpp:317-329 | the transition loop passes exactly when no terminal it shifts on already has an entry |
| SlrTable.ShiftFillRow | grammar.cpp:317-332 | when it passes, every terminal transition is a shift to its target and other cells are kept |
| SlrTable.ShiftFillGoto | grammar.cpp:333-338 | when it passes, every non-terminal transition is in GOTO and other GOTO cells are kept |
| SlrTable.ReduceFillFacts | grammar.cpp:359-374 | the Follow loop only adds reduces by p on Follow symbols, keeps earlier cells, and on success writes reduce p on every one of them |
| SlrTable.ItemFillEntries | grammar.cpp:346-376 | one item keeps every entry demanded by the state, and passes when the state has no conflict |
| SlrTable.ItemFillFills | grammar.cpp:346-376 | after one item passes, its demands are in the row away from the masked cell |
| SlrTable.ItemsFillEntries | grammar.cpp:345-377 | the item loop keeps every entry demanded, and passes when the state has no conflict |
| SlrTable.ItemsFillFills | grammar.cpp:345-377 | after the item loop passes, every item's demands are in the row away from the masked cell |
| SlrTable.FilledHasNoConflict | grammar.cpp:362-371 | a row holding every demand has no conflict away from the masked cell |
| SlrTable.ShiftsFromEmpty | grammar.cpp:317-339 | from empty rows, the transition loop writes exactly the demanded shifts and the non-terminal transitions |
| SlrTable.StateFillFacts | grammar.cpp:310-377 | a state's fill writes only demanded entries; it passes when the state has no conflict; when it passes, the row holds every demand and every conflict is on the masked cell |
| SlrTable.TableFillOk | grammar.cpp:310-378 | the fill passes exactly when every state passes on its own |
| SlrTable.TableFillKeys | grammar.cpp:310-378 | only rows of existing states are written |
| SlrTable.TableFillRow | grammar.cpp:310-378 | each state's row is its own fill, or empty when an earlier state failed the build |
| SlrTable.TableFillKept | grammar.cpp:310-378 | rows of states already done are not touched again |
| SlrTable.SlrEntries | grammar.cpp:308-378 | whatever the verdict, every ACTION entry is demanded by its state and every GOTO entry is a non-terminal transition |
| SlrTable.SlrFilled | grammar.cpp:308-378 | on success every state's shifts, reduces, accept and non-terminal transitions are in the tables |
| SlrTable.SlrConflicts | grammar.cpp:324-370 | with no conflict in any state the build succeeds; after a success, every conflict sits on the masked cell |
| ParseSteps.WhileCode | parser.cpp:116-130 | the code of S -> while ( C ) { S }: the start label, C's code, a jfalse on C's place to the exit label, the body, the jump back, the exit label |
| ParseSteps.GotoTarget | parser.cpp:96-97 | GOTO[t][lhs] read with operator[]: a missing entry reads as state 0 |
| ParseSteps.Run | parser.cpp:46-224 | at most fuel iterations of the driver loop, ending with the outcome of the step that stops |
| ParseSteps.NamesDistinct | parser.cpp:8-15 | temporaries and labels for different counters differ, and no temporary is a label |
| ParseSteps.Semantic | parser.cpp:116-198 | a semantic action takes either no temporary or one new temporary as its place, and either no labels or two new ones |
| ParseSteps.Start | parser.cpp:35-40 | the parse starts with state 0, an empty attribute stack at matching depth, and the first token |
| ParseSteps.Step | parser.cpp:47-223 | a step that continues keeps the stacks matched, never moves back in the input, and never decreases the counters |
| ParseSteps.RunCounters | parser.cpp:45-224 | the counters only grow over a parse, so no name is handed out twice |
| ParseSteps.StepShape | parser.cpp:65-208 | shift pushes the target and the token value and consumes one token; reduce pops the rhs length off both stacks, keeps what is below and pushes GOTO[top][lhs]; accept returns the code on top of the stack |
| ParseSteps.MissingActionRejects | parser.cpp:56-61 | a missing ACTION entry ends the parse with an error naming the token's value |
| ParseSteps.WhilePlaced | parser.cpp:116-130 | the while code places the condition's and body's labels plus the start and exit labels once each |
| ParseSteps.SemanticPlaced | parser.cpp:116-198 | an action places a label no more often than its operands do, plus once for each label it takes |
| ParseSteps.ReduceFresh | parser.cpp:77-201 | a reduce keeps "each label placed once, and only labels taken since lo" on the stack |
| ParseSteps.StepFresh | parser.cpp:45-224 | every step keeps that stack invariant |
| ParseSteps.RunFresh | parser.cpp:45-224 | an accepted run from such a stack returns code with the same property |
| ParseSteps.AcceptedLabelsFresh | parser.cpp:29-224 | the code of an accepted parse places each label at most once, and only labels newer than the parse's starting counter |
| Parser.Parser.constructor | parser.cpp:6 | the parser keeps the analyzer and starts both counters at zero |
| Parser.Parser.NewTemp | parser.cpp:8-11 | increments the temporary counter and returns "T" and its new value |
| Parser.Parser.NewLabel | parser.cpp:12-15 | increments the label counter and returns "L" and its new value |
| Parser.Parser.SemanticAction | parser.cpp:116-198 | the attribute and counters after a production's action are those Semantic defines |
| Parser.Parser.ReduceBy | parser.cpp:77-201 | pops the rhs length off both stacks into the attribute buffer, pushes GOTO[top][lhs] and the action's attribute |
| Parser.Parser.ParseTokens | parser.cpp:35-224 | the driver loop ends with the outcome and counters Run gives from state 0 |
| Parser.Parser.Parse | parser.cpp:29-33 | parse tokenizes its input with a fresh Lexer and runs the driver loop on those tokens |
| Scanning.NumberEnd | lexer.cpp:69-76 | the end of the run of digits and points, stopping before a second point |
| Scanning.Lex | lexer.cpp:16-107 | the tokenize loop from a position: one token per pass after the whitespace, then "#" once the input is used up |
| Scanning.Tokens | lexer.cpp:5-107 | tokenize on a fresh Lexer: the loop from position 0 with no tokens yet |
| Scanning.SkipSpaces | lexer.cpp:22-23 | skips exactly the whitespace run, ending at the end or a non-space |
| Scanning.WordEnd | lexer.cpp:34-35 | a word runs over letters, digits and "_" and stops right before the first other character |
| Scanning.NumberRun | lexer.cpp:65-77 | a number runs over digits and at most one point, and stops before a non-digit or a second point |
| Scanning.NextToken | lexer.cpp:27-102 | the next token consumes at least one character and its value is exactly the text it consumed |
| Scanning.NextTokenShape | lexer.cpp:27-102 | each token is a keyword, an identifier, a number, or an operator whose kind is its text |
| Scanning.NumberShape | lexer.cpp:48-77 | a number token is an optional sign, then digits with at most one point |
| Scanning.NextTokenMaximal | lexer.cpp:30-77 | a word or a number extends as far as it can |
| Scanning.SignRule | lexer.cpp:48-83 | "+" or "-" before a digit starts a number exactly when the previous token is not an id, a number, ")" or "}" |
| Scanning.NextTokenTwoChar | lexer.cpp:89-101 | `>`, `<`, `=` or `!` followed by `=` is one two-character token whose kind is its text, and the scan moves past both characters |
| Scanning.NextTokenSingle | lexer.cpp:78-101 | any other non-space character that starts no word, no number and no two-character comparison is a one-character token whose kind is its text |
| Scanning.NextTokenNoSpace | lexer.cpp:27-102 | no token value holds whitespace |
| Scanning.LexValues | lexer.cpp:16-107 | the token values from pos on, joined, are the rest of the input without whitespace, then "#" |
| Scanning.LexPrefix | lexer.cpp:16-107 | tokenize only appends, and the last token it appends is "#" |
| Scanning.LexClean | lexer.cpp:16-107 | every token tokenize appends is well-shaped and free of whitespace |
| Scanning.TokensValues | lexer.cpp:5-107 | a fresh Lexer's tokens end with "#", and the earlier values joined give the input with its whitespace removed |
| Lexer.Lexer.constructor | lexer.cpp:5 | the lexer holds the line and starts at position 0 |
| Lexer.Lexer.Tokenize | lexer.cpp:16-107 | the tokens are those Lex describes from the current position, and the position ends at the end of the line |
| Lexer.Lexer.ScanToken | lexer.cpp:27-102 | one token from a non-space position: the token and the new position are those NextToken gives |
| Lexer.Lexer.ScanWord | lexer.cpp:30-44 | reads the longest word and classifies it as a keyword or an identifier |
| Lexer.Lexer.ScanNumber | lexer.cpp:48-77 | reads the sign when asked, then the longest run of digits with at most one point |
| Example.LexWhole | lexer.cpp:19-105 | tokenize over `while ( a > b ) { x = y }`, the driver's sentence at main.cpp:53, appends while, (, id a, >, id b, ), {, id x, =, id y, } and # |
| Example.SentenceLexes | lexer.cpp:16-107 | a fresh Lexer gives exactly those twelve tokens for the sentence |
| Example.IdToE | parser.cpp:190-193 | E -> id passes the identifier's value up as the place, with no code and no new name |
| Example.CompareAB | parser.cpp:143-154 | C -> E > E over a and b takes T1 and emits (>, a, b, T1) |
| Example.AssignXY | parser.cpp:133-140 | S -> id = E over x and y emits (=, y, -, x) and takes no name |
| Example.WhileLoop | parser.cpp:116-130 | the while production around them takes L1 and L2 and gives (label, -, -, L1), (>, a, b, T1), (jfalse, T1, -, L2), (=, y, -, x), (jump, -, -, L1), (label, -, -, L2) |
| Example.SentenceTranslates | parser.cpp:116-198 | the actions along the sentence's bottom-up derivation, from both counters at 0, give those six quadruples with one temporary and two labels taken |

## Left out

- Reading the grammar file: LoadGrammar takes the file's lines as a parameter.
- The console output: printing of the grammar, the tables, the parse steps
  and the quadruples is left out, and so is writing `output.txt` in parse.
- `main.cpp`: the driver's printing is left out. Its sentence is modelled
  in `Example`, by its tokens and by the semantic actions along its
  derivation. The parse loop over built tables is not run on it, since
  the grammar file `testfile.txt` is not part of this model.
- Entries that `operator[]` inserts as a side effect are not modelled. A
  lookup of a missing key reads as empty, and a missing GOTO entry reads
  as state 0, which is what the default `int` gives. The inserted entries
  are:
  - an empty row of `actionTable[s]` or `gotoTable[t]`;
  - an empty `firstSets[X]`, which computeFirst inserts before it skips a
    production with an empty rhs;
  - an empty `firstSets[Y]` or `firstSets[beta]` for a symbol that has
    none;
  - an empty `followSets[B]` or `followSets[A]`.
- `TableFill` writes an ACTION row and a GOTO row, possibly empty, for
  every state it visits. The source creates a row only when it first
  touches it. Nothing in the modelled code reads those keys.
- Grammar.GrammarAnalyzer.Build: requires a non-empty, densely numbered
  grammar and no states yet. The source indexes `grammar[0]` without a
  check, and building twice on the same analyzer is not modelled.
- Grammar.GrammarAnalyzer.BuildDFA: states the collection up to numbering.
  It does not fix the order in which new states are numbered; that order
  follows the ascending order of the symbols.
- Parser.Parser.ParseTokens: the `while (true)` loop is bounded by a `fuel`
  parameter, with the outcome `Unfinished` when the fuel runs out.
  Non-termination on a cyclic table is not modelled.
- The parser's undefined behaviour gets a single outcome, `Undefined`:
  - reading a token past the end;
  - popping an empty stack;
  - a reduce by a production that does not exist;
  - accept with an empty attribute stack.
- The action type `'e'` named in `common.h` is never written by the code,
  so it is not modelled.
- Counters, ids and positions are unbounded naturals; `int` overflow is not
  modelled.
- Character classes (`isspace`, `isalpha`, `isdigit`, `isalnum`) are the
  ASCII ones.
- `isTerminal` becomes set membership in the terminals.
- Several C++ loops are split into helper methods, each with its own
  contract:
  - lexer: `ScanToken`, `ScanWord`, `ScanNumber`;
  - table fill: `FillShifts`, `FillItems`, `FillReduce`;
  - First/Follow: `FirstPass`, `FollowPass`;
  - closure: `ClosureRound`, `ExpandItem`;
  - DFA construction: `ScanSymbol`, `ProcessState`.
- The closure, goto and next-symbol loops iterate over their items in
  ascending order. Their results do not depend on that order, so the
  model picks any remaining item.
