# Verified models of Kconfig evaluation and of the audio data path

This project models the parts of the SOF repository whose correctness is least obvious from their code,
and proves what their documentation and comments promise. It has two halves.

**Kconfig (`scripts/kconfig/kconfiglib.py`).** Symbols and choices form a graph of tristate, string and
number values that are computed lazily, cached per item and dropped by a pruned recursive invalidation.

- `KconfigModel` gives the equations of visibility, value, string value, selection and assignable values as
  tracked evaluations: each returns what it read. `KconfigEval` gives evaluation from scratch and shows it
  to be the only solution. `KconfigInvalidation` shows why invalidation may stop at items without a
  cached visibility, and `KconfigCache` is the class with the caches: after any sequence of operations every
  cached attribute equals evaluation from scratch.
- `KconfigMeaning` states the solution without those equations: comparisons, expressions, visibility, values,
  ranges, selections and modes. `KconfigSemantics` states what values mean to a user (assignable values,
  exclusive choices), `KconfigSave` and `KconfigSaveChoice` exactly when saving and reloading loses nothing,
  `KconfigMinimal` exactly which lines are written, `KconfigLoading` what the lines of any file assign,
  `KconfigStrings` the string escapes of .config files, `KconfigLoop` the dependency-loop check, and `KconfigRank`,
  `KconfigOrder` and `KconfigStale` the premises of evaluation.
- `KconfigExprText` prints and parses expressions, for which `KconfigGrammar` has the grammar. `KconfigMacro`
  expands macros, with their meaning in `KconfigTemplate`. `KconfigMenu` rewrites the menu tree in place and walks
  it, and `KconfigSubmenu` says where each node ends up. `KconfigPropagation` pushes dependencies down the tree, and
  `KconfigPremises` and `KconfigChoices` derive from that what the other modules need.

Cache coherence carries three premises. The attributes have an evaluation order: `KconfigOrder` shows that
this is so exactly if no item needs itself, and that the loop check passes some configurations with choices
that have none; for configurations without choices `KconfigLoop` shows exactly when the check is enough.
Every choice symbol is a dependent of its choice, as `KconfigChoices` derives from the tree. A choice is a
dependent of its defaults, as it is of its symbols; `KconfigStale` shows a stale selection where that fails.

**The audio data path (`src/audio`).**

- `DpQueue` is the single-producer, single-consumer ring as a state machine over every access to shared
  state, with a data cache per core at byte granularity that may evict and fill at any time.
- `CircularCopy` has the generic and the vector copies between circular buffers, `SinkSource` the sink and
  source interfaces of queue and stream, the copy between them and the synchronisation of a buffer with its
  shadow queue. There the queue is the state machine of `DpQueue`, and between any two accesses of the copy
  its other side and both caches take any number of steps.
- `HostDma` cuts transfers between cyclic lists of memory blocks, `DataBlob` puts configuration blobs
  together from fragments, and `FrameAlign` computes the least frame alignment.

`Arithmetic`, `Bytes` and `Wrappers` hold what several modules share. `dfyconfig.toml` lists all files.

Where the code differs from its comments, or does less than they suggest, the model follows the code:

- A condition that compares a symbol as not equal to y also puts a node into the submenu of that symbol,
  although the comment above `_expr_depends_on` lists only forms that need the symbol to be on.
- The header of the queue computes available data by subtracting from the buffer size; the code adds to
  the double size, and so does the model.
- A list of assignable values of m alone does not make m reachable where the symbol is also implied to y.
- A minimal configuration leaves out the bool symbol that a choice selects by default because it would be
  selected anyway; a tristate choice, however, comes back in m mode without its line.
- The loop check does not find every loop that evaluation runs into: it misses loops through MODULES and some
  through the selection of a choice.
- The vector copies between streams take 16 bits to be the least unit; with odd sizes they may not end.

## Model

| member | source | states |
|---|---|---|
| KconfigEval.UsedInDeps | scripts/kconfig/kconfiglib.py:3906-4158 | Whatever the values, evaluating an attribute reads only what its properties mention, although conjunctions and disjunctions stop early |
| KconfigEval.EnvFrame | scripts/kconfig/kconfiglib.py:5486-5512 | The value of an attribute depends only on the attributes its evaluation really read |
| KconfigEval.SolutionIsSolution | scripts/kconfig/kconfiglib.py:3906-4158 | Where a rank orders the attributes, evaluation from scratch satisfies every equation at once |
| KconfigEval.SolutionUnique | scripts/kconfig/kconfiglib.py:3906-4158 | It is the only assignment of values that does |
| KconfigMeaning.StringOrder | scripts/kconfig/kconfiglib.py:5845-5848 | Strings compare by the first character in which they differ, a prefix before what it starts |
| KconfigMeaning.CompareMeaning | scripts/kconfig/kconfiglib.py:5514-5540 | Each relation holds of two items as it does of their numbers, where both have one, else of their strings |
| KconfigMeaning.ExprMeaning | scripts/kconfig/kconfiglib.py:5486-5512 | The value of an expression is the least, the greatest or the complement of the values of its parts, although evaluation stops early |
| KconfigMeaning.VisibilityMeaning | scripts/kconfig/kconfiglib.py:5775-5802 | How visible an item is, by its most visible prompt, the mode of its choice and its type |
| KconfigMeaning.ValueMeaning | scripts/kconfig/kconfiglib.py:4076-4138 | A bool or tristate symbol: the user value as far as visible, else the greater of default and imply, raised by selects, with m as y where it has to be; it is written exactly if it is visible or not n by default, imply or select |
| KconfigMeaning.DefaultDecides | scripts/kconfig/kconfiglib.py:4093-4103 | Without a user value, imply and select the value is the lesser of value and condition of the first default with an active condition, and n without one |
| KconfigMeaning.DefaultUnique | scripts/kconfig/kconfiglib.py:4097-4103 | There is only one such default |
| KconfigMeaning.StringMeaning | scripts/kconfig/kconfiglib.py:4037-4047 | A string symbol: the user value if visible, else the first active default, else empty |
| KconfigMeaning.FreeNumberMeaning | scripts/kconfig/kconfiglib.py:3946-4035 | The same for numbers without an active range |
| KconfigMeaning.NumberMeaning | scripts/kconfig/kconfiglib.py:3946-4035 | With an active range: the user value if visible and in range, else the default, cut off at the bounds of the first active range |
| KconfigMeaning.NumberInRange | scripts/kconfig/kconfiglib.py:3946-4035 | So the value is within the first active range, where that is not empty and numbers are read as they are printed |
| KconfigMeaning.SelectionMeaning | scripts/kconfig/kconfiglib.py:5008-5037 | In y mode the user selection if it is visible, else the first default with an active condition that is visible, else the first visible symbol; in other modes none |
| KconfigMeaning.ModeMeaning | scripts/kconfig/kconfiglib.py:4780-4798 | The mode asked for, at least m unless the choice is optional, as far as visible, with m as y for what is not tristate |
| KconfigMeaning.ModeAssignable | scripts/kconfig/kconfiglib.py:4989-5006 | Setting a visible choice to a mode gives it that mode if and only if the mode is listed as assignable |
| KconfigRank.OrderedIsRanked | scripts/kconfig/kconfiglib.py:3106-3165 | An order of the items that respects their properties, with MODULES before tristate symbols, ranks all attributes |
| KconfigOrder.ArrangedIsRanked | scripts/kconfig/kconfiglib.py:5008-5037 | With choices: an order of the items in which a choice symbol also comes after all that decides the selection of its choice ranks all attributes |
| KconfigOrder.RankedIsArranged | scripts/kconfig/kconfiglib.py:5008-5037 | Any rank of the attributes gives such an order of the items |
| KconfigOrder.OrderExactly | scripts/kconfig/kconfiglib.py:997-1000 | With or without choices, evaluation has an order if and only if no item needs itself, through properties, types, choices and what decides their selections |
| KconfigInvalidation.ReadEdge | scripts/kconfig/kconfiglib.py:3106-3179 | Whatever an attribute can read of another item, apart from constants and the value of MODULES, is covered by a recorded dependency |
| KconfigInvalidation.SelectionRecorded | scripts/kconfig/kconfiglib.py:3167-3179 | All that the selection of a choice can read is covered by recorded dependencies if and only if the choice depends on each of its defaults |
| KconfigInvalidation.ReadsAreKept | scripts/kconfig/kconfiglib.py:4475-4504 | What survives a pruned invalidation read nothing that was dropped |
| KconfigInvalidation.InvalidationSound | scripts/kconfig/kconfiglib.py:4485-4502 | After a change of user values, every evaluated attribute that a pruned invalidation keeps equals evaluation from scratch under the new values |
| KconfigInvalidation.LiveOkAfter | scripts/kconfig/kconfiglib.py:4475-4504 | The kept attributes are again closed under what they read, so the next invalidation is sound too |
| KconfigStale.OutsideDefaultStale | scripts/kconfig/kconfiglib.py:3486-3490 | A choice default outside the choice, which only draws a warning: with everything cached, no invalidation that drops only what it must reaches the choice, but its selection changes |
| KconfigCache.AfterChange | scripts/kconfig/kconfiglib.py:4186-4269 | Changing user values and dropping dependents keeps every cached attribute equal to evaluation from scratch |
| KconfigCache.ChoiceSymbolChange | scripts/kconfig/kconfiglib.py:4257-4267 | Setting a choice symbol to y invalidates only through the choice; what is kept did not read the old value |
| KconfigCache.Kconfig.ExprValue | scripts/kconfig/kconfiglib.py:5486-5540 | Reading through the caches gives the value of the expression at the solution and keeps the caches coherent |
| KconfigCache.Kconfig.Visibility | scripts/kconfig/kconfiglib.py:4150-4158 | The cached visibility is the one computed from scratch; caches stay coherent |
| KconfigCache.Kconfig.FreshVisibility | scripts/kconfig/kconfiglib.py:5775-5802 | Visibility from prompts, choice mode and type is that of the solution |
| KconfigCache.Kconfig.TriValue | scripts/kconfig/kconfiglib.py:4060-4138 | The tristate value is that of the solution, which KconfigMeaning.ValueMeaning and the lemmas beside it spell out; caches stay coherent |
| KconfigCache.Kconfig.FreshSymbolValue | scripts/kconfig/kconfiglib.py:4076-4138 | User value, defaults, implies, selects and promotion combine to the value of the solution, with its .config flag, as KconfigMeaning.ValueMeaning states them |
| KconfigCache.Kconfig.Mode | scripts/kconfig/kconfiglib.py:4780-4798 | The mode of a choice is that of the solution |
| KconfigCache.Kconfig.StringValue | scripts/kconfig/kconfiglib.py:3919-4058 | The string value, numbers clamped to the active range, is that of the solution |
| KconfigCache.Kconfig.Selection | scripts/kconfig/kconfiglib.py:5008-5022 | The selection of a choice is that of the solution |
| KconfigCache.Kconfig.SelectionFromDefaults | scripts/kconfig/kconfiglib.py:5024-5037 | The first visible active default, else the first visible symbol |
| KconfigCache.Kconfig.Assignable | scripts/kconfig/kconfiglib.py:4140-4148 | The assignable values are those of the solution |
| KconfigCache.Kconfig.FreshSymbolAssignable | scripts/kconfig/kconfiglib.py:4422-4467 | Assignable values of a symbol by visibility, selects, implies and type |
| KconfigCache.Kconfig.FreshChoiceAssignable | scripts/kconfig/kconfiglib.py:4989-5006 | Assignable modes of a choice |
| KconfigCache.Kconfig.InvalidateAll | scripts/kconfig/kconfiglib.py:3181-3189 | Drops every cached attribute |
| KconfigCache.Kconfig.RecInvalidate | scripts/kconfig/kconfiglib.py:4475-4504 | Terminates on choice cycles; drops the item and, with each dropped item, its dependents with a cached visibility, and of the cached items no more than that |
| KconfigCache.Kconfig.RecInvalidateIfHasPrompt | scripts/kconfig/kconfiglib.py:4506-4526 | Drops nothing for a promptless item, else what RecInvalidate drops |
| KconfigCache.Kconfig.SetValue | scripts/kconfig/kconfiglib.py:4186-4269 | Accepts exactly the well-formed values, records them, and keeps the caches coherent |
| KconfigLoading.AcceptsExactly | scripts/kconfig/kconfiglib.py:4233-4251 | The well-formed values: n, y and, for tristate, m, as numbers or letters; any string; a decimal number; a hexadecimal number that is not negative |
| KconfigCache.Kconfig.UnsetValue | scripts/kconfig/kconfiglib.py:4271-4278 | Removes the user value and keeps the caches coherent |
| KconfigCache.Kconfig.SetMode | scripts/kconfig/kconfiglib.py:4830-4870 | The same for the mode of a choice |
| KconfigCache.Kconfig.UnsetMode | scripts/kconfig/kconfiglib.py:4872-4879 | Removes mode and selection of a choice and keeps the caches coherent |
| KconfigCache.Kconfig.Run | scripts/kconfig/kconfiglib.py:4475-4504 | After any sequence of reads, assignments and removals, every cached attribute equals evaluation from scratch, and the user values are those of the sequence |
| KconfigSemantics.AssignableExact | scripts/kconfig/kconfiglib.py:4422-4467 | Setting v makes the value v exactly if v is listed as assignable, except where visibility and select are m, an imply is y and v is not n |
| KconfigSemantics.AssignableStuck | scripts/kconfig/kconfiglib.py:4463-4467 | A configuration in the exceptional case: only m is listed, but the value is y |
| KconfigSemantics.MVisibleIsTristate | scripts/kconfig/kconfiglib.py:5797-5802 | What is visible to m is a tristate symbol with MODULES on |
| KconfigSemantics.SelectionIsVisibleMember | scripts/kconfig/kconfiglib.py:5008-5037 | A selection is visible and in y mode, a symbol of the choice if its defaults are, and there is one whenever a symbol is visible |
| KconfigSemantics.MemberVisibility | scripts/kconfig/kconfiglib.py:5775-5802 | A choice symbol is never visible to m in y mode; where the choice limits its prompts it is invisible or exactly as visible as the mode |
| KconfigSemantics.ChoiceExclusive | scripts/kconfig/kconfiglib.py:4060-4138 | In y mode the selected symbol is y and every other one n, and one is selected if any is visible; in m and n mode no symbol is y, and in n mode all are n where the choice limits their prompts |
| KconfigSemantics.ChoiceAssignable | scripts/kconfig/kconfiglib.py:4422-4467 | Of the values listed for a choice symbol, exactly those take effect that are not y in a mode other than y, and not y brought in by a select or imply for a symbol visible to m |
| KconfigStrings.EscapeIsOnePass | scripts/kconfig/kconfiglib.py:5667-5674 | The two replacements amount to one pass over the characters |
| KconfigStrings.UnescapeEscapeEach | scripts/kconfig/kconfiglib.py:5676-5684 | Unescaping what was escaped character by character gives it back |
| KconfigStrings.UnescapeSpelled | scripts/kconfig/kconfiglib.py:5676-5684 | Whichever characters of a string are escaped, beyond those that escaping does, unescaping gives the string |
| KconfigStrings.BodyUnique | scripts/kconfig/kconfiglib.py:6591 | The text between quotes in a line is unique: the first unescaped quote ends it |
| KconfigStrings.StringRoundTrip | scripts/kconfig/kconfiglib.py:5667-5684 | For every string without a newline the pattern matches the quoted escaped text, captures exactly it, and unescaping returns the string |
| KconfigStrings.Capture | scripts/kconfig/kconfiglib.py:6591 | Matching finds a body whenever one exists |
| KconfigSave.LoadedValues | scripts/kconfig/kconfiglib.py:1115-1252 | Loading the lines that were written assigns to each symbol exactly its own line, to each choice the mode of one of its symbols with m or y, and the selection of one with y |
| KconfigSave.SaveReload | scripts/kconfig/kconfiglib.py:1349-1414 | Writing a full or minimal configuration and loading it gives every symbol and every choice its old value if and only if no symbol is of the two kinds that lose theirs and no choice loses its mode |
| KconfigSave.SymbolKept | scripts/kconfig/kconfiglib.py:4160-4184 | The equations of one symbol hold after the reload exactly if it is not such a symbol |
| KconfigSave.ChoiceKept | scripts/kconfig/kconfiglib.py:1169-1183 | The mode that a choice infers from the lines of its symbols is the old one exactly if it is not such a choice; the selection always fits |
| KconfigSave.BoolsLoseNothing | scripts/kconfig/kconfiglib.py:1388-1414 | With only bool symbols and choices everything is kept, in either format, if and only if no optional choice is on without a symbol set |
| KconfigSave.FullLosesDefault | scripts/kconfig/kconfiglib.py:4168-4178 | A tristate default of y under visibility m comes back as m from a full configuration |
| KconfigSave.MinimalLosesM | scripts/kconfig/kconfiglib.py:1391-1414 | A symbol held at m that is also selected to m is left out of a minimal configuration and comes back as y |
| KconfigSaveChoice.MinimalLosesMode | scripts/kconfig/kconfiglib.py:1404-1412 | The symbol that a tristate choice in y mode selects by default is left out of a minimal configuration, and the choice comes back in m mode |
| KconfigSave.IsOmitted | scripts/kconfig/kconfiglib.py:1391-1412 | Whether a minimal configuration leaves out a symbol, read through the caches; for which symbols that is so is stated by KconfigMinimal.MinimalLogic, MinimalText and MinimalMember |
| KconfigSave.DefaultStringOf | scripts/kconfig/kconfiglib.py:4528-4561 | The value a symbol would have without a user value, n for a choice symbol, read through the caches |
| KconfigSave.ConfigStringOf | scripts/kconfig/kconfiglib.py:4160-4184 | The .config line of a symbol is that of the solution |
| KconfigSave.WriteConfig | scripts/kconfig/kconfiglib.py:1349-1362 | The lines written are those of the solution, in order, full or minimal, and caches stay coherent; which symbols have a line is stated by the lemmas of KconfigMinimal |
| KconfigMinimal.FullLines | scripts/kconfig/kconfiglib.py:1349-1362 | A full configuration has a line for exactly the symbols that are to be written |
| KconfigMinimal.MinimalLogic | scripts/kconfig/kconfiglib.py:1391-1402 | A minimal configuration has a line for a bool or tristate symbol outside choices exactly if it is more visible than selected and its value is not the one it would have without a user value |
| KconfigMinimal.MinimalText | scripts/kconfig/kconfiglib.py:1391-1402 | The same for string and number symbols |
| KconfigMinimal.MinimalMember | scripts/kconfig/kconfiglib.py:1391-1412 | The same for a choice symbol, with the exception of the one that a bool choice selects by default |
| KconfigSave.LoadConfig | scripts/kconfig/kconfiglib.py:1115-1252 | Loading with replacement leaves exactly the assignments of the lines, but for an older selection in a choice that is given m mode, and caches stay coherent |
| KconfigSave.ReplacedAs | scripts/kconfig/kconfiglib.py:1240-1252 | Loading over earlier assignments restores what loading into an unset configuration does |
| KconfigLoading.LineSays | scripts/kconfig/kconfiglib.py:1139-1217 | What any line gives its symbol: of bool and tristate values the first letter counts, a string is the text between its first quotes, unescaped, numbers have to be numbers, and trailing whitespace does not count |
| KconfigLoading.LastLineWins | scripts/kconfig/kconfiglib.py:1133-1237 | For any lines: of the value of a symbol, the mode of a choice and its selection, the last line that says something about it decides, and what no line speaks of stays |
| KconfigLoop.OrderExcludesCycles | scripts/kconfig/kconfiglib.py:6053-6125 | An order in which items are finished excludes cycles among symbols |
| KconfigLoop.LoopCheck.CheckSymbol | scripts/kconfig/kconfiglib.py:6053-6125 | The marks and the outcome of the recursive search, which keeps the finishing order: it either finishes the symbol after all its dependents, symbols and choices, and after its choice unless it was reached from there, or returns a chain or loop of real edges |
| KconfigLoop.LoopCheck.CheckChoice | scripts/kconfig/kconfiglib.py:6127-6158 | The same for a choice: it is finished after all its symbols but the one it was entered through, and after all that depends on that one |
| KconfigLoop.FoundOk | scripts/kconfig/kconfiglib.py:6160-6168 | On the way back an item extends the chain, or closes it to a loop when it is the first; the loop repeats no item and is not just a symbol, its choice and back |
| KconfigLoop.LoopCheck.CheckAll | scripts/kconfig/kconfiglib.py:997-1000 | The outcome is that of the recursive search. If nothing is raised, every defined symbol is finished after all that depends on it, there is no cycle of dependencies and steps from choices to their symbols, and every other cycle has a step from a symbol to its choice that the search skipped. A raised loop is a cycle without repetitions that is not just a symbol, its choice and back; without choices it is a cycle among symbols |
| KconfigLoop.NoDependencyCycle | scripts/kconfig/kconfiglib.py:6053-6158 | The finishing order of a search that passes excludes every cycle of dependencies, of symbols or choices, and of steps from choices to their symbols |
| KconfigLoop.PassSkips | scripts/kconfig/kconfiglib.py:6078-6109 | Every real cycle of a configuration that passes contains a step from a symbol to its choice, where the symbol was reached from a choice and the choice does not depend on it otherwise |
| KconfigLoop.CheckGivesOrder | scripts/kconfig/kconfiglib.py:997-1000 | Without choices, the finish order of a passed check gives a rank for evaluation, provided MODULES does not depend on a tristate symbol |
| KconfigLoop.RankedNeeds | scripts/kconfig/kconfiglib.py:997-1000 | Both conditions are needed for any rank |
| KconfigLoop.CheckMissesModules | scripts/kconfig/kconfiglib.py:3906-3917 | A configuration that passes the check but has no evaluation order: MODULES depends on a tristate symbol, whose type depends on MODULES |
| KconfigOrder.CheckMissesChoice | scripts/kconfig/kconfiglib.py:6127-6158 | A configuration that passes the check, with every item closed, but has no evaluation order: a symbol outside of a choice depends on one in it and decides the visibility of another |
| KconfigOrder.CheckFindsChoice | scripts/kconfig/kconfiglib.py:6091-6104 | A symbol of a choice, one that depends on it and on which the choice depends: the check reports exactly this loop |
| KconfigOrder.ChoiceHasOrder | scripts/kconfig/kconfiglib.py:3106-3179 | A configuration with a choice that meets the premises of cache coherence |
| KconfigExprText.Parser.Expr | scripts/kconfig/kconfiglib.py:3014-3054 | The parser with a token index computes the recursive-descent reading of the remaining tokens |
| KconfigExprText.Parser.AndExpr | scripts/kconfig/kconfiglib.py:3056-3064 | The same for conjunctions |
| KconfigExprText.Parser.Factor | scripts/kconfig/kconfiglib.py:3066-3100 | The same for operands, comparisons, negation and parentheses |
| KconfigGrammar.ParserIsGrammar | scripts/kconfig/kconfiglib.py:3014-3100 | A list of tokens is parsed as an expression if and only if the grammar derives the expression from it, with conjunction binding more than disjunction and both to the right: the grammar in the comment of the parser |
| KconfigGrammar.Unambiguous | scripts/kconfig/kconfiglib.py:3014-3100 | No list of tokens has two readings |
| KconfigExprText.PrintedExpr | scripts/kconfig/kconfiglib.py:5555-5596 | The printed tokens of an expression parse completely to its right-associated form |
| KconfigExprText.NormalValue | scripts/kconfig/kconfiglib.py:5486-5512 | Re-association changes no value |
| KconfigExprText.RoundTrip | scripts/kconfig/kconfiglib.py:5555-5596 | For every expression without choices: printing and parsing succeeds, consumes all tokens and preserves the value under every valuation |
| KconfigGrammar.PrintedGroups | scripts/kconfig/kconfiglib.py:5555-5596 | Parentheses are printed exactly around a disjunction in a conjunction, a conjunction in a disjunction, and what is negated if it is not a symbol |
| KconfigExprText.ConditionParse | scripts/kconfig/kconfiglib.py:3070-3085 | In a condition the same tokens are accepted as elsewhere, with the same expression but for m outside comparisons, which becomes m && MODULES |
| KconfigExprText.ConditionMeaning | scripts/kconfig/kconfiglib.py:3070-3085 | So in a condition m counts as m while MODULES is on and as n while it is off, and nothing else changes |
| KconfigMacro.LimitOnlyCutsOff | scripts/kconfig/kconfiglib.py:2425-2449 | The limits on recursive expansion can only turn a result into an error, never change it |
| KconfigMacro.Preprocessor.ExpandWhole | scripts/kconfig/kconfiglib.py:2288-2301 | Terminates for every set of mutually recursive variables, returns the value that KconfigTemplate.ExpansionMeaning states, and restores all expansion counts |
| KconfigMacro.Preprocessor.ExpandMacro | scripts/kconfig/kconfiglib.py:2371-2423 | Replaces a macro in place by its value, stated by KconfigTemplate.CallMeaning, and leaves the rest of the text and the counts as they were |
| KconfigMacro.Preprocessor.CallFunction | scripts/kconfig/kconfiglib.py:2425-2478 | Value of a variable, user function or built-in function, with the recursion limits |
| KconfigTemplate.ReadRendered | scripts/kconfig/kconfiglib.py:2371-2423 | Texts and templates correspond: a template, with templates as arguments of calls, can be read back from its text |
| KconfigTemplate.ReadIsText | scripts/kconfig/kconfiglib.py:2371-2423 | and every text whose calls are closed is the text of a template |
| KconfigTemplate.ExpansionMeaning | scripts/kconfig/kconfiglib.py:2288-2301 | For every text, definitions and arguments, expansion in one pass is the value of the template put together from those of its parts: values are not scanned again, and a call that is not closed is an error |
| KconfigTemplate.CallMeaning | scripts/kconfig/kconfiglib.py:2371-2423 | The same for one call, from any point of it |
| KconfigTemplate.Substitution | scripts/kconfig/kconfiglib.py:2400-2410 | In a text of plain pieces with $(k) between them each $(k) becomes argument k, counted from the end if negative, and the pieces stay |
| KconfigTemplate.CallSubstitutes | scripts/kconfig/kconfiglib.py:2425-2449 | A call of a variable becomes the text of the variable with the arguments of the call put in, argument 0 being the name; a variable in expansion is an error without arguments, and with arguments beyond the limit |
| KconfigTemplate.CallOfOther | scripts/kconfig/kconfiglib.py:2451-2478 | A name that is no variable: a built-in function if the number of arguments fits and else an error, else the environment, else nothing |
| KconfigMenu.FlattenKeepsOrder | scripts/kconfig/kconfiglib.py:5973-5999 | Flattening keeps the order of all nodes, and leaves children only below nodes with a prompt and choices |
| KconfigMenu.RemoveIfsKeepsOrder | scripts/kconfig/kconfiglib.py:6001-6024 | Removing flattened if nodes keeps the order of all other nodes |
| KconfigMenu.FinalizeKeepsOrder | scripts/kconfig/kconfiglib.py:3197-3262 | Finalising a node and the siblings that follow it keeps the order of all non-if nodes and leaves no if node below it |
| KconfigMenu.FinalizeDistinct | scripts/kconfig/kconfiglib.py:3197-3262 | No node is duplicated |
| KconfigMenu.FinalTree | scripts/kconfig/kconfiglib.py:3197-3262 | For every parsed tree, the finalised tree in pre-order is the parsed tree in pre-order without if nodes, each node once |
| KconfigSubmenu.FinalPlaces | scripts/kconfig/kconfiglib.py:3197-3262 | For every parsed tree, where each node ends up: its final ancestors are, of its parsed ancestors and of the symbols in whose submenu it or they are, those with a prompt and the choices |
| KconfigSubmenu.RunExact | scripts/kconfig/kconfiglib.py:3233-3250 | A symbol takes exactly the siblings after it up to the first that neither depends on it nor is in the submenu of one it took |
| KconfigSubmenu.CleanShown | scripts/kconfig/kconfiglib.py:5973-6024 | Flattening and removing if nodes changes neither the order of the other nodes nor which of their ancestors have a prompt or are choices |
| KconfigMenu.MenuTree.FlattenList | scripts/kconfig/kconfiglib.py:5973-5999 | The pointer rewriting turns the list into the flattened forest, with the right parents, and touches no other node |
| KconfigMenu.MenuTree.RemoveIfNodes | scripts/kconfig/kconfiglib.py:6001-6024 | The pointer rewriting removes exactly the if nodes of the level |
| KconfigMenu.MenuTree.ClaimFollowers | scripts/kconfig/kconfiglib.py:3233-3243 | The siblings with an automatic menu dependency are finalised and get the symbol as parent |
| KconfigMenu.MenuTree.TakeFollowers | scripts/kconfig/kconfiglib.py:3233-3250 | They become the children of the symbol |
| KconfigMenu.MenuTree.FinalizeLevel | scripts/kconfig/kconfiglib.py:3226-3230 | Finalises the children of a node while earlier ones take later ones out of the list |
| KconfigMenu.MenuTree.FinalizeNode | scripts/kconfig/kconfiglib.py:3197-3262 | The pointers end up as the finalised tree |
| KconfigMenu.MenuTree.Jump | scripts/kconfig/kconfiglib.py:1607-1622 | One jump of the iterative walk goes to the next node in pre-order, or ends after the last |
| KconfigMenu.MenuTree.NodeIter | scripts/kconfig/kconfiglib.py:1603-1629 | The walk yields the nodes in pre-order; with unique symbols, each symbol at its first node |
| KconfigMenu.MenuTree.FinalizeAndWalk | scripts/kconfig/kconfiglib.py:1603-1629 | Finalising the whole tree by its pointers and then walking it yields the nodes as parsed, without the if nodes |
| KconfigMenu.PreOnce | scripts/kconfig/kconfiglib.py:1603-1629 | It meets every node of the tree exactly once |
| KconfigMenu.FirstsEachOnce | scripts/kconfig/kconfiglib.py:1603-1629 | With unique symbols every symbol is met exactly once and every other node is met |
| KconfigMenu.FirstsInOrder | scripts/kconfig/kconfiglib.py:1603-1629 | They are met in the order of the tree, and each symbol at the first of its nodes |
| KconfigPropagation.MakeValues | scripts/kconfig/kconfiglib.py:2485-2511 | The simplifications with n and y change no value |
| KconfigPropagation.DepMeaning | scripts/kconfig/kconfiglib.py:3275-3292 | The final dependency is the least of the own one and those of all ancestors, up to the nearest choice, whose mode stands for what is above it |
| KconfigPropagation.PropsMeaning | scripts/kconfig/kconfiglib.py:3275-3320 | Every final condition is the least of its own, the dependencies of its node and ancestors, and for prompts every enclosing visible if |
| KconfigPropagation.CollectedMeaning | scripts/kconfig/kconfiglib.py:3325-3356 | Direct dependency, defaults, ranges, selects, implies and reverse dependencies of a symbol, over all its nodes and all symbols that select it |
| KconfigPropagation.Finalizer.PropagateTo | scripts/kconfig/kconfiglib.py:3289-3320 | One child node takes the dependency of its parent |
| KconfigPropagation.Finalizer.PropagateDeps | scripts/kconfig/kconfiglib.py:3275-3323 | All children do, and no other node changes |
| KconfigPropagation.Finalizer.AddPropsToSymbol | scripts/kconfig/kconfiglib.py:3325-3356 | The properties of a node reach its symbol and the symbols it selects and implies |
| KconfigPropagation.Finalizer.FinalizeTree | scripts/kconfig/kconfiglib.py:3213-3232 | After the pass every node below has the conditions that its path of ancestors gives it, and the symbols have collected them in definition order |
| KconfigPropagation.VisitCollects | scripts/kconfig/kconfiglib.py:3213-3256 | The pass that makes submenus on its way, taking later siblings out of their level, collects the same conditions in the same order |
| KconfigPremises.PropagationMeetsDeps | scripts/kconfig/kconfiglib.py:3289-3300 | In the graph that any tree gives, a symbol with an active prompt has its direct dependency met |
| KconfigPremises.ChoiceLimitsPrompt | scripts/kconfig/kconfiglib.py:3278-3286 | The prompt of a symbol parsed in a choice, possibly in if blocks there, is never above the mode of the choice, and mentions it unless it is n |
| KconfigChoices.FinalizeRaised | scripts/kconfig/kconfiglib.py:3258-3262 | Finalising brings no node up to a level other than those below nodes without a prompt that are not choices |
| KconfigChoices.TreeMakesChoice | scripts/kconfig/kconfiglib.py:6026-6037 | For every tree: a choice limits all its symbols, among them those from if blocks, and each of them depends on it unless its prompts are the constant n |
| KconfigChoices.TreeMakesWired | scripts/kconfig/kconfiglib.py:3106-3179 | So the recorded dependencies are those that cache coherence needs |
| KconfigPremises.DependsOnCases | scripts/kconfig/kconfiglib.py:5937-5962 | A condition puts a node into a submenu by needing the symbol on or, beyond the documented forms, by comparing it as not equal to y |
| KconfigPremises.NeedsOnHides | scripts/kconfig/kconfiglib.py:5937-5962 | A node in a submenu, by any condition that needs the symbol on, is invisible while the symbol is n |
| KconfigPremises.SubmenuHiddenExactly | scripts/kconfig/kconfiglib.py:5943-5957 | Of the single conditions that put a node into a submenu, exactly those not comparing with y hide it while the symbol is n |
| DpQueue.AvailableExact | src/audio/dp_queue.c:97-106 | The signed 32-bit computation gives the number of bytes in the queue for every buffer of at most 2^30 bytes; equal offsets mean empty |
| DpQueue.AvailableNeedsBound | src/audio/dp_queue.c:97-106 | It is right for all fill levels if and only if the buffer has at most 2^30 bytes |
| DpQueue.IncIsNext | src/audio/dp_queue.c:86-95 | Advancing an offset is addition modulo the double area |
| DpQueue.PointerIsSlot | src/audio/dp_queue.c:75-84 | Folding an offset back gives the index of its position in the stream |
| DpQueue.RegionsExact | src/audio/dp_queue.c:37-73 | The one or two regions written back or invalidated cover exactly the circular range |
| DpQueue.KeepGetBuffer | src/audio/dp_queue.c:124-140 | Keeps the invariant; a write grant fits into what is free |
| DpQueue.KeepWrite | src/audio/dp_queue.c:124-140 | Keeps the invariant; writing within a grant changes no unread byte |
| DpQueue.KeepCommit | src/audio/dp_queue.c:142-158 | Keeps the invariant; a commit of at most the grant starts with the write-back of its whole range |
| DpQueue.KeepFlush | src/audio/dp_queue.c:56-73 | Keeps the invariant; a write-back puts the bytes of its region into memory |
| DpQueue.KeepPublish | src/audio/dp_queue.c:149-156 | Keeps the invariant; moving the write offset makes exactly the committed bytes available, all of them in memory |
| DpQueue.KeepGetData | src/audio/dp_queue.c:160-174 | Keeps the invariant; a read grant fits into what is available |
| DpQueue.KeepInvalidate | src/audio/dp_queue.c:37-54 | Keeps the invariant; an invalidation removes stale bytes of its region from the cache of the reader |
| DpQueue.ReadIsRight | src/audio/dp_queue.c:160-180 | A byte read within a grant is the byte committed at that position, through non-coherent caches |
| DpQueue.KeepRelease | src/audio/dp_queue.c:182-194 | Keeps the invariant; releasing at most the grant frees only bytes that were handed out |
| DpQueue.Keep | src/audio/dp_queue.c:116-194 | Every action of either side, and every eviction or fill of either cache, keeps the invariant |
| DpQueue.ForConsumerRun | src/audio/dp_queue.c:97-158 | Whatever the producer and the caches do, the consumer finds its own state as it left it, and bytes are only added: what is available never falls |
| DpQueue.ForProducerRun | src/audio/dp_queue.c:97-194 | Whatever the consumer and the caches do, the producer finds its own state and every byte it wrote, and room never falls |
| DpQueue.Safe | src/audio/dp_queue.c:75-194 | Under every interleaving: every byte read is the byte committed at that position, at most a buffer is unread, the offsets give its size exactly, and no granted index holds an unread byte |
| DpQueue.NeverStuck | src/include/sof/audio/dp_queue.h:22-57 | With the size the queue is created with, the consumer can always get its minimum or the producer has room for its own |
| CircularCopy.MovedBytes | src/audio/component.c:400-420 | The byte-wise reference: sink[(w+i) mod n] = source[(r+i) mod m] for every i, and nothing else changes |
| CircularCopy.CirBufCopy | src/audio/component.c:400-420 | The generic loop over chunks moves what the byte-wise reference moves, for any size |
| CircularCopy.StreamCopy | src/audio/component.c:373-398 | The same from read and write pointers with offsets |
| CircularCopy.CopyShorts | src/audio/component.c:257-270 | Blocks of several 16-bit units and a remainder make a plain copy |
| CircularCopy.CirBufCopyBlocks | src/audio/component.c:236-278 | The vector loops move exactly the bytes up to the first chunk of odd size |
| CircularCopy.CarriedAll | src/audio/component.c:327-369 | They move everything if and only if every chunk has an even size |
| CircularCopy.BlocksRefine | src/audio/component.c:327-369 | With everything aligned to 16 bits they refine the generic loop |
| CircularCopy.BlocksLoseOddByte | src/audio/component.c:251-276 | A single byte is not copied |
| CircularCopy.StreamCopyBlocks | src/audio/component.c:284-325 | Whenever its loop ends, the vector copy between streams moves what the reference moves of all whole 16-bit units |
| CircularCopy.EndsExactly | src/audio/component.c:300-323 | The loop ends if and only if, going by two bytes, neither side meets an end of its buffer with one byte to go while units are left; a condition on sizes, pointers and count of the call |
| CircularCopy.StuckStays | src/audio/component.c:300-323 | A round that meets such an end moves nothing and leaves pointers and count as they are, and so does every round after it |
| CircularCopy.OddBufferNeverEnds | src/audio/component.c:300-323 | Two units out of a buffer of three bytes are never copied |
| CircularCopy.AlignedFits | src/audio/component.c:299 | With pointers and ends aligned to 16 bits the condition holds |
| SinkSource.CopyAppends | src/audio/sink_source_utils.c:51-69 | A circular copy behind the bytes of a ring appends to them |
| SinkSource.CopyFromQueue | src/audio/sink_source_utils.c:51-69 | With the other side of the queue and the caches acting between any two bytes, the loop moves exactly the bytes handed out and changes nothing else, in at most three rounds of a positive size each |
| SinkSource.CopyToQueue | src/audio/sink_source_utils.c:51-69 | The same to a queue: what its producer will commit is what was copied |
| SinkSource.Queue.GetBuffer | src/module/audio/sink_api.c:22-37 | Busy with an outstanding grant, no data without room at that moment, else the position behind all bytes committed |
| SinkSource.Queue.CommitBuffer | src/module/audio/sink_api.c:40-60 | Publishes at most the granted bytes as they were written, whatever happens between the write-backs |
| SinkSource.Queue.GetData | src/module/audio/source_api.c:22-37 | Busy with an outstanding grant, no data beyond what is available at that moment, else the position of the first unread byte, whatever happens between the invalidations |
| SinkSource.Queue.ReadAt | src/audio/dp_queue.c:160-180 | The byte at an index handed out is the one committed at that position |
| SinkSource.Queue.WriteAt | src/audio/dp_queue.c:124-140 | Of what the producer has put behind the committed bytes, exactly the byte at that index changes |
| SinkSource.Queue.ReleaseData | src/module/audio/source_api.c:40-60 | Gives back at most the granted bytes from the front |
| SinkSource.LevelExact | src/include/sof/audio/audio_stream.h:626-668 | The fill level computed from the two pointers is exact after producing and after consuming |
| SinkSource.Stream.CommitBuffer | src/include/sof/audio/audio_stream.h:626-646 | Producing appends the bytes and keeps level, room and pointers right |
| SinkSource.Stream.ReleaseData | src/include/sof/audio/audio_stream.h:653-669 | Consuming drops the bytes and keeps level, room and pointers right |
| SinkSource.QueueToStream | src/audio/sink_source_utils.c:15-73 | The exact result code; on success the first unread bytes are appended to the stream and given back only if asked for, whatever the producer and the caches do between any two accesses |
| SinkSource.StreamToQueue | src/audio/sink_source_utils.c:15-73 | The same from a stream to a queue, whatever the consumer and the caches do |
| SinkSource.SyncFromQueue | src/audio/buffer.c:110-148 | Moves the least of data, room and limit as first seen and cannot run out of either; stream and unread bytes together are the old ones followed by what was committed meanwhile |
| SinkSource.SyncToQueue | src/audio/buffer.c:110-148 | The same with the shadow queue at the output: bytes committed and stream together stay the same, and of those not yet taken just the ones are gone that the consumer gave back |
| SinkSource.SyncShadow | src/audio/buffer.c:117-139 | The exact number of bytes moved and the exact result in either direction, the bytes themselves with what the other side does meanwhile, no change of the stream where the result is an error, and the error without a shadow queue |
| HostDma.Buffer.NextBuffer | src/audio/host-legacy.c:47-54 | The next block, cyclically; none for an empty list |
| HostDma.Host.ElementsReset | src/audio/host-legacy.c:622-653 | Both sides stand at byte 0 of their list; a missing list leaves its side, and the local element, as they were |
| HostDma.Host.GetSplit | src/audio/host-legacy.c:56-72 | What is left for later is just enough that the transfer crosses no end of a block; the transfer is not empty |
| HostDma.Host.OneShot | src/audio/host-legacy.c:308-337 | After a transfer both sides stand that many bytes further in their cyclic lists |
| HostDma.Host.CopyWholeBlock | src/audio/host-legacy.c:128-156 | Byte k of the source list goes to byte k of the sink list, in positive transfers that sum up to the request |
| HostDma.Host.CopyEach | src/audio/host-legacy.c:128-156 | So does any run of copies of any sizes, with source memory that is refilled meanwhile |
| HostDma.Host.CopyFirstPart | src/audio/host-legacy.c:165-189 | The variant with a single transfer copies the first part of that |
| HostDma.PlacedNext | src/audio/host-legacy.c:308-337 | After the end of a block comes the start of the next one, also in the list seen as one piece |
| HostDma.SentBytes | src/audio/host-legacy.c:128-156 | While no sink address is written twice every byte arrives, and no other address changes |
| HostDma.SentToDisjoint | src/audio/host-legacy.c:128-156 | That is so for up to a whole cycle of a sink whose blocks do not overlap |
| DataBlob.Handler.GetDataBlob | src/audio/data_blob.c:62-104 | Publishes a complete new blob as a whole, else returns the current one |
| DataBlob.Handler.Open | src/audio/data_blob.c:207-256 | Starts a request in a second buffer or, with a single blob, takes the current one out of use |
| DataBlob.Handler.Append | src/audio/data_blob.c:264-273 | Puts a fragment behind those before, or fails without any change if it does not fit |
| DataBlob.Handler.Finish | src/audio/data_blob.c:275-311 | Discards a rejected blob, publishes it if the old one is not in use, else marks it ready |
| DataBlob.Handler.Set | src/audio/data_blob.c:169-314 | The exact result of each fragment; with two buffers the current blob is untouched until publication, with one it is untouched while active; the buffers never alias |
| DataBlob.SendRequest | src/audio/data_blob.c:62-314 | Refused while an earlier blob is pending; else, whenever a component asks during a request that fills the announced size, it gets the old blob or the whole new one; once accepted the new one is next |
| DataBlob.SendRequests | src/audio/data_blob.c:62-314 | In any run of requests, refused and rejected ones included, a component sees the latest blob accepted before the request or this one, always as a whole |
| FrameAlign.Gcd | src/math/numbers.c:24-71 | Binary gcd: a common divisor that is a combination of both numbers, with the special cases of zero |
| FrameAlign.GcdIsGreatest | src/math/numbers.c:18-22 | Every common divisor divides it |
| FrameAlign.FrameNumExact | src/audio/audio_stream.c:77-78 | A number of frames is byte aligned exactly if it is a multiple of the computed one |
| FrameAlign.LcmExact | src/audio/audio_stream.c:80-81 | Product divided by gcd is the least common multiple |
| FrameAlign.FrameAlignGet | src/audio/audio_stream.c:73-82 | The aligned numbers of frames are exactly the multiples of the result, as long as the product fits in 32 bits |
| FrameAlign.LeastAligned | src/audio/audio_stream.c:73-82 | So the result is the least positive aligned number |
| FrameAlign.PowerOf2Exact | src/include/sof/common.h:27 | The bit trick holds exactly for powers of two |
| FrameAlign.ShiftLeast | src/audio/audio_stream.c:96-97 | The shift is the least k with size at most 2^k |
| FrameAlign.Stream.RecalcAlign | src/audio/audio_stream.c:85-98 | Both fields of a stream are set to these least values, as long as the products fit in 32 bits |

## Left out

- Reading files, globbing, shell and environment lookups, warnings and messages of kconfiglib: input and output. Built-in macro functions and the environment are a total function of the model.
- Python's `int()`, `str()` and `hex()`: parameters of the graph, so number parsing and formatting are arbitrary; ranges are clamped as the code does.
- Tokenising of Kconfig files and parsing of property lines: the model starts from tokens of one expression and from parsed nodes.
- Comment lines that `write_config` adds for menus and comments, and headers: they carry no values.
- KconfigSave.SaveReload: choices are taken as the tree gives them, with bool or tristate symbols that belong to one choice only.
- KconfigLoop.CheckGivesOrder: for configurations without choices only; with choices a passed check does not imply an order (KconfigOrder.CheckMissesChoice), and KconfigOrder.OrderExactly gives the condition that does.
- KconfigCache.Kconfig.InvalidateAll: also drops what is cached for undefined symbols, whose values never change.
- KconfigChoices.TreeMakesChoice: for a choice that is defined in one place, with symbols that have no prompt outside of it.
- KconfigPremises.SubmenuHiddenExactly: for single conditions; a conjunction can be false for other reasons. That conditions which need the symbol hide the node holds for conjunctions too (KconfigPremises.NeedsOnHides).
- KconfigMenu.MenuTree.FinalizeNode: automatic menu dependencies enter as a relation between nodes; that they are decided by conditions which no longer change at that point is not part of the model.
- KconfigPropagation.Finalizer.FinalizeTree: the pass is over the parsed tree; that making submenus on the way changes neither conditions nor order is KconfigPropagation.VisitCollects.
- The memory order of the two queue offsets: each access is one atomic step, as the queue header assumes of 32-bit accesses. A queue of size 0 is not modelled.
- DpQueue.RegionsExact: cache operations act on bytes, not on whole cache lines.
- Copies between a stream and linear memory: they repeat the loops of `CircularCopy` with one side that does not wrap.
- Streams that permit overrun or underrun, and the branch of `audio_stream_produce` that overwrites unread data, which a commit of at most the grant cannot reach.
- Cache operations of component buffers: the stream is modelled on one core.
- CircularCopy.StreamCopyBlocks: says nothing of calls whose loop does not end, which CircularCopy.EndsExactly describes.
- Alignment registers of the vector units: a vector load or store moves its bytes at once.
- HostDma.Host.GetSplit: addresses do not wrap at 32 bits.
- Periods, positions and messages to the host after a transfer, and DMA errors: calls into drivers.
- The `get_cmd` side of data blobs and re-initialisation in the middle of a request: they would add easy members only.
- DataBlob.Handler.Open: freeing of old buffers is left to garbage collection, so leaks are not visible.
- FrameAlign.Gcd: integers are unbounded, so the negation of the least 32-bit integer does not overflow.
- `host-zephyr.c`, DAI and DMA drivers, schedulers, IPC handlers, menuconfig and the other command-line tools: either repetitions of what is modelled or plumbing around calls whose bodies are elsewhere.
