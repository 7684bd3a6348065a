# A verified model of the workflow automation engine

The engine keeps a fleet of registered clients, triggers workflows on them, collects their results,
bans clients that loop, and switches off workflow types that fail too often. This project models
three parts of its Go backend in Dafny and proves what they promise. Code that changes state step
by step is a class or a loop proved against a function of values; the results are lemmas about
those functions, over every input, every run or every reachable state.

**The filter language.** `FilterLexer` is the tokenizer, `FilterParser` the recursive-descent
parser with its position advanced in place, `FilterText` the whole of `ParseFilter`, `FilterEval`
the short-circuiting evaluator with its errors. `FilterGrammar` gives the language independently, as
derivation trees; `FilterReader` shows that the parser finds exactly the derivation of its input.
The accepted texts are characterised exactly (`FilterText.ParsesExactly`), and so are the trees that
some text denotes (`FilterPrinter.ExpressibleExactly`). `FilterWriter` writes trees as plain text that is parsed back
(`FilterWriter.WrittenIsParsed`), and says of each operator text which clients it selects.
`FilterFields` says what field paths and comparisons mean independently of the evaluator's code;
`FilterLaws` says which boolean laws hold with errors included, and exactly when the broken ones do.

**The server.** `Clients`, `Workflows`, `Runs`, `Results`, `Bans`, `BanService`, `LoopDetection`,
`Grouping`, `Dispatching`, `Cascade`, `Orchestration`, `Cron`, `RunHealth`, `TypeHealth`,
`HealthStore`, `CircuitBreaker` and `HealthService` model the tables and the services over them.
`CascadeOrder` and `CascadeRuns` prove what the recursion of triggers and completion events leaves
behind, and `TriggerEffects` reads it off the rows and messages field by field; `HealthPipeline` that the incremental health and breaker state equals a recomputation from
the whole history; `BreakerRuns` what any run of the breaker shows. `ServerRuns`, over the event log
of `DispatchLog`, puts everything into one state machine, and `ResultDispatch` shows that the three
result handlers, one after the other, make its step for a result. Over all its runs `ServerSafety`
proves dispatch safety and breaker alternation, and `ServerHealth` the equality with a
recomputation; `EarlyCompletion` gives a run of it that completes a workflow run too early.
`Tables`, `Sequences`, `Chars` and `Wrappers` hold what several modules share.

**The simulated fleet.** `Outbox` is the result collector with an arbitrarily failing broker,
`Activities` and `ClientPool` the client step with arbitrary chaos.

Conventions. Time is an integer; the zero time is 0. Percentages are reals. Tables are sequences in
insertion order, or maps. A run id is drawn from a supply `mint` of distinct non-empty strings, and
a new workflow id is one that nobody stores and nobody names. Library behaviour that is not modelled
(`strconv.ParseFloat`, the `int64` to `float64` conversion, `%v`) is the `Runtime` parameter, and
every result holds for all of it. A broker is a `Net` or `Faults` that may refuse anything.

Where the repository's own documentation and its code disagree, the model follows the code:

- Circuits are only ever closed or open. The half-open state and the cooldown described for the
  breaker are never entered by `EvaluateWorkflowType`.
- Loop detection compares the times at which runs were triggered, not the times at which results
  arrived.
- An on-complete link names the id of a workflow, not a workflow type.
- A trend counts as improving or degrading only past a margin of one percentage point, and with an
  odd number of runs the middle one is in neither half.
- The ban count behind a run's health looks at bans of exactly the run's type; a ban from all types
  is not counted there although it stops dispatches.
- `runs_clients`, which loop detection queries, lists every targeted client, banned ones included.
- When the broker refuses a message, the run stays pending with all its targets, messages already
  taken are on their way, and no completion event is published.
- A condition on an unknown field is false for every operator, `!=` and `NOT_IN` included.
- Every result overwrites the row of its client: active, on ubuntu, with the reported state and no
  labels. A filter on labels stops selecting a client with its first result.
- The bans table can hold an expiry, which every reader honours but the cache; no code of the server
  sets one, so only a row written by other hands can expire.

## Model

| member | source | states |
|---|---|---|
| `FilterLexer.Tokenize` | internal/core/domain/filter_parser.go:30-102 | the loop over the text returns exactly the token list `Lex` defines, or the invalid-filter error |
| `FilterLexer.ReadLexeme` | internal/core/domain/filter_parser.go:36-98 | one turn of the switch reads exactly the blank, lexeme or error that stands at the position |
| `FilterLexer.LexReadsPieces` | internal/core/domain/filter_parser.go:30-102 | a text cut into white space and words that do not run into each other tokenizes to exactly those words and one end token |
| `FilterLexer.LexCutsText` | internal/core/domain/filter_parser.go:30-102 | every accepted text can be cut that way |
| `FilterLexer.LexExactly` | internal/core/domain/filter_parser.go:30-102 | a text has a token list if and only if it is such a cut text of these tokens |
| `Chars.Alphabets` | internal/core/domain/filter_parser.go:36-94 | the classes of characters as alphabets: digits, white space, words with underscore and dot, operators, quotes |
| `Chars.Cases` | internal/core/domain/filter_parser.go:79-94 | a letter of either case is upper- and lower-cased to its place in the alphabets |
| `FilterText.LexIsClosed` | internal/core/domain/filter_parser.go:100-115 | the token list ends in its only end token, which is what keeps every unchecked read of the parser in bounds |
| `FilterText.LexTrimmed` | internal/core/domain/filter_parser.go:118-121 | trimming changes neither tokens nor error, and a text trims to nothing exactly when it has no tokens |
| `FilterParser.Parser.Peek` | internal/core/domain/filter_parser.go:110 | the unchecked read is in bounds and sees the head of the remaining tokens |
| `FilterParser.Parser.Advance` | internal/core/domain/filter_parser.go:111-115 | the unchecked read is in bounds, and leaves the parser in bounds unless it took the end token |
| `FilterParser.Parser.ParseOr` | internal/core/domain/filter_parser.go:137-151 | on every token list, the tree or error of the disjunction the grammar reader finds, and the position after it |
| `FilterParser.Parser.ParseAnd` | internal/core/domain/filter_parser.go:153-167 | the same for conjunctions, left-associated |
| `FilterParser.Parser.ParseNot` | internal/core/domain/filter_parser.go:169-179 | the same for negations, which bind tighter than AND |
| `FilterParser.Parser.ParsePrimary` | internal/core/domain/filter_parser.go:181-196 | the same for parenthesised expressions and conditions |
| `FilterParser.Parser.ParseCondition` | internal/core/domain/filter_parser.go:198-216 | the same for conditions: identifier, known operator, value |
| `FilterParser.Parser.ParseValue` | internal/core/domain/filter_parser.go:226-276 | the same for values, although it may consume the end token before failing |
| `FilterParser.Parser.ParseList` | internal/core/domain/filter_parser.go:252-273 | the list loop collects exactly the items up to the closing bracket, in order, nested lists included |
| `FilterReader.WholeInput` | internal/core/domain/filter_parser.go:117-276 | soundness and completeness: a whole token list is read as a derivation if and only if that derivation is legal and yields the list |
| `FilterReader.DerivationIsUnique` | internal/core/domain/filter_parser.go:137-276 | the grammar is unambiguous: one token list, one derivation, so one tree |
| `FilterReader.DisjReadBack` | internal/core/domain/filter_parser.go:137-151 | given the tokens of a disjunction and any continuation, the OR loop is reached with that very derivation |
| `FilterGrammar.DisjTreeWellFormed` | internal/core/domain/filter_parser.go:137-216 | every tree the grammar denotes has only complete conditions with known operators, ANDs, ORs and NOTs |
| `FilterText.ParseFilter` | internal/core/domain/filter_parser.go:117-135 | trim, tokenize, parse and the trailing-token check together compute `Parse` |
| `FilterText.ParsesExactly` | internal/core/domain/filter_parser.go:117-276 | a text parses to a tree if and only if it is blank and the tree is nil, or it writes a legal derivation of that tree with any spacing, quoting and parentheses |
| `FilterText.ParsedIsWellFormed` | internal/core/domain/filter_parser.go:117-216 | every parsed tree is nil or well-formed |
| `FilterPrinter.IntText` | internal/core/domain/filter_parser.go:239-243 | the decimal text of any int64 is a number token that is parsed back to it |
| `FilterGrammar.DigitsByPlace` | internal/core/domain/filter_parser.go:239-243 | digits count by their place, ten times for each digit after them |
| `FilterGrammar.DigitAlone` | internal/core/domain/filter_parser.go:239-243 | a single digit counts as its position among the ten |
| `FilterGrammar.DigitsParse` | internal/core/domain/filter_parser.go:239-243 | digits with or without a minus are an integer up to the bounds of 64 bits, and a syntax error beyond |
| `FilterPrinter.FieldSpelled` | internal/core/domain/filter_parser.go:79-94 | the identifiers some text spells are exactly the words that are not keywords, TRUE and FALSE lower-cased |
| `FilterPrinter.StringSpelled` | internal/core/domain/filter_parser.go:53-65 | the string values some text spells are exactly those without one of the two quotes |
| `FilterPrinter.RoundTrip` | internal/core/domain/filter_parser.go:30-276 | print a tree with precedence-driven parentheses, cut the tokens apart in any way: it parses back to that tree; and there is such a text |
| `FilterPrinter.ExpressibleExactly` | internal/core/domain/filter_parser.go:30-276 | a tree is the meaning of some text if and only if it is nil or printable |
| `FilterWriter.WrittenIsParsed` | internal/core/domain/filter_parser.go:30-276 | the plain text of a printable tree, written out with blanks, quotes, commas, brackets, the keywords and only the parentheses that precedence needs, is parsed back to the tree |
| `FilterWriter.EqualityTexts` | internal/core/domain/filter_parser.go:198-224 | `==` and `!=` between a field and a value are equality and inequality |
| `FilterWriter.OrderingTexts` | internal/core/domain/filter_parser.go:198-224 | `<`, `>`, `<=` and `>=` between a field and a value are the four orderings |
| `FilterWriter.ListTexts` | internal/core/domain/filter_parser.go:198-224 | `IN` and `NOT_IN` are the two memberships |
| `FilterWriter.ContainsText` | internal/core/domain/filter_parser.go:198-224 | `CONTAINS` is containment |
| `FilterWriter.NotContainsText` | internal/core/domain/filter_parser.go:198-224 | `NOT_CONTAINS` is its opposite |
| `FilterWriter.ComparisonTextsMean` | internal/core/domain/filter.go:91-149 | from text to clients: each of the six comparison texts selects exactly the clients whose number stands in that relation to the written one, as reals |
| `FilterWriter.MembershipTextsMean` | internal/core/domain/filter.go:151-170 | from text to clients: `IN [..]` selects exactly those whose value equals a written item, `NOT_IN` exactly the others |
| `FilterWriter.SubstringTextsMean` | internal/core/domain/filter.go:172-187 | from text to clients: `CONTAINS` selects exactly those whose text has the written one anywhere in it, `NOT_CONTAINS` exactly the others |
| `FilterWriter.LabelText` | internal/core/domain/client.go:29-37 | from text to clients: `labels.x == .. ` selects exactly those that carry that label with that text |
| `FilterWriter.UnknownOperatorFails` | internal/core/domain/filter_parser.go:203-210 | after a field, any token but the ten operators makes the filter invalid, whatever follows it |
| `FilterWriter.SingleEqualsFails` | internal/core/domain/filter_parser.go:203-210 | so does a single `=` |
| `FilterWriter.ParseFailsAs` | internal/core/domain/filter_parser.go:117-276 | a text that does not parse is an invalid filter, or a syntax error for one of its numbers; there is no third way |
| `FilterWriter.StrayCharacterFails` | internal/core/domain/filter_parser.go:95-98 | so does a character that begins nothing, and a minus without a digit |
| `FilterWriter.OpenQuoteFails` | internal/core/domain/filter_parser.go:53-65 | so does a quote that is never closed |
| `FilterWriter.BareWords` | internal/core/domain/filter_parser.go:244-251 | a bare word is a text, TRUE and FALSE in any case are booleans |
| `FilterWriter.QuotedText` | internal/core/domain/filter_parser.go:228-229 | a text in either kind of quotes is that text |
| `FilterWriter.NumberTexts` | internal/core/domain/filter_parser.go:230-243 | a number with a point is a float, another an integer, and one that does not parse a syntax error |
| `FilterEval.SplitDots` | internal/core/domain/client.go:17-21 | a path always has at least one part, so the empty-path error is unreachable |
| `FilterFields.SplitJoin` | internal/core/domain/client.go:17-21 | a path of parts without dots is split into exactly those parts |
| `FilterFields.JoinSplit` | internal/core/domain/client.go:17-21 | splitting loses nothing: joining the parts gives the path back |
| `FilterFields.NavigateIsDescend` | internal/core/domain/client.go:47-63 | navigating nested maps is following the keys one map at a time |
| `FilterFields.StatePath` | internal/core/domain/client.go:38-42 | a path into the state finds exactly the value its keys lead to, under either root name, or is unknown |
| `FilterFields.LabelPath` | internal/core/domain/client.go:29-37 | a label is found under its name up to the first dot, so a label with a dot in its name is out of reach |
| `FilterFields.PlainPath` | internal/core/domain/client.go:22-45 | the plain fields ignore what follows them in a path, bare `labels` is the map of labels, and any other root is unknown |
| `FilterFields.NumbersAreOrdered` | internal/core/domain/filter.go:119-149 | exactly one of less, equal and greater holds between numbers unless one is NaN; the weak orderings are their unions; finite numbers compare as reals, between the infinities |
| `FilterFields.IntegersCompare` | internal/core/domain/filter.go:119-149 | integers compare as integers where their conversion is exact |
| `FilterFields.BooleansCompare` | internal/core/domain/filter.go:189-222 | booleans count as one and zero |
| `FilterFields.TextsCompare` | internal/core/domain/filter.go:119-149 | two texts that parse as numbers compare as numbers; otherwise they are equal when they are the same and cannot be ordered |
| `FilterFields.CollectionsHaveNoOrder` | internal/core/domain/filter.go:132-149 | lists and maps cannot be ordered |
| `FilterFields.NullEqualsNull` | internal/core/domain/filter.go:119-149 | null equals only null and cannot be ordered |
| `FilterFields.EqualityDecides` | internal/core/domain/filter.go:91-97 | equality and inequality are opposites and never fail |
| `FilterFields.UnknownNeverMatches` | internal/core/domain/filter.go:81-89 | a condition on an unknown field is false with every operator |
| `FilterFields.MalformedFails` | internal/core/domain/filter.go:45-117 | an operator beyond the ten is an invalid operator, and a node without condition and connective an invalid filter |
| `FilterFields.OthersCompareAsText` | internal/core/domain/filter.go:119-137 | where one side is no number, orderings fail with a type mismatch and equality is that of the printed texts |
| `FilterFields.InMeans` | internal/core/domain/filter.go:151-170 | IN asks a list for an equal element, a list of texts for the printed value, and is a mismatch on anything else; NOT_IN is the opposite with the same error |
| `FilterFields.ContainsMeans` | internal/core/domain/filter.go:172-187 | CONTAINS asks a text for the other anywhere in it, a list for an equal element, and is a mismatch on anything else; NOT_CONTAINS is the opposite with the same error |
| `FilterLaws.PushNotPreserves` | internal/core/domain/filter.go:45-79 | De Morgan and double negation over whole trees keep value and error |
| `FilterLaws.NestRightPreserves` | internal/core/domain/filter.go:45-79 | re-associating every chain of ANDs or ORs keeps value and error |
| `FilterLaws.LeftDistribution` | internal/core/domain/filter.go:59-77 | distributing an operand on the left keeps value and error |
| `FilterLaws.RightDistributionExactly` | internal/core/domain/filter.go:59-77 | on the right AND distributes over OR if and only if no error is uncovered that a decided first operand used to hide |
| `FilterLaws.RightDistributionOfOrExactly` | internal/core/domain/filter.go:59-77 | the dual law for OR over AND, with the dual condition |
| `FilterLaws.AndCommutesExactly` | internal/core/domain/filter.go:59-67 | when AND commutes with errors and short-circuiting, as a condition on the two outcomes |
| `FilterLaws.OrCommutesExactly` | internal/core/domain/filter.go:69-77 | the same for OR |
| `FilterLaws.ComplementExactly` | internal/core/domain/filter.go:81-149 | NOT of a condition equals the opposite operator if and only if the field is known and no NaN is ordered |
| `FilterLaws.BrokenLaws` | internal/core/domain/filter.go:45-89 | filters that some text denotes and that break commutativity and right distribution, for every client |
| `FilterLaws.BrokenComplement` | internal/core/domain/filter.go:81-89 | on a field that no client has, NOT of `==` holds and `!=` does not |
| `FilterLaws.InIsAnyEqual` | internal/core/domain/filter.go:151-170 | IN over a non-empty list is the OR of equalities, for unknown fields too |
| `FilterLaws.NotInIsAllDifferent` | internal/core/domain/filter.go:101-106 | NOT_IN over a non-empty list is the AND of inequalities, for unknown fields too |
| `FilterLaws.FailsOnlyByType` | internal/core/domain/filter.go:45-117 | a well-formed tree fails on a client only with a type mismatch |
| `FilterLaws.ParsedFailsOnlyByType` | internal/core/domain/filter.go:45-117 | so does every tree that came from text: never invalid-filter or invalid-operator |
| `FilterLaws.EqualityNeverFails` | internal/core/domain/filter.go:91-106 | filters of equalities and memberships in list literals never fail |
| `FilterLaws.EqualityIsBoolean` | internal/core/domain/filter.go:45-106 | so they commute and distribute on both sides |
| `Grouping.ResolveClients` | internal/core/services/dynamic_grouping.go:18-42 | the matching ids in fleet order, the counts, or the first error |
| `Grouping.SelectsExactly` | internal/core/services/dynamic_grouping.go:28-40 | it succeeds exactly when no active client fails, and then selects exactly the active clients that match |
| `Grouping.SelectsInOrder` | internal/core/services/dynamic_grouping.go:28-40 | the selection keeps the order of the fleet |
| `Grouping.SelectionFailsFirst` | internal/core/services/dynamic_grouping.go:28-40 | its error is that of the first active client whose evaluation fails |
| `Grouping.SelectsDistinct` | internal/core/services/dynamic_grouping.go:28-40 | no id is selected twice |
| `Grouping.BlankFilterSelectsActive` | internal/core/services/workflow_orchestration.go:150-166 | a blank filter selects what the shortcut for no filter selects |
| `Bans.BansAreNeverMissed` | internal/core/services/ban_enforcement.go:33-96 | over all runs with failing databases, restarts, expiring and foreign rows, no active ban is missed and whoever is blocked has a row that nobody lifted |
| `Bans.CacheAgreesWithTable` | internal/core/services/ban_enforcement.go:33-96 | over all runs with the bans the service itself makes, cache alone, table alone and the combined check agree at every instant |
| `Bans.WarmedExactly` | internal/core/services/ban_enforcement.go:33-96 | for all rows, expiring and foreign ones included: after any history, a restart, and any bans, unbans and foreign rows since, a client is blocked if and only if the table blocks it now or an unlifted row that was loaded blocked it then; so check and table agree if and only if the table still blocks what it blocked then |
| `Bans.CacheAnswersAsOfWarmUp` | internal/adapters/enforcement/blocker.go:20-54 | without foreign rows since, the cache alone answers as the table did at the warm-up, and cache, table and check agree if and only if the table still blocks what it blocked then |
| `Bans.ExpiredBanLingers` | internal/adapters/enforcement/blocker.go:20-46 | every foreign row that was loaded before its expiry goes on blocking after it, at every later instant |
| `Bans.WarmHolds` | internal/core/services/ban_enforcement.go:82-96 | a warmed cache holds exactly the pairs with a row active at that instant |
| `BanService.BanRepo.SaveBan` | internal/adapters/repository/ban_repo.go:15-33 | appends the row, or reports the database error and changes nothing |
| `BanService.BanRepo.GetActiveBans` | internal/adapters/repository/ban_repo.go:44-52 | the unexpired active rows of the client, each as often and in the order stored |
| `BanService.BanRepo.GetActiveBansByWorkflowType` | internal/adapters/repository/ban_repo.go:54-62 | the unexpired active rows of exactly this type, each as often and in the order stored |
| `BanService.MatchingHolds` | internal/adapters/repository/ban_repo.go:44-62 | the listed rows are exactly the stored ones of that kind |
| `BanService.BanRepo.UnbanClient` | internal/adapters/repository/ban_repo.go:64-74 | clears every active flag of the pair; not-found exactly when there was none |
| `BanService.DispatchBlocker.ShouldBlockDispatch` | internal/adapters/enforcement/blocker.go:20-34 | blocked for the type or for all types |
| `BanService.DispatchBlocker.Add` | internal/adapters/enforcement/blocker.go:36-46 | an active ban enters the cache, any other is ignored |
| `BanService.DispatchBlocker.Remove` | internal/adapters/enforcement/blocker.go:48-54 | exactly this client leaves exactly this type |
| `BanService.BanEnforcement.BanClient` | internal/core/services/ban_enforcement.go:33-51 | table and cache make one `Ban` step together, or neither changes |
| `BanService.BanEnforcement.UnbanClient` | internal/core/services/ban_enforcement.go:53-69 | table and cache make one `Unban` step; it succeeds exactly when there was an active flag |
| `BanService.ListedBansDecide` | internal/core/services/ban_enforcement.go:71-80 | asking the listed bans of a client is asking the whole table |
| `BanService.BanEnforcement.IsBanned` | internal/core/services/ban_enforcement.go:71-80 | true if and only if the cache blocks or the table holds an active ban of the type or of all types |
| `BanService.BanEnforcement.WarmCache` | internal/core/services/ban_enforcement.go:82-96 | after a restart the cache is the warmed one |
| `Results.ResultRepo.SaveResult` | internal/adapters/repository/result_repo.go:16-40 | the first result of a client for a run stays |
| `Results.ResultRepo.GetRunResults` | internal/adapters/repository/result_repo.go:47-54 | the results of the run, in order |
| `Results.OfRunHolds` | internal/adapters/repository/result_repo.go:47-54 | these are exactly the rows of the run, in stored order |
| `Results.FirstResultStays` | internal/adapters/repository/result_repo.go:16-40 | over any saves the table holds exactly the first result of each client for each run, in order |
| `Runs.RunRepo.CreateRun` | internal/adapters/repository/run_repo.go:17-39 | run row and client rows are written together, or the transaction leaves nothing when a key repeats |
| `Runs.RefusedExactly` | internal/adapters/repository/run_repo.go:17-39 | a creation is refused exactly when a run key, or a pair of run and client, would stand twice |
| `Runs.RunRepo.GetRun` | internal/adapters/repository/run_repo.go:41-44 | the row of the id, or not-found |
| `Runs.RunRepo.UpdateRun` | internal/adapters/repository/run_repo.go:46-58 | the row is replaced where it stands; the client rows stay as created |
| `Runs.RunRepo.GetPreviousRun` | internal/adapters/repository/run_repo.go:99-108 | a latest other run of the type that lists the client and is not later; not-found exactly when there is none |
| `LoopDetection.LoopThreshold` | internal/core/domain/workflow.go:73-78 | the threshold is always positive, so the service's own default is never used; see `ConvictsExactly` for its value |
| `LoopDetection.LoopDetectionService.HandleResult` | internal/core/services/loop_detection.go:45-91 | the client is banned, with these two alerts, if and only if some other run of the type listing it was triggered within the threshold before the current one |
| `LoopDetection.ConvictsExactly` | internal/core/services/loop_detection.go:45-91 | from the rows alone: a well-formed result of a stored workflow and run convicts exactly when another run of the type that lists the client was triggered no later, and earlier by at most the workflow's milliseconds, or five seconds when it sets none |
| `LoopDetection.LoopBanIs` | internal/core/services/loop_detection.go:78-90 | the ban is of this client, from this workflow's type, for good, with run and payload as evidence |
| `LoopDetection.SpacedRunsAreNeverBanned` | internal/core/services/loop_detection.go:45-91 | a history spaced wider than the threshold never bans anyone |
| `Dispatching.DispatchFilter.FilterDispatchList` | internal/core/services/dispatch_filter.go:22-40 | the admitted and the withheld ids, in order |
| `Dispatching.FilterSplits` | internal/core/services/dispatch_filter.go:22-40 | the two lists are the input split by being banned: order kept on both sides, nothing lost or doubled |
| `Dispatching.ReachedIs` | internal/core/services/dispatch_coordination.go:57-66 | the messages taken are those before the first failure of the broker |
| `Dispatching.DispatchCoordination.SendDispatches` | internal/core/services/dispatch_coordination.go:49-73 | the broker's log gains exactly the cleared clients in order up to the first failure; the run row changes exactly on success |
| `TriggerEffects.RowAndMessages` | internal/core/services/dispatch_coordination.go:49-73 | field by field: a delivered run is in progress since now, and its participants are exactly the clients aimed at and not banned, in fleet order, which are those its messages go to; an undelivered one is pending with all targets, and sent to exactly those before the first refusal; every message carries the run, the workflow and its activity |
| `Workflows.LinksStayAcyclic` | internal/core/services/workflow_orchestration.go:40-130 | no run of creations, edits, activations and deletions makes an on-complete link that does not point back in creation order |
| `Workflows.TriggerIsImmutable` | internal/core/services/workflow_orchestration.go:79-130 | every row after a step is the created one or keeps its id, trigger, type and activity |
| `Workflows.CreatedExactly` | internal/core/services/workflow_orchestration.go:40-77 | which creations are accepted, with what error the others are refused, and every field of the new row with its default |
| `Workflows.EditedExactly` | internal/core/services/workflow_orchestration.go:79-118 | which edits are accepted, with what error the others are refused, and that exactly the fields asked for change |
| `Workflows.ChangesHold` | internal/adapters/repository/workflow_repo.go:17-71 | the table after each change, row by row |
| `Workflows.WorkflowRepo.SaveWorkflow` | internal/adapters/repository/workflow_repo.go:17-30 | upsert: a known id keeps its place, a new one is the youngest |
| `Workflows.WorkflowRepo.GetWorkflow` | internal/adapters/repository/workflow_repo.go:32-35 | the row of the id, or not-found |
| `Workflows.WorkflowRepo.ListActiveWorkflows` | internal/adapters/repository/workflow_repo.go:41-43 | the active rows, youngest first |
| `Workflows.ActiveListed` | internal/adapters/repository/workflow_repo.go:41-43 | these are exactly the active rows, in the order of all rows youngest first |
| `Workflows.WorkflowRepo.ListAllWorkflows` | internal/adapters/repository/workflow_repo.go:37-39 | all rows, youngest first |
| `Workflows.WorkflowRepo.ListWorkflowsByType` | internal/adapters/repository/workflow_repo.go:45-47 | the rows of the type |
| `Workflows.WorkflowRepo.UpdateWorkflowState` | internal/adapters/repository/workflow_repo.go:49-59 | only the active flag of that row changes |
| `Workflows.WorkflowRepo.DeleteWorkflow` | internal/adapters/repository/workflow_repo.go:61-71 | that row is removed, order kept |
| `Cascade.OneParent` | internal/core/services/trigger_coordination.go:118-124 | a workflow waits for at most one other, an earlier one |
| `Cascade.SubtreesAreDisjoint` | internal/core/services/trigger_coordination.go:109-128 | the cascades of two workflows waiting for the same one never meet |
| `CascadeOrder.OrderListsStarted` | internal/core/services/trigger_coordination.go:102-128 | the cascade's order lists each workflow exactly once, and exactly those reached by links whose predecessors all start and deliver |
| `CascadeOrder.OrderIsWellOrdered` | internal/core/services/trigger_coordination.go:109-128 | whoever waits comes after whom it waits for, and of two that wait for the same the younger comes first |
| `CascadeRuns.AloneOutcome` | internal/core/services/workflow_orchestration.go:141-182 | one trigger changes nothing, or adds exactly one run and its messages; no run is refused for its keys |
| `CascadeRuns.TriggerIsReplay` | internal/core/services/trigger_coordination.go:102-128 | the recursion through the event bus equals triggering the workflows of its order one after another |
| `CascadeRuns.CascadeRunsEachOnce` | internal/core/services/trigger_coordination.go:102-128 | a trigger adds one run for each reached workflow, no second one, none for others, and changes no earlier run; a failure cuts off only its own subtree |
| `CascadeRuns.CascadeSendsExactly` | internal/core/services/workflow_orchestration.go:149-182 | the messages of a cascade are exactly those of its workflows in order; a successful trigger sends to all its targets that are not banned |
| `CascadeRuns.CascadeSendsToNobodyBanned` | internal/core/services/dispatch_coordination.go:49-73 | no message of a cascade goes to a client banned from its type |
| `TriggerEffects.AloneEffects` | internal/core/services/workflow_orchestration.go:141-182 | one trigger, from the fields: what an inactive workflow and a failing filter answer, and otherwise the row, its messages, the clients listed for loop detection and the error |
| `TriggerEffects.CascadeEffects` | internal/core/services/trigger_coordination.go:102-128 | a cascade, from the fields: a run for each workflow that can run and is the triggered one or waits, on completion, for the workflow of a delivered run; none twice; numbered, dated, with the reason, in order; and the messages run by run |
| `TriggerEffects.ParticipantsAreSentTo` | internal/core/services/dispatch_coordination.go:49-73 | every message belongs to one of the runs, and the participants of a delivered run are exactly the clients sent a message for it |
| `CascadeRuns.CascadeExtends` | internal/core/services/workflow_orchestration.go:168-182 | a cascade only adds runs: earlier ones keep key and type, new ones get new keys |
| `Clients.ClientRepo.SaveClient` | internal/adapters/repository/client_repo.go:18-30 | upsert by client id |
| `Clients.RegisteredHolds` | internal/adapters/repository/client_repo.go:18-30 | the row is the only one of its id, and the other rows keep their places |
| `Clients.ClientRegistrationService.HandleResult` | internal/core/services/client_registration.go:28-51 | a result overwrites the row of its client |
| `Clients.ResultErasesLabels` | internal/core/services/client_registration.go:28-51 | after it the client is active, on ubuntu, without labels, so that every condition on a label is false for it, and a path into its state leads into the reported one; other clients keep their rows |
| `Orchestration.Orchestrator.CreateWorkflow` | internal/core/services/workflow_orchestration.go:40-77 | validation, defaults and save make one `Create` step, and links stay ranked |
| `Orchestration.Orchestrator.EditWorkflow` | internal/core/services/workflow_orchestration.go:79-118 | the edit makes one `Edit` step and answers the edited row, or the first reason against it: no change asked for, unknown id, invalid definition |
| `Orchestration.Orchestrator.SelectTargets` | internal/core/services/workflow_orchestration.go:149-166 | all active clients without a filter, else those the filter selects, or its error |
| `Orchestration.Orchestrator.TriggerWorkflow` | internal/core/services/workflow_orchestration.go:141-193 | terminates, and leaves tables, broker log and error as `Trigger` computes them for the whole cascade; see `CascadeEffects` for what that is |
| `Orchestration.Orchestrator.Launch` | internal/core/services/workflow_orchestration.go:168-182 | the run is created and dispatched as `TriggerAlone` says, with its error |
| `Orchestration.Orchestrator.Publish` | internal/adapters/messaging/event_bus.go:35-46 | the subscriber of completions has run before the publisher goes on |
| `Orchestration.Orchestrator.OnWorkflowCompleted` | internal/core/services/trigger_coordination.go:109-128 | every active workflow waiting for the completed one is triggered, youngest first |
| `Orchestration.Orchestrator.FireIfWaiting` | internal/core/services/trigger_coordination.go:119-125 | one turn of that loop |
| `Orchestration.Orchestrator.Fire` | internal/core/services/trigger_coordination.go:102-107 | the cascade of the workflow, its error dropped |
| `Orchestration.Orchestrator.Evaluate` | internal/core/services/trigger_coordination.go:80-100 | one tick triggers exactly the active workflows whose schedule passed an instant since they last fired, each once, youngest first |
| `Orchestration.IsDue` | internal/core/services/trigger_coordination.go:87-97 | whether the tick fires a workflow, and the record it leaves |
| `Cron.NextTellsPassed` | internal/adapters/trigger/cron_evaluator.go:38-48 | an instant of the schedule passed if and only if the remembered next one is not in the future |
| `Cron.CronEvaluator.ShouldFire` | internal/adapters/trigger/cron_evaluator.go:28-49 | fires if and only if an instant passed since the last firing or the first look; the first look never fires |
| `Cron.CronEvaluator.Decide` | internal/adapters/trigger/cron_evaluator.go:36-49 | the part under the lock: due if and only if an instant passed, and the record it leaves |
| `RunHealth.CalculateRunHealth` | internal/core/domain/health.go:109-145 | the counts are those of clients by first answer; completed counts are the number of responders |
| `RunHealth.RowCounts` | internal/core/domain/health.go:109-145 | success, fail and error are the numbers of clients whose first answer is of that kind, and pending is what is left of the others |
| `RunHealth.CountOutcomes` | internal/core/domain/health.go:128-138 | the range loop, in any order, counts the clients of each outcome |
| `RunHealth.OutcomesPartition` | internal/core/domain/health.go:128-138 | success, fail and error partition the responders |
| `RunHealth.PendingExactly` | internal/core/domain/health.go:138-143 | the pending count never exceeds the eligible clients that have not answered, and equals their number if and only if nobody is waited for or no answer came from an ineligible client |
| `RunHealth.AllAnsweredIsComplete` | internal/core/domain/health.go:138-143 | when all eligible participants have answered, nothing is pending |
| `RunHealth.BannedResponderHidesOne` | internal/core/services/health_monitoring.go:80-112 | an answer of a banned participant takes one off the pending count, until none is left, although nobody due has answered |
| `RunHealth.PercentagesFit` | internal/core/domain/health.go:26-60 | percentages are not negative, and sum to at most 100 if and only if the completed count fits the effective one |
| `TypeHealth.AggregateWorkflowHealth` | internal/core/domain/health.go:147-173 | the cut and the summing loop compute the averages and trend of the last window |
| `TypeHealth.AveragesAre` | internal/core/domain/health.go:147-173 | from the counts: each average is the mean over the last window of that outcome in percent of the clients that are not banned |
| `TypeHealth.AllSucceeded` | internal/core/domain/health.go:147-173 | when every client that is not banned succeeded in every row of the window, success is 100 and the others are 0 |
| `TypeHealth.AllFailed` | internal/core/domain/health.go:147-173 | the same for failures |
| `TypeHealth.AllErrored` | internal/core/domain/health.go:147-173 | the same for errors |
| `TypeHealth.HealthBelow` | internal/core/domain/health.go:147-173 | the success average is below a limit exactly when the window's percentages sum to less than the limit for each row |
| `TypeHealth.CalculateTrend` | internal/core/domain/health.go:175-201 | the two summing loops compute the trend of the halves |
| `TypeHealth.TrendIs` | internal/core/domain/health.go:175-201 | from the counts: improving exactly when the newer half sums to more than one point per row above the older half, degrading exactly when to as much below |
| `TypeHealth.RecoveryImproves` | internal/core/domain/health.go:175-201 | an older half that fails and a newer half that succeeds are improving, and degrading the other way round |
| `TypeHealth.AveragesFit` | internal/core/domain/health.go:147-173 | averages lie in 0 to 100 and sum to at most 100 when the window's rows fit |
| `TypeHealth.ReversedTrend` | internal/core/domain/health.go:175-201 | reading the history backwards swaps improving and degrading |
| `TypeHealth.MonotoneTrend` | internal/core/domain/health.go:175-201 | a history that never gets worse is never degrading, one that never gets better never improving |
| `HealthStore.HealthRepo.SaveRunHealth` | internal/adapters/repository/health_repo.go:16-26 | upsert by run id, in place |
| `HealthStore.HealthRepo.ListRunHealths` | internal/adapters/repository/health_repo.go:33-55 | the newest rows of the type up to the limit, oldest first |
| `HealthStore.LimitIs` | internal/adapters/repository/health_repo.go:33-37 | a limit that is not positive means one hundred |
| `HealthStore.HealthRepo.SaveWorkflowTypeHealth` | internal/adapters/repository/health_repo.go:57-67 | upsert by type |
| `HealthStore.HealthRepo.GetWorkflowTypeHealth` | internal/adapters/repository/health_repo.go:69-82 | the stored health of the type, or not-found |
| `HealthStore.ReverseInPlace` | internal/adapters/repository/health_repo.go:51-53 | the two-index swap loop reverses the array |
| `HealthStore.NewestFirstIsHistory` | internal/adapters/repository/health_repo.go:33-37 | sorting rows that were overwritten in place recovers the chronological history of a type, backwards |
| `HealthStore.WindowOfHistory` | internal/adapters/repository/health_repo.go:33-55 | limiting newest first, reversing and cutting again is taking the last window of the whole history |
| `HealthStore.SaveIsRecorded` | internal/adapters/repository/health_repo.go:16-26 | a save at a later instant keeps table and history in step |
| `CircuitBreaker.EvaluateAllKeepsRows` | internal/core/services/circuit_breaker.go:67-129 | an evaluation changes nothing of a workflow but its active flag |
| `CircuitBreaker.EvaluateAllDecides` | internal/core/services/circuit_breaker.go:67-129 | the loop decides exactly the circuits of the listed workflows |
| `CircuitBreaker.PassDecides` | internal/core/services/circuit_breaker.go:55-131 | a pass decides every circuit of its type on the given health and touches no other |
| `CircuitBreaker.PassOpensExactly` | internal/core/services/circuit_breaker.go:55-131 | after a pass a workflow is open exactly when there are runs and their success average is below its own threshold, or below the default when it has none of its own |
| `CircuitBreaker.PassTurns` | internal/core/services/circuit_breaker.go:67-129 | a pass counts one evaluation for every workflow of its type, and dates exactly the circuits it opens |
| `CircuitBreaker.EvaluateOneTurns` | internal/core/services/circuit_breaker.go:89-128 | a circuit that opens or closes switches its workflow and raises the alert; one that does neither leaves both alone |
| `CircuitBreaker.OpenIsUpwardClosed` | internal/core/domain/circuit.go:78-89 | after a pass, whoever demands at least as much as an open workflow of the type is open too |
| `BreakerRuns.BreakerTraces` | internal/core/services/circuit_breaker.go:67-129 | over all runs: alerts alternate, opened minus closed is one exactly while open, the opening time is set exactly while open, half-open is never reached |
| `BreakerRuns.PhaseAlternates` | internal/core/services/circuit_breaker.go:89-113 | between two circuit alerts of one kind about a workflow there is one of the other kind, and the first is an opening |
| `BreakerRuns.ActiveExactlyWhenClosed` | internal/core/services/workflow_state_manager.go:17-23 | while nobody switches workflows by hand, a workflow is active exactly while its circuit is closed |
| `HealthPipeline.IncrementalEqualsRecomputed` | internal/core/services/health_monitoring.go:71-132 | after any results under any bans, periodic jobs and new runs, every stored type health and every circuit equals one recomputation over the last window of the type's history |
| `ServerHealth.HealthIsRecomputed` | internal/core/services/health_monitoring.go:71-132 | the same over every run of the whole server with a later clock at each result, definitions at any moment included: type health always, and the circuit of every workflow that does not wait for a pass since it was created or given a threshold |
| `ServerHealth.OpenExactly` | internal/core/services/circuit_breaker.go:55-131 | over every such run: a workflow that does not wait is open exactly when the last window of its type has rows and their success percentages sum to less than its own threshold for each, or the default for each when it has none |
| `ServerHealth.StepKeepsHealth` | internal/core/services/health_monitoring.go:50-132 | every such step of the server keeps the relation to the history and to who waits |
| `ServerHealth.AgreesAtOnceExactly` | internal/core/services/workflow_orchestration.go:40-118 | a workflow defined while its type has health agrees with a recomputation before any pass if and only if its circuit is open exactly when the stored health is below its threshold |
| `ServerHealth.NobodyWaits` | internal/core/services/health_monitoring.go:71-132 | after a set-up, a server that creates no workflow and edits no threshold leaves nobody waiting, so every circuit equals the recomputation |
| `HealthPipeline.FreshMonitorRefines` | internal/core/services/health_monitoring.go:116-132 | every fixed workflow set without runs starts in that relation |
| `HealthPipeline.OtherTypesUntouched` | internal/core/services/health_monitoring.go:95-105 | a result leaves the health and circuits of other types unchanged |
| `HealthPipeline.RowCountsSets` | internal/core/services/health_monitoring.go:80-91 | the pending count of a stored row is that of the sets of participants, banned clients and responders |
| `HealthPipeline.RowIs` | internal/core/services/health_monitoring.go:80-91 | every field of a stored row, from the run's participants, the active bans of exactly its type among them, and its answers on record |
| `HealthPipeline.RowCompleteExactly` | internal/core/services/health_monitoring.go:80-112 | the row counts as complete if and only if the eligible clients without an answer are no more than the answers of ineligible ones |
| `HealthPipeline.ResultClosesExactly` | internal/core/services/health_monitoring.go:106-112 | a result makes its run completed if and only if that holds of the answers on record then, and changes no other run |
| `HealthPipeline.AllAnsweredCompletes` | internal/core/services/health_monitoring.go:106-112 | in particular a result after which every unbanned participant has answered closes its run and no other |
| `EarlyCompletion.RunCompletesTooEarly` | internal/core/services/health_monitoring.go:71-112 | the server can reach, by its own operations, a state in which an answer convicts its client and closes the run while a client that nobody banned has not answered |
| `HealthPipeline.ResultFrame` | internal/core/services/health_monitoring.go:50-114 | a result changes nothing of a run but its state and nothing of a workflow but its activity |
| `HealthService.CircuitRepo.GetCircuitState` | internal/adapters/repository/circuit_repo.go:32-35 | the stored circuit, or not-found |
| `HealthService.CircuitRepo.SaveCircuitState` | internal/adapters/repository/circuit_repo.go:16-30 | upsert by workflow id |
| `HealthService.CircuitBreakerService.GetPolicy` | internal/core/services/config_repos.go:63-77 | the threshold of the workflow's row when it is positive, and the default when it is not or there is no row |
| `HealthService.CircuitBreakerService.EvaluateWorkflow` | internal/core/services/circuit_breaker.go:68-128 | one turn of the loop: circuit, active flag and alert |
| `HealthService.CircuitBreakerService.EvaluateOn` | internal/core/services/circuit_breaker.go:63-129 | the loop over the workflows of a type, although it writes the table it listed from |
| `HealthService.CircuitBreakerService.EvaluateWorkflowType` | internal/core/services/circuit_breaker.go:55-131 | the pass on the given or the stored health; nothing without either |
| `HealthService.CircuitBreakerService.EvaluateAllWorkflows` | internal/core/services/circuit_breaker.go:133-147 | one pass per type, in the order the listing first names it, on the stored health: the circuits, active flags and alerts that leaves |
| `HealthService.EachDecidesAll` | internal/core/services/circuit_breaker.go:133-147 | evaluating each type once decides every circuit whose type has stored health, from any point of the loop |
| `HealthService.PeriodicPassDecides` | internal/core/services/circuit_breaker.go:133-147 | so the periodic pass leaves every such circuit decided and workflows unchanged but for activity |
| `HealthService.HealthMonitoringService.HandleResult` | internal/core/services/health_monitoring.go:50-69 | storing and recalculating are one `OnResult` step |
| `HealthService.HealthMonitoringService.CalculateRunHealth` | internal/core/services/health_monitoring.go:71-114 | the row of the run, the aggregate of its type, the pass on it and the closing of the run |
| `HealthService.HealthMonitoringService.CountBanned` | internal/core/services/health_monitoring.go:80-90 | the number of participants with an active ban from exactly the type of the run |
| `HealthService.HealthMonitoringService.Absorb` | internal/core/services/health_monitoring.go:92-112 | store, aggregate, publish and close |
| `HealthService.HealthMonitoringService.AggregateWorkflowTypeHealth` | internal/core/services/health_monitoring.go:116-132 | the aggregate of the listed window is stored and returned |
| `ServerSafety.NoMessageUnderBan` | internal/core/services/dispatch_filter.go:22-40 | in every run of the whole server the log shows exactly the messages the broker took, and between a ban and a later message it concerns there is the lifting of that ban |
| `ServerSafety.LiftedBetween` | internal/core/services/dispatch_filter.go:22-40 | the same for two events of any state that keeps the invariant |
| `ServerSafety.ConvictionTakesEffect` | internal/core/services/loop_detection.go:45-91 | a convicting result bars its client from the type of its workflow at once, in table and cache, at every later instant |
| `ServerSafety.ConvictedUntilLifted` | internal/core/services/loop_detection.go:45-91 | however the server goes on after a convicting result, a message of that type goes to the client only after the ban was lifted |
| `ServerSafety.BreakersAlternate` | internal/core/services/circuit_breaker.go:67-129 | in every run of the whole server the circuit alerts of a workflow alternate and match its circuit |
| `ServerSafety.TickIsARun` | internal/core/services/trigger_coordination.go:80-100 | a tick of the trigger loop is a run of ordinary triggers with the same books |
| `ServerRuns.StepKeepsInvariant` | internal/core/services/result_dispatcher.go:36-53 | every server step, each result passing through registration, loop detection and health, keeps table, cache, log, broker, run keys, links and circuits consistent |
| `ResultDispatch.ResultMessageDispatcher.Dispatch` | internal/core/services/result_dispatcher.go:36-53 | a malformed result is dropped; any other takes the tables from one server state to the next as `Reported` says |
| `ResultDispatch.ResultMessageDispatcher.RegisterAndJudge` | internal/core/services/result_dispatcher.go:48-52 | the handlers of the first two priorities |
| `ResultDispatch.ResultMessageDispatcher.Monitor` | internal/core/services/result_dispatcher.go:48-52 | the handler of the third |
| `Outbox.ResultCollector.Collect` | internal/core/services/result_collector.go:30-57 | queues the result unless an id is empty |
| `Outbox.ResultCollector.FlushResults` | internal/core/services/result_collector.go:61-83 | the batch is split by the broker's answers, refused results go back in front of what arrived meanwhile, and the answer is the first failure |
| `Outbox.EveryMessageIsTried` | internal/core/services/result_collector.go:67-82 | a failure stops nothing: each message is published or comes back by its own publication alone |
| `Outbox.NothingIsLostOrDoubled` | internal/core/services/result_collector.go:30-83 | over all runs every collected result is published exactly once or pending, and pending is in collection order |
| `Outbox.FlushIsAStep` | internal/core/services/result_collector.go:61-83 | what a flush does to messages is what the numbered step does to their numbers |
| `Outbox.CollectIsAStep` | internal/core/services/result_collector.go:30-57 | the same for collecting |
| `Outbox.CleanFlushPublishesAll` | internal/core/services/result_collector.go:67-82 | a flush that answers no failure has published its whole batch |
| `Activities.OnlySuccessChanges` | internal/core/domain/activity.go:90-225 | an activity that does not succeed changes nothing, and only a reboot touches the cripple fields |
| `Activities.PackageMustBeNamed` | internal/core/domain/activity.go:125-183 | a package activity without a package name is an error |
| `Activities.PackageOutcomes` | internal/core/domain/activity.go:125-183 | install needs the package absent, upgrade and removal need it present; what they leave, with the version given or the latest |
| `Activities.ConfigOutcomes` | internal/core/domain/activity.go:185-210 | applying sets the version given, floats cut to whole numbers and anything else zero; validating succeeds exactly on that version |
| `Activities.OtherOutcomes` | internal/core/domain/activity.go:90-123 | a reboot powers on and clears whatever crippled the client; scripts succeed, unknown activities are errors, and neither changes anything |
| `Activities.FreshClient` | internal/core/domain/activity.go:90-210 | a client starts without packages, powered, uncrippled and at configuration version one |
| `Activities.InstallAndRemoveCancel` | internal/core/domain/activity.go:125-183 | removing undoes installing, and installing the removed version undoes removing |
| `Activities.UpgradeIsReinstall` | internal/core/domain/activity.go:146-183 | an upgrade has the outcome of a removal and, on success, the state after removing and installing again |
| `Activities.AppliedValidates` | internal/core/domain/activity.go:185-210 | after a configuration was applied, exactly that configuration validates |
| `ClientPool.ChaosExecutor.ApplyDrift` | internal/core/domain/chaos.go:51-70 | one of the three drifts, as the draw says, or nothing when there is no package to remove |
| `ClientPool.ChaosExecutor.SelectCrippleMode` | internal/core/domain/chaos.go:35-42 | the cripple mode the draw picks |
| `ClientPool.ChaosExecutor.Execute` | internal/adapters/activity/chaos_executor.go:24-79 | for every source of randomness: block, fail and perhaps cripple, or execute and perhaps drift, with the odds of the draws |
| `ClientPool.CrippledAnswers` | internal/core/domain/chaos.go:74-91 | which activities each cripple mode keeps a client from, and what it answers then |
| `ClientPool.OthersMayPass` | internal/core/domain/chaos.go:74-91 | all others may go through |
| `ClientPool.InvalidIsAnswered` | internal/core/services/client_pool.go:95-110 | an invalid dispatch changes no state, and a known client answers it with an error |
| `ClientPool.ClientPoolManager.constructor` | internal/core/services/client_pool.go:47-76 | every client starts in the default state with an empty queue |
| `ClientPool.ClientPoolManager.HandleDispatch` | internal/core/services/client_pool.go:88-129 | one client step end to end: unknown client, invalid dispatch, or the new state stored and reported |
| `ClientPool.CrippledIffMode` | internal/adapters/activity/chaos_executor.go:24-79 | in every reachable state of every client, crippled if and only if the mode is not empty |
| `ClientPool.ExecutionKeepsModes` | internal/adapters/activity/chaos_executor.go:30-78 | a mode appears only with a failure and disappears only with a successful reboot |
| `ClientPool.SilentIsForever` | internal/adapters/activity/chaos_executor.go:31-37 | a silent client keeps its state for ever and reports success to every valid dispatch, reboots included |
| `ClientPool.ReportsCarryState` | internal/core/services/client_pool.go:95-126 | a queued report carries exactly the state stored for its client, and other clients keep theirs |

## Left out

- FilterText.ParsesExactly: characters are ASCII; the Unicode classes of letters, digits and white space are not modelled.
- FilterPrinter.RoundTrip: a float value is printable when some number text parses to it; which floats those are is up to `strconv.ParseFloat`, a parameter.
- FilterEval: rounding of `int64` to `float64` and the text of `%v` are parameters; the unsigned and 32-bit number types that never reach a filter are not separate.
- LoopDetection.LoopDetectionService.HandleResult: integers are unbounded, so the overflow of a huge threshold in milliseconds is not modelled; among earlier runs of the same instant the query does not say which it returns.
- Orchestration.Orchestrator.TriggerWorkflow: one clock reading serves a whole cascade, and a trigger is atomic; results that arrive while dispatches are being sent, and the late update of the run that may overwrite a run they completed, are not modelled.
- Orchestration.Orchestrator.CreateWorkflow: a new id is assumed to be one that nobody stores and nobody names, which a random UUID is only with overwhelming probability.
- Orchestration.Orchestrator.Publish: the event bus is its one subscriber of completions; health updates reach the circuit breaker by a direct call; circuit events have no subscriber.
- ServerHealth.HealthIsRecomputed: the clock shows a later instant at every result, since rows of one instant have no order in the listing; a workflow created, or given another threshold, while its type has health keeps its circuit until the next pass on the type, and is excepted until then.
- HealthPipeline.IncrementalEqualsRecomputed: the same clock, over the health services alone and a fixed workflow set.
- ResultDispatch.ResultMessageDispatcher.Dispatch: the handlers are the three that the server registers, in the order of their priorities; an error of one is only printed by the source.
- HealthService.HealthMonitoringService.AggregateWorkflowTypeHealth: one window for all types, as the configuration repository gives it; the time of the aggregate is not stored.
- Cron.CronEvaluator.ShouldFire: a schedule is an unbounded set of instants given by its next instant; parsing cron texts is a parameter.
- Outbox.ResultCollector.FlushResults: one flusher; results collected meanwhile arrive just before a publication or before the end of the flush.
- BreakerRuns.ActiveExactlyWhenClosed: switching a workflow by hand while its circuit is open is excluded; no invariant of the code covers it.
- ClientPool.ClientPoolManager.constructor: registration of the clients with the server and the text of their ids.
- Database failures other than those of ban writes, context cancellation, and nil arguments.
- Times of day, alert texts, payloads, workflow and activity parameters sent with a dispatch, and the evidence text of a ban beyond being passed on.
- The cooldown, recovery readiness, the half-open state and the failed state of runs, which nothing enters.
- HTTP routes, NATS connections, configuration and the user interface; a registration message of a client is the operation `Register`.
