# kgraph, verified

kgraph keeps a graph of facts that is assembled from authored documents and an
append-only log of assertions, answers queries over it, and checks the texts the
facts were read from. This project models its hardest parts in Dafny and proves
what they promise. Code that works step by step in the original is a class or a
method with a loop here, proved against a specification function; the properties
are lemmas about those functions.

Five clusters:

1. **Evaluation over a possibly cyclic graph.** `Graphs`, `Satisfaction` (the
   meaning of `while` gates and group rules), `SatisfactionWalk` (the recursion
   that computes it), `CountingDown` (which rules have that meaning), `Divergence`
   and `Rings` (where the recursion does not end), `Hops`, `Queries`, `Matching`,
   `Expansion` and `Eval` (named queries and temporal scopes pushed down, and the
   evaluator that does it on the fly), `SortIds`, `Comparison`, `Taint`.
2. **The log and its store.** `Log`, `Append` (N writers over one table, every SQL
   statement one step), `Store` (one handle's methods, other writers committing in
   between), `Fold` (replaying the log, amending it), `Export` (the text
   projection) and `Encoding` (a line format that keeps the promises `Export` asks
   of one).
3. **Identity.** `Merge` (`same_as` chains folded into their survivors), `Dupes`
   (union-find), `NearDupes` (the bounded near-duplicate pass), `Aliases` (names
   with time windows).
4. **The query language.** `Lexer`, `Grammar` (what is read at each position),
   `Parser` (the cursor that reads it), `Printing` and `RoundTrip` (a text for
   every query a text can say), `PastTheEnd` and `BrokenOff` (texts that break off).
5. **Text algorithms.** `EditDistance`, `WordRatio`, `FoldText`, `LockFile`.

`Strings`, `Sorting` and `Options` hold the few library functions the rest uses.
`dafny verify dfyconfig.toml` checks everything.

## What was found

- Where no cycle passes through a group that counts downwards, the counting
  recursion of `satisfied` computes the one stratified solution of its equations
  (`Satisfaction.StratifiedSolutionUnique`): the least fixed point when no group
  counts downwards, the only fixed point when nothing is cyclic. Rule by rule this
  is exact. Every graph whose groups count by a rule or by `any` is answered with
  the least fixed point, and has a fixed point at all, iff more satisfied members
  never turn the rule false: so not for `none`, `==`, `<=`, nor `<` a positive
  number, but for `< 0` (`CountingDown.LeastFixedPointIff`).
- `edgeLive` starts a fresh satisfaction walk, so under a date groups whose
  memberships are gated on one another, directly or through members, start one
  another's evaluation for ever: run on any budget of nested visits the evaluator
  spends it (`Rings.RingNeverEnds`). Over all statuses and group rules this is the
  only way: where nodes are in force and carry no gate of their own, evaluation ends
  at every node under every choice of them iff the graph is `Stratified`
  (`Rings.AlwaysEndsIffStratified`). On one graph `Stratified` is sufficient
  (`Divergence.StratifiedAnswers`) and not necessary: a gate that is never reached
  may break it (`Divergence.StratifiedNotNeeded`). It always holds without a date,
  or when no `member_of` edge carries a `while`
  (`Satisfaction.UngatedMembershipStratified`).
- `compare` is a total order up to ties on a set of values iff every two numerals
  with a text that is no numeral between them, as texts, are ordered as numbers the
  way they are as texts, and NaN stands only with numerals that are all equal
  (`Comparison.CompareCoherentIff`). Results sorted on such columns are determinate
  (`SortIds.SortedResultIsDeterminate`). Dates, all-numeric columns without
  NaN and columns without numerals are such; 9, 10 and 1a are not
  (`Comparison.CompareIsNotTransitive`).
- The parser reads values without looking for the end mark. It steps past its
  tokens only when the text breaks off where a comparison, a list or a date range
  wants its next value, and there is a text for which it does (`PastTheEnd`). On a
  text whose tokens begin some query it does so exactly then
  (`BrokenOff.RunsPastTheEndIff`). The model gives that outcome the name `PastEnd`
  where the original panics.
- An amendment stamped earlier than an assert of the same id is replayed before it
  and lost, on any log; every amendment stamped at a time is lost iff something
  asserts the id later (`Fold.AmendmentsLostIff`).
- An export extends the bytes of the one before iff nothing appended since is
  stamped earlier than something that one said (`Export.ExportExtendsIff`); over a
  run, no byte is rewritten iff that holds at every export
  (`Export.RunsOnlyExtendIff`). Appends may go back in time among themselves. An
  assertion exported and then one stamped earlier rewrite the file
  (`Export.RewritingRun`).
- A lock file is read back as the lock it was written from iff every path in it is
  printable and holds no newline (`LockFile.LockRoundTripsIff`).

Two comments disagree with their code, and the model follows the code:
phonetic.go:112 calls the edit distance bounded by the shorter string, while it is
bounded by the longer (`EditDistance.DistBounds`) and, from the empty string to "a",
is 1 (`EditDistance.ShorterIsNoBound`); quotes.go:261-263 says kept
characters are ASCII, while the loop keeps letters and digits of every script (the
model takes the tables of letters and lower case as a parameter).

The field `while` is called `gate` here, because `while` is a Dafny keyword.

## Model

| member | source | states |
|---|---|---|
| Graphs.BuildIncident | graph.go:137-143 | the incidence index lists at every node exactly the edges whose two ends exist and that touch it, in order |
| Graphs.IncidentExact | graph.go:137-143 | an edge is listed at a node iff it is declared, both its ends exist and one of them is the node |
| Satisfaction.UngatedMembershipStratified | eval.go:386-400 | with no date, or with no gate on a membership edge, gates on membership never depend on themselves |
| Satisfaction.SatUnfold | eval.go:685-759 | the path-cut recursion satisfies its one-step equation |
| Satisfaction.SatIsLeastFixedPoint | eval.go:685-759 | for monotone group rules the recursion, with any path cut off, is membership in the least fixed point with that path forced false |
| Satisfaction.LeastFixedPointIsFixed | eval.go:681-759 | that set is a fixed point of the gate and membership equations and lies inside every other |
| Satisfaction.SatAntitone | eval.go:685-708 | a longer path, no lower than the node, can only turn its answer false |
| Satisfaction.FalseNodeIrrelevant | eval.go:685-708 | putting a node that does not hold on the path turns no answer false that does not lie above it |
| Satisfaction.PathIrrelevant | eval.go:685-708 | what stands on the path above everything a node can depend on does not change its answer |
| Satisfaction.SatSolvesEquation | eval.go:685-759 | under a path no lower than the node, the path-cut answers solve the node's equation |
| Satisfaction.StratifiedSolutionUnique | eval.go:685-759 | when no cycle passes through a group that counts downwards, there is exactly one stratified solution, and the recursion computes it |
| Satisfaction.SatAgreesWithFixedPoint | eval.go:685-759 | where dependencies run downwards the recursion agrees with every fixed point, whatever the group rules |
| Satisfaction.AcyclicFixedPointUnique | eval.go:685-759 | on acyclic dependencies there is exactly one fixed point, and the recursion computes it |
| SatisfactionWalk.Walk.Satisfied | eval.go:685-708 | the recursion over the shared path map terminates, restores the map and returns the specified answer |
| SatisfactionWalk.Walk.StatHere | eval.go:714-759 | the group tally at a node, under the path so far |
| SatisfactionWalk.Walk.MembersAt | eval.go:765-774 | the members a group has at a date, in order |
| SatisfactionWalk.Walk.EdgeIsLive | eval.go:386-400 | an edge is live at a date iff it is within its window and its gate is satisfied |
| SatisfactionWalk.Satisfied | eval.go:681-683 | the public answer is membership in the least fixed point for rules that never count down, and in the stratified solution wherever there is one |
| SatisfactionWalk.GroupStatOf | eval.go:710-759 | the public tally counts exactly the members in that solution, and every member is counted or blocking |
| SatisfactionWalk.EveryMemberCounted | eval.go:730-757 | satisfied and blocking members make up the total, and blocking ones are the unsatisfied ones |
| Graphs.MonotoneIffNonDecreasing | eval.go:730-757 | the rules that more satisfied members never turn false are all but `none`, `==`, `<=` and `<` a positive number |
| CountingDown.LeastFixedPointIff | eval.go:714-759 | for any group expression: evaluation is membership in the least fixed point on every graph whose groups count by it or by `any`, iff its rule never turns false as members join; and iff so all those graphs have a fixed point |
| CountingDown.TippingGraphFails | eval.go:714-759 | for every other expression there is a graph on which evaluation answers true outside the least fixed point and no assignment is consistent |
| CountingDown.DownwardCountOnACycle | eval.go:714-759 | a group whose only member is itself and whose rule is `none` is answered true although no assignment is consistent |
| CountingDown.LoneNoneGroup | eval.go:714-759 | such a graph exists, with the text `none` for its rule |
| CountingDown.LoneGroupIsOwnOnlyMember | eval.go:765-774 | a membership edge from a group to itself makes it its own only member |
| Divergence.StratifiedAnswers | eval.go:386-400 | where membership edges in their windows are gated only from below, evaluation ends, and any budget that is enough gives the specified answer |
| Divergence.SatKeeps | eval.go:685-708 | a larger budget of nested visits changes no answer |
| Divergence.GateCycleNeverEnds | eval.go:386-400 | under a date, no budget decides an ungated group that is one of some whose memberships are gated by one of them |
| Divergence.GateOnOwnMembershipNeverEnds | eval.go:386-400 | a membership edge gated on its own group is outside the guard, and evaluating the group never ends, under any date |
| Rings.RingNeverEnds | eval.go:386-400 | under a date, no budget decides a bare group that leads, through members it surely asks, to a membership gated on another such group |
| Rings.AlwaysEndsIffStratified | eval.go:386-400 | where nodes are in force without gates and memberships are of groups and gated by nodes, evaluation ends everywhere under all statuses and group rules iff the graph is stratified |
| Divergence.StratifiedNotNeeded | eval.go:386-400 | the guard is sufficient only: a graph outside it on which evaluation ends |
| Hops.HopTargets | eval.go:339-381 | with a star, exactly the nodes one or more live edges away, each once; without, exactly the neighbours; the queue terminates though it holds repeats |
| Hops.StepsFrom | eval.go:340-364 | one step finds exactly the neighbours over live edges of the type and direction |
| Hops.NextFrontier | eval.go:318-331 | one step of the walk keeps exactly the nodes that some frontier node reaches and that match the next atom |
| Hops.WalkPattern | eval.go:316-334 | the walk succeeds iff some binding runs through every hop, each later node matching its atom |
| Hops.ReachesNext | eval.go:316-334 | reaching over one more hop is reaching its start and stepping |
| Taint.Search.Visit | taint.go:31-66 | the shared-mark search leaves every finished node closed under what it rests on, records exactly the open questions met, and meets only what is reachable |
| Taint.TaintOf | taint.go:19-66 | exactly the open questions reachable along live requirements, memberships and gates without passing another open question, ascending |
| Taint.TaintedSet | taint.go:70-83 | the same for a whole result: a question is listed iff some member of the result is conditional on it |
| Taint.PathStaysInside | taint.go:31-66 | a set closed under what its members rest on contains every path that starts in it |
| Comparison.CompareCoherentIff | eval.go:579-592 | on a set of values compare is antisymmetric and transitive iff numerals with another text between them are ordered as their texts are, and NaN stands only with equal numerals |
| Comparison.PlainColumnsAreOrderly | eval.go:579-592 | dates, numbers without NaN, and values without numerals are such sets |
| Comparison.CompareOnDatesIsLexical | eval.go:579-592 | on date literals of mixed precision compare is lexical order, zero only on equality, antisymmetric |
| Comparison.CompareOnDatesTransitive | eval.go:579-592 | … and transitive |
| Comparison.DateParses | eval.go:154-156 | read as a plain numeral, a date literal is a number iff it is a bare year |
| Comparison.CompareIsNotTransitive | eval.go:579-592 | three strings on which compare goes round in a circle, for every reading that reads 9 and 10 and not 1a |
| SortIds.SortOrderIsTotal | eval.go:615-638 | on columns where compare is coherent the sort order is total and strict |
| SortIds.SortedResultIsDeterminate | eval.go:615-638 | … so the sorted result does not depend on the order the ids came in, and is in order |
| SortIds.MissingValuesLast | eval.go:615-638 | nodes without the first sort field come after those with it, in either direction |
| Expansion.ExpansionIsFlat | eval.go:172-204 | what expansion returns holds no name and no scope |
| Expansion.ExpansionFailsIff | eval.go:194-204 | expansion fails iff a chain of mentions ends in an undefined name or one it is still inside |
| Expansion.FlatExpandsToItself | eval.go:172-253 | expanding an expanded query changes nothing |
| Eval.UndatedIsGuarded | eval.go:386-388 | a query that names no date asks nothing of the graph |
| Eval.ExpansionIsGood | eval.go:172-253 | expansion is flat and looks at no date but those of the query and of the queries it leads to |
| Eval.Evaluator.Eval | eval.go:172-253 | with names cut on the current path, evaluation restores that path, fails iff the expansion fails or meets an ambiguous reference, and otherwise returns without repeats exactly the nodes the expansion denotes, in the order its outermost sort asks for |
| Eval.Evaluator.EvalPattern | eval.go:258-314 | a pattern returns exactly the nodes that match its first atom, its window and its walk, sorted |
| Eval.Evaluator.EvalInter | eval.go:220-238 | an intersection returns what every term denotes, ascending; of no terms, nothing |
| Eval.Evaluator.EvalUnion | eval.go:239-250 | a union returns what some term denotes, ascending |
| Eval.Evaluate | eval.go:166-168 | the public entry: where evaluation ends at the dates of the query and of the queries it leads to, it fails exactly when a chain of names breaks or a reference is ambiguous |
| Eval.ExpansionPreservesMeaning | eval.go:172-253 | evaluating a query and evaluating its expansion without any named query fail together, or return the same nodes |
| Eval.SortResult | eval.go:183-187 | sorting keeps the nodes, and orders them where compare is coherent on the columns |
| Aliases.OverlapsIsSharingADate | graph.go:290-298 | two alias windows that are in force at some date overlap iff one date lies in both |
| Aliases.DisjointWindowsNeverBothHold | node.go:257-268 | windows that do not overlap are never in force together |
| Aliases.OverlappingPairs | graph.go:249-286 | the check reports exactly the pairs of bindings of a name whose windows overlap, each once |
| Aliases.CheckedNamesResolve | graph.go:303-331 | where the check found no overlap, no dated reference is ambiguous |
| Aliases.UndatedAmbiguity | graph.go:303-331 | an undated reference is ambiguous iff it names no node and has two bindings |
| Append.NextKeepsInv | store.go:447-491 | every step of every writer keeps the invariant and only extends the table and the history |
| Append.InvariantOverRuns | store.go:447-491 | … hence over every run of any number of writers |
| Append.SequenceNumbersAreDense | store.go:459-491 | in every reachable state an index's sequence numbers are exactly 1..n, n its commits |
| Append.DuplicateIffOvertaken | store.go:479-491 | an insert is refused as a duplicate iff another append to the index committed since the read |
| Append.AcknowledgedExactlyOnce | store.go:447-491 | an acknowledged assertion is in the table under one key, for ever, as it was; an unacknowledged one is not |
| Append.LogOnlyGrows | store.go:445-446 | later states keep every row, every commit and every acknowledgement |
| Append.OtherIndexesUntouched | store.go:463-485 | a step leaves every row of an index alone iff it is not an accepted insert into that index, whoever else is inserting |
| Append.IndexUntouchedIff | store.go:459-491 | over any run, an index keeps exactly its rows iff nobody commits to it |
| Append.ExhaustedMeansOvertakenNineTimes | store.go:479-495 | an append that gives up on duplicates was overtaken by at least nine commits of others to its index, and wrote nothing |
| Store.SqlStore.Append | store.go:447-492 | one handle's append: validation first, then the bounded retry; on success exactly one new row, after as many duplicates as tries and no refused statement; on failure none, at the first statement the engine refuses or after nine commits of others |
| Store.SqlStore.NextSeq | store.go:463-467 | the read is one past the index's size at that moment |
| Store.SqlStore.MaxSeq | store.go:464-465 | the largest number in an index is its size |
| Store.SqlStore.All | store.go:420-443 | the index's rows in timestamp order, ties by sequence number |
| Fold.FoldAssertions | assert.go:203-267 | the loop over the sorted log computes the replay: the document of live entries in first-assertion order, and the diagnostics |
| Fold.FoldIgnoresAppendOrder | assert.go:203-220 | with distinct timestamps the result is the same for every order the log was written in |
| Fold.EntryDependsOnOwnAssertions | assert.go:221-255 | what an id folds to depends only on the replay order of its own assertions |
| Fold.ReplayIsLocal | assert.go:221-255 | replaying the whole log and replaying an id's own assertions leave the same slot |
| Fold.LastFields | store.go:680-699 | the fields of the last assert of an id in replay order, whatever came after |
| Fold.Amend | store.go:708-726 | amending appends one assert of the last fields with the overrides iff there are last fields, it validates and the amended graph loads |
| Fold.AmendmentChangesOneFact | store.go:708-726 | an amendment changes no other id, and when stamped no earlier than the id's assertions the id folds to its fields |
| Fold.LandsBeforeLater | assert.go:203-220 | a new assertion is replayed after everything not later and before everything later |
| Fold.EarlierAmendmentIsLost | store.go:708-726 | on any log, an amendment stamped before an assert of its id changes nothing |
| Fold.AmendmentStands | store.go:708-726 | with no later assert, the id folds to the amended fields with what later withdrawals and retirements write |
| Fold.AmendmentsLostIff | store.go:708-726 | all amendments of an id stamped at a time are lost iff something asserts the id later |
| Export.Projection.Export | store.go:520-596 | the file becomes the specified export |
| Export.Projection.KeptPrefix | store.go:620-646 | the kept prefix is the number of assertions the file already says, when they are the log's first ones |
| Export.ExportSaysTheLog | store.go:520-596 | whatever the file held, after an export it decodes to exactly the log |
| Export.ExportAgainChangesNothing | store.go:520-596 | a second export with nothing appended leaves the bytes unchanged |
| Export.ExtendsReplayOrderIff | store.go:420-443 | appends extend the replay order iff none is stamped earlier than something before them |
| Export.AppendExtendsReplayOrder | store.go:420-443 | one append extends the replay order iff no earlier assertion has a later timestamp |
| Export.ExportExtendsIff | store.go:520-646 | an export extends the bytes of a file of whole lines that says an earlier log iff nothing since is stamped earlier than something in that log |
| Export.RunsOnlyExtendIff | store.go:520-646 | a run of appends and exports rewrites no byte iff at every export nothing put since the one before is stamped earlier than something that one said |
| Export.RunsOnlyExtend | store.go:520-646 | then the last file of the run extends the first |
| Export.RewritingRun | store.go:520-646 | an assertion exported, then one stamped earlier: the second export does not extend the first |
| Export.EveryExportIsFaithful | store.go:520-646 | after any run, an export decodes to the log and repeating it changes nothing |
| Export.ExportImportRoundTrip | store.go:654-667 | importing an export gives back the log and the same fold |
| Export.ReaderReads | assert.go:126-150 | the log reader passes over headers and blanks and decodes every encoded line |
| Encoding.FaithfulFormatExists | assert.go:126-150 | a format that gives back every assertion it encoded, each on one line, exists |
| Merge.Assembly.Merge | graph.go:391-478 | merging sets the nodes, the retired table, the problems and the edge array to their specified values |
| Merge.Assembly.FindFinal | graph.go:394-428 | each chain is judged once: survivor, cycle, dangling or kind clash |
| Merge.Assembly.FollowChain | graph.go:399-418 | following a chain ends, cycle or not, at the specified end |
| Merge.Assembly.CompactEdges | graph.go:463-476 | compacting in place leaves exactly the specified edges |
| Merge.Assembly.Absorb | graph.go:447-453 | survivors only gain aliases, the absorbed go, the multiset of aliases is conserved |
| Merge.Assembly.FoldInto | graph.go:432-476 | rewriting, absorbing and compacting together give a merged graph |
| Merge.FollowFindsTheEnd | graph.go:399-418 | following finds a survivor iff a `same_as` chain leads to it |
| Merge.RetiredMapsToSurvivor | graph.go:395-428 | a retired id maps in one step to a surviving node of its kind that names no other |
| Merge.CompactExact | graph.go:463-476 | no self-edges, no key twice, nothing invented, every relation still there |
| Merge.CompactKeepsFirsts | graph.go:463-476 | the edges kept are the first of each key, in declaration order |
| Merge.NothingNamesARetiredId | graph.go:432-476 | no edge end, edge gate, node gate or owner names a retired id |
| Merge.AbsorbKeepsAliases | graph.go:447-453 | taking over aliases loses none and invents none |
| Merge.MergeIsIdempotent | graph.go:391-478 | a merged graph has nothing left to merge |
| Dupes.UnionFind.Find | dupes.go:89-99 | finding with path compression changes no class, and returns its representative |
| Dupes.UnionFind.Union | dupes.go:100-105 | joining a pair merges exactly their two classes |
| Dupes.UnionRepresents | dupes.go:88-105 | one more pair keeps the forest representing connection |
| Dupes.RepresentsConnection | dupes.go:88-105 | two ids have one representative iff a chain of pairs connects them |
| Dupes.DuplicateClusters | dupes.go:88-182 | the clusters partition the ids in the pairs by connection, and each is summarised rightly |
| Dupes.SumAndKeep | dupes.go:128-153 | the total of citations, and the most cited member, smallest id on ties |
| NearDupes.NearDuplicates | graph.go:576-686 | one comparison per pair, of exactly the pairs of the buckets not skipped; each best match is earned and unbeaten; the oversized buckets and those left for want of budget are counted, none left before the budget is spent; with nothing skipped, twins get a match of score 1 |
| NearDupes.BuildIndex | graph.go:585-612 | every node is posted under its rarest tokens, once each |
| NearDupes.TwinsMeet | graph.go:573-612 | two nodes of a kind with one nonempty token set share a bucket |
| NearDupes.TwinsFound | graph.go:642-686 | … so when every bucket was compared each has a match of score 1 |
| NearDupes.CompareAll | graph.go:623-686 | exactly the pairs of the buckets not skipped are compared; skipped are the oversized ones and, once the budget is spent, the largest of the others; both are counted, and the comparisons stay below the bound |
| NearDupes.CompareBucket | graph.go:652-685 | exactly the pairs of a bucket are added to those compared, none twice |
| NearDupes.JaccardScore | node.go:581-592 | the score is between 0 and 1, symmetric, and 1 iff the token sets are equal and nonempty |
| NearDupes.SameKeysSamePosting | graph.go:595-608 | what a node is posted under depends on its token set alone |
| NearDupes.NearPairs | graph.go:696-713 | the pairs kept for triage are each node's best match, each pair once |
| Lexer.LexAll | query.go:128-174 | the loop produces exactly the specified tokens, all well shaped, ending in the end mark |
| Lexer.ScanWordLoop | query.go:112-126 | a dash belongs to a word only before a letter or digit |
| Lexer.LexOfSpell | query.go:128-174 | any tokens, spelled with a space after each, are lexed back |
| Lexer.LexIsGood | query.go:128-174 | every token the lexer produces has the shape of its kind |
| Parser.Read | query.go:184-198 | reading a text gives what the grammar says, or its error |
| Parser.Cursor.ReadUnion | query.go:219-236 | unions bind loosest; the cursor ends where the grammar says |
| Parser.Cursor.ReadInter | query.go:238-255 | then intersections |
| Parser.Cursor.ReadUnary | query.go:257-266 | complement binds to the term after it |
| Parser.Cursor.ReadPrimary | query.go:268-309 | a name, a group or a pattern, told apart by looking ahead |
| Parser.Cursor.LooksLikeKindList | query.go:313-326 | a parenthesis opens a kind list iff only kind names and bars stand before its end |
| Parser.Cursor.ReadPattern | query.go:336-374 | atoms and hops in turn, then the suffixes |
| Parser.Cursor.ReadHop | query.go:376-412 | the two dashes decide the direction |
| Parser.Cursor.ReadAtom | query.go:414-469 | kinds, id, predicates and text, at least one of them |
| Parser.Cursor.Predicate | query.go:471-509 | a field with a list, a comparison, or alone |
| Parser.Cursor.ReadTemporal | query.go:511-529 | now, a date, or a range |
| Parser.Cursor.SortKeys | query.go:531-553 | sort fields with a direction |
| RoundTrip.PrintThenParse | query.go:184-553 | every query a text can say is parsed back from its own text, with parentheses only where precedence needs them |
| RoundTrip.SayableIffSurface | query.go:184-553 | a query is what some text says iff it has the surface shape |
| RoundTrip.ParsedIsSurface | query.go:184-553 | whatever the parser returns has that shape |
| RoundTrip.ReprintingIsStable | query.go:184-553 | printing a parsed query and parsing it again changes nothing |
| RoundTrip.SurfaceIsWellFormed | query.go:336-509 | what the parser returns never makes the evaluator index out of range |
| Printing.UnionRead | query.go:219-309 | a printed query followed by a closing parenthesis or the end is read back whole |
| Printing.PatternRead | query.go:336-374 | a printed pattern is read back with its hops, window and sort |
| Printing.AtomRead | query.go:414-469 | a printed atom is read back |
| Printing.HopRead | query.go:376-412 | a printed hop is read back with its direction and star |
| Printing.PatternIsPrimary | query.go:268-326 | a pattern that opens with a kind list is not taken for a group |
| PastTheEnd.OnlyABrokenOffTextRunsPastTheEnd | query.go:200-205 | the parser steps past its tokens only on a text that breaks off where a comparison, a list or a date range wants its next value |
| PastTheEnd.ABrokenOffTextRunsPastTheEnd | query.go:471-509 | and there is one on which it does |
| BrokenOff.RunsPastTheEndIff | query.go:200-205 | on a text whose tokens before the end mark begin some query, the parser steps past its tokens iff the text breaks off where a value is wanted |
| BrokenOff.UnionTogether | query.go:219-309 | read on a text and on a query it begins, a set expression is the same where it ends before the text does; otherwise the text runs past its end or breaks off where no value is wanted |
| EditDistance.Compute | phonetic.go:113-141 | the two-row loop returns the least number of single-character edits |
| EditDistance.DistIsReached | phonetic.go:113-141 | that many edits suffice |
| EditDistance.DistIsLeast | phonetic.go:113-141 | no fewer do |
| EditDistance.Triangle | phonetic.go:113-141 | the triangle inequality |
| EditDistance.DistSymmetric | phonetic.go:113-141 | symmetry |
| EditDistance.DistZeroIffEqual | phonetic.go:113-141 | zero iff equal |
| EditDistance.DistBounds | phonetic.go:113-141 | between the length difference and the longer length |
| EditDistance.ShorterIsNoBound | phonetic.go:112 | the distance can exceed the shorter length |
| WordRatio.Compute | nearquote.go:161-183 | the two-row loop returns twice the longest common subsequence over the total length |
| WordRatio.LcsIsReached | nearquote.go:161-183 | a common subsequence of that length exists |
| WordRatio.LcsIsLongest | nearquote.go:161-183 | none is longer |
| WordRatio.RatioIsASimilarity | nearquote.go:161-183 | the ratio is between 0 and 1, symmetric, and 1 iff the word sequences are equal |
| FoldText.FoldTextIdx | quotes.go:264-322 | one offset per folded character, increasing, each naming the character it came from |
| FoldText.SpanFoldsToMatch | quotes.go:264-322 | the passage between two offsets folds to exactly the folded characters between them, even around star pages |
| FoldText.MatchLocatesPassage | quotes.go:437-447 | wherever a folded quote occurs in a folded document, the document holds a passage there that folds to the quote |
| FoldText.FoldJoinsIff | quotes.go:264-322 | two passages fold separately iff the cut does not fall inside a star page number |
| FoldText.PageMarkIsNotContent | quotes.go:265-276 | a printed page boundary inside a sentence does not change its fold |
| FoldText.FoldIsIdempotent | quotes.go:250-253 | folding twice is folding once |
| LockFile.ReadLock | sources.go:164-201 | reading line by line gives the specified lock or the first fault with its line |
| LockFile.WriteLock | sources.go:226-254 | a nonempty lock is written as the header and its entries in path order, an empty one as no file |
| LockFile.LockRoundTrip | sources.go:164-254 | a lock of printable paths and clean entries is read back exactly |
| LockFile.LockRoundTripsIff | sources.go:164-254 | a written lock of clean entries, of any number of documents, is read back exactly iff every path in it is printable and holds no newline |
| LockFile.LineRoundTripsIff | sources.go:204-222 | a line is read back as its document iff the path is nonempty, has no quote, and when bare starts with neither a comment sign nor whitespace |
| LockFile.QuotedLineReads | sources.go:204-222 | a quoted path is read back without the quotes it held |
| LockFile.BareLineReads | sources.go:204-222 | a bare path loses leading whitespace, and is skipped when it then starts a comment |
| LockFile.WrittenOnce | sources.go:224-236 | one lock has one text, whatever order its entries are met in |

## Left out

- Comparison.Compare: `strconv.ParseFloat` is a parameter, the numeral each text reads as; what is asked of it is that of the date literals a bare year alone is a numeral and spells its number, which plain numerals satisfy (`Comparison.PlainNumeralsReadDates`). The infinities are two numbers beyond every finite one.
- Satisfaction.StratifiedSolutionUnique: asks for `Stratified`, which is sufficient for evaluation to end and, on one graph, not necessary; where it fails and evaluation still ends, nothing is claimed.
- Rings.AlwaysEndsIffStratified: graphs whose nodes carry gates of their own or are not in force at the date are not covered by the exact condition, because such a gate can stop an evaluation whatever the statuses.
- Matching.MatchPred: the fields other code derives for a node at a date (`at`, `value`, `disputed` and the like) come from a table of the graph; `resolveAt`, `resolveValue` and their calendar arithmetic are not modelled.
- Eval.Evaluator.Eval: which of several errors is reported first is left open; the order of a complement follows map iteration in the original and is left open.
- Sorting.Sort: the library sorts are one stable insertion sort; where the order is total the result is the same.
- FoldText.FoldTextIdx: the Unicode tables are a parameter that agrees with ASCII and lowers what is lower to itself (`FoldText.TablesExist`); offsets count characters where the original counts bytes.
- NearDupes.NearDuplicates: case folding, word splitting and trimming are ASCII; the final order and cap of the reported list are not modelled.
- LockFile.LockRoundTrip: whitespace is ASCII, and the header comment is a parameter.
- Lexer.LexAll: token positions, used only in error texts, are dropped.
- Dupes.DuplicateClusters: the pairs are an input; pairing by shared document, the `SameFile` and `Compound` flags and the order of the clusters are not modelled.
- Fold.FoldAssertions: entries end as field maps; turning them into nodes through the format's parser is not part of this model.
- Fold.Amend: whether the amended log still builds a graph is a parameter.
- Store.SqlStore.Append: what other writers commit in between is arbitrary; the interleaving argument is in `Append`.
- Export.ReaderReads: JSON is any encoder and decoder that give back what was encoded, one line per encoding; a number is its text.
- Aliases.CheckedNamesResolve: bounds of alias windows and reference dates are date literals.
- Edge keys, content identities and semantic hashes are compared as the values they hash, so hashing is injective.
- SQL, file renames and syncing, clocks and the network are outside; a file is an optional text.
- `dedupeEdges`, supersession, inference, attestation and source checks, dialects, profiles and acceptance marks: one-branch validations.
- `Invalidate`, `DriftedSources` and the remote search clients: caches and heuristics whose answers depend on order or depth.
- `soundsLike` and the rest of the phonetic keys: table lookups around the edit distance.
