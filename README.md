# Testception test-value generator, in Dafny

Testception grades student functions by running them on machine-made test
inputs and comparing the results with a reference solution. This project
models the heart of that system and proves what it promises:

- **Binding merge and combination** (`bindings.dfy`, `var_lookup.dfy`,
  `arg_lists.dfy`, `convert.dfy`): `check_against_others` merges the
  `(name, value)` bindings that candidate values impose on named variables
  (a `None` name never conflicts); `VAR_LOOKUP` and `POSSIBLE_VARNAMES`
  resolve a domain such as `n`, `1-n` or `n-5`; `generate_arg_lists` builds
  the pruned cartesian product of the parameters' options; `CHECK_CONVERT`,
  `CONVERT_CONTAINER` and `APPEND` turn the hashable tagged form back into
  containers (`APPEND` works on a `PyObject` box, in place).
- **Exhaustive enumeration** (`exhaustive_str.dfy`, `exhaustive_tup.dfy`,
  `exhaustive_dict.dfy`, `exhaustive_process.dfy`): every string over an
  alphabet by length, every tuple, list, set and dict up to a bound with the
  sorted, set and dict-key rules, the length filter, the per-type handlers
  and `generate_exhaustive_cases`. Dict and set iteration orders are
  unspecified, so the generator's outputs are Dafny sets and the order the
  source happens to visit them in is an input.
- **Randomized sampling** (`randomized.dfy`): the per-type handlers with
  `random.choice` as a nondeterministic choice, the rejection loops that
  build one container honouring sortedness and uniqueness, and the
  acceptance loop of `generate_random_cases`.
- **Config parsing** (`config_sections.dfy`, `config_types.dfy`,
  `config_vals.dfy`, `bsg_globals.dfy`, `layers.dfy`): section slicing, the
  `[variables]`, `[validation]`, `[types]` and `[values]` sections, and the
  `KEYWORDS` modifier table.
- **Grading bookkeeping** (`deep_equal.dfy`, `tester.dfy`,
  `progression_scheduler.dfy`): the circular-reference detector, `zip_gen`,
  the strict-typing options and dict key rules of the deep comparison; the
  `Tester` tables; the stable sort and the signature rules of the
  progression scheduler.
- **Example validators and reference solutions** (`validate_graphs.dfy`,
  `validate_ttt.dfy`, `project0.dfy`, `project1.dfy`, `project2.dfy`).

`wrappers.dfy` (Option and Result), `pystrings.dfy` (the Python string
operations the parser uses), `pyvalues.dfy` (the value type and its
ordering) and `mapsums.dfy` (sums over maps) are helpers.

Each loop of the source is a method proved equal to a specification
function or relation, and the properties are lemmas about those functions.
Python's integers are unbounded, like Dafny's; `sys.maxint` is written out
as 2^63-1 and Python's floor division is used where it applies.

## Model

| member | source | states |
|---|---|---|
| Project0.MinSecPad | projects/examples/project0/solution.py:17-21 | a value from 0 to 99 is written as exactly two decimal digits denoting it |
| Project0.StringTime | projects/examples/project0/solution.py:23-45 | out-of-range hours, minutes or seconds give "invalid input"; midnight and noon are named; other times end in " AM" before noon and " PM" from noon on |
| Project0.StringTimeFormat | projects/examples/project0/solution.py:28-45 | every valid time other than midnight and noon reads h:mm:ss with h in 1..12 congruent to the hour modulo 12, two-digit minutes and seconds, AM exactly before noon |
| Project0.StringTimeExamples | projects/examples/project0/solution.py:12-16 | the documented examples: 0:00:01 is "12:00:01 AM", 23:00:00 is "11:00:00 PM", 0:00:00 is "Midnight", 12:00:00 is "Noon" |
| Project0.CardToVal | projects/examples/project0/solution.py:63-69 | the card is looked up by substring test, so only the empty card reaches int("") and fails |
| Project0.DigitSubstringParses | projects/examples/project0/solution.py:64-65 | every non-empty substring of "23456789" parses as a decimal number |
| Project0.CardToValDeck | projects/examples/project0/solution.py:51-57 | a deck card is worth its face value, ten for T, J, Q, K and eleven for the ace |
| Project0.ValWithAce | projects/examples/project0/solution.py:71-75 | the ace counts eleven when the other card is at most ten (never passing 21), else one |
| Project0.Blackjack2 | projects/examples/project0/solution.py:77-83 | the hand fails exactly when one of the cards is empty |
| Project0.DeckCardBounds | projects/examples/project0/solution.py:63-69 | a deck card is worth 2 to 11, and 11 only for the ace |
| Project0.Blackjack2AtMost21 | projects/examples/project0/solution.py:47-54 | two deck cards never score more than 21 |
| Project0.Blackjack3 | projects/examples/project0/solution.py:93-105 | the hand fails exactly when one of the cards is empty |
| Project0.Blackjack3AtMost21 | projects/examples/project0/solution.py:85-105 | three deck cards including an ace never score more than 21 |
| Project0.BlackjackExamples | projects/examples/project0/solution.py:62-92 | the documented examples: "5","K" score 15 and "5","K","5" score 20 |
| Project1.Tiles | projects/examples/project1/solution.py:26-27 | the cells merge acts on are the positive ones, kept in order |
| Project1.MergeTilesSnoc | projects/examples/project1/solution.py:27-37 | one more tile either starts the row, doubles the last tile when that one was not made by a merge and is equal, or is appended |
| Project1.Merge | projects/examples/project1/solution.py:19-38 | the left-to-right pass writing into `result` in place returns the merged row of the specification |
| Project1.MergeTilesLength | projects/examples/project1/solution.py:26-37 | merging never lengthens the tiles and at most halves them |
| Project1.MergeTilesSum | projects/examples/project1/solution.py:31-33 | merging keeps the sum of the tiles |
| Project1.MergeTilesPositive | projects/examples/project1/solution.py:27-37 | merged tiles stay positive |
| Project1.SumTiles | projects/examples/project1/solution.py:26-27 | dropping the zero cells of a non-negative row keeps its sum |
| Project1.MergeSpecProperties | projects/examples/project1/solution.py:19-38 | the row keeps its length, its nonzero cells form a prefix no longer than the positive tiles, and a non-negative row keeps its sum |
| Project1.MergeOnceExample | projects/examples/project1/solution.py:24-36 | a tile made by a merge is not merged again: [2,2,4,0] gives [4,4,0,0] |
| Project1.MergePairsExample | projects/examples/project1/solution.py:24-36 | four equal tiles merge in pairs: [2,2,2,2] gives [4,4,0,0] |
| Project1.MergeGapExample | projects/examples/project1/solution.py:24-36 | tiles merge across empty cells: [0,2,0,2] gives [4,0,0,0] |
| Project2.MakeCompleteGraph | projects/examples/project2/solution.py:26-48 | the nodes are exactly 0..n-1, each joined to every other node and not to itself; a non-positive count gives the empty graph |
| Project2.AddNeighbours | projects/examples/project2/solution.py:44-46 | the inner loop gives one node every node of the range except itself and leaves the other nodes as they were |
| Project2.InDegrees | projects/examples/project2/solution.py:50-68 | the in-degree table has exactly the graph's nodes as keys |
| Project2.InDegreesSum | projects/examples/project2/solution.py:64-66 | when every edge ends at a node, the in-degrees add up to the number of edges |
| Project2.PartialInDegreesAdd | projects/examples/project2/solution.py:64-66 | one pass of the inner loop adds the edges of one more node to the counts |
| Project2.CompleteGraphInDegrees | projects/examples/project2/solution.py:26-48 | a complete graph on n nodes has every edge ending at a node and every in-degree equal to n - 1 |
| Project2.ZeroDegrees | projects/examples/project2/solution.py:60-62 | every node starts at in-degree zero |
| Project2.CountEdgesOf | projects/examples/project2/solution.py:65-66 | each neighbour of a node gains one; a neighbour that is not a key raises KeyError |
| Project2.CountAllEdges | projects/examples/project2/solution.py:64-66 | the second loop succeeds exactly when every edge ends at a node, and then yields the in-degrees |
| Project2.ComputeInDegrees | projects/examples/project2/solution.py:50-68 | the result is the in-degree of every node; an edge to a missing node raises KeyError, and only then |
| Project2.Distribution | projects/examples/project2/solution.py:83-88 | the distribution's keys are the degrees that occur |
| Project2.DistributionAdd | projects/examples/project2/solution.py:84-88 | counting one more node raises the count of its degree by one, starting a new count at one |
| Project2.DistributionSum | projects/examples/project2/solution.py:81-90 | the counts add up to the number of nodes and each is at least one |
| Project2.InDegreeDistribution | projects/examples/project2/solution.py:70-90 | the result maps each in-degree that occurs to the number of nodes with it; a dangling edge raises KeyError |
| Project2.InDegreeDistributionSum | projects/examples/project2/solution.py:70-90 | the distribution counts every node once, with positive counts |
| ValidateTtt.ValidateBoard | base_set_generation/validation/examples/validate_ttt.py:17-32 | the counts are the numbers of "X" and "O" cells over all rows, and the board is valid exactly when the Xs equal the Os or exceed them by one |
| ValidateTtt.ValidateMmMove | base_set_generation/validation/examples/validate_ttt.py:1-15 | accepted exactly when the board is valid and the player is the one whose turn the counts say it is |
| ValidateTtt.ValidateMcUpdateScores | base_set_generation/validation/examples/validate_ttt.py:34-47 | accepted exactly when the board is valid and the game is over |
| ValidateTtt.ValidateGetBestMove | base_set_generation/validation/examples/validate_ttt.py:49-62 | accepted exactly when the board is valid and the game is still going |
| ValidateTtt.PlayerToMoveUnique | base_set_generation/validation/examples/validate_ttt.py:12-13 | a valid board has exactly one player to move and an invalid one none |
| ValidateTtt.CountMarksAppend | base_set_generation/validation/examples/validate_ttt.py:25-30 | counts over a board are the sums of the counts over its rows |
| ValidateTtt.CountInRowMarks | base_set_generation/validation/examples/validate_ttt.py:26-30 | each counted mark is a distinct cell: Xs and Os together never exceed the cells |
| ValidateTtt.CountInRowIgnores | base_set_generation/validation/examples/validate_ttt.py:26-30 | cells other than the counted mark leave its count unchanged |
| ValidateTtt.BoardPhases | base_set_generation/validation/examples/validate_ttt.py:34-62 | on a valid board exactly one of the two game-state validators accepts; on an invalid board neither does |
| ValidateGraphs.CheckNeighbours | base_set_generation/validation/examples/validate_graphs.py:11-19 | one node's neighbours pass exactly when each is a node of the graph and none is the node itself |
| ValidateGraphs.CheckGraph | base_set_generation/validation/examples/validate_graphs.py:8-21 | the loop over all nodes passes exactly when every edge passes the neighbour check |
| ValidateGraphs.ValidateDirectedGraph | base_set_generation/validation/examples/validate_graphs.py:1-21 | true exactly when every neighbour is a node and no node lists itself |
| ValidateGraphs.ValidateUndirectedGraph | base_set_generation/validation/examples/validate_graphs.py:62-87 | true exactly when, in addition, every edge is listed in both directions |
| ValidateGraphs.ValidateBfs | base_set_generation/validation/examples/validate_graphs.py:135-143 | true exactly when the graph is a valid undirected graph and the start node is one of its nodes |
| ValidateGraphs.ValidateResilience | base_set_generation/validation/examples/validate_graphs.py:159-168 | true exactly when the graph is a valid undirected graph and the list names distinct nodes of it |
| ValidateGraphs.DirectedVisit | base_set_generation/validation/examples/validate_graphs.py:34-52 | visiting one more node extends the description of the partial copy |
| ValidateGraphs.DirectedNeighbours | base_set_generation/validation/examples/validate_graphs.py:43-52 | the inner loop drops a self-loop and gives each absent neighbour, if not yet in the copy, a node pointing back |
| ValidateGraphs.DirectedRepair | base_set_generation/validation/examples/validate_graphs.py:33-52 | the outer loop builds the repaired copy of the whole graph |
| ValidateGraphs.MutateDirectedGraph | base_set_generation/validation/examples/validate_graphs.py:23-60 | always returns true and replaces the argument's contents by the repaired copy |
| ValidateGraphs.DirectedMutationValid | base_set_generation/validation/examples/validate_graphs.py:23-60 | the repaired graph is a valid directed graph, keeps every node, keeps each node's edges but its self-loop, and makes every formerly absent neighbour a node |
| ValidateGraphs.UndirectedNeighbours | base_set_generation/validation/examples/validate_graphs.py:110-125 | the inner loop drops a self-loop, creates absent neighbours and adds the missing reverse edges |
| ValidateGraphs.UndirectedVisitDone | base_set_generation/validation/examples/validate_graphs.py:101-125 | visiting one more node extends the description of the partial copy |
| ValidateGraphs.UndirectedVisit | base_set_generation/validation/examples/validate_graphs.py:101-125 | one turn of the outer loop keeps the description of the partial copy |
| ValidateGraphs.UndirectedRepair | base_set_generation/validation/examples/validate_graphs.py:100-125 | the outer loop builds the repaired copy of the whole graph |
| ValidateGraphs.MutateUndirectedGraphAsWritten | base_set_generation/validation/examples/validate_graphs.py:89-133 | always returns true and replaces the argument's contents by the copy the source builds, where an absent neighbour gets only the first node naming it |
| ValidateGraphs.MutateUndirectedGraph | base_set_generation/validation/examples/validate_graphs.py:89-133 | the corrected repair of the Findings row: always returns true and replaces the argument's contents by the copy in which an absent neighbour gets every node naming it |
| ValidateGraphs.UndirectedMutationValid | base_set_generation/validation/examples/validate_graphs.py:89-133 | the repaired graph is a valid undirected graph, keeps every node, and each node keeps its neighbours but itself and gains every node naming it |
| ValidateGraphs.SharedAbsentNeighbour | base_set_generation/validation/examples/validate_graphs.py:112-115 | as written, two nodes naming the same absent neighbour leave the result asymmetric, so not a valid undirected graph |
| ValidateGraphs.SharedAbsentNeighbourReached | base_set_generation/validation/examples/validate_graphs.py:112-115 | visiting 0 first on {0: {2}, 1: {2}} gives node 2 only the neighbour 0 |
| ValidateGraphs.MutateBfs | base_set_generation/validation/examples/validate_graphs.py:145-157 | repairs the graph as mutate_undirected_graph does as written (an absent neighbour gets only the first node naming it), then returns true exactly when the start node is a node |
| ValidateGraphs.MutateResilience | base_set_generation/validation/examples/validate_graphs.py:170-183 | repairs the graph as mutate_undirected_graph does as written, then returns true exactly when the list names distinct nodes of it |
| BsgGlobals.Keywords | base_set_generation/bsg_globals.py:22-25 | tuples and lists accept only "sorted", strings the five character-class modifiers, every other type none |
| BsgGlobals.ContainerTypesExactly | base_set_generation/bsg_globals.py:19 | the container types are exactly dict, list, set and tuple |
| BsgGlobals.MarkersDistinct | base_set_generation/bsg_globals.py:7-16 | the six modifier names and the two range roles are eight distinct strings |
| BsgGlobals.SortedOnlyForSequences | base_set_generation/bsg_globals.py:23-24 | "sorted" applies exactly to tuples and lists |
| ConfigSections.IndexOf | base_set_generation/config_file_parser.py:59 | list.index finds the first position holding the value, and nothing exactly when the value is absent |
| ConfigSections.IndexFrom | base_set_generation/config_file_parser.py:59 | the search from a position finds the first match at or after it, or reports that none is there |
| ConfigSections.FindSublines | base_set_generation/config_file_parser.py:50-67 | an unknown header raises KeyError, a start missing from the sorted starts raises ValueError |
| ConfigSections.ContentStarts | base_set_generation/config_file_parser.py:106-121 | each header's section starts on the line after the header |
| ConfigSections.ContentStartAt | base_set_generation/config_file_parser.py:58-59 | with headers in increasing order, each section start is found at its header's rank |
| ConfigSections.SublinesBetween | base_set_generation/config_file_parser.py:50-67 | a section runs from the line after its header up to the next section's start, or to the end of the file for the last section |
| ConfigSections.VarsFail | base_set_generation/config_file_parser.py:812-824 | a malformed line ends parse_vars' loop with its error |
| ConfigSections.ParseVars | base_set_generation/config_file_parser.py:804-825 | parse_vars' loop gives what its specification gives |
| ConfigSections.VarsFailLines | base_set_generation/config_file_parser.py:812-824 | parse_vars fails exactly when some nonblank line is malformed |
| ConfigSections.VarsDefined | base_set_generation/config_file_parser.py:812-824 | after parse_vars every nonblank line's variable is defined |
| ConfigSections.VarsLastLine | base_set_generation/config_file_parser.py:823 | each variable holds the range of the last line that names it |
| ConfigSections.ParseIntsOne | base_set_generation/config_file_parser.py:821-822 | one end that int() reads gives that number |
| ConfigSections.ParseIntsTwo | base_set_generation/config_file_parser.py:821-822 | two ends that int() reads give those two numbers in order |
| ConfigSections.RangeWord | base_set_generation/config_file_parser.py:820-822 | the text lo-hi of two natural numbers is one word that splits at '-' into lo and hi |
| ConfigSections.NatIntString | base_set_generation/config_file_parser.py:821-822 | int() reads back the decimal text of a natural number |
| ConfigSections.VarLineRange | base_set_generation/config_file_parser.py:819-823 | the line "name lo-hi" defines name as the range lo..hi, both ends included |
| ConfigSections.ValidationFail | base_set_generation/config_file_parser.py:224-237 | a malformed line ends parse_validation's loop with its error |
| ConfigSections.ParseValidation | base_set_generation/config_file_parser.py:217-239 | parse_validation's loop gives what its specification gives |
| ConfigSections.ImportLineOneNewline | base_set_generation/config_file_parser.py:231-237 | each validation line adds exactly one line of imports |
| ConfigSections.ValidationLineCount | base_set_generation/config_file_parser.py:224-239 | the import text has one line per nonblank validation line |
| ConfigSections.LStripSpace | base_set_generation/config_file_parser.py:231 | strip() removes the space after the comma |
| ConfigSections.ImportLineShape | base_set_generation/config_file_parser.py:231-237 | "file.py, fxn" becomes "from validation.file import fxn", with " as" and the alias when one is asked for |
| Bindings.Options | base_set_generation/test_case_generator.py:416-429 | a ranged candidate offers one single-pair option per value of its range, binding its name to that value |
| Bindings.MergeRangedAsWritten | base_set_generation/test_case_generator.py:412-439 | as written, the list branch compares the first option's whole (name, value) pair with each existing name, so it never rejects and returns the existing bindings |
| Bindings.RangedNeverRejects | base_set_generation/test_case_generator.py:415-439 | as written, x ranging over 1..2 merges with x already bound to 3, which the intended merge rejects |
| Bindings.RemoveFirst | base_set_generation/test_case_generator.py:433 | list.remove fails exactly when the element is absent |
| Bindings.RemoveFirstAt | base_set_generation/test_case_generator.py:433 | list.remove drops the first occurrence of the element |
| Bindings.UnmatchedNotBound | base_set_generation/test_case_generator.py:446-470 | a candidate binding left unmatched names nothing the existing bindings bind |
| Bindings.MatchStep | base_set_generation/test_case_generator.py:467-468 | removing a shared candidate binding from the pending ones leaves the unmatched ones before it and the rest after it |
| Bindings.MatchOne | base_set_generation/test_case_generator.py:454-468 | the inner loop over the existing bindings rejects only on a real clash and otherwise moves the candidate binding from pending to merged when its name is bound |
| Bindings.AddLeftover | base_set_generation/test_case_generator.py:472-478 | the final loop appends, in order, the existing bindings whose names the merged bindings do not bind |
| Bindings.PartitionMembers | base_set_generation/test_case_generator.py:444-470 | the shared and the other candidate bindings together are the candidate's bindings |
| Bindings.HasNameMember | base_set_generation/test_case_generator.py:474-477 | a name is bound exactly when some binding carries it |
| Bindings.PartitionNames | base_set_generation/test_case_generator.py:470-477 | the merged candidate bindings bind exactly the candidate's names |
| Bindings.LeftoverSameNames | base_set_generation/test_case_generator.py:472-478 | the leftover depends only on which names are bound |
| Bindings.CheckFixed | base_set_generation/test_case_generator.py:441-480 | the fixed branch rejects only on a clash, and with existing names bound once gives the merge: shared bindings, then the candidate's others, then the existing bindings of names the candidate lacks |
| Bindings.CheckRanged | base_set_generation/test_case_generator.py:412-439 | the corrected list branch rejects when the variable is already bound to a value outside its range, and otherwise keeps the existing bindings; an empty range raises IndexError |
| Bindings.CheckAgainstOthers | base_set_generation/test_case_generator.py:398-480 | check_against_others gives the merge its specification states, and rejects only what the specification rejects |
| Bindings.LeftoverMembers | base_set_generation/test_case_generator.py:472-478 | the leftover holds exactly the existing bindings whose names the candidate does not bind |
| Bindings.MergeFixedContents | base_set_generation/test_case_generator.py:441-480 | a merge keeps every candidate binding, keeps the existing bindings of names the candidate lacks, adds nothing else, and agrees with every existing binding of a shared name |
| Bindings.NoDupAppend | base_set_generation/test_case_generator.py:470-478 | two binding lists joined bind no name twice exactly when neither does and they share no name |
| Bindings.MatchedNoDup | base_set_generation/test_case_generator.py:444-470 | the shared and the other candidate bindings bind no name twice when the candidate does not |
| Bindings.LeftoverNoDup | base_set_generation/test_case_generator.py:472-478 | the leftover binds no name twice when the existing bindings do not |
| Bindings.MergeFixedNoDup | base_set_generation/test_case_generator.py:441-480 | merging binding lists that bind every name at most once binds every name at most once |
| Bindings.MatchedBound | base_set_generation/test_case_generator.py:461-468 | every shared candidate binding names something the existing bindings bind |
| Bindings.UnnamedMerge | base_set_generation/test_case_generator.py:449-451 | a candidate without constraining names is never rejected: the merge appends what it lacks |
| Bindings.UnnamedPartition | base_set_generation/test_case_generator.py:449-451 | such a candidate shares nothing |
| Bindings.RangedRejectsIffNoOption | base_set_generation/test_case_generator.py:412-439 | the corrected ranged merge rejects exactly when none of its options, merged as a fixed binding, would be accepted |
| ArgLists.ArgLists.constructor | base_set_generation/test_case_generator.py:549-567 | the list of combinations starts empty |
| ArgLists.RangedCombos | base_set_generation/test_case_generator.py:594-599 | a ranged candidate whose variable is still unbound adds one combination per value, each binding the variable to it |
| ArgLists.ExtendOpt | base_set_generation/test_case_generator.py:585-601 | the inner loop tries one candidate value against every combination, in order, and gives the combinations its specification gives |
| ArgLists.Extend | base_set_generation/test_case_generator.py:579-601 | the outer loop does so for every candidate value of the parameter, in order |
| ArgLists.StepOptFails | base_set_generation/test_case_generator.py:585-601 | an exception while prepending is the result of the whole inner loop |
| ArgLists.ExtendFails | base_set_generation/test_case_generator.py:579-601 | an exception in one candidate value is the result of the whole outer loop |
| ArgLists.GenerateArgLists | base_set_generation/test_case_generator.py:549-604 | the list of combinations is replaced by those its specification gives from the parameters' options |
| ArgLists.NamesOfMembers | base_set_generation/test_case_generator.py:595-596 | every binding's name is among the names of the bindings |
| ArgLists.AllNoDupAppend | base_set_generation/test_case_generator.py:598-601 | joining lists of combinations that bind no name twice keeps that property |
| ArgLists.StepComboNoDup | base_set_generation/test_case_generator.py:590-601 | prepending a value to a combination binds no name twice |
| ArgLists.StepOptNoDup | base_set_generation/test_case_generator.py:585-601 | prepending a value to every combination binds no name twice |
| ArgLists.ExtendNoDup | base_set_generation/test_case_generator.py:579-601 | one parameter's pass binds no name twice |
| ArgLists.GenNoDup | base_set_generation/test_case_generator.py:549-604 | when no option binds a name twice, no generated combination does |
| ArgLists.StepComboShaped | base_set_generation/test_case_generator.py:598-601 | a value prepended to a combination of the later parameters gives a combination of this parameter onwards |
| ArgLists.StepOptShaped | base_set_generation/test_case_generator.py:585-601 | so does prepending it to every such combination |
| ArgLists.ExtendShaped | base_set_generation/test_case_generator.py:579-601 | one parameter's pass keeps the combinations one candidate per parameter |
| ArgLists.GenShaped | base_set_generation/test_case_generator.py:549-604 | started from an empty list, every combination holds exactly one candidate value per parameter |
| ArgLists.ArgsAppend | base_set_generation/test_case_generator.py:598-601 | the argument tuples of joined lists are joined |
| ArgLists.StepOptUnnamed | base_set_generation/test_case_generator.py:585-601 | unnamed bindings never reject: the value is prepended to every tuple |
| ArgLists.ExtendUnnamed | base_set_generation/test_case_generator.py:579-601 | without names, a parameter's pass crosses its values with the tuples |
| ArgLists.GenCartesian | base_set_generation/test_case_generator.py:549-604 | with no named variable the generator raises nothing and yields the full cartesian product, the first parameter varying slowest |
| ArgLists.RangedCombosMembers | base_set_generation/test_case_generator.py:593-598 | the combinations a ranged candidate adds for an unbound variable are exactly the merged bindings with the variable bound to one of its values |
| ArgLists.StepComboMembers | base_set_generation/test_case_generator.py:588-601 | one candidate against one combination yields exactly the combinations that put the candidate first and carry the merge (plus a value of an unbound ranged variable) |
| ArgLists.StepOptMembers | base_set_generation/test_case_generator.py:585-601 | the inner loop yields exactly what the candidate makes of some combination of the list |
| ArgLists.ExtendMembers | base_set_generation/test_case_generator.py:579-601 | the outer loop yields exactly what some candidate of the parameter makes of some combination |
| ArgLists.GenMembers | base_set_generation/test_case_generator.py:549-604 | raising nothing, the generator yields a combination exactly when it takes one candidate per parameter and every merge along the way accepts its bindings (soundness and completeness) |
| ArgLists.CrossTwo | base_set_generation/test_case_generator.py:579-601 | crossing two values with tuples prepends the first to all, then the second to all |
| ArgLists.DocstringExample | base_set_generation/test_case_generator.py:559-560 | [[1, 2], [3, 4]] gives (1, 3), (1, 4), (2, 3), (2, 4) |
| ArgLists.ProductExample | base_set_generation/test_case_generator.py:559-560 | the product of [1, 2] and [3, 4] in that order |
| VarLookup.IntRange | base_set_generation/test_case_generator.py:95-102 | xrange(lo, hi) holds lo, lo + 1, ..., hi - 1, and nothing when hi <= lo |
| VarLookup.IntRangeMembers | base_set_generation/test_case_generator.py:95-102 | a number is in xrange(lo, hi) exactly when lo <= it < hi |
| VarLookup.VarLookup | base_set_generation/test_case_generator.py:73-111 | a literal domain is returned unnamed; a variable domain always names its variable; a range endpoint's variable has values |
| VarLookup.LookupEndpoint | base_set_generation/test_case_generator.py:88-103 | a range with a variable endpoint names the endpoint's role and variable |
| VarLookup.RangeDomain | base_set_generation/test_case_generator.py:84-89 | a domain "a-b" is split at the dash and both parts reach the endpoint lookup |
| VarLookup.SplitTwo | base_set_generation/test_case_generator.py:88-89 | splitting at the one separator gives the two parts |
| VarLookup.SplitNone | base_set_generation/test_case_generator.py:88-89 | a string without the separator splits into itself |
| VarLookup.LookupWhole | base_set_generation/test_case_generator.py:105-109 | a bare variable name gives its name, range and values, or KeyError when undefined |
| VarLookup.LookupEnd | base_set_generation/test_case_generator.py:91-96 | "lo-v" with lo a natural number: v ends the range, which runs from lo to v's last value |
| VarLookup.LookupStart | base_set_generation/test_case_generator.py:98-103 | "v-hi" with v not an integer: v starts the range, which runs from v's first value to hi |
| VarLookup.LookupEndOfRange | base_set_generation/test_case_generator.py:91-96 | for an end variable whose values run upward, the range ends at its largest value |
| VarLookup.LookupNegativeStart | base_set_generation/test_case_generator.py:84-89 | "lo-v" with a negative lo has two dashes, cannot be unpacked into two parts, and raises ValueError |
| VarLookup.Keep | base_set_generation/test_case_generator.py:234-240 | the filter keeps exactly the values on the asked side of the bound |
| VarLookup.PossibleVarnames | base_set_generation/test_case_generator.py:218-243 | one option per argument: an absolute variable binds exactly f(arg); a start variable may take each of its values up to f(arg), an end variable each from f(arg) |
| VarLookup.RangedOptionsShrink | base_set_generation/test_case_generator.py:231-241 | a range option of a smaller (start) or larger (end) argument keeps every value the other argument's option keeps |
| ExhaustiveStr.Unquote | base_set_generation/exhaustive_generator.py:127-129 | a quoted alphabet keyword loses its first and last character; a one-character keyword gives the empty alphabet |
| ExhaustiveStr.Alphabet | base_set_generation/exhaustive_generator.py:107-132 | no keyword gives the printable characters; otherwise the first of lower, upper, letters, digits, hexdigits present decides; else the first keyword, when quoted, is the alphabet; anything else raises |
| ExhaustiveStr.AlphabetRefused | base_set_generation/exhaustive_generator.py:127-132 | a lone unknown keyword that does not start with a quote raises ValueError |
| ExhaustiveStr.ExtendedMember | base_set_generation/exhaustive_generator.py:292-296 | a string is an extension exactly when its last character is in the domain and the rest is one of the shorter strings |
| ExhaustiveStr.StrPermsExactly | base_set_generation/exhaustive_generator.py:270-302 | the generated strings are exactly the strings over the domain whose length lies between the minimum (clamped to the recursion's reach) and the maximum |
| ExhaustiveStr.StrPermsStep | base_set_generation/exhaustive_generator.py:275-302 | one level of the recursion keeps that characterisation |
| ExhaustiveStr.StrPermsRange | base_set_generation/exhaustive_generator.py:270-302 | with 1 <= minimum <= maximum, exactly the strings over the domain with a length in that range |
| ExhaustiveStr.CreateStrPerms | base_set_generation/exhaustive_generator.py:270-302 | the generator gives that set; a negative maximum never reaches the base case and exhausts the stack |
| ExhaustiveStr.KeepLong | base_set_generation/exhaustive_generator.py:286-289 | the first loop keeps the shorter strings that reach the minimum length |
| ExhaustiveStr.AddExtensions | base_set_generation/exhaustive_generator.py:291-296 | the second loop adds every shorter string extended by every domain character |
| ExhaustiveStr.AddChars | base_set_generation/exhaustive_generator.py:293-296 | the inner loop adds one string extended by every domain character |
| ExhaustiveStr.ExtendedUnion | base_set_generation/exhaustive_generator.py:291-296 | extending a union is the union of the extensions |
| ExhaustiveProcess.NumberParam | base_set_generation/exhaustive_generator.py:57-96 | an int, bool or float parameter offers the values of its domain, each paired with the binding option POSSIBLE_VARNAMES gives it, no option binding a name twice; an empty domain list raises IndexError |
| ExhaustiveProcess.NumberWhole | base_set_generation/exhaustive_generator.py:57-67 | a domain that names a variable offers one option per value of the variable, binding the variable to that value |
| ExhaustiveProcess.StrVariableAsWritten | base_set_generation/exhaustive_generator.py:105-145 | as written, a string length domain that names a variable is split into its characters, which become the options, bound to nothing |
| ExhaustiveProcess.StrVariableIgnoresRange | base_set_generation/exhaustive_generator.py:105-145 | with a length variable n, the handler as written offers the one-character string "n" and binds nothing |
| ExhaustiveProcess.StrVariableOptions | base_set_generation/exhaustive_generator.py:98-149 | the corrected handler on a variable length domain offers only strings over the keyword's alphabet whose length is a value of the variable, each binding the variable to its length |
| ExhaustiveProcess.StrListingOptions | base_set_generation/exhaustive_generator.py:136-149 | the options listed from the generated strings are those strings, each bound to its length |
| ExhaustiveProcess.StrWholeListing | base_set_generation/exhaustive_generator.py:136-149 | on a whole variable the corrected handler lists every string of the variable's length range over the alphabet, once each |
| ExhaustiveProcess.StrDomainListing | base_set_generation/exhaustive_generator.py:136-149 | on any length domain whose lookup succeeds, the handler lists every string of the looked-up length range over the alphabet, once each |
| ExhaustiveProcess.TupParam | base_set_generation/exhaustive_generator.py:151-184 | a container parameter has one option per generated permutation, tagged with its container kind and carrying its bindings |
| ExhaustiveProcess.TupParamGood | base_set_generation/exhaustive_generator.py:151-184 | those options never bind a name twice |
| ExhaustiveProcess.DictParam | base_set_generation/exhaustive_generator.py:204-269 | a dict parameter has one option per generated dict permutation, carrying its keys, values and bindings |
| ExhaustiveProcess.DictParamGood | base_set_generation/exhaustive_generator.py:204-269 | those options never bind a name twice |
| ExhaustiveProcess.ClassParam | base_set_generation/exhaustive_generator.py:25-55 | a class parameter has one option per agreeing combination of its fields' options: the tuple of the field values, carrying the combination's bindings |
| ExhaustiveProcess.ClassParamGood | base_set_generation/exhaustive_generator.py:25-55 | those options never bind a name twice when the combinations do not |
| ExhaustiveProcess.Process | base_set_generation/test_case_generator.py:530-545 | processing a parameter runs the handler its first type layer names, and its options never bind a name twice |
| ExhaustiveProcess.ProcessStr | base_set_generation/exhaustive_generator.py:98-149 | the str handler gives what the corrected string specification allows: the explicit strings, or every string over the alphabet in the length range; an unknown keyword raises |
| ExhaustiveProcess.ProcessContainer | base_set_generation/exhaustive_generator.py:151-202 | the tuple, list and set handlers give the options of the permutations of the element options |
| ExhaustiveProcess.ProcessDict | base_set_generation/exhaustive_generator.py:204-269 | the dict handler gives the options of the dict permutations of the key and value options |
| ExhaustiveProcess.ProcessClass | base_set_generation/exhaustive_generator.py:25-55 | the class handler processes the fields in order and combines their options |
| ExhaustiveProcess.ProcessFields | base_set_generation/exhaustive_generator.py:41-42 | the fields are processed in order, one result per field, the first exception ending the loop |
| ExhaustiveProcess.ProcessField | base_set_generation/exhaustive_generator.py:41-42 | one round of the field loop appends the field's options to those before it |
| ExhaustiveProcess.FieldsRecStep | base_set_generation/exhaustive_generator.py:41-42 | a field processed without error extends the fields processed so far |
| ExhaustiveProcess.FieldsRecPersists | base_set_generation/exhaustive_generator.py:41-42 | an exception in one field is the result of the whole loop |
| ExhaustiveProcess.ProcessTypesRec | base_set_generation/test_case_generator.py:517-547 | every parameter is processed in turn, one list of possible arguments per parameter; fewer domains than types raises IndexError |
| ExhaustiveProcess.ProcessArg | base_set_generation/test_case_generator.py:526-545 | one round appends the parameter's possible arguments to those before it |
| ExhaustiveProcess.ArgsRecStep | base_set_generation/test_case_generator.py:526-545 | a parameter processed without error extends the parameters processed so far |
| ExhaustiveProcess.ArgsRecPersists | base_set_generation/test_case_generator.py:526-545 | an exception for one parameter is the result of the whole loop |
| ExhaustiveProcess.ProcessTypes | base_set_generation/test_case_generator.py:485-515 | process_types gives the first exception of processing, or every agreeing argument list once, each converted |
| ExhaustiveProcess.ValidatedMembers | base_set_generation/exhaustive_generator.py:668-686 | a case is kept exactly when validation accepted one of the generated cases and returned it |
| ExhaustiveProcess.ValidatedAll | base_set_generation/exhaustive_generator.py:668-686 | a validation that accepts every case unchanged keeps all of them in order |
| ExhaustiveProcess.KeepValid | base_set_generation/exhaustive_generator.py:668-686 | the filter loop keeps, in order, the accepted cases as validation returned them |
| ExhaustiveProcess.GenerateExhaustiveCases | base_set_generation/exhaustive_generator.py:656-695 | the exhaustive cases are what process_types gives, filtered by validation, or process_types' exception |
| ExhaustiveTup.Claim | base_set_generation/exhaustive_generator.py:431-435 | the claim the filter reads is one of the container's bindings |
| ExhaustiveTup.ClaimFindsName | base_set_generation/exhaustive_generator.py:431-435 | when a binding carries the searched name, the claim carries it too |
| ExhaustiveTup.ClaimUnique | base_set_generation/exhaustive_generator.py:431-435 | when names are not bound twice, the claim is the one binding of the searched name |
| ExhaustiveTup.FindClaim | base_set_generation/exhaustive_generator.py:431-435 | the loop over a container's bindings stops at the first with the searched name, else ends on the last |
| ExhaustiveTup.FilterKeepsShortClaim | base_set_generation/exhaustive_generator.py:440-443 | as written, with a whole length variable over 0 and 1, the filter keeps the empty container that claims length 1, which the described rule drops |
| ExhaustiveTup.FilterAsWrittenUngoverned | base_set_generation/exhaustive_generator.py:437-443 | the filter as written never fails on containers not governed by a variable |
| ExhaustiveTup.FilterKeys | base_set_generation/exhaustive_generator.py:424-443 | the filter loop keeps exactly the keys whose claim the described rule admits: unnamed, above the current bound, or satisfied by the length |
| ExhaustiveTup.OptGrowExtends | base_set_generation/exhaustive_generator.py:375-396 | every extension made under a ranged element's options is the container followed by the element, with merged bindings, in order |
| ExhaustiveTup.ExtUpToExtends | base_set_generation/exhaustive_generator.py:367-420 | every extension by any of the possible elements is such an extension |
| ExhaustiveTup.ExtendsShaped | base_set_generation/exhaustive_generator.py:385-420 | extending a well-shaped container keeps it well-shaped at the next bound |
| ExhaustiveTup.HelperShaped | base_set_generation/exhaustive_generator.py:328-446 | every permutation has the container's type, at most the bound's elements, all of them possible elements, non-decreasing under "sorted" and strictly increasing for a set |
| ExhaustiveTup.GrowAllShaped | base_set_generation/exhaustive_generator.py:358-420 | the extensions of well-shaped shorter containers are well-shaped |
| ExhaustiveTup.SetPermDistinct | base_set_generation/exhaustive_generator.py:392-395 | a set permutation has no repeated element |
| ExhaustiveTup.TupPermsLengths | base_set_generation/exhaustive_generator.py:304-326 | the permutations returned have lengths between the minimum and the bound and are well-shaped |
| ExhaustiveTup.WildMerge | base_set_generation/exhaustive_generator.py:401-402 | merging unnamed bindings into the (None, 0) binding leaves it alone |
| ExhaustiveTup.UnconstrainedExtUpTo | base_set_generation/exhaustive_generator.py:398-420 | without variables or ordering rules, the extensions of a container are it followed by each possible element |
| ExhaustiveTup.HelperUnconstrained | base_set_generation/exhaustive_generator.py:328-446 | without variables or ordering rules the helper gives every sequence of possible elements of the bound's length and every shorter one reaching the minimum |
| ExhaustiveTup.HelperUnconstrainedStep | base_set_generation/exhaustive_generator.py:344-422 | one level of the recursion keeps that characterisation |
| ExhaustiveTup.TupPermsUnconstrained | base_set_generation/exhaustive_generator.py:304-326 | without variables or ordering rules the permutations are exactly the sequences of possible elements whose length lies between the minimum and the bound |
| ExhaustiveTup.GrowClaim | base_set_generation/exhaustive_generator.py:379-420 | an extension keeps the claim invariant: the length variable's claim never falls below the container's length |
| ExhaustiveTup.OptGrowSome | base_set_generation/exhaustive_generator.py:379-396 | an extension under a ranged element comes from one of its options |
| ExhaustiveTup.ExtUpToSome | base_set_generation/exhaustive_generator.py:367-420 | an extension comes from one of the possible elements |
| ExhaustiveTup.ExtOneClaim | base_set_generation/exhaustive_generator.py:367-420 | an extension by one element keeps the claim invariant |
| ExhaustiveTup.HelperClaims | base_set_generation/exhaustive_generator.py:328-446 | every permutation the helper keeps satisfies the claim invariant |
| ExhaustiveTup.HelperClaimsStep | base_set_generation/exhaustive_generator.py:424-446 | a permutation kept at one level satisfies the claim invariant |
| ExhaustiveTup.BaseClaims | base_set_generation/exhaustive_generator.py:336-342 | the empty containers of the base case satisfy the claim invariant |
| ExhaustiveTup.GrowAllClaim | base_set_generation/exhaustive_generator.py:358-420 | every extension of containers satisfying the claim invariant satisfies it |
| ExhaustiveTup.TopLevelClaims | base_set_generation/exhaustive_generator.py:424-446 | when the bound is the largest value of the length variable, every container kept claims exactly its own length |
| ExhaustiveTup.ExtOneNoDup | base_set_generation/exhaustive_generator.py:379-420 | an extension never binds a name twice when neither the container nor the element does |
| ExhaustiveTup.HelperNoDup | base_set_generation/exhaustive_generator.py:328-446 | no permutation of the helper binds a name twice |
| ExhaustiveTup.BaseNoDup | base_set_generation/exhaustive_generator.py:336-342 | no base container binds a name twice |
| ExhaustiveTup.LevelNoDup | base_set_generation/exhaustive_generator.py:344-446 | one level of the recursion keeps names bound at most once |
| ExhaustiveTup.HelperNoDupStep | base_set_generation/exhaustive_generator.py:358-446 | a permutation kept at one level binds no name twice |
| ExhaustiveTup.TupPermsNoDup | base_set_generation/exhaustive_generator.py:304-326 | no container _create_tup_perms returns binds a name twice |
| ExhaustiveTup.CreateTupPerms | base_set_generation/exhaustive_generator.py:304-326 | the helper's permutations that reach the minimum length; a negative bound exhausts the stack |
| ExhaustiveTup.KeepMinimum | base_set_generation/exhaustive_generator.py:317-324 | the final loop keeps exactly the permutations that reach the minimum length |
| ExhaustiveTup.CreateTupPermsHelper | base_set_generation/exhaustive_generator.py:328-446 | the helper gives the described permutations; a negative bound never reaches the base case |
| ExhaustiveTup.HelperKeys | base_set_generation/exhaustive_generator.py:336-422 | before the filter: the base containers, or the shorter permutations kept and extended |
| ExhaustiveTup.BaseKeys | base_set_generation/exhaustive_generator.py:336-342 | the base case gives one empty container per value of the range, or one tagged (None, 0) |
| ExhaustiveTup.KeepAndGrow | base_set_generation/exhaustive_generator.py:358-420 | the loop over the shorter permutations keeps each long enough one and adds all its extensions |
| ExhaustiveTup.KeepAndGrowOne | base_set_generation/exhaustive_generator.py:358-420 | one pass adds the permutation when long enough and then its extensions |
| ExhaustiveTup.KeepGrowStep | base_set_generation/exhaustive_generator.py:358-420 | the kept-and-grown set of a union with one permutation adds exactly that pass |
| ExhaustiveTup.KeptAdd | base_set_generation/exhaustive_generator.py:361-362 | the kept set grows by the new permutation exactly when it reaches the minimum |
| ExhaustiveTup.GrowAllAdd | base_set_generation/exhaustive_generator.py:364-420 | the extensions of a union add exactly the new permutation's extensions |
| ExhaustiveTup.GrowTup | base_set_generation/exhaustive_generator.py:367-420 | the loop over the possible elements adds every extension of the permutation |
| ExhaustiveTup.GrowElem | base_set_generation/exhaustive_generator.py:370-420 | one element's pass adds the extensions by that element whose bindings agree |
| ExhaustiveTup.GrowRanged | base_set_generation/exhaustive_generator.py:379-396 | the loop over a ranged element's options adds the extensions under the options that merge |
| ExhaustiveTup.AddGrown | base_set_generation/exhaustive_generator.py:383-396 | under a successful merge the extension is added when new and in order |
| ExhaustiveDict.ValOptsExtends | base_set_generation/exhaustive_generator.py:545-553 | every dictionary added under a ranged value's options is the dictionary extended by the key and that value |
| ExhaustiveDict.ValExtExtends | base_set_generation/exhaustive_generator.py:537-563 | every dictionary added for one value is the dictionary extended by the key and that value |
| ExhaustiveDict.ValsUpToExtends | base_set_generation/exhaustive_generator.py:537-563 | every dictionary added in the value loop extends the dictionary by the key and one possible value |
| ExhaustiveDict.KeyOptsExtends | base_set_generation/exhaustive_generator.py:526-563 | every dictionary added under a ranged key extends the dictionary by that key and one possible value |
| ExhaustiveDict.KeyExtExtends | base_set_generation/exhaustive_generator.py:518-604 | every dictionary added for one key extends the dictionary by that key and one possible value |
| ExhaustiveDict.KeysUpToExtends | base_set_generation/exhaustive_generator.py:518-604 | every dictionary added in the key loop extends the dictionary by one key and one value |
| ExhaustiveDict.ExtendsShaped | base_set_generation/exhaustive_generator.py:632-651 | extending a well-shaped dictionary keeps it well-shaped at the next bound |
| ExhaustiveDict.DictGrowAllShaped | base_set_generation/exhaustive_generator.py:509-604 | the extensions of well-shaped shorter dictionaries are well-shaped |
| ExhaustiveDict.DictHelperShaped | base_set_generation/exhaustive_generator.py:474-630 | every dictionary of the helper has strictly increasing keys drawn from the possible keys, one possible value per key, and at most the bound's keys |
| ExhaustiveDict.DictHelperShapedStep | base_set_generation/exhaustive_generator.py:495-630 | a dictionary kept at one level is well-shaped |
| ExhaustiveDict.DictPermsShaped | base_set_generation/exhaustive_generator.py:448-472 | _create_dict_perms returns dictionaries of between the minimum and the bound's keys, one value per key, no key twice |
| ExhaustiveDict.DictHelperBase | base_set_generation/exhaustive_generator.py:483-493 | with a range of natural numbers, the base case keeps one empty dictionary per value of the range, or the one tagged (None, 0) |
| ExhaustiveDict.ValOptsNoDup | base_set_generation/exhaustive_generator.py:545-553 | a dictionary added under a ranged value binds no name twice |
| ExhaustiveDict.ValExtNoDup | base_set_generation/exhaustive_generator.py:537-563 | a dictionary added for one value binds no name twice |
| ExhaustiveDict.ValsUpToNoDup | base_set_generation/exhaustive_generator.py:537-604 | no dictionary added in the value loop binds a name twice |
| ExhaustiveDict.KeyOptsNoDup | base_set_generation/exhaustive_generator.py:526-563 | no dictionary added under a ranged key binds a name twice |
| ExhaustiveDict.KeyExtNoDup | base_set_generation/exhaustive_generator.py:518-604 | no dictionary added for one key binds a name twice |
| ExhaustiveDict.KeysUpToNoDup | base_set_generation/exhaustive_generator.py:518-604 | no dictionary added in the key loop binds a name twice |
| ExhaustiveDict.DictHelperNoDup | base_set_generation/exhaustive_generator.py:474-630 | no dictionary of the helper binds a name twice |
| ExhaustiveDict.DictBaseNoDup | base_set_generation/exhaustive_generator.py:483-493 | no base dictionary binds a name twice |
| ExhaustiveDict.DictLevelNoDup | base_set_generation/exhaustive_generator.py:495-630 | one level of the recursion keeps names bound at most once |
| ExhaustiveDict.DictHelperNoDupStep | base_set_generation/exhaustive_generator.py:509-630 | a dictionary kept at one level binds no name twice |
| ExhaustiveDict.DictPermsNoDup | base_set_generation/exhaustive_generator.py:448-472 | no dictionary _create_dict_perms returns binds a name twice |
| ExhaustiveDict.RangedValueUnbound | base_set_generation/exhaustive_generator.py:545-553 | as written, a first ranged value whose option merges fails reading new_combined_varnames, never assigned; the intended loop adds the dictionary under the option's merge |
| ExhaustiveDict.RangedValueStale | base_set_generation/exhaustive_generator.py:586-604 | as written, a ranged value after a fixed one is added with the fixed value's bindings; the intended loop gives it those of its own merge |
| ExhaustiveDict.DictPermSet.constructor | base_set_generation/exhaustive_generator.py:498 | the dictionary set starts empty |
| ExhaustiveDict.DictPermSet.AddToDict | base_set_generation/exhaustive_generator.py:632-651 | the set grows by the extended dictionary exactly when the key is greater than the last key, and by nothing else |
| ExhaustiveDict.AddOneShaped | base_set_generation/exhaustive_generator.py:641-648 | add_to_dict only adds dictionaries whose keys are strictly increasing and as many as their values |
| ExhaustiveDict.CreateDictPerms | base_set_generation/exhaustive_generator.py:448-472 | the helper's dictionaries that reach the minimum length; a negative bound exhausts the stack |
| ExhaustiveDict.KeepMinimum | base_set_generation/exhaustive_generator.py:463-470 | the final loop keeps exactly the dictionaries that reach the minimum length |
| ExhaustiveDict.CreateDictPermsHelper | base_set_generation/exhaustive_generator.py:474-630 | the helper gives the described dictionaries; a negative bound never reaches the base case |
| ExhaustiveDict.DictHelperKeys | base_set_generation/exhaustive_generator.py:483-606 | before the filter: the base dictionaries, or the shorter ones kept and extended |
| ExhaustiveDict.BaseDicts | base_set_generation/exhaustive_generator.py:489-493 | the base case gives one empty dictionary per value of the range, or one tagged (None, 0) |
| ExhaustiveDict.GrowDicts | base_set_generation/exhaustive_generator.py:509-604 | the loop over the shorter dictionaries keeps each and adds all its extensions |
| ExhaustiveDict.KeptAndGrownStep | base_set_generation/exhaustive_generator.py:509-604 | the kept-and-grown set of a union with one dictionary adds it and its extensions |
| ExhaustiveDict.GrowDict | base_set_generation/exhaustive_generator.py:518-604 | the loop over the possible keys adds every extension of one dictionary |
| ExhaustiveDict.GrowKey | base_set_generation/exhaustive_generator.py:519-604 | one key's pass merges its bindings with the dictionary's, then adds the extensions under every value |
| ExhaustiveDict.GrowWithKey | base_set_generation/exhaustive_generator.py:570-604 | under a key's successful merge the value loop adds that key's extensions |
| ExhaustiveDict.GrowVals | base_set_generation/exhaustive_generator.py:577-604 | the loop over the possible values adds the extensions by the key and each value |
| ExhaustiveDict.GrowVal | base_set_generation/exhaustive_generator.py:578-604 | a fixed value adds under its one merge, a ranged value under each of its merging options |
| ExhaustiveDict.GrowValOpts | base_set_generation/exhaustive_generator.py:586-594 | a ranged value's options each add under their own merge |
| ExhaustiveDict.AddValOpt | base_set_generation/exhaustive_generator.py:589-594 | one option adds the extension when its merge succeeds |
| ExhaustiveDict.FilterDicts | base_set_generation/exhaustive_generator.py:608-627 | the filter loop keeps exactly the dictionaries whose claim the described rule admits |
| Convert.AppendValue | base_set_generation/test_case_generator.py:199-216 | APPEND on values: a list or tuple gains the element at its end, a set gains it when hashable, anything else is returned unchanged; the kind of container never changes |
| Convert.AppendPair | base_set_generation/test_case_generator.py:213-214 | assigning a pair into a dict sets that key and leaves every other key as it was |
| Convert.PyObject.constructor | base_set_generation/test_case_generator.py:199-216 | a box holds the given value |
| Convert.Append | base_set_generation/test_case_generator.py:199-216 | APPEND changes a list, set or dict in place and returns the same object; a tuple gives a fresh object and leaves the old one; unhashable set members raise |
| Convert.ConvertSpec | base_set_generation/test_case_generator.py:165-197 | anything that is not a tuple is kept as it is |
| Convert.CheckConvert | base_set_generation/test_case_generator.py:165-197 | CHECK_CONVERT's loops give what the conversion specification gives |
| Convert.ConvertContainer | base_set_generation/test_case_generator.py:120-163 | CONVERT_CONTAINER's loops give what the container specification gives |
| Convert.FieldsFail | base_set_generation/test_case_generator.py:185-189 | an exception in one field is the result of the whole field loop |
| Convert.ElemsFail | base_set_generation/test_case_generator.py:159-161 | an exception in one element is the result of the whole element loop |
| Convert.DictFail | base_set_generation/test_case_generator.py:148-154 | an exception in one pair is the result of the whole pair loop |
| Convert.ConvertEncode | base_set_generation/test_case_generator.py:165-197 | converting the hashable form of a list or tuple value gives the value back, whatever the layers |
| Convert.ConvertEncodeAll | base_set_generation/test_case_generator.py:156-163 | converting the first k encoded elements of a list or tuple rebuilds its first k elements |
| Convert.ConvertSet | base_set_generation/test_case_generator.py:156-163 | converting the encoded set of hashable values gives the set of those values |
| Convert.ConvertSetPrefix | base_set_generation/test_case_generator.py:159-161 | the element loop over a set's encoding collects its first k values |
| Convert.MapOf | base_set_generation/test_case_generator.py:148-154 | the pairs assigned in order give a dict whose keys are exactly the assigned keys |
| Convert.MapOfDistinct | base_set_generation/test_case_generator.py:148-154 | with distinct keys, each key maps to the value at its own position |
| Convert.ConvertDict | base_set_generation/test_case_generator.py:137-154 | converting the encoded dict of equally many keys and values gives the dict of those pairs |
| Convert.ConvertDictPrefix | base_set_generation/test_case_generator.py:146-154 | the pair loop over the first n pairs gives the dict of those pairs |
| Convert.ConvertClass | base_set_generation/test_case_generator.py:182-191 | a tuple whose type is a known class becomes the tuple of its fields, each converted with its own field type, when its first field does not read as a container tag |
| Convert.ConvertFields | base_set_generation/test_case_generator.py:185-191 | the field loop over the first n encoded fields gives those fields |
| Convert.ClassReadAsContainer | base_set_generation/test_case_generator.py:174-180 | an instance of a known class whose first field is the string "set" is converted as a set |
| Convert.UnknownType | base_set_generation/test_case_generator.py:193-195 | a tuple whose type is neither a container nor a known class raises ValueError |
| Convert.ArgsFail | base_set_generation/test_case_generator.py:506-511 | an exception converting one argument is the result of the whole argument loop |
| Convert.ConvertArgList | base_set_generation/test_case_generator.py:504-513 | the loop converting one argument list converts each argument with its parameter's type |
| Convert.ConvertArgsEncode | base_set_generation/test_case_generator.py:504-513 | encoded list and tuple arguments convert back to themselves |
| Convert.ArgSet | base_set_generation/test_case_generator.py:499-500 | the deduplicated argument lists are exactly the argument tuples of the combinations |
| Convert.CombineAndConvert | base_set_generation/test_case_generator.py:493-515 | the generator's exception, or every distinct argument list once, each converted, or the first conversion's exception |
| ConfigTypes.EachTypeFail | base_set_generation/config_file_parser.py:435-462 | a layer that raises ends the layer loop with its error |
| ConfigTypes.EachTypeResult | base_set_generation/config_file_parser.py:435-462 | the layer loop fails exactly when some layer does, and otherwise keeps each layer's result in place |
| ConfigTypes.EachTypeFirstFailure | base_set_generation/config_file_parser.py:435-462 | the first failing layer decides the loop's error |
| ConfigTypes.StripAll | base_set_generation/config_file_parser.py:473 | every piece is stripped, in place |
| ConfigTypes.PySliceElements | base_set_generation/config_file_parser.py:479 | a slice of the piece list holds only pieces of it |
| ConfigTypes.KeyTypeNoColon | base_set_generation/config_file_parser.py:474 | a dict's key type, the text before the first colon, holds no colon |
| ConfigTypes.ValueTypeFewerColons | base_set_generation/config_file_parser.py:475-483 | a dict's value type has fewer colons than its line, so the recursion into it ends |
| ConfigTypes.AfterColonFewer | base_set_generation/config_file_parser.py:475-483 | what follows a line's first colon, rejoined and cut, has fewer colons than the line |
| ConfigTypes.ParseTypeLayers | base_set_generation/config_file_parser.py:426-462 | a line without a colon gives one layer per parenthesised piece, outermost first, its last word the type and the words before it the keywords |
| ConfigTypes.ParseTypeRejectsKeywords | base_set_generation/config_file_parser.py:454-458 | outside a class line, a layer with more than one keyword, or one its type does not accept and that is no quoted alphabet on a str, raises ValueError |
| ConfigTypes.ParseTypeUnknownType | base_set_generation/config_file_parser.py:441-446 | outside a class line, a layer whose type names no builtin raises ValueError |
| ConfigTypes.ParseTypeAcceptsKeyword | base_set_generation/config_file_parser.py:454-458 | a str layer may carry a quoted alphabet, and tuple and list layers the keyword sorted |
| ConfigTypes.FlatLayers | base_set_generation/config_file_parser.py:430-462 | the loop over a colon-free line's layers gives what its specification gives |
| ConfigTypes.DictLayers | base_set_generation/config_file_parser.py:497-537 | the loop over a dict line's layers reads the layers up to the dict's own, appends the key and value layers, and stops |
| ConfigTypes.ParseType | base_set_generation/config_file_parser.py:415-539 | _parse_type's loops give what its specification gives |
| ConfigTypes.ParseHalf | base_set_generation/config_file_parser.py:491-494 | a dict's key or value type is read as a one-line section |
| ConfigTypes.ParseLine | base_set_generation/config_file_parser.py:372-375 | one [types] line is parsed and then has its class placeholder replaced |
| ConfigTypes.UpdateClass | base_set_generation/config_file_parser.py:387-413 | _update_class replaces the class placeholder with the class's name and fields, also inside dict layers, and raises ValueError on more than one keyword |
| ConfigTypes.UpdateLayersFail | base_set_generation/config_file_parser.py:393-411 | a layer that raises ends the loop with its error |
| ConfigTypes.FieldsOf | base_set_generation/config_file_parser.py:379 | a class's fields keep their number, each field's layers wrapped in a list of one |
| ConfigTypes.BlockEnd | base_set_generation/config_file_parser.py:351-353 | the scan stops at the first line from its start that is not indented enough, or at the last line, and every line before it is indented |
| ConfigTypes.FindBlockEnd | base_set_generation/config_file_parser.py:351-353 | the scan loop stops where that specification says |
| ConfigTypes.ClassLineNext | base_set_generation/config_file_parser.py:351-359 | the corrected step after a class line goes on at or after that line, within the section |
| ConfigTypes.TypesRoundSpec | base_set_generation/config_file_parser.py:330-383 | each round of parse_types' loop moves forward |
| ConfigTypes.ClassRoundSpec | base_set_generation/config_file_parser.py:346-359 | a round on a class line moves forward |
| ConfigTypes.NextAfterClass | base_set_generation/config_file_parser.py:351-359 | the block scan and the check of the closing line give the corrected step |
| ConfigTypes.ClassRound | base_set_generation/config_file_parser.py:346-383 | one round on a class line gives what its specification gives |
| ConfigTypes.TypesRound | base_set_generation/config_file_parser.py:330-383 | one round of parse_types' loop gives what its specification gives |
| ConfigTypes.ParseTypes | base_set_generation/config_file_parser.py:297-385 | parse_types' while loop gives what its corrected specification gives |
| ConfigTypes.UpdateClassStrayName | base_set_generation/config_file_parser.py:409-411 | on "sorted list (class Point)", the code as written raises NameError while the corrected reading keeps the sorted list layer and inserts the class |
| ConfigTypes.HalfLosesClassName | base_set_generation/config_file_parser.py:491-494 | as written, the halves of a dict line read without the line's class name; the corrected reading passes it on |
| ConfigTypes.ClassLastLineUnbound | base_set_generation/config_file_parser.py:351-359 | a class line that ends its section reads an unset loop variable as written; the corrected step reads the line on its own |
| ConfigTypes.ClassLastLineStale | base_set_generation/config_file_parser.py:351-359 | after an earlier class line, a class line that ends its section reuses the stale `j` as written and sends the loop back to or before itself, so parse_types never returns |
| ConfigVals.EachValFail | base_set_generation/config_file_parser.py:649-706 | a layer that raises ends _parse_val's layer loop with its error |
| ConfigVals.EachValResult | base_set_generation/config_file_parser.py:649-706 | the layer loop fails exactly when a layer has no type layer beside it or its domain raises, and otherwise keeps each layer's domain in place |
| ConfigVals.KeyValNoColon | base_set_generation/config_file_parser.py:717-729 | the key half of a dict's domain text holds no colon |
| ConfigVals.ReplaceClass | base_set_generation/config_file_parser.py:608-613 | on a class line, every domain that names the class becomes the class's name with its fields' domains and every other domain is kept, in place |
| ConfigVals.ClassNameFromType | base_set_generation/config_file_parser.py:572 | the class name read from a type line is never empty |
| ConfigVals.NonEmptyWord | base_set_generation/config_file_parser.py:572 | the first word of a line with words is never empty |
| ConfigVals.FlatVals | base_set_generation/config_file_parser.py:649-706 | the loop over a colon-free line's layers gives what its specification gives |
| ConfigVals.DictVals | base_set_generation/config_file_parser.py:761-800 | the loop over a dict line's layers gives what its specification gives |
| ConfigVals.ParseVal | base_set_generation/config_file_parser.py:625-802 | _parse_val's loops give what its specification gives |
| ConfigVals.ReplaceClassInPlace | base_set_generation/config_file_parser.py:608-613 | the replacement loop gives that specification |
| ConfigVals.ParseHalfVals | base_set_generation/config_file_parser.py:742-746 | a dict's key or value domain is parse_vals on a one-line section |
| ConfigVals.PlainLayer | base_set_generation/config_file_parser.py:642-646 | a one-word line with no parenthesis is one layer, itself |
| ConfigVals.OneLayerLine | base_set_generation/config_file_parser.py:649-706 | such a line has exactly one domain, that of its only layer |
| ConfigVals.DashWord | base_set_generation/config_file_parser.py:669-672 | two plain words joined by '-' form one plain word |
| ConfigVals.NumberWord | base_set_generation/config_file_parser.py:681-682 | the decimal text of a natural number is a plain word that int() reads back as that number |
| ConfigVals.VarTextPlain | base_set_generation/config_file_parser.py:700-706 | a variable's name is a plain word that strip() keeps |
| ConfigVals.RangeParts | base_set_generation/config_file_parser.py:671-672 | a range a-b splits at its '-' into its two stripped ends |
| ConfigVals.RangeLine | base_set_generation/config_file_parser.py:669-698 | a range line lo-hi of natural numbers is the one domain lo..hi, both ends included |
| ConfigVals.RangeValParts | base_set_generation/config_file_parser.py:669-698 | the two ends of a range, neither holding a '-', are read on their own |
| ConfigVals.AnyStartLine | base_set_generation/config_file_parser.py:674-698 | a range with any for its start runs from -maxint |
| ConfigVals.AnyEndLine | base_set_generation/config_file_parser.py:676-698 | a range with any for its end runs up to maxint-1 |
| ConfigVals.VarEndLine | base_set_generation/config_file_parser.py:689-695 | lo-v with v a variable's name is kept as written when v is declared, and raises ValueError when it is not |
| ConfigVals.VarStartLine | base_set_generation/config_file_parser.py:681-687 | v-hi with v a variable's name is kept when v is declared, and raises ValueError when it is not, whatever hi is |
| ConfigVals.VarWholeLine | base_set_generation/config_file_parser.py:700-706 | a bare name as the whole domain is kept when it is declared or names a class, and raises ValueError otherwise |
| ConfigVals.AnyLine | base_set_generation/config_file_parser.py:653-663 | any as a whole domain is both booleans for a bool, every length 0..maxint/2-1 for a list, and every integer -maxint/2..maxint/2-1 otherwise, with maxint = 2^63-1 and Python's floor division |
| ConfigVals.FieldValsOf | base_set_generation/config_file_parser.py:615-617 | a class's fields keep their number and names, each field's domains wrapped in a list of one |
| ConfigVals.LineVals | base_set_generation/config_file_parser.py:603-621 | the end of a round adds exactly one entry, under the current field name |
| ConfigVals.ValsRoundSpec | base_set_generation/config_file_parser.py:556-621 | each round of parse_vals' loop moves forward, within the section |
| ConfigVals.ClassLineVals | base_set_generation/config_file_parser.py:574-586 | the corrected reading of the Findings row: the class's extent ends at or after its class line, within the section; a class line that ends its section stands alone |
| ConfigVals.ClassLineValsAsWritten | base_set_generation/config_file_parser.py:576-590 | the step as written: a class line that ends its section uses the j left by an earlier class line, or has none, and the block scan fixes where the round ends |
| ConfigVals.ClassLineValsAgree | base_set_generation/config_file_parser.py:576-590 | away from the section's last line the step as written and the corrected one agree on success, lines and extent |
| ConfigVals.ClassValsLastLineUnbound | base_set_generation/config_file_parser.py:576-590 | a first class line that ends its section raises UnboundLocalError as written and stands alone corrected |
| ConfigVals.ClassValsLastLineStale | base_set_generation/config_file_parser.py:576-590 | after an earlier class line, a class line that ends its section sends the loop back to or before itself, so parse_vals as written repeats forever |
| ConfigVals.ClassValsRoundSpec | base_set_generation/config_file_parser.py:571-590 | a round on a class line outside a class moves forward |
| ConfigVals.NextAfterClassVals | base_set_generation/config_file_parser.py:576-586 | the block scan and the check of the closing line give the class's extent |
| ConfigVals.AddLine | base_set_generation/config_file_parser.py:603-621 | the end of a round gives what its specification gives |
| ConfigVals.ClassValsRound | base_set_generation/config_file_parser.py:571-621 | one round on a class line outside a class gives what its specification gives |
| ConfigVals.ValsRound | base_set_generation/config_file_parser.py:556-621 | one round of parse_vals' loop gives what its specification gives |
| ConfigVals.ParseVals | base_set_generation/config_file_parser.py:541-623 | parse_vals' while loop gives what its specification gives |
| DeepEqual.AlreadySeen.constructor | utils/deep_equal.py:38-43 | the detector starts with no records |
| DeepEqual.AlreadySeen.IsLoop | utils/deep_equal.py:45-67 | the records and the answer are those of one detector step on the old records; an error leaves the records as they were |
| DeepEqual.LoopStepTrue | utils/deep_equal.py:57-59 | a loop is reported exactly when the reference container was paired before with this same test container, and nothing changes then |
| DeepEqual.LoopStepErrors | utils/deep_equal.py:60-63 | "missing circular reference" exactly when the reference container was paired with another test container; "unexpected circular reference" exactly when only the test container was seen before |
| DeepEqual.LoopStepValid | utils/deep_equal.py:64-67 | a new pair is recorded in both directions, every other record is kept, the records stay inverse, and meeting the pair again is recognised as a loop |
| DeepEqual.StrictFlagsTable | utils/deep_equal.py:137-146 | True sets every switch, False clears every switch, a dictionary overrides only the switches it names, anything else raises TypeError |
| DeepEqual.SetUpStrictTyping | utils/deep_equal.py:137-146 | the set-up loop, clearing the switches one by one, yields that table |
| DeepEqual.ZipSteps | utils/deep_equal.py:336-361 | the generator's loop pairs the elements in order, as many as the shorter side has, and raises a length error exactly when the lengths differ |
| DeepEqual.Zip | utils/deep_equal.py:298-361 | the pairs never outnumber either side, and each pair joins the elements at one position |
| DeepEqual.ZipOutcome | utils/deep_equal.py:298-361 | nothing is raised exactly when both sides are sequences, or both are non-sequences defining a length, of equal length |
| DeepEqual.ZipMixedRaises | utils/deep_equal.py:320-335 | zipping a sequence with a non-sequence raises, TypeError when the reference side is the sequence |
| DeepEqual.ZipUnsizedAsWritten | utils/deep_equal.py:317-327 | as written, two non-sequences without a length are zipped like sized ones, while the corrected generator raises TypeError |
| DeepEqual.ZipGen | utils/deep_equal.py:298-361 | the generator run to its end yields exactly what the zip specification gives |
| DeepEqual.KeyIndex | utils/deep_equal.py:176-177 | the lookup under a key finds the first entry whose key equals it by value (`True` equal to 1, strings by their characters, tuples element by element), whatever object holds it |
| DeepEqual.StrictTypeMismatchRaises | utils/deep_equal.py:207-221 | with every switch on, values of two different types are never compared: the comparison raises "invalid types" |
| DeepEqual.DeepEqualReflexive | utils/deep_equal.py:260-294 | a value compared with itself is equal to it under any switches, as long as every non-sequence in it defines a length |
| DeepEqual.DeepEqRefl | utils/deep_equal.py:260-289 | the dispatcher finds a value equal to itself, whatever pairs the detector holds for containers paired with themselves |
| DeepEqual.DictEqRefl | utils/deep_equal.py:150-179 | a dictionary compared with itself is equal |
| DeepEqual.IterEqRefl | utils/deep_equal.py:183-200 | an iterable compared with itself is equal |
| DeepEqual.DeepEqKeepsRecords | utils/deep_equal.py:260-289 | during a comparison that does not raise, the detector's records stay inverse and only grow |
| DeepEqual.DictEqTrueKeys | utils/deep_equal.py:156-179 | a dictionary found equal, other than as a recognised loop, is compared with a dictionary holding every reference key, and as many keys when "map_keys" is strict |
| DeepEqual.DictMissingKey | utils/deep_equal.py:169-173 | a reference key that no test key equals by value makes the dictionaries unequal, unless "map_keys" is strict and the key counts differ, which raises |
| DeepEqual.DictKeysByValue | utils/deep_equal.py:169-177 | a string key held in another object, and `True` against the key 1, find their entries, so such dictionaries are equal with every switch strict |
| DeepEqual.PairsEqTrueRaisedNothing | utils/deep_equal.py:197-200 | iterables found equal were zipped without a length error |
| DeepEqual.IterEqTrueLengths | utils/deep_equal.py:188-200 | iterables found equal, other than as a recognised loop, are of the same sequence-ness and of equal length |
| Tester.AddTo | tester.py:269-272 | the set under the key gains the element, a missing set is created, and every other key is unchanged |
| Tester.TestHelperFast | tester.py:145-179 | the subprocess's loop raises KeyError exactly when a case has no reference result; otherwise it lists each failed case once, and the flag is true exactly when none failed |
| Tester.Tester.constructor | tester.py:194-220 | the base set is kept, the case table numbers its cases by position, and all other tables start empty |
| Tester.Tester.CreateCaseMap | tester.py:222-228 | every case is filed under its position in the base set, and nothing else |
| Tester.RefStop | tester.py:181-188 | the first case whose reference run raised (ref_helper_fast then puts nothing on the queue), or the number of cases when none did |
| Tester.Tester.SolutionResults | tester.py:230-262 | blocks forever exactly when some reference run raised; otherwise, and before that case, the result of every case whose reference run returned is recorded, and no other (a timed-out case gets none) |
| Tester.Tester.UpdateFileCase | tester.py:264-267 | the submission's failure set gains the case, a missing set being created; nothing else changes |
| Tester.Tester.UpdateCaseFile | tester.py:269-272 | the case's set of failing submissions gains the submission; nothing else changes |
| Tester.Tester.RecordFailures | tester.py:309-311 | the loop records each failed case in both tables |
| Tester.Tester.TestFast | tester.py:274-318 | the tables become those after one test: removal without the function or on a timeout, failures recorded in both tables, and wrong or correct classification; blocked exactly when the subprocess dies on a KeyError |
| Tester.AfterTestIndexes | tester.py:300-311 | after a completed test file_case lists exactly the failed cases, each of which lists the submission in case_file, with case_file unchanged under other cases |
| Tester.AfterTestClassifies | tester.py:278-318 | a completed test puts a new submission in exactly one of wrong_set and correct_set, correct exactly when it passed every case; a missing function or a timeout puts it in remove_set unclassified |
| Tester.AfterTestConsistent | tester.py:274-318 | testing a submission under a fresh number keeps the two tables inverse and the classification in line with the failures |
| Tester.RunAllConsistent | tester.py:103-119 | over a whole corpus the tables stay consistent and every numbered submission is one of the corpus |
| ProgressionScheduler.SortByKeySorts | progression_scheduler.py:264 | the sort behind sorted() yields the pairs in non-decreasing key order, each pair as often as it was given |
| ProgressionScheduler.SortByKeyStable | progression_scheduler.py:264 | the sort is stable: pairs with equal keys keep their input order |
| ProgressionScheduler.SortByKeyRelabel | progression_scheduler.py:264-268 | the sort looks at keys only, so sorting positions and then reading the payloads sorts the payloads |
| ProgressionScheduler.SortedPositionsRange | progression_scheduler.py:264 | sorted(range(n), key=...) lists each position 0..n-1 once |
| ProgressionScheduler.SortedPositionsSelect | progression_scheduler.py:264-268 | reading the payloads at the sorted positions is the payloads sorted by their keys |
| ProgressionScheduler.Metrics | progression_scheduler.py:262-263 | the first loop of dict_sort yields one metric per candidate |
| ProgressionScheduler.MetricsLookUp | progression_scheduler.py:262-263 | the lookups raise exactly when a candidate has no file name or its file no metric; otherwise each candidate gets its file's metric |
| ProgressionScheduler.LookUpMetrics | progression_scheduler.py:261-263 | the loop building the metric list computes those lookups, stopping at the first IndexError or KeyError |
| ProgressionScheduler.DictSort | progression_scheduler.py:257-269 | dict_sort returns the candidates stably sorted by the metric of their file, or the first lookup error |
| ProgressionScheduler.DictSortOrders | progression_scheduler.py:257-269 | the result is a permutation of the candidates, non-decreasing in the metric, with candidates of equal metric in their input order |
| ProgressionScheduler.DictSortFails | progression_scheduler.py:262-263 | dict_sort fails exactly when some candidate lacks a file name or a metric |
| ProgressionScheduler.GroupsPartition | progression_scheduler.py:83-91 | every file is in the group of its own failure set and in no other, and no group is empty |
| ProgressionScheduler.GroupCorrectCount | progression_scheduler.py:83-91 | when failures are recorded only for known cases, a group's cases less its failures is the number each of its files passed |
| ProgressionScheduler.GroupsOfAdd | progression_scheduler.py:86-91 | one more file either joins the group of its failure set or starts it |
| ProgressionScheduler.GetMonitor | progression_scheduler.py:72-91 | the loop over file_case builds exactly the grouping by failure set, whatever order the keys are visited in |
| ProgressionScheduler.Passing | progression_scheduler.py:212 | the candidates kept are exactly those that ran correctly in under MAX_RUNTIME_S |
| ProgressionScheduler.PickTakesFirstPassing | progression_scheduler.py:199-218 | the loop with its picked counter keeps the first candidates that run, as many as may still be shown |
| ProgressionScheduler.PickBounded | progression_scheduler.py:199-218 | at most PROGRAMS_TO_DISPLAY candidates are picked, each of them ran, and a running candidate is skipped only when three were picked before it |
| ProgressionScheduler.PickCandidates | progression_scheduler.py:199-218 | the inner loop computes exactly those picks |
| ProgressionScheduler.OrderedSorts | progression_scheduler.py:226-227 | the groups are written from the fewest to the most correct cases, each once, with ties in visiting order |
| ProgressionScheduler.SelectForChooses | progression_scheduler.py:183-221 | when `list()` lists a group as its files: a signature is skipped exactly when it has fewer than MIN_SIGNATURE_SIZE files or fewer than MIN_NUM_FAILED failures; it fails exactly when a file of its group has no name or no metric; otherwise its correct count is the cases less its failures, and its picks are at most three files of its own group, each of which ran, fewer only when no other file of the group runs |
| ProgressionScheduler.SelectionsChoose | progression_scheduler.py:182-223 | the loop over the signatures fails exactly when a qualifying signature has an unmeasured file, and otherwise yields one selection per qualifying signature in visiting order, each chosen from that signature's group |
| ProgressionScheduler.CandidatesGroup | progression_scheduler.py:188 | `list(monitor[key])` lists exactly the group's files, so the candidates are measured exactly when the group is |
| ProgressionScheduler.QualifyingLists | progression_scheduler.py:183-193 | visiting each key of the monitor once visits each qualifying signature once, and only those |
| ProgressionScheduler.PickProgramsWrites | progression_scheduler.py:160-254 | when the monitor's keys are visited once each: every qualifying signature of the monitor gets exactly one selection, chosen from its own group, and what is written is those selections reordered by ascending correct cases |
| ProgressionScheduler.PickPrograms | progression_scheduler.py:181-254 | the loops of pick_programs compute the selections in writing order |
| ProgressionScheduler.CollectSelections | progression_scheduler.py:182-223 | the loop over the signatures collects the selections, stopping at the first dict_sort error |
| ProgressionScheduler.SelectOne | progression_scheduler.py:183-221 | the loop body applies the two size filters, dict_sort and the picking loop to one signature |
| RandomizedGenerator.GrownAppend | base_set_generation/randomized_generator.py:181-192 | an element the guard accepts keeps the container well grown |
| RandomizedGenerator.SortedGrown | base_set_generation/randomized_generator.py:187-191 | a sorted tuple or list grows non-decreasing |
| RandomizedGenerator.NonDecreasingStep | base_set_generation/randomized_generator.py:189 | appending an element no smaller than the last keeps a sequence non-decreasing |
| RandomizedGenerator.SetGrown | base_set_generation/randomized_generator.py:188-190 | a set without the sorted keyword grows with pairwise distinct elements |
| RandomizedGenerator.SortedSetRepeats | base_set_generation/randomized_generator.py:188-190 | with both sorted and set the guard lets a repeated element through |
| RandomizedGenerator.DistinctAppend | base_set_generation/randomized_generator.py:190-191 | appending a new element keeps the elements pairwise distinct |
| RandomizedGenerator.ContainerShape | base_set_generation/randomized_generator.py:158-212 | a drawn container is its type name with elements the guard passed, their number drawn from the length domain; a sorted one is non-decreasing and a set's elements are distinct |
| RandomizedGenerator.ContainerPieces | base_set_generation/randomized_generator.py:158-194 | a drawn container's length comes from its length domain and its elements from the guard |
| RandomizedGenerator.ContainerLengthBound | base_set_generation/randomized_generator.py:166-181 | a container whose length domain is a variable bound to x for the attempt has exactly x elements |
| RandomizedGenerator.NumberBound | base_set_generation/randomized_generator.py:61-69 | an int whose domain is a variable bound to x for the attempt is x |
| RandomizedGenerator.StrShape | base_set_generation/randomized_generator.py:103-149 | a drawn string takes its characters from the keyword's alphabet and its length from the length domain |
| RandomizedGenerator.DictShape | base_set_generation/randomized_generator.py:214-276 | a drawn dict has pairwise distinct keys and as many values as keys, their number drawn from the length domain |
| RandomizedGenerator.DrawNumber | base_set_generation/randomized_generator.py:61-101 | the randomized int, bool and float handlers draw from their domain |
| RandomizedGenerator.DrawStr | base_set_generation/randomized_generator.py:103-156 | the randomized str handler draws as StrDrawn says |
| RandomizedGenerator.DrawChars | base_set_generation/randomized_generator.py:145-149 | the character loop draws exactly length characters, none when length is not positive, each from the alphabet |
| RandomizedGenerator.DrawElems | base_set_generation/randomized_generator.py:181-192 | the element loop ends with exactly n elements the guard passed, or with an element's error |
| RandomizedGenerator.DrawContainer | base_set_generation/randomized_generator.py:158-212 | the randomized tuple, list and set handlers draw as ContainerDrawn says |
| RandomizedGenerator.DrawPairs | base_set_generation/randomized_generator.py:248-258 | the dict loop keeps a key and its value only when the key is new, until n keys are kept |
| RandomizedGenerator.DrawDict | base_set_generation/randomized_generator.py:214-276 | the randomized dict handler draws as DictDrawn says |
| RandomizedGenerator.DrawClass | base_set_generation/randomized_generator.py:28-59 | the randomized class handler draws the fields in order and gives their tuple |
| RandomizedGenerator.DrawFields | base_set_generation/randomized_generator.py:38-54 | one value is drawn per field, in order |
| RandomizedGenerator.DrawField | base_set_generation/randomized_generator.py:42-54 | one round of the field loop draws field i and appends it |
| RandomizedGenerator.FieldsDrawnStep | base_set_generation/randomized_generator.py:42-54 | a drawn field extends the fields drawn so far |
| RandomizedGenerator.FieldsDrawnPersists | base_set_generation/randomized_generator.py:42-54 | a field that raises ends the field loop with its error |
| RandomizedGenerator.Draw | base_set_generation/randomized_generator.py:262-275 | one draw for a parameter is made by the handler of its first type layer |
| RandomizedGenerator.StrVariableDrawnAsWritten | base_set_generation/randomized_generator.py:111-154 | with the length variable n bound to 3, the code as written draws the one-character string "n" where the length domain asks for three characters |
| RandomizedGenerator.DrawArgs | base_set_generation/randomized_generator.py:303-304 | one value is drawn per parameter, in order |
| RandomizedGenerator.DrawArg | base_set_generation/randomized_generator.py:303-304 | one round draws parameter i and appends it |
| RandomizedGenerator.ArgsDrawnStep | base_set_generation/randomized_generator.py:303-304 | a drawn parameter extends the parameters drawn so far |
| RandomizedGenerator.ArgsDrawnPersists | base_set_generation/randomized_generator.py:303-304 | a parameter that raises ends the loop with its error |
| RandomizedGenerator.RandomParams | base_set_generation/randomized_generator.py:69 | each randomized handler returns one value bound to nothing |
| RandomizedGenerator.RandomParamsGen | base_set_generation/randomized_generator.py:303-304 | generate_arg_lists on one unbound value per parameter gives the single list of those values |
| RandomizedGenerator.ProductSingletons | base_set_generation/randomized_generator.py:303-304 | the product of one-value options is the one list of those values |
| RandomizedGenerator.RandomCase | base_set_generation/randomized_generator.py:303-304 | process_types(...)[0] under the randomized handlers gives a case CaseDrawn allows |
| RandomizedGenerator.PickVariables | base_set_generation/randomized_generator.py:299-302 | the picks fail with IndexError exactly when some variable's range is empty, and otherwise bind each variable to one value of its range |
| RandomizedGenerator.Accept | base_set_generation/randomized_generator.py:312-334 | a case survives exactly when it passes validation, is nonempty and is not among the cases seen so far |
| RandomizedGenerator.InExisting | base_set_generation/randomized_generator.py:325-331 | the duplicate loop reports a duplicate exactly when the case is among those seen so far |
| RandomizedGenerator.Attempt | base_set_generation/randomized_generator.py:294-331 | one attempt gives nothing or a new, validated, nonempty case |
| RandomizedGenerator.Round | base_set_generation/randomized_generator.py:294-336 | a round keeps the cases found so far and adds at most one, keeping every kept case validated, new and outside the exhaustive cases |
| RandomizedGenerator.GenerateRandomCases | base_set_generation/randomized_generator.py:277-338 | generate_random_cases returns exactly the bound's number of cases, each nonempty, validated, outside the exhaustive cases and distinct from the others |

## Left out

- Reading and writing files: `parse_config_file` (base_set_generation/config_file_parser.py:69-215) reads the config file, writes the method specification and imports it; `gen_write_exhaustive_cases` and `gen_write_random_cases` write their output. The model starts from the section lines and returns the cases.
- `parse_constructors` (base_set_generation/config_file_parser.py:241-295) is not part of this model: its early exit returns a name that is never assigned, and nothing in the modelled core calls it.
- `parse_split` and everything about floats: a float domain is read as the integers it covers; `float_eq`, `date_eq` and the loose number branch of the deep comparison are left out.
- `ast.literal_eval` on an explicit `[...]` domain and `getattr(__builtin__, ...)` on a type name are oracles: the list is taken as given and the builtin names are an input set.
- `CONVERT_TYPES`, `CONVERT_CLASSES` and `UNCONVERT_CLASSES`: the parsed layers already hold the converted types, and validation (with any class conversion it needs) is an input function from a case to the case it accepts, if any.
- Randomness: `random.choice` is a nondeterministic choice; the model proves what holds for every choice, not how likely a choice is.
- RandomizedGenerator.GenerateRandomCases: the source loops without bound until enough cases are found; the model takes a fuel bound and may stop with Stalled, an outcome the source does not have.
- RandomizedGenerator.DrawElems: the rejection loop has the same fuel bound and may stop with Stalled.
- RandomizedGenerator.DrawPairs: the dict loop has the same fuel bound and may stop with Stalled.
- RandomizedGenerator.Draw: every handler it dispatches to may stop with Stalled under the fuel bound, and so may DrawContainer, DrawDict, DrawClass, DrawFields, DrawField, DrawArgs, DrawArg, RandomCase, Attempt and Round.
- The deep comparison's dispatch on objects (`_obj_eq`, utils/deep_equal.py:242-258, with its `__deep_equals__` hooks), on dates and on floats is left out; the `lower()` of string values in `_base_eq` is ASCII only; dictionary keys are matched by value for None, booleans, integers, strings and tuples, and by identity otherwise (frozenset keys are not matched by their elements).
- Multiprocessing, timeouts and timing in `tester.py` and `progression_scheduler.py`: running a submission, `test_candidate` and the measured run time are oracles; a `KeyError` inside the subprocess of `test_helper_fast` is modelled as the parent waiting forever.
- The radon complexity metrics and `program_length` of the scheduler are input maps; the scheduler's hash of a failure list is taken as injective, and two equal failure sets are taken to serialise alike, although `json.dumps(list(set))` follows the set's iteration order (progression_scheduler.py:84-85).
- Reading `allfilelist` from its file, and the dead expression `tuple(case_map[ind])` in `get_monitor`, are left out.
- `check_win` of the tic-tac-toe validators is an input function.
- The order in which `list(set(l))` lists a set in `validate_resilience` is an input, so its check is read as "no duplicates in that order".
- ExhaustiveProcess.Process: a builtin type other than int, bool, float, str, tuple, list, set and dict raises TypeError; the source hands its layer to `_process_class` (exhaustive_generator.py:166-169), which reads it as a class.

Members that follow a corrected reading of a Findings row (the as-written half of each row is modelled beside it, but the pipeline below is built on the corrected half, so these members promise what the source evidently intends, not what it does on the inputs the row names):

- Bindings.CheckRanged: is the corrected list branch of check_against_others; it rejects a ranged candidate whose variable is bound to a value outside its range, where the source as written (Bindings.MergeRangedAsWritten) never rejects.
- Bindings.CheckAgainstOthers: merges a ranged candidate with the corrected CheckRanged, so it rejects combinations the source accepts.
- ArgLists.GenerateArgLists: merges with the corrected CheckAgainstOthers, so it drops the combinations in which a ranged candidate disagrees with an existing binding, which the source keeps.
- ArgLists.GenMembers: characterises the generator over the corrected merge; with the source's merge, a ranged candidate would never be rejected.
- Convert.CombineAndConvert: takes its combinations from the corrected GenerateArgLists.
- ExhaustiveProcess.ProcessTypes: composes the corrected merge, the corrected length filters, the corrected dict value branch and the corrected str handler.
- ExhaustiveProcess.GenerateExhaustiveCases: its cases come from the corrected ProcessTypes.
- ExhaustiveProcess.Process: dispatches to the corrected str, tuple, list, set and dict handlers.
- ExhaustiveProcess.ProcessStr: gives a length variable's strings by its range; the source as written offers the characters of the variable's name (ExhaustiveProcess.StrVariableAsWritten).
- ExhaustiveProcess.StrDomainListing: holds for the corrected handler; for a length domain naming a variable the source lists the name's characters instead.
- ExhaustiveProcess.ProcessContainer: is built on the corrected length filter, without the source's `val >= length` disjunct (exhaustive_generator.py:440-442).
- ExhaustiveProcess.ProcessDict: is built on the corrected dict filter and value branch.
- ExhaustiveProcess.ProcessClass: processes each field with the corrected Process, so its options inherit the corrected str, container and dict handlers.
- ExhaustiveProcess.ProcessFields: processes each field with the corrected Process.
- ExhaustiveProcess.ProcessField: processes the field with the corrected Process.
- ExhaustiveProcess.ProcessTypesRec: processes each parameter with the corrected Process.
- ExhaustiveProcess.ProcessArg: processes the parameter with the corrected Process.
- ExhaustiveTup.FilterKeys: is the corrected length filter; the source also keeps every container whose claimed value is at least its length (ExhaustiveTup.FilterKeepsShortClaim).
- ExhaustiveTup.CreateTupPerms: keeps what the corrected FilterKeys keeps.
- ExhaustiveTup.CreateTupPermsHelper: its filter step is the corrected FilterKeys.
- ExhaustiveDict.FilterDicts: is the corrected dict length filter, without the source's `val >= length` disjunct (exhaustive_generator.py:624-626).
- ExhaustiveDict.CreateDictPerms: composes the corrected value branch and the corrected FilterDicts.
- ExhaustiveDict.CreateDictPermsHelper: its value loop and filter are the corrected ones.
- ExhaustiveDict.DictHelperKeys: grows the dictionaries with the corrected value loop (GrowVals).
- ExhaustiveDict.GrowDicts: grows each dictionary through GrowDict, so with the corrected value loop.
- ExhaustiveDict.GrowDict: grows the dictionary through GrowKey, so with the corrected value loop.
- ExhaustiveDict.GrowKey: grows the dictionary under each key option through GrowWithKey, so with the corrected value loop.
- ExhaustiveDict.GrowWithKey: runs the corrected value loop (ValsUpTo, GrowVals) with the key-combined bindings fixed.
- ExhaustiveDict.GrowVals: keeps the key-combined bindings fixed for every value; the source overwrites combined_varnames with each ranged option's merge (exhaustive_generator.py:550-553), which later options and values then see.
- ExhaustiveDict.GrowVal: adds a ranged value under each option's own merge; the source passes new_combined_varnames, unbound or stale (ExhaustiveDict.RangedValueUnbound, ExhaustiveDict.RangedValueStale).
- ExhaustiveDict.GrowValOpts: adds each option under its own merge, not the stale bindings.
- ExhaustiveDict.AddValOpt: is the corrected per-option add.
- ValidateGraphs.MutateUndirectedGraph: is the corrected repair; mutate_bfs and mutate_resilience are modelled over the repair as written (ValidateGraphs.MutateUndirectedGraphAsWritten).
- DeepEqual.Zip: raises on two non-sequences that define no length, where zip_gen only builds the error (DeepEqual.ZipUnsizedAsWritten) and goes on; DeepEqual.DeepEqual, the iterable comparison and Tester.CaseCorrect use this corrected zip.
- DeepEqual.ZipGen: yields what the corrected Zip gives.
- ConfigTypes.UpdateClass: inserts the class into a layer with a keyword, where the source raises NameError (ConfigTypes.UpdateClassStrayName).
- ConfigTypes.ParseHalf: passes the line's class name to each half of a dict line, which the source does not (ConfigTypes.HalfLosesClassName).
- ConfigTypes.ParseType: parses dict halves with the corrected ParseHalf.
- ConfigTypes.ParseLine: uses the corrected UpdateClass.
- ConfigTypes.ClassLineNext: reads a class line that ends its section on its own, where the source's `j` is unbound (ConfigTypes.ClassLastLineUnbound) or stale and sends the loop back (ConfigTypes.ClassLastLineStale).
- ConfigTypes.NextAfterClass: gives the corrected step of ClassLineNext.
- ConfigTypes.ClassRoundSpec: is built on the corrected ClassLineNext and UpdateClass, under which a class round always moves past its line; as written a section-ending class line may not (ConfigTypes.ClassLastLineStale).
- ConfigTypes.ClassRound: computes the corrected class round (ClassLineNext, UpdateClass).
- ConfigTypes.TypesRoundSpec: its "moves forward" holds for the corrected class round only; as written, a section-ending class line after an earlier one sends `i` back and parse_types never returns (ConfigTypes.ClassLastLineStale).
- ConfigTypes.TypesRound: computes the corrected round of parse_types.
- ConfigTypes.ParseTypes: its loop meets the corrected specification, built from the corrected ParseLine and ClassLineNext.
- ConfigVals.ClassLineVals: reads a class line that ends its section on its own, where the source raises UnboundLocalError or loops forever (ConfigVals.ClassLineValsAsWritten).
- ConfigVals.NextAfterClassVals: gives the corrected class extent of ClassLineVals.
- ConfigVals.ClassValsRoundSpec: is built on the corrected ClassLineVals, under which a class round always moves past its line.
- ConfigVals.ClassValsRound: computes the corrected class round of parse_vals.
- ConfigVals.ValsRoundSpec: its "moves forward" holds for the corrected class round only; as written the round can move back and parse_vals never returns (ConfigVals.ClassValsLastLineStale).
- ConfigVals.ValsRound: computes the corrected round of parse_vals.
- ConfigVals.ParseVals: uses the corrected ClassLineVals, so it returns on the inputs on which parse_vals raises or never returns.
- RandomizedGenerator.StrShape: states the length-from-domain property for the corrected draw; as written, a length domain naming a variable draws one character of the name (RandomizedGenerator.StrVariableDrawnAsWritten).
- RandomizedGenerator.DrawStr: makes the corrected variable-length draw.
- RandomizedGenerator.Draw: dispatches str to the corrected DrawStr.
- RandomizedGenerator.RandomCase: draws str values with the corrected DrawStr (its combination step binds no variable, so the merge never rejects there).
- RandomizedGenerator.DrawContainer: draws its elements with the corrected Draw, so a str element uses the corrected DrawStr.
- RandomizedGenerator.DrawDict: draws its keys and values with the corrected Draw.
- RandomizedGenerator.DrawClass: draws its fields with the corrected Draw.
- RandomizedGenerator.DrawFields: draws each field with the corrected Draw.
- RandomizedGenerator.DrawField: draws the field with the corrected Draw.
- RandomizedGenerator.DrawArgs: draws each parameter with the corrected Draw.
- RandomizedGenerator.DrawArg: draws the parameter with the corrected Draw.
- RandomizedGenerator.Attempt: draws its case through the corrected RandomCase.
- RandomizedGenerator.Round: draws its case through the corrected RandomCase.
- RandomizedGenerator.GenerateRandomCases: draws its cases through the corrected RandomCase, so str values use the corrected DrawStr.

## Findings

| source | as written | input that shows it | evidently intended | confidence | as-written member | corrected member |
|---|---|---|---|---|---|---|
| base_set_generation/test_case_generator.py:415,427 | the list branch of `check_against_others` compares a `(name, value)` pair with a name, so it never rejects | x in 1..2 merged with x already bound to 3 | reject when no option agrees with the existing binding | high, not executed | Bindings.RangedNeverRejects | Bindings.RangedRejectsIffNoOption |
| base_set_generation/exhaustive_generator.py:440-443 | the length filter keeps a container whenever the claimed value is at least its length | a whole length variable n over 0..1: the empty container claiming 1 is kept | keep a container that claims exactly its length (or is unnamed, or claims more than the current bound) | high, not executed | ExhaustiveTup.FilterKeepsShortClaim | ExhaustiveTup.TopLevelClaims |
| base_set_generation/exhaustive_generator.py:553 | the ranged value branch of the dict helper reads `new_combined_varnames` before any assignment | a dict whose only value option binds a variable by range | add the dict under that option's own merge | high, not executed | ExhaustiveDict.RangedValueUnbound | ExhaustiveDict.GrowVal |
| base_set_generation/exhaustive_generator.py:594 | after a fixed value option, the ranged branch reuses the stale `new_combined_varnames` of that option | a fixed value option followed by a ranged one | each option's dict carries its own merged bindings | high, not executed | ExhaustiveDict.RangedValueStale | ExhaustiveDict.GrowValOpts |
| utils/deep_equal.py:318,326 | `zip_gen` builds its errors without raising them | two non-sequences that define no length | raise the error | high, not executed | DeepEqual.ZipUnsizedAsWritten | DeepEqual.ZipOutcome |
| base_set_generation/validation/examples/validate_graphs.py:112-115 | an absent neighbour is created once, with only the first node that names it | {0: {2}, 1: {2}} | every node naming the absent neighbour becomes its neighbour, so the result is a valid undirected graph | high, not executed | ValidateGraphs.SharedAbsentNeighbour | ValidateGraphs.UndirectedMutationValid |
| base_set_generation/exhaustive_generator.py:105,143-145 | a string length domain naming a variable is split into its characters | a length variable n: the only option is the string "n" | strings over the alphabet whose lengths are values of n, bound to n | medium, not executed | ExhaustiveProcess.StrVariableIgnoresRange | ExhaustiveProcess.StrVariableOptions |
| base_set_generation/config_file_parser.py:409-411 | `_update_class` reads `class_name`, a name it never defines, on a layer with a keyword | sorted list (class Point) | keep the keyword layer and put the class in place of its placeholder | high, not executed | ConfigTypes.UpdateClassStrayName | ConfigTypes.UpdateClass |
| base_set_generation/config_file_parser.py:491-494 | the halves of a dict line are parsed without the line's class name | dict (int: class Point) | pass the class name on to both halves | medium, not executed | ConfigTypes.HalfLosesClassName | ConfigTypes.ParseHalf |
| base_set_generation/config_file_parser.py:351-359 | when a class line is the section's last line the scan loop never runs, so `j` is unbound, or after an earlier class line still holds that line's block end and sends `i` back (ConfigTypes.ClassLastLineStale) | a [types] section whose last line is a class line, with or without an earlier class line | read the class line on its own | high, not executed | ConfigTypes.ClassLastLineUnbound | ConfigTypes.ClassLineNext |
| base_set_generation/config_file_parser.py:576-590 | parse_vals scans for the end of a class's block with `for j in range(i+1, len(lines))`, which does not run for a class line that ends its section, so `j` is unbound or left over from an earlier class line | a [values] section whose last line is a class line: alone it raises UnboundLocalError; after an earlier class line the loop index moves back and parse_vals never returns | read the class line on its own | high, not executed | ConfigVals.ClassValsLastLineStale | ConfigVals.ClassLineVals |
| base_set_generation/randomized_generator.py:111-154 | a string length domain naming a variable is taken as the tuple of its characters, so the drawn string is one of the name's characters | a length variable n bound to 3: the drawn string is "n" | draw a length from the variable's values, then that many characters from the alphabet | medium, not executed | RandomizedGenerator.StrVariableDrawnAsWritten | RandomizedGenerator.StrShape |
