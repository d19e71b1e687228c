# Verified models of ApeRAG's chunking, flow, locking and storage logic

This project models the places of ApeRAG where correctness rests on an algorithm or a protocol
rather than on a library call, and proves what each of them is for.

| module group | files | what is modelled |
|---|---|---|
| Text splitter | `SplitterSpec`, `SplitterProofs`, `Splitter` | `SimpleSemanticSplitter`: levels of separators, the halving with an overlap found by bisection, the greedy re-merging |
| Rechunker | `RechunkSpec`, `RechunkProofs`, `RechunkShows`, `Rechunker` | `Rechunker`: grouping under headings, merging of title-only groups, the heading stack, packing under a token budget with cached counts, and what the output parts show |
| Flow engine | `FlowGraph`, `FlowSort`, `FlowLayers`, `FlowExecution` | Kahn's sort, the parallel groups, and group execution under every interleaving |
| Lease lock | `LeaseLock`, `LeaseLockProofs`, `LeaseLockEffects` | the Redis lock: `acquire`, `release`, the watchdog, lost requests and lost replies; what is kept in every run, and what requests and steps achieve |
| Markdown converter | `MarkdownSpec`, `MarkdownText`, `MarkdownLines`, `MarkdownProofs`, `MarkdownContents`, `MarkdownTables`, `MarkdownConverter` | the cursor over markdown tokens, its handlers and its context; where the text of every leaf is found again, the levels of headings, and the lines and columns of tables |
| Window splitter | `WindowSplitter` | `TextProcessor.split_text` |
| Graph persistence | `GraphIdentity`, `GraphPersistence`, `GraphPersistenceProofs`, `GraphMentions`, `GraphRelationTexts`, `GraphNormalization`, `GraphAliases` | names and aliases, chunk workers interleaving their queries on one entity store, what is stored when a chunk is done, what stored relations show, the grouping of a chunk's extraction, and shared aliases |
| Object store | `ObjectStore` | the local object store: path strings, the directory tree, and the map it stands for |

`Common` holds `Option`, Python's `strip` with what it means, and facts about sequences.

How the parts are modelled:

- Code that works by steps is imperative here too: loops with invariants, and classes where the source
  mutates objects (`Rechunker.Part` and `Rechunker.Group`, `MarkdownConverter.Context`,
  `ObjectStore.Local`). Each such method is proved equal to a function on values, about which the
  theorems are then stated, or is proved to have the promised property outright.
- The tokenizer is an arbitrary function from text to a count. The few theorems that need more say so
  in their `requires`: `SubstringMonotone`, `SuffixMonotone` or `Subadditive`.
- Where the source awaits between steps, every interleaving is covered: a run is a sequence of atomic
  steps of any participants (`FlowExecution.IsRun`, `LeaseLock.IsTrace`, `GraphPersistence.Run`).
- Node runners, `normalize_name`, `contains_cjk` and the type folding of the key digest are parameters.
  Time is a natural-number clock, and a UUID is a token not drawn before.

Where the code does less than its names and documentation suggest, the model follows the code:

- A paragraph break in the first half of a window keeps `split_text` from looking at the line breaks of
  the second half (`WindowSplitter.CutShortExactly`, with a concrete text in `LineBreakPassedOver`).
- Entity keys fold the entity type, so two types that differ only in case or width share a key.
  `GraphPersistenceProofs.EndpointsHaveTheirTypes` gives the exact types under the condition that no two
  types in use fold to the same text, and `FoldedTypesMixUp` builds, for every pair that does, a run
  after which a relation ends at an entity of the wrong type.
- Relation keys fold the relation's type and its fact as well, so relations between the same entities
  that differ only in what folding removes are one relation, which shows the text written last.
  `GraphRelationTexts.RelationsShowTheirTexts` gives the exact texts under the condition that no two
  relation texts in use fold together, and `FoldedTextsMixUp` builds, for every two that do, a run after
  which the first is overwritten.
- An alias need not belong to one entity of its type. `GraphAliases.MentionKeepsUnshared` says exactly
  when a search and the upsert after it keep aliases unshared, and `RaceSharesAlias` builds a run of two
  workers after which one is shared.
- The fence around a code block grows by at most ten backticks, so it is safe exactly for code without
  thirteen backticks in a row (`MarkdownText.FenceIsSafe`).
- Of a table head only the first row is kept: whatever rows follow it, the result is the same
  (`MarkdownContents.LaterHeadRowsAreLost`). The lines of every other leaf are
  found again, those of code without the blank space at its ends (`MarkdownContents.DocumentTextIsShown`).
- A listed object name denotes its object exactly when the path holds no backslash
  (`ObjectStore.ListedNameResolves`).
- `_topological_sort` reports a cycle for an empty flow as well, and a missing edge target is a failed
  dictionary lookup (`FlowSort.TopologicalSort`).

## Model

| member | source | states |
|---|---|---|
| SplitterSpec.GlueIsKeepSplit | aperag/docparser/chunking.py:340-342 | splitting at a separator and gluing it back is the same as cutting just after each occurrence |
| SplitterSpec.FindHits | aperag/docparser/chunking.py:340 | the search behind `str.split` finds the first occurrence, or there is none |
| SplitterProofs.ByFacts | aperag/docparser/chunking.py:336-343 | cutting at a level: the pieces rejoin to the text, none holds a separator of the level except at its end, every inner boundary follows a separator of the level |
| SplitterProofs.GreedyKeepsText | aperag/docparser/chunking.py:373-387 | merging keeps the text, for any tokenizer |
| SplitterProofs.GreedySizes | aperag/docparser/chunking.py:373-387 | every merged chunk is non-empty and fits, or is one of the given pieces |
| SplitterProofs.GreedyStaysAhead | aperag/docparser/chunking.py:373-387 | measured against any other grouping at the same piece, greedy merging is never more than its open chunk behind |
| SplitterProofs.GreedyIsOptimal | aperag/docparser/chunking.py:373-387 | no grouping of the pieces into consecutive runs, each of two or more pieces fitting, has fewer chunks |
| SplitterProofs.GreedyNeighboursDoNotFit | aperag/docparser/chunking.py:380-384 | no two neighbouring chunks of the greedy merging would fit together |
| SplitterProofs.BisectFits | aperag/docparser/chunking.py:363-371 | the suffix the bisection ends at fits, for any tokenizer |
| SplitterProofs.BisectIsLeftmost | aperag/docparser/chunking.py:363-371 | the bisection skips no fitting suffix |
| SplitterProofs.CutRightFits | aperag/docparser/chunking.py:358-371 | the overlap is a suffix that is empty or fits, for any tokenizer |
| SplitterProofs.CutRightIsLongest | aperag/docparser/chunking.py:358-371 | for a suffix-monotone tokenizer it is the longest fitting suffix |
| SplitterProofs.SplitPlan | aperag/docparser/chunking.py:314-356 | the chunks are renderings of a plan of slices that covers the text, every cut justified, at any level: after a separator of the level, or in the middle of a stretch, where the next slice restarts at the overlap |
| SplitterProofs.HalvesPlan | aperag/docparser/chunking.py:321-334 | the same for the halving branch: the cut is exactly in the middle and the right half starts with the overlap text inside the left one |
| SplitterProofs.NoTextLost | aperag/docparser/chunking.py:308-356 | for any tokenizer and overlap: slices run from the start to the end of the text without a gap, neighbours share at most an overlap text that fits the overlap budget, and text is cut only where a stretch did not fit: after a separator, or exactly in its middle with the next slice starting at the overlap |
| SplitterProofs.OverlapRestarts | aperag/docparser/chunking.py:321-334 | the right half begins with the longest overlap text that fits, for a suffix-monotone tokenizer; with no overlap at the cut |
| SplitterProofs.NeighboursDoNotFit | aperag/docparser/chunking.py:349-356 | for a substring-monotone tokenizer, no two neighbours in the answer of the recursive splitter would fit together |
| SplitterProofs.FewestChunks | aperag/docparser/chunking.py:344-356 | for a substring-monotone tokenizer, no grouping of the chunks one level down into consecutive runs that fit has fewer chunks than the answer |
| SplitterProofs.ChunksAreGrouping | aperag/docparser/chunking.py:344-356 | the answer is itself such a grouping, for any tokenizer |
| SplitterProofs.CoveredPosition | aperag/docparser/chunking.py:308-356 | every position of the text lies in one of the slices |
| SplitterProofs.WithoutOverlapChunksRejoin | aperag/docparser/chunking.py:314-356 | with no overlap the chunks concatenate to exactly the text |
| SplitterProofs.ChunksFit | aperag/docparser/chunking.py:314-356 | every chunk is non-empty and fits or is a single character |
| Splitter.CutRightSide | aperag/docparser/chunking.py:358-371 | the bisection loop computes the specified overlap |
| Splitter.MergeSmallChunks | aperag/docparser/chunking.py:373-387 | the merging loop computes the greedy merging |
| Splitter.SplitAtSeparator | aperag/docparser/chunking.py:337-343 | the loop over the chunks cuts each after every occurrence of the separator |
| Splitter.SplitAtLevel | aperag/docparser/chunking.py:336-343 | the loop over the separators of a level cuts after each of them |
| Splitter.RecursiveSplit | aperag/docparser/chunking.py:314-356 | the recursive method terminates and computes the specified chunks, of which no two neighbours fit together, and no grouping of what lies one level down is smaller (`NeighboursDoNotFit`, `FewestChunks`) |
| Splitter.SplitText | aperag/docparser/chunking.py:308-309 | `split` with the real separators: no text lost, exact without overlap, all chunks within the size or single characters; for a substring-monotone tokenizer no two neighbours would fit together, and the answer groups the chunks one level down into the fewest runs possible |
| RechunkProofs.SectionsKeepParts | aperag/docparser/chunking.py:105-133 | the groups hold exactly the non-empty parts, in order; each group but the first begins with a title outside lists and quotes, takes level and name from it, and holds no other such title |
| RechunkProofs.MergeKeepsItems | aperag/docparser/chunking.py:51-103 | title merging keeps every item and the order, and leaves no group empty |
| RechunkProofs.MergesAreRuns | aperag/docparser/chunking.py:57-101 | every merged group stands for one group, or for a run of title-only groups not above the first of which the last may instead have content not above it; it is headed by the first, and nothing more could be added to it |
| RechunkProofs.MergeSettles | aperag/docparser/chunking.py:71-91 | a title-only group that is left is last, or is followed by a group of a strictly higher heading |
| RechunkProofs.MergeIsIdempotent | aperag/docparser/chunking.py:51-103 | merging twice is merging once |
| RechunkProofs.GroupedInput | aperag/docparser/chunking.py:42-45 | grouping followed by title merging hands over all non-empty parts in order, with all titles settled |
| RechunkProofs.PopKeepsEnclosing | aperag/docparser/chunking.py:143-144 | popping the stack leaves exactly the headings that enclose the next group |
| RechunkProofs.StackIsPath | aperag/docparser/chunking.py:142-147 | after any number of groups the stack is the path of the enclosing headings |
| RechunkProofs.NamesAreTitles | aperag/docparser/chunking.py:147 | the titles are the names on the stack, one for each and in the same order |
| RechunkProofs.PathLevelsIncrease | aperag/docparser/chunking.py:142-147 | levels strictly increase along a heading path |
| RechunkProofs.BudgetedNeverSeals | aperag/docparser/chunking.py:194-202 | the pieces of a group within the budget are never sealed apart |
| RechunkProofs.PackRanges | aperag/docparser/chunking.py:190-212 | packing divides the pieces of a group into consecutive ranges, each of which ends at the first place where the next piece would exceed the budget or pieces of a split part end, and into one when the group is within the budget |
| RechunkProofs.RunLayout | aperag/docparser/chunking.py:142-217 | the loop invariant of `_rechunk`: sealed and open chunks account for all pieces so far, with their titles and places |
| RechunkProofs.ChunkStructure | aperag/docparser/chunking.py:135-235 | each chunk is a run of whole groups none of which is above the first, merged one after the other while there was room, or pieces of one group up to the first needed cut; every piece occurs once, in order; a group within the budget is not divided; the titles of a chunk are, one by one, the names of the headings on the path of its first piece; no chunk is sealed while more could go into it |
| RechunkProofs.RechunkStructure | aperag/docparser/chunking.py:42-45 | the same from the input parts on |
| RechunkProofs.RechunkKeepsPieces | aperag/docparser/chunking.py:42-45 | the pieces in the output are the non-empty input parts, large ones split, each once and in order |
| RechunkProofs.RechunkKeepsText | aperag/docparser/chunking.py:42-45 | without overlap the output holds every character of the input exactly once, in order |
| RechunkProofs.RangeIsTight | aperag/docparser/chunking.py:237-248 | the source range of a chunk is the least one around the ranges of its pieces, and missing only if all of theirs are |
| RechunkProofs.RechunkSizes | aperag/docparser/chunking.py:157-212 | for a subadditive tokenizer a chunk of m pieces exceeds the budget by at most m-1 separators, unless it is one single-character piece |
| RechunkShows.PiecesComeFromParts | aperag/docparser/chunking.py:174-188 | a piece is a part within the budget, or one of the split chunks of a larger one: then it is flagged, is no title, and keeps the other metadata |
| RechunkShows.JoinIsLaidOut | aperag/docparser/chunking.py:224-230 | the content of a chunk is its pieces in order with a blank line between neighbours, each at its place, and nothing else |
| RechunkShows.EveryChunkIsMadeOf | aperag/docparser/chunking.py:224-248 | chunk by chunk: no title, the text of its pieces, the titles on the heading path of the first (its own ones when no heading is above it), the least source range, and the flags of the first |
| Rechunker.ToGroups | aperag/docparser/chunking.py:105-133 | the grouping loop builds new group objects that show the specified sections |
| Rechunker.CollectTitles | aperag/docparser/chunking.py:66-83 | the inner loop collects exactly the run of title-only groups not above the first |
| Rechunker.AddContentGroup | aperag/docparser/chunking.py:85-91 | one more group with content is taken, if it is not above the titles |
| Rechunker.MergeTitleGroup | aperag/docparser/chunking.py:65-101 | a title-only group becomes a new group with all it is merged with, headed as before |
| Rechunker.MergeConsecutiveTitleGroups | aperag/docparser/chunking.py:51-103 | the merging loop shows the specified merged sections |
| Rechunker.CountPartTokens | aperag/docparser/chunking.py:276-283 | the count returned, and the cached one, is that of the current content |
| Rechunker.CountGroupTokens | aperag/docparser/chunking.py:266-275 | the group's count is the sum over its items, the parts keep their values, and their caches are right |
| Rechunker.MergeSourceMap | aperag/docparser/chunking.py:237-248 | the source range becomes the hull of both and nothing else changes |
| Rechunker.AppendPartToPart | aperag/docparser/chunking.py:224-235 | appending yields the chunk with one more piece, in place if there was one, and drops the stale cached count |
| Rechunker.AppendGroupToPart | aperag/docparser/chunking.py:219-222 | all items of a group are appended in order |
| Rechunker.SplitPart | aperag/docparser/chunking.py:176-188 | a part over the budget becomes new parts with its split chunks, any other stays itself |
| Rechunker.SplitLargeParts | aperag/docparser/chunking.py:174-188 | the loop expands all parts, and leaves the values of the input parts alone |
| Rechunker.PackPart | aperag/docparser/chunking.py:194-206 | one turn of the packing loop seals exactly when it must and appends the part |
| Rechunker.PackParts | aperag/docparser/chunking.py:190-212 | the packing loop computes the specified chunks and leaves the input parts' values alone |
| Rechunker.EnterHeading | aperag/docparser/chunking.py:143-147 | the stack loop enters a heading, and yields as titles the name of every heading on the stack, outermost first |
| Rechunker.MayMerge | aperag/docparser/chunking.py:149-159 | the decision to merge, taken with right counts that it caches |
| Rechunker.PlaceGroup | aperag/docparser/chunking.py:161-212 | the group is merged, or the open part is sealed and the group packed, with the state as specified |
| Rechunker.RechunkGroup | aperag/docparser/chunking.py:142-212 | one turn of the loop takes objects that show a state to objects that show the next state |
| Rechunker.RechunkGroups | aperag/docparser/chunking.py:135-217 | the loop returns new parts that show exactly the specified chunks |
| Rechunker.RechunkParts | aperag/docparser/chunking.py:21-25 | `rechunk`: new output parts, cached counts right, for which there is a layout: every piece of the grouped input is in one part, in order, and each part has the text, the titles on the heading path, the source range and the flags of the pieces at its place |
| FlowGraph.InCountZero | aperag/flow/engine.py:201 | an in-degree is zero exactly when every predecessor is done |
| FlowGraph.StuckHasCycle | aperag/flow/engine.py:204-205 | a set of nodes each with a predecessor in the set holds a directed cycle |
| FlowSort.InDegrees | aperag/flow/engine.py:182-184 | the dictionary counts the edges into each node, parallel ones and loops included; it fails exactly on an unknown target |
| FlowSort.InitialQueue | aperag/flow/engine.py:187 | the queue starts with exactly the nodes of in-degree 0 |
| FlowSort.ReleaseSuccessors | aperag/flow/engine.py:197-202 | the edge loop queues exactly the nodes that reach in-degree 0, each once |
| FlowSort.SortStep | aperag/flow/engine.py:193-202 | the invariant of the main loop |
| FlowSort.SortEnds | aperag/flow/engine.py:204-207 | when the queue is empty, as many nodes sorted as there are means a topological order |
| FlowSort.LeftoverHasCycle | aperag/flow/engine.py:204-205 | otherwise the rest holds a cycle |
| FlowSort.OrderExcludesCycles | aperag/flow/engine.py:169-180 | a topological order excludes cycles and unknown sources |
| FlowSort.TopologicalSort | aperag/flow/engine.py:169-207 | it succeeds if and only if the flow is non-empty, its edges join known nodes and it is acyclic; the result is then all nodes once with every edge forward; on a cycle error with nodes there is a cycle |
| FlowLayers.HasPathIsPath | aperag/flow/engine.py:209-218 | the depth used for layers counts real paths |
| FlowLayers.ReadyAreNextLayer | aperag/flow/engine.py:230-232 | the ready nodes of a round are exactly those whose longest incoming path has as many edges as there were rounds |
| FlowLayers.SomeNodeIsReady | aperag/flow/engine.py:233-234 | the `break` is dead |
| FlowLayers.ProcessGroup | aperag/flow/engine.py:237-241 | marking a group, in any order of its nodes, leaves the in-degrees right |
| FlowLayers.FindParallelGroups | aperag/flow/engine.py:209-242 | the groups are exactly the longest-path layers, none is empty, and every node is in one |
| FlowLayers.GroupsAreDisjoint | aperag/flow/engine.py:228-241 | no node is in two groups |
| FlowLayers.EdgesAscend | aperag/flow/engine.py:228-241 | every edge leads to a strictly later group |
| FlowLayers.LayersRespectEdges | aperag/flow/engine.py:228-241 | the groups are a schedule that respects the edges |
| FlowLayers.NoFewerRounds | aperag/flow/engine.py:209-210 | no schedule that respects the edges has fewer rounds or runs a node earlier |
| FlowExecution.PlanFlow | aperag/flow/engine.py:135-140 | sorting and grouping together: a plan exactly for the flows that can run |
| FlowExecution.AncestorsAreEarlier | aperag/flow/engine.py:228-241 | all ancestors of a node are in strictly earlier groups |
| FlowExecution.RunProgress | aperag/flow/engine.py:139-140 | in every run, outputs are set for all earlier groups and for no later one |
| FlowExecution.StartsAfterAncestors | aperag/flow/engine.py:244-256 | in every run, failed ones included, a node starts only after all its ancestors, so all its predecessors, have set their outputs |
| FlowExecution.NeverStuck | aperag/flow/engine.py:244-256 | a run without failures can go on until the last group is done |
| FlowExecution.RunsAreBounded | aperag/flow/engine.py:244-256 | no run, failed or not, has more than two steps for each node and one for each group |
| FlowExecution.StoppedRunsAreComplete | aperag/flow/engine.py:135-140 | a run that fails nowhere and cannot go on has done all groups, with the outputs of sequential execution |
| FlowExecution.LenientSolves | aperag/flow/engine.py:387-411 | running nodes one by one, skipping those below a failure, solves the equations that runners and templates state |
| FlowExecution.SequentialIsLenient | aperag/flow/engine.py:387-411 | where nothing fails this is plain sequential execution, which fails otherwise |
| FlowExecution.RunIsConsistent | aperag/flow/engine.py:244-256 | every state of every interleaving agrees with that solution, and a node fails only where the solution has none |
| FlowExecution.ScheduleIndependence | aperag/flow/engine.py:135-140 | a run that completes has the outputs of running the nodes one by one in any topological order, each what its runner returns on the inputs bound from these outputs; and if that order does not fail no run does |
| LeaseLockProofs.StepKeepsInv | aperag/concurrent_control/redis_lock.py:61-76 | every step of any client, watchdog, server, clock or loss keeps the invariant that ties key, leases, requests and local state |
| LeaseLockProofs.TraceKeepsInv | aperag/concurrent_control/redis_lock.py:119-230 | the invariant holds in every state of every run |
| LeaseLockProofs.ProtectedHasKey | aperag/concurrent_control/redis_lock.py:152-169 | an instance that holds the lock locally, has not begun its release and was granted or renewed less than `expire` ago has its own token in the store |
| LeaseLockProofs.MutualExclusion | aperag/concurrent_control/redis_lock.py:152-169 | no two instances are ever in that state together |
| LeaseLockProofs.RequestsTouchOwnKeyOnly | aperag/concurrent_control/redis_lock.py:61-76 | a release or renewal, however late, changes the key only if it holds its own token; a SET only if no lease is running (what they then do is in `LeaseLockEffects`) |
| LeaseLockProofs.RenewalKeepsLock | aperag/concurrent_control/redis_lock.py:286-313 | while SETs and renewals succeed in time, the store holds the token, every renewal returns 1 and no SET succeeds |
| LeaseLockProofs.AttemptsAreBounded | aperag/concurrent_control/redis_lock.py:140-192 | an `acquire` sends at most `retry_times` + 1 SETs, whatever is lost |
| LeaseLockProofs.FailedAcquireLapses | aperag/concurrent_control/redis_lock.py:184-192 | an `acquire` that returned False can leave only its own key, which no instance holds and which lapses within `expire` |
| LeaseLockEffects.ReleaseDeletes | aperag/concurrent_control/redis_lock.py:61-67 | in every run, an executed release deletes the key and returns 1 if the key holds its token, else it returns 0 and leaves the key |
| LeaseLockEffects.SetTakesFreeLock | aperag/concurrent_control/redis_lock.py:150-158 | in every run, an executed SET takes the lock for a full lease and succeeds exactly when no lease is running |
| LeaseLockEffects.RenewExtends | aperag/concurrent_control/redis_lock.py:70-76 | in every run, an executed renewal gives a full lease again exactly if the key holds its token |
| LeaseLockEffects.TraceKeepsReleases | aperag/concurrent_control/redis_lock.py:194-230 | an invariant of every run: a token has one release request, executed at most once, and until then its running lease is in the store |
| LeaseLockEffects.TimelyReleaseDeletes | aperag/concurrent_control/redis_lock.py:209-216 | a release executed while its lease is running finds its own key: it deletes it and returns 1 |
| LeaseLockEffects.StaysAbsent | aperag/concurrent_control/redis_lock.py:61-76 | in every run, only a SET fills an absent key |
| LeaseLockEffects.ReleaseFreesLock | aperag/concurrent_control/redis_lock.py:194-230 | after a release executed in time the next SET executed, whoever sent it, is granted and takes the lock for a full lease |
| LeaseLockEffects.FreeLockCanBeAcquired | aperag/concurrent_control/redis_lock.py:140-169 | after any run in which no lease is running, an idle instance can acquire the lock and is then protected |
| LeaseLockEffects.ProtectedCanRelease | aperag/concurrent_control/redis_lock.py:194-230 | after any run, a protected instance can release the lock; the key is then gone and the instance holds nothing |
| LeaseLockEffects.ProtectedCanRenew | aperag/concurrent_control/redis_lock.py:293-313 | after any run, a protected instance with a sleeping watchdog can renew its lease for the full time from now |
| LeaseLockEffects.WatchdogGuardsLock | aperag/concurrent_control/redis_lock.py:286-313 | a watchdog started on a protected instance renews the lease of that instance |
| LeaseLockEffects.LapsedLockIsNoticed | aperag/concurrent_control/redis_lock.py:304-307 | when the lease has lapsed the next renewal returns 0, the watchdog stops and the instance no longer counts as locked |
| MarkdownText.SplitOfJoined | aperag/docparser/parse_md.py:216-218 | splitting at line ends takes apart exactly what joining put together |
| MarkdownText.EveryLinePrefixed | aperag/docparser/parse_md.py:215-218 | quoting and indenting put the prefix before every line of the content and change nothing else |
| MarkdownText.MarkerOnFirstLineOnly | aperag/docparser/parse_md.py:347-356 | an item's first line gets the marker, every other as many spaces |
| MarkdownText.FenceIsSafe | aperag/docparser/parse_md.py:223-232 | the fence occurs in the code if and only if the code has thirteen backticks in a row |
| MarkdownText.CellStaysInPlace | aperag/docparser/parse_md.py:431-436 | an escaped cell has no line break and no bar without a backslash before it |
| MarkdownProofs.BlockRefines | aperag/docparser/parse_md.py:128-141 | converting the tokens of a block, whatever follows, gives the meaning of the block, consumes exactly its tokens, and moves the counter only past a numbered item |
| MarkdownProofs.ChildrenRefine | aperag/docparser/parse_md.py:154-166 | converting up to the close gives the children's parts in order and stops just past the matching close |
| MarkdownProofs.FoldSlots | aperag/docparser/parse_md.py:97-105 | only the items of ordered lists depend on their number |
| MarkdownProofs.OthersKeepOrdinal | aperag/docparser/parse_md.py:323-334 | blocks other than the items of an ordered list leave the counter alone, whatever lists they hold |
| MarkdownProofs.DocumentRefines | aperag/docparser/parse_md.py:143-152 | `convert_all` on a well-bracketed stream is structural recursion on its block tree, in which the text of every leaf is found again (`MarkdownContents`) |
| MarkdownProofs.NestingIsDepth | aperag/docparser/parse_md.py:80-105 | part by part: `md_nesting` is the depth of the block plus the number of blockquotes, lists and tables on the path to the leaf, heading, item or table that emitted the part; the part has its source lines, and in order the text lines of all leaves in it |
| MarkdownProofs.DocumentNesting | aperag/docparser/parse_md.py:80-105 | the same for the whole document, from depth 0 |
| MarkdownProofs.ItemsAreNumbered | aperag/docparser/parse_md.py:323-350 | the k-th item of an ordered list begins with the label k, whatever lists it and the items before it hold |
| MarkdownProofs.ItemHasItsMarker | aperag/docparser/parse_md.py:323-378 | every item begins with its marker: before the first line inside it, or in a part of its own where the item is empty or begins with code |
| MarkdownContents.PartsInDocumentOrder | aperag/docparser/parse_md.py:154-166 | parts come in the order of the blocks that emit them, and no block emits two |
| MarkdownContents.LeafIsShown | aperag/docparser/parse_md.py:128-166 | in a well-formed block every line of every leaf is found, in order, in the part emitted at its place: by the leaf itself, or by the outermost heading or table around it; lines are escaped in table rows only |
| MarkdownContents.DocumentTextIsShown | aperag/docparser/parse_md.py:143-152 | the same for every leaf of a document, rows of a table head after the first excepted |
| MarkdownContents.LaterHeadRowsAreLost | aperag/docparser/parse_md.py:410-422 | of a table head only the first row counts: whatever rows follow it, the result is the same |
| MarkdownContents.PartIsExact | aperag/docparser/parse_md.py:195-220 | the exact text of a leaf, heading or table under quotes and lists: its own lines, each after what the quotes and items around it put before it; code is not changed |
| MarkdownContents.TextIsExact | aperag/docparser/parse_md.py:278-301 | line j of the part of an inline, HTML or rule token is the prefix of its place and line j of its text |
| MarkdownContents.DocumentTextIsExact | aperag/docparser/parse_md.py:143-152 | the same for the whole document |
| MarkdownContents.ParagraphTextIsKept | aperag/docparser/parse_md.py:278-307 | under paragraphs alone the part has exactly the text of the token |
| MarkdownContents.CodeIsKept | aperag/docparser/parse_md.py:221-254 | code under quotes and lists is the stripped code between the shortest fence that it does not contain, of at most thirteen backticks, with its language |
| MarkdownTables.HeadingHasItsLevel | aperag/docparser/parse_md.py:256-276 | a heading of n marks has level n, one underlined with = or - has level 1 or 2; its content is as many marks, a space and the text |
| MarkdownTables.CellTextIsKept | aperag/docparser/parse_md.py:453-471 | a cell has exactly the text in it |
| MarkdownTables.CellByCharacter | aperag/docparser/parse_md.py:431-436 | the three passes over a cell are one substitution, character by character |
| MarkdownTables.RowHasItsColumns | aperag/docparser/parse_md.py:438-451 | a row is one line with one unescaped bar before each cell and one at the end |
| MarkdownTables.CellInItsColumn | aperag/docparser/parse_md.py:444-449 | cell k stands between the unescaped bars k and k + 1 of its row |
| MarkdownTables.HeadHasRule | aperag/docparser/parse_md.py:410-422 | a table head is the line of its first row and under it a rule with as many columns |
| MarkdownTables.TableLines | aperag/docparser/parse_md.py:393-408 | the lines of a table are the row of the head, the rule, and the rows of the body, in order |
| MarkdownProofs.LabelReadsBack | aperag/docparser/parse_md.py:330 | a label reads back as its number, so labels differ |
| MarkdownConverter.Context.constructor | aperag/docparser/parse_md.py:74-78 | the initial context |
| MarkdownConverter.QuoteLines | aperag/docparser/parse_md.py:206-218 | the loop prefixes every line of every text part and no other |
| MarkdownConverter.ToCodeContent | aperag/docparser/parse_md.py:223-232 | the loop lengthens the fence while the code contains it, ten times at most |
| MarkdownConverter.MarkFirstPart | aperag/docparser/parse_md.py:347-356 | the marker goes before the first line and as many spaces before the others |
| MarkdownConverter.IndentRest | aperag/docparser/parse_md.py:367-376 | the loop indents every text part after the first of an item and no other |
| MarkdownConverter.JoinContents | aperag/docparser/parse_md.py:260-263 | the loop concatenates the contents |
| MarkdownConverter.MarkItem | aperag/docparser/parse_md.py:335-378 | an empty item, one that begins with text and one that does not each get the marker once |
| MarkdownConverter.ConvertLeaf | aperag/docparser/parse_md.py:234-305 | the handlers of tokens that open nothing compute the specified part, which shows the text of the token (`MarkdownContents.TextIsExact`, `CodeIsKept`) |
| MarkdownConverter.RowOf | aperag/docparser/parse_md.py:444-449 | the loop builds the row with every cell escaped |
| MarkdownConverter.ConvertAt | aperag/docparser/parse_md.py:128-141 | on any stream: the specified parts, the cursor strictly advances, nesting and pause flag are restored |
| MarkdownConverter.ConvertUntilClose | aperag/docparser/parse_md.py:154-166 | on any stream: the loop stops past the first close at its level or at the end, context restored |
| MarkdownConverter.ConvertBlockquoteOpen | aperag/docparser/parse_md.py:199-220 | the handler refines the specification and restores the context |
| MarkdownConverter.ConvertParagraphOpen | aperag/docparser/parse_md.py:303-307 | likewise, with the parts as they are |
| MarkdownConverter.ConvertHeadingOpen | aperag/docparser/parse_md.py:256-276 | likewise, with the level of both heading styles |
| MarkdownConverter.ConvertOrderedListOpen | aperag/docparser/parse_md.py:309-314 | likewise, the counter set to 1 inside and put back after |
| MarkdownConverter.ConvertBulletListOpen | aperag/docparser/parse_md.py:316-321 | likewise, the counter untouched |
| MarkdownConverter.ConvertListItemOpen | aperag/docparser/parse_md.py:323-378 | likewise, the counter moved by one for a numbered item |
| MarkdownConverter.ConvertTableOpen | aperag/docparser/parse_md.py:393-408 | likewise, the pause flag set inside and put back after |
| MarkdownConverter.ConvertTheadOpen | aperag/docparser/parse_md.py:410-422 | likewise, nothing for a head without columns |
| MarkdownConverter.ConvertTbodyOpen | aperag/docparser/parse_md.py:424-429 | likewise, the rows joined into one part |
| MarkdownConverter.ConvertTrOpen | aperag/docparser/parse_md.py:438-451 | likewise, with the column count |
| MarkdownConverter.ConvertCellOpen | aperag/docparser/parse_md.py:453-471 | likewise, for head cells and body cells |
| MarkdownConverter.ConvertTokens | aperag/docparser/parse_md.py:143-152 | the whole stream; on the tokens of a well-formed document, the fold of its blocks, of which `MarkdownContents` says where each text is |
| WindowSplitter.RFind | aperag/mirofish_graph/text_processor.py:31-32 | the last occurrence within bounds, or none |
| WindowSplitter.WindowEnd | aperag/mirofish_graph/text_processor.py:29-35 | a window is not empty, fits, and reaches past its middle unless the text ends |
| WindowSplitter.CutShortExactly | aperag/mirofish_graph/text_processor.py:30-35 | a window is cut short if and only if its second half has a paragraph break, or has a line break and the window no paragraph break; the cut is then at the last such break of the window |
| WindowSplitter.LineBreakPassedOver | aperag/mirofish_graph/text_processor.py:33-35 | a text in which a usable line break is passed over |
| WindowSplitter.WindowsCover | aperag/mirofish_graph/text_processor.py:23-44 | windows start at 0, strictly advance, leave no gap, are at most `chunk_size` long and reach the end; the next one starts exactly min(overlap, `chunk_size` - 1) before the end of the last whenever that is an advance, else one character on |
| WindowSplitter.ChunksAreTrimmed | aperag/mirofish_graph/text_processor.py:37-39 | there is one chunk for each window that is not blank, in order: its text without the spaces at both ends |
| WindowSplitter.NoCharacterLost | aperag/mirofish_graph/text_processor.py:37-39 | every character that is not a space is in a chunk, at its place |
| WindowSplitter.FewWindows | aperag/mirofish_graph/text_processor.py:34-44 | (windows - 1) * (`chunk_size`/2 + 1 - overlap) is less than the length of the text, and there are no more windows than characters |
| WindowSplitter.FindEnd | aperag/mirofish_graph/text_processor.py:29-35 | computes the end of a window |
| WindowSplitter.CutWindows | aperag/mirofish_graph/text_processor.py:28-44 | the loop computes the chunks of all windows |
| WindowSplitter.SplitText | aperag/mirofish_graph/text_processor.py:15-46 | the loop yields exactly the stripped non-empty windows; empty text and non-positive sizes as in the code |
| GraphIdentity.UniqueIsUnique | aperag/mirofish_graph/graph_identity.py:66-78 | the names kept are trimmed, and their normalized forms are non-empty and pairwise different |
| GraphIdentity.UniqueIsExact | aperag/mirofish_graph/graph_identity.py:66-78 | exactly the non-empty normalized forms of the input are represented |
| GraphIdentity.FirstCjkIsFirst | aperag/mirofish_graph/graph_identity.py:91-93 | the first CJK name is found, or there is none |
| GraphIdentity.PreferredIsChosen | aperag/mirofish_graph/graph_identity.py:87-94 | the preferred name is the first kept candidate that is CJK if any is, else the first kept candidate, and empty if none is kept |
| GraphIdentity.UniqueNames | aperag/mirofish_graph/graph_identity.py:66-78 | the loop computes the unique names |
| GraphIdentity.ChoosePreferredName | aperag/mirofish_graph/graph_identity.py:87-94 | the loop computes the preferred name |
| GraphNormalization.PreferredIsCandidate | aperag/mirofish_graph/graph_identity.py:87-94 | the preferred name is one of the candidates, up to normalization, unless none says anything |
| GraphNormalization.KeyIsPreferred | aperag/mirofish_graph/neo4j_graph_backend.py:409-413 | entities are grouped exactly by their type and the normalized form of their preferred name, the first CJK one or the first |
| GraphNormalization.MergedForms | aperag/mirofish_graph/neo4j_graph_backend.py:414-425 | a merged group holds exactly the forms of the old group and of the entity |
| GraphNormalization.MergedIsOk | aperag/mirofish_graph/neo4j_graph_backend.py:419-425 | a merged group is named after one of its aliases, and holds its attributes' aliases |
| GraphNormalization.MapAliases | aperag/mirofish_graph/neo4j_graph_backend.py:426-427 | the loop points exactly the group's aliases to it |
| GraphNormalization.AddEntity | aperag/mirofish_graph/neo4j_graph_backend.py:407-427 | one entity: the table stays one in which exactly the aliases of all groups lead to a group holding them |
| GraphNormalization.Rename | aperag/mirofish_graph/neo4j_graph_backend.py:431-434 | a name becomes that of a group holding it if and only if there is one |
| GraphNormalization.NormalizeExtractedGraph | aperag/mirofish_graph/neo4j_graph_backend.py:403-440 | every entity is held by one group of its type with all its forms, no group holds anything else, every group is named after one of its aliases; groups come in the order of their first entities, with the first summary that says something and all attribute values; relations keep all but the names, which become group names wherever a group holds them |
| GraphPersistenceProofs.MergeIsUnion | aperag/mirofish_graph/neo4j_queries.py:67-78 | the `reduce` of the upsert keeps what was there as a prefix and holds exactly the union |
| GraphPersistenceProofs.UpsertKeepsStore | aperag/mirofish_graph/neo4j_queries.py:56-89 | an upsert keeps `normalized_aliases` the image of `aliases`, takes nothing away from any entity, leaves all aliases given, sets name, normalized name and type as given, and touches no other entity, relation or chunk |
| GraphPersistenceProofs.PlanHoldsName | aperag/mirofish_graph/neo4j_graph_backend.py:378-383 | the aliases upserted hold the wanted name if and only if it normalizes to something |
| GraphPersistenceProofs.KnownIsResolved | aperag/mirofish_graph/neo4j_graph_backend.py:365-370 | a hit in the worker's lookup table is a present entity of the type and name wanted |
| GraphPersistenceProofs.SearchKeepsWorker | aperag/mirofish_graph/neo4j_graph_backend.py:442-467 | whichever matching entity a search returns, it is present and of the folded type |
| GraphPersistenceProofs.WorkerStays | aperag/mirofish_graph/neo4j_graph_backend.py:262-351 | steps of other workers disturb nothing a worker relies on between its queries |
| GraphPersistenceProofs.ActKeeps | aperag/mirofish_graph/neo4j_graph_backend.py:262-351 | every step of a worker keeps the store and the worker in order and takes nothing away |
| GraphPersistenceProofs.NeverStuck | aperag/mirofish_graph/neo4j_graph_backend.py:262-351 | a worker with work left can always step |
| GraphPersistenceProofs.EveryStepCounts | aperag/mirofish_graph/neo4j_graph_backend.py:262-351 | each step uses up part of a bound on the queries of a chunk |
| GraphPersistenceProofs.RelationsAreStored | aperag/mirofish_graph/neo4j_graph_backend.py:308-351 | under any interleaving and any search answers: every relation upsert finds both endpoints, upserts sent plus upserts to come are those of the chunk in order, for each one sent a relation of its folded type and fact keeps joining entities with the right folded type and normalized name, and entities, aliases and relation keys only grow |
| GraphMentions.PlanHoldsValues | aperag/mirofish_graph/neo4j_graph_backend.py:276-288 | the aliases upserted hold every form of the name and aliases extracted, whatever the search found |
| GraphMentions.FinishedChunkIsStored | aperag/mirofish_graph/neo4j_graph_backend.py:262-351 | under any interleaving: when a worker is done its chunk is stored, every extracted entity is held with all its forms by an entity of its folded type, and the relations upserted are those of the chunk in order |
| GraphPersistenceProofs.EndpointsHaveTheirTypes | aperag/mirofish_graph/neo4j_graph_backend.py:353-401 | when no two types in use fold together, the endpoints have exactly the types asked for |
| GraphPersistenceProofs.FoldedTypesMixUp | aperag/mirofish_graph/graph_identity.py:106-124 | for any two types that do fold together there is a run after which a relation ends at an entity of the other type |
| GraphRelationTexts.RelationsShowTheirTexts | aperag/mirofish_graph/neo4j_queries.py:102-119 | when no two relation texts in use fold together, every relation upserted shows after any run the type and fact asked for |
| GraphRelationTexts.FoldedTextsMixUp | aperag/mirofish_graph/graph_identity.py:106-134 | for any two texts that do fold together there is a run after which one relation is left for both, with the text of the second |
| GraphAliases.PlanIsNamed | aperag/mirofish_graph/neo4j_graph_backend.py:379-382 | the name upserted is one of the aliases upserted, unless it is empty |
| GraphAliases.RunKeepsNames | aperag/mirofish_graph/neo4j_queries.py:61-78 | in every run every entity's name is one of its aliases, unless it is empty |
| GraphAliases.PlanForms | aperag/mirofish_graph/neo4j_graph_backend.py:278-288 | the aliases upserted have exactly the forms wanted and those of the entity found |
| GraphAliases.AnswerHasForm | aperag/mirofish_graph/neo4j_queries.py:91-100 | a search answers with an entity that has one of the forms among its aliases |
| GraphAliases.MentionKeepsUnshared | aperag/mirofish_graph/neo4j_graph_backend.py:276-306 | with nothing between them, a search and the upsert after it keep aliases unshared if and only if at most one stored entity of the type has one of the forms |
| GraphAliases.RaceSharesAlias | aperag/mirofish_graph/neo4j_graph_backend.py:276-306 | when two workers search before either upserts, both entities can come to have one alias |
| ObjectStore.ResolvesToProper | aperag/objectstore/local.py:122-139 | a path that resolves has proper components |
| ObjectStore.ComponentsAreParts | aperag/objectstore/local.py:127-129 | the components of a path are the parts between its slashes without the empty ones and the dots |
| ObjectStore.ResolvesExactly | aperag/objectstore/local.py:122-139 | a path resolves if and only if something real lies between its slashes and nothing between them is `..`; it then resolves to exactly those parts |
| ObjectStore.PrefixIsNormalized | aperag/objectstore/local.py:308-312 | a prefix is matched without its leading slashes and with slashes for its backslashes, character by character |
| ObjectStore.DirectoryPrefix | aperag/objectstore/local.py:314-319 | a prefix that names a directory and ends in a slash matches exactly what lies below it |
| ObjectStore.RelativeResolves | aperag/objectstore/local.py:122-139 | the string of a path resolves to the path |
| ObjectStore.ListedNameResolves | aperag/objectstore/local.py:353-355 | a listed name resolves to its object if and only if the path holds no backslash |
| ObjectStore.RunsStaySeparate | aperag/objectstore/local.py:158-170 | after any run of operations no object lies below another |
| ObjectStore.LastPutWins | aperag/objectstore/local.py:158-170 | after any run an object has the bytes of its last successful put |
| ObjectStore.StoredExactly | aperag/objectstore/local.py:158-344 | after any run an object is stored if and only if some effective put of its path is followed by no operation that deletes it |
| ObjectStore.NothingListedAfterDelete | aperag/objectstore/local.py:294-361 | after any run and a delete by a non-empty prefix, exactly the objects that do not match are left, and a listing under the prefix is empty |
| ObjectStore.EmptyListing | aperag/objectstore/local.py:346-361 | a listing is empty exactly when no object matches |
| ObjectStore.PerformAll | aperag/objectstore/local.py:158-344 | any run of operations on a store leaves it holding what the map holds after the same operations, in a tidy tree; on a new store exactly the objects of which an effective put was not undone |
| ObjectStore.RunThenClear | aperag/objectstore/local.py:294-361 | after any run on a new store and a delete by a non-empty prefix, the listing is empty, the other objects keep their bytes, and exactly the directories with a file below are left |
| ObjectStore.TidyTreeIsDetermined | aperag/objectstore/local.py:246-267 | in a tidy tree a directory exists if and only if a file lies below it, so the files determine the tree |
| ObjectStore.UnlinkKeepsSettled | aperag/objectstore/local.py:320-324 | removing a file leaves only the directories above its parent to be checked |
| ObjectStore.RmdirKeepsSettled | aperag/objectstore/local.py:255-259 | removing an empty directory moves the check to its parent |
| ObjectStore.EntrySettles | aperag/objectstore/local.py:260-262 | stopping at a directory that is not empty leaves nothing above it to be checked |
| ObjectStore.Local.constructor | aperag/objectstore/local.py:110-120 | a new store is empty |
| ObjectStore.Local.TakenPaths | aperag/objectstore/local.py:161-162 | the file system refuses a put exactly when an object lies above or below the path |
| ObjectStore.Local.Put | aperag/objectstore/local.py:158-170 | refines the map's put: the path then holds the bytes and nothing else changes; fails, changing nothing, exactly when the path does not resolve or is taken |
| ObjectStore.Local.CleanupEmptyDirs | aperag/objectstore/local.py:246-267 | the upward loop settles every directory it was to check |
| ObjectStore.Local.Delete | aperag/objectstore/local.py:269-292 | refines the map's delete: the object at the resolved path is gone, every other keeps its bytes, none is added, an invalid path changes nothing, and every directory left has a file below it |
| ObjectStore.Local.DeleteObjectsByPrefix | aperag/objectstore/local.py:294-344 | refines the map's delete by prefix, in any order of files and directories |
| ObjectStore.Local.UnlinkMatching | aperag/objectstore/local.py:314-329 | deletes exactly the matching files and collects all directories that may have become empty |
| ObjectStore.Local.ListObjectsByPrefix | aperag/objectstore/local.py:346-361 | the names of exactly the matching objects, each object once |

## Left out

- `_merge_pdf_source_map`: it appends in place to a list that shallow metadata copies share, so a piece's map can change after it was copied; only the markdown source range is modelled.
- Metadata: a part carries only the entries that the modelled code reads or writes; a missing content is the empty content, and heading levels are natural numbers.
- Input parts of the rechunker may carry split flags, but no cached counts that are wrong; the source sets both itself.
- Markdown parts are values in a sequence that the handlers rebuild, not objects changed in place, so sharing of a part between lists is not captured.
- Image parts, data URIs, base64, MD5 and the markdown-it tokenizer; the pause flag is saved and restored but nothing reads it here.
- The document metadata that every markdown part copies, and the log messages.
- `TextProcessor.preprocess_text`: `split_text` is modelled from the cleaned text on. `int(chunk_size * 0.5)` is taken as integer halving, which is exact below 2^53.
- Flow inputs and templates: binding a node's inputs is one function of the outputs so far, runners are deterministic, and the reading of ancestors only is an assumption of the theorems that need it.
- Flow events, timestamps, system outputs and what `asyncio.gather` leaves running after a failure is reported.
- The lock is a step relation rather than a class with methods, because its steps interleave at every `await` with those of other instances, the server and the clock. Retry delays and the acquisition timeout are steps that may happen at any time.
- Redis failover and clock drift: the server is one atomic key with one clock.
- Graph persistence is a step relation for the same reason. The graph and document nodes exist beforehand, nothing is deleted meanwhile, and summaries, attributes, evidence, confidence and timestamps are not modelled.
- Attribute dictionaries in `_normalize_extracted_graph`: an entity's attributes are reduced to the alias values found in them, and merging keeps those of both sides. The theorems on persistence hold for any entities and relations, not only for normalized ones.
- `collect_entity_aliases` on nested attribute dictionaries: further aliases are a list of strings.
- GraphPersistenceProofs.RelationsAreStored: does not claim that a relation keeps the text asked for, nor that an alias belongs to one entity; `GraphRelationTexts` and `GraphAliases` say when they do.
- Digest collisions: a key is injective in the folded parts it digests. Chunk identifiers are given.
- File system errors, symbolic links, other processes, `get`, sizes and range streams of the object store.
- ObjectStore.Local.DeleteObjectsByPrefix: checks the emptied directories in any order, while the source sorts them by length; the result is the same.
- The document-index state machine, LLM, embedding, vector and search clients, Celery, FastAPI, auth and the web UI.
