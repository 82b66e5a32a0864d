# Spor kernel: a model of its protocols and formats, with proofs

This project models the kernel of Spor, a git-backed graph of markdown nodes that workers and
agents share, and states what its hardest parts promise.

- **Factory execution** (`Execution*.dfy`). A fenced, leased, event-sourced record. `ExecutionTypes`
  and `ExecutionKernel` hold the record and the pure rules; `ExecutionStore` the store door that
  stamps and journals, runs of calls, and the two replay folds; `ExecutionReducer` the reducer as the
  source has it, a class whose methods clone a record and then change its fields. `ExecutionSafety`,
  `ExecutionFencing` and `ExecutionAttempts` prove what holds over every run. A timestamp is its text
  together with the number `Date.parse` reads from it.
- **Document generations** (`Content*.dfy`). Text as UTF-16 code units with UTF-8 sizes, the slicing
  loop, part ids and pieces, the chain walk, the write guard, and the exact condition under which a
  published document reads back. `ContentWitness` holds concrete documents at which the conditions bite.
- **Node-file grammar** (`Frontmatter*.dfy`). Scalars by code unit, each line pattern as a function,
  the lexer loop, the reader of inline `edges:` values (`FrontmatterInline`), the serializer, and the
  editors. `FrontmatterCore` is the lexer without line numbers, against which the splicing editors are
  proved; `FrontmatterMarks` writes every inline `edges:` value out as the flow edges it reads as.
  `FrontmatterFold`, `FrontmatterCut` and `FrontmatterRanges` give exactly when cutting a key's lines
  leaves the rest alone, and `FrontmatterKeyEdit` the editor; `FrontmatterRewrite` exactly when an edge
  outlives being written out, and `FrontmatterExpand` the edge editors over inline lists.
  `FrontmatterWitness` holds concrete lines at which both conditions bite.
- **Content index** (`Ranker*.dfy`). The inverted index built at once and patched in place, the cosine
  ranking, and Cauchy-Schwarz over exact reals.
- **Archives** (`TarFormat.dfy`, `TarArchive.dfy`, `TarHalting.dfy`). The ustar block written in place, the
  pax record, the reader's loop, the round trip, and exactly when the reader halts.
- **Status timeline, its cache, timestamps** (`Analytics.dfy`, `AnalyticsCache.dfy`, `Timestamps.dfy`).
- **Program walk and globs** (`ProgramWalk.dfy`, `Glob.dfy`, `GlobSegments.dfy`), and the run record's
  **candidate chain** (`CandidateChain.dfy`).

Hashes, `log`, `sqrt`, `Date.parse` and `JSON.parse` stay abstract: they are parameters, and the laws a result
needs of them are its stated hypotheses (`NoCollision`, `Lawful`, `Faithful`, `GivesText`).

Seven behaviours of the code differ from what its documentation suggests; each has a concrete witness and
an exact condition:

- A published document does not always read back complete: one whose last line is a footer line does not, nor
  one that holds two carriage returns before a line feed in an LF file, because each of the two readings takes
  one of them away (`SomeDocumentsDoNotReadBack`; a CR LF alone is harmless). The condition is `Publishable`, on the
  slices about to be published (`PublishThenRead`).
- The write guard admits an empty `doc_generation:` stamp on a root, because it compares an asserted stamp
  with an absent one as text; readers then take the root for a part, and a pinned read of its pieces is lost
  (`EmptyGenerationStampIsAdmitted`, `EmptyStampLosesTheRead`). The condition is on the writes and the stored root:
  whether one of them asserts that stamp and that root would admit it (`GenerationSurvivesWrites`).
- The archive reader need not halt, since a size field may parse as negative (`NegativeSizeNeverHalts`). It halts
  if and only if it never comes back to an offset, which shows within two turns a block and one more
  (`HaltsExactlyWhen`); in every written archive it only goes forward (`ArchiveGoesForward`).
- A bare double star does not cross a line terminator (`LineEndIsNotCrossed`), though one with its slash does. The
  compiled pattern means the glob on every path if and only if no double star of it is bare, a trailing slash
  making one (`AgreesExactlyWithoutBareStars`).
- Rewriting an inline edge list to block form, which the edge editors do first, may change its edges: an empty attribute
  is left out (`EmptyAttributeIsDropped`), a line break becomes a space (`LineBreakIsFolded`), and an attribute with the
  text of a flow edge becomes one (`FlowTextIsRead`). It keeps every field and edge if and only if every inline edge
  survives: no attribute is empty, and its values are bare tokens, or have no line feed, stand on one line, and put no
  flow edge on it (`ExpansionKeepsExactly`).
- Setting or removing one key may change another field, since a line behind its range may fold onto the key before it
  (`StrayLineFolds`), and the edges, since its range takes a flow edge among its lines with it. One cut changes nothing
  else if and only if it is harmless: it holds no flow edge, no line behind it folds onto the field before it unless a
  later header sets that field again, and under `edges:` the lines behind it open no edge, are no fault and add nothing
  to an open edge (`CutExactly`). Were there a flow edge, the lines behind it would have to make up for it edge for edge;
  with a key that stands twice the second cut can make up for the first (`LostAndFound`), so `KeyEditExactly` goes both
  ways for a key that stands once or has no flow edge among its lines.
- The closed-at cache trusts the entry of a node that was folded before the graph held it, so the answer may be stale once
  it does (`UntypedNodeGoesStale`). At the cached head the answer is the cold fold if and only if every node's closing
  run began at the same time under both graphs (`ReuseIsColdExactly`).

## Model

| member | source | states |
|---|---|---|
| ExecutionStore.ReplayIsExact | lib/shell/execution-store.js:425-455 | after any interleaving of claims, renewals, releases, forced releases and events, the strict rebuild accepts every journal row and gives back the record and its keys |
| ExecutionStore.KernelReplayIsExact | lib/kernel/execution.js:1032-1051 | the kernel's own fold of the journal of any run is the live record |
| ExecutionStore.StrictAgreesWithKernel | lib/kernel/execution.js:1032-1051 | a journal the strict rebuild accepts folds to the same record under the kernel's skipping fold |
| ExecutionStore.LiveImpliesReplay | lib/kernel/execution.js:664-740 | an event accepted live is accepted with the same record and key when its journaled form is replayed with the relaxed checks |
| ExecutionStore.ReplayByType | lib/kernel/execution.js:742-910 | each handler that accepts live accepts in replay, with the same result |
| ExecutionSafety.CompletionIsEarned | lib/kernel/execution.js:297-329 | in every reachable completed record the tip is published, every pinned gate passed or was skipped on it or opted out, and integration landed when it is the boundary |
| ExecutionSafety.ChainLawOverRuns | lib/kernel/execution.js:942-1000 | every reachable chain has distinct ids, ends in the tip, and each later entry supersedes the one before |
| ExecutionSafety.RepinsObeyTheLaw | lib/kernel/execution.js:312-329 | a re-pin never happens after landing, extends the chain by the tip, clears integration, and leaves no gate accepted unless it opted out |
| ExecutionSafety.RunIsSafe | lib/kernel/execution.js:742-910 | the chain law, the verdicts' binding and proper completion hold together at every point of every run |
| ExecutionSafety.EventKeepsCompletion | lib/kernel/execution.js:892-906 | from a safe open record an accepted event that completes it leaves it properly completed |
| ExecutionFencing.FenceOverRuns | lib/kernel/execution.js:381-441 | between any two points of a run the fence never decreases, equal fences mean the same holder, and a record released for good stays closed |
| ExecutionFencing.SupersededFenceIsDead | lib/kernel/execution.js:340-378 | once a larger fence was held, no renewal, release or event that carries the smaller one changes anything ever again |
| ExecutionFencing.LiveLeaseIsNeverStolen | lib/kernel/execution.js:381-441 | whatever the call, a live lease stays with the same worker and machine unless its holder releases it or a person forces it |
| ExecutionFencing.RecordedUnderFence | lib/shell/execution-store.js:704-746 | an event is recorded only under the fence in force, by its owner, on an open record with a live lease, as exactly one row |
| ExecutionFencing.JournalFencesAscend | lib/kernel/execution.js:664-740 | along the journal of any run the fences of accepted events never decrease |
| ExecutionAttempts.RunKeepsEnvironments | lib/kernel/execution.js:555-635 | on every attempt at every point of a run the observation count is the number of recorded changes, consecutive states differ, only the last may be terminal, and rows ascend |
| ExecutionAttempts.OneEnvironmentPerAttempt | lib/kernel/execution.js:515-635 | from any point of a run to any later one an attempt keeps its provider, submit key, request and handle, and a terminal state never moves |
| ExecutionAttempts.HandleComesAfterSubmit | lib/kernel/execution.js:555-635 | a handle appears only on an attempt whose submit request an earlier call persisted under the same key |
| ExecutionAttempts.IdenticalResendIsNoOp | lib/kernel/execution.js:684-712 | saying again what the record holds, the submit key in either spelling, is answered as a replay and changes nothing, whoever says it and under whatever fence |
| ExecutionReducer.ExecutionRecord.Claim | lib/kernel/execution.js:381-416 | the method gives exactly the rule's refusal or a fresh record with the new owner and fence, and leaves its own record alone |
| ExecutionReducer.ExecutionRecord.Renew | lib/kernel/execution.js:421-428 | as the rule: refused on a stale fence or an expired lease, else a fresh record with only the lease and the time moved |
| ExecutionReducer.ExecutionRecord.Release | lib/kernel/execution.js:432-441 | as the rule: only the live holder of an uncompleted record releases it |
| ExecutionReducer.ExecutionRecord.UpsertAttempt | lib/kernel/execution.js:637-658 | the row is found, or made and sorted into place |
| ExecutionReducer.ExecutionRecord.ApplyAttempt | lib/kernel/execution.js:555-635 | the three provider events, in place, as the rule; a refusal changes nothing |
| ExecutionReducer.ExecutionRecord.PinCandidate | lib/kernel/execution.js:942-1000 | pin and re-pin in place as the rule; a refusal changes nothing |
| ExecutionReducer.ExecutionRecord.BindVerdicts | lib/kernel/execution.js:942-1000 | the loop binds exactly the unbound verdicts to the outgoing tip |
| ExecutionReducer.ExecutionRecord.ApplyByType | lib/kernel/execution.js:742-910 | every event type in place as the rule; a refusal changes nothing |
| ExecutionReducer.ExecutionRecord.ApplyEvent | lib/kernel/execution.js:664-740 | the outcome of the rule, with an accepted record that is fresh and the one called on never written |
| ExecutionReducer.RebuildFromEvents | lib/kernel/execution.js:1032-1051 | the loop over the journal with its set of seen keys computes the specified fold |
| CandidateChain.TipIsAlwaysLast | lib/kernel/candidate.js:330-367 | over any run of submissions the tip is the last entry, each entry supersedes the one before, and no ancestor is rewritten |
| CandidateChain.ReturningTreeAppearsTwice | lib/kernel/candidate.js:348-367 | a tree that comes back after another is a new last entry, so an id may recur |
| ContentSpill.Spill | lib/kernel/content.js:1153-1176 | the slicing loop halts and gives the specified slices |
| ContentSpill.ChunksConcatenate | lib/kernel/content.js:1153-1182 | the slices concatenate to the text |
| ContentSpill.ChunksFit | lib/kernel/content.js:1153-1176 | every slice fits the cap in UTF-8 bytes, and none is empty unless the text is |
| ContentSpill.ChunksKeepCharacters | lib/kernel/content.js:1153-1176 | no joint splits a surrogate pair |
| ContentSpill.CutPrefersLines | lib/kernel/content.js:1160-1172 | a cut falls after a blank line or a line end when one past the first character fits |
| ContentPublish.PieceFits | lib/kernel/content.js:1240-1288 | every piece with its header and footer is at most 8192 bytes |
| ContentPublish.PieceIdFits | lib/kernel/content.js:1192-1211 | every part id is at most 200 characters |
| ContentPublish.PartIdIsId | lib/kernel/content.js:1192-1211 | part ids of a well-formed root are well-formed ids |
| ContentPublish.PartIdsDiffer | lib/kernel/content.js:1203-1211 | different parts have different ids |
| ContentChain.ReadDocumentChain | lib/kernel/content.js:1301-1349 | the walk halts on every graph, cycles included, and gives the specified reading |
| ContentChain.CompleteIsExact | lib/kernel/content.js:1301-1349 | a complete answer for a managed root has exactly the stamped digest and byte count |
| ContentRoundTrip.PublishThenRead | lib/kernel/content.js:1232-1288 | publishing any document and reading its chain is complete if and only if it is publishable, and then returns exactly the core under its own part ids |
| ContentRoundTrip.PublishedReadsBack | lib/kernel/content.js:1301-1349 | the same for any stored generation |
| ContentRoundTrip.PlainCoreIsPublishable | lib/kernel/content.js:1232-1288 | without carriage returns and a footer-like ending every core is publishable |
| ContentWitness.SomeDocumentsDoNotReadBack | lib/kernel/content.js:1232-1349 | a one-line footer and a text with two carriage returns before its line feed are published and never read back complete from a store that holds the publication; a text with one CR LF is |
| ContentRoundTrip.FooterRoundTrip | lib/kernel/content.js:1035-1051 | a printed footer line parses to exactly its id |
| ContentGuard.GenerationSurvivesWrites | lib/kernel/content.js:1083-1148 | after any writes through the guard the root still reads the same, if and only if the read is unpinned, the document is one piece, or no write asserts an empty generation stamp that the stored root would admit |
| ContentGuard.WritesPreserve | lib/kernel/content.js:1083-1148 | any run of admitted writes keeps every managed file what readers see of it |
| ContentGuard.StampAppears | lib/kernel/content.js:1083-1148 | after any run of writes a root carries a generation stamp exactly when one of them slipped an empty one past the guard as the stored root answers |
| ContentGuard.EmptyGenerationStampIsAdmitted | lib/kernel/content.js:1056-1076 | an empty generation stamp passes the guard, turns a root into a part, and a pinned read of more than its first piece is no longer complete |
| ContentWitness.EmptyStampLosesTheRead | lib/kernel/content.js:1083-1148 | a published and stored document of two pieces reads complete under a pin, and after that one write does not |
| FrontmatterScalar.ScalarRoundTrip | lib/kernel/frontmatter.js:87-113 | every emitted scalar reads back as the value with its line breaks folded, and survives trimming |
| FrontmatterScalar.UnescapeJson | lib/kernel/frontmatter.js:91-95 | the YAML reading inverts the JSON writing, lone surrogates included |
| FrontmatterLines.FlowReads | lib/kernel/frontmatter.js:537-541 | a written flow edge line parses to its type, target and attributes |
| FrontmatterLines.InlineReads | lib/kernel/frontmatter.js:549-577 | a written inline list parses to its items |
| FrontmatterLexer.LexFrontmatter | lib/kernel/frontmatter.js:315-482 | the line loop over its mode variables computes the specified lexing |
| FrontmatterRoundTrip.NodeLexes | lib/kernel/frontmatter.js:549-583 | the written lines lex to the node's fields and edges without a fault |
| FrontmatterRoundTrip.SerializeThenParse | lib/kernel/frontmatter.js:489-583 | a node that fits the grammar is read back with every field by name, its edges in order and its body |
| FrontmatterCore.LexedIsOutcome | lib/kernel/frontmatter.js:315-482 | fields, edges and faults do not depend on line numbers |
| FrontmatterMarks.LexedIsMarksOutcome | lib/kernel/frontmatter.js:315-482 | whatever values its `edges:` headers carry, a block comes to the same fields, edges and faults as its lines with every value written out as flow edges |
| FrontmatterMarks.LexedAlike | lib/kernel/frontmatter.js:361-411 | every entry of a block with inline values stands at the line where those written-out lines put it |
| FrontmatterEdit.EdgeCutActs | lib/kernel/frontmatter.js:632-634 | cutting the range of any one edge removes that edge and nothing else |
| FrontmatterEdit.EdgeAddActs | lib/kernel/frontmatter.js:648-657 | a flow line at the insertion point adds its edge last and changes nothing else |
| FrontmatterInline.ScanFlow | lib/kernel/frontmatter.js:120-136 | the walk over flow text gives the specified characters outside quotes with their depths, the final depth, and whether a quote is open |
| FrontmatterInline.PiecesRejoin | lib/kernel/frontmatter.js:158-165 | the pieces between top-level commas, joined by commas, are the text |
| FrontmatterInline.GatherValue | lib/kernel/frontmatter.js:375-380 | the loop gathers the specified lines of an inline value |
| FrontmatterInline.FlowReaderIsLocal | lib/kernel/frontmatter.js:369-404 | whether a header carries a value shows on its own line, and a value that ends before the lines do reads the same whatever follows it |
| FrontmatterInline.ReadsShaped | lib/kernel/frontmatter.js:170-258 | every edge read from an inline value has a type and a target and keys of the block grammar, each once, so the writer can name all of it |
| FrontmatterInline.FlowReaderServes | lib/kernel/frontmatter.js:315-482 | with this reader every hypothesis of the editors on inline values holds of every block of text |
| FrontmatterRewrite.RewrittenExactly | lib/kernel/frontmatter.js:537-547 | one edge written out and read back is at least one edge or a fault, and itself alone, up to the order of its properties, if and only if it survives |
| FrontmatterRewrite.LinesComeTo | lib/kernel/frontmatter.js:537-547 | under a header the lines of any list of edges come to what each comes to alone, in order, or to a fault if one is a fault |
| FrontmatterExpand.ExpansionComesTo | lib/kernel/frontmatter.js:607-625 | rewriting the inline lists of any block without faults is a fault if and only if a written edge is one, and if not keeps the fields and puts the written edges in their places |
| FrontmatterExpand.ExpansionKeepsExactly | lib/kernel/frontmatter.js:607-625 | it keeps every field, every edge in order and every property of each if and only if every inline edge survives |
| FrontmatterExpand.WithEdge | lib/kernel/frontmatter.js:648-658 | nothing but the new edge, last, is added if and only if every inline edge survives; otherwise the edges are those written, or there is a fault |
| FrontmatterExpand.WithoutEdge | lib/kernel/frontmatter.js:665-672 | of the edges as they are written exactly the first match is gone, and of those read where every inline edge survives; where the first match has the same place in both, the others stay if and only if they survive; none when nothing matches |
| FrontmatterExpand.RemovedExactly | lib/kernel/frontmatter.js:665-672 | without one edge the written edges are those read without it if and only if the others survive and it was written as one |
| FrontmatterWitness.EmptyAttributeIsDropped | lib/kernel/frontmatter.js:537-541 | of `[{"type": "a", "to": "b", "n": ""}]` the rewriting keeps no `n` |
| FrontmatterWitness.LineBreakIsFolded | lib/kernel/frontmatter.js:109-113 | of a note with a line feed it makes one line |
| FrontmatterWitness.FlowTextIsRead | lib/kernel/frontmatter.js:425-434 | of a note that says `- {type: x, to: y}` it makes an edge from there to `y`, and the note is gone |
| FrontmatterFold.RawGrows | lib/kernel/frontmatter.js:468-477 | text folded onto a scalar whose quote is open always changes its value |
| FrontmatterCut.CutExactly | lib/kernel/frontmatter.js:632-634 | cutting one range of a key's lines out of any block without faults leaves every other field and every edge if and only if the cut is harmless |
| FrontmatterCut.ReplacedExactly | lib/kernel/frontmatter.js:693-702 | putting another header of the key in the place of its lines leaves every other field and every edge if and only if they hold no flow edge |
| FrontmatterCut.ValueExactly | lib/kernel/frontmatter.js:458-480 | a key's new line keeps its value if and only if no line behind it folds onto it, while no later header sets it again |
| FrontmatterRanges.FittingEditActs | lib/kernel/frontmatter.js:632-634 | all ranges of a key cut last first, its new line in the first one's place: right whenever every cut fits |
| FrontmatterRanges.RightEditFits | lib/kernel/frontmatter.js:632-634 | and right only then, if the key stands once or no flow edge stands among its lines |
| FrontmatterKeyEdit.WithKey | lib/kernel/frontmatter.js:693-708 | exactly that field is set or removed, with all other fields and all edges, inline lists included, as they were, whenever every cut fits; only then for a key that stands once or has no flow edge among its lines |
| FrontmatterKeyEdit.KeyEditExactly | lib/kernel/frontmatter.js:693-708 | the same for the edit as a relation between the lines before and after |
| FrontmatterKeyEdit.TidyKeyFits | lib/kernel/frontmatter.js:693-708 | where a key's lines hold no flow edge and only blank lines and comments stand behind them, every edit of it fits |
| FrontmatterKeyEdit.StrayLineFolds | lib/kernel/frontmatter.js:458-480 | of the three lines `id: x`, `pin: []` and an indented `x` the last belongs to nothing, and folds onto `id` once `pin` is removed |
| FrontmatterWitness.LostAndFound | lib/kernel/frontmatter.js:693-708 | seven lines on which removing a key that stands twice loses one edge and lets the same one in, so that nothing changes though the second cut does not fit |
| RankerMath.CauchySchwarz | lib/kernel/ranker.js:152-180 | the squared dot product is at most the product of the squared norms |
| RankerMath.CosineIsInUnit | lib/kernel/ranker.js:152-180 | the dot product of a query and a document lies between 0 and the product of their norms |
| RankerMath.SortIsStable | lib/kernel/ranker.js:181 | the ranking is a permutation, most similar first, ties in index order |
| Ranker.RemoveMatches | lib/kernel/ranker.js:54-65 | removing a document from a list keeps lists and vectors in step |
| Ranker.PushMatches | lib/kernel/ranker.js:45-50 | appending a posting keeps them in step |
| Ranker.SameCorpusSameIndex | lib/kernel/ranker.js:81-148 | any two indexes of one corpus agree on counts, size, slots and the membership of every list |
| RankerBuild.BuildIndex | lib/kernel/ranker.js:81-115 | the built index indexes its corpus, each document under the corpus's own counts |
| RankerBuild.FillDocument | lib/kernel/ranker.js:97-112 | every posting write lands inside its list, at the cursor, and the sum of squares gathered is that of the vector |
| RankerBuild.PatchedAgreesWithRebuilt | lib/kernel/ranker.js:120-148 | after any run of writes the patched index and one built afresh agree on counts, size, slots and membership |
| RankerIndex.RankIndex.IndexNode | lib/kernel/ranker.js:120-148 | one write patches the index of the written corpus, weighing only the changed document |
| RankerIndex.RankIndex.RemovePosting | lib/kernel/ranker.js:54-65 | the list without that document's entries, dropped when empty |
| RankerIndex.RankIndex.ApplyWrites | lib/kernel/graph.js:310-329 | a run of graph writes keeps the index valid for the corpus so written |
| RankerIndex.RankIndex.RankAgainst | lib/kernel/ranker.js:152-182 | the posting-driven scores are each document's own cosine, in [0, 1], sorted |
| TarFormat.SplitUstarName | lib/tar.js:32-46 | the slash search gives the last usable split, and none exactly when there is none |
| TarFormat.SplitSaysName | lib/tar.js:32-46 | a split rejoins to the name and fits both fields |
| TarFormat.RawTarHeader | lib/tar.js:61-78 | the overlapping writes and the checksum loop leave the block laid out field by field |
| TarFormat.ChecksumFits | lib/tar.js:74-76 | the checksum always fits its six octal digits |
| TarFormat.PaxRecordText | lib/tar.js:82-88 | the digit search halts with the record whose length counts itself |
| TarFormat.PaxRoundTrip | lib/tar.js:213-227 | reading a pax record gives back its path, whatever bytes it holds |
| TarFormat.ParsePaxPath | lib/tar.js:213-227 | the record loop gives the last path record |
| TarArchive.BuildTarballEntries | lib/tar.js:126-136 | the entry loop writes the specified archive |
| TarArchive.Extract | lib/tar.js:185-209 | on every buffer the reader halts on, the loop gives the specified files |
| TarArchive.ArchiveReadsBack | lib/tar.js:96-136 | the reader takes every written entry, through plain, prefixed and pax names, and halts |
| TarArchive.TarRoundTrip | lib/tar.js:185-209 | reading a written archive gives back exactly the names and bytes if and only if every name is storable |
| TarHalting.HaltsExactlyWhen | lib/tar.js:185-209 | on every buffer the reader halts if and only if it does within two turns a block and one more, and if and only if it never comes back to an offset |
| TarHalting.ForwardReadingHalts | lib/tar.js:185-209 | while no header the reader comes to sends it back it takes at most a turn a block |
| TarHalting.ArchiveGoesForward | lib/tar.js:126-136 | no header of a written archive that the reader comes to sends it back, whatever the entries hold |
| TarHalting.NegativeSizeNeverHalts | lib/tar.js:196-206 | one block with a negative size field keeps the reader going for ever |
| TarHalting.BackwardBlockReturns | lib/tar.js:196-206 | on that block the reader is back at its first offset after one turn |
| Analytics.FoldStatusTransitionState | lib/kernel/analytics.js:66-122 | the line loop computes the specified fold |
| Analytics.FoldComposes | lib/kernel/analytics.js:66-122 | folding a log split at a commit boundary onto the earlier state equals folding the whole |
| Analytics.ClosedAtBeginsTheRun | lib/kernel/analytics.js:66-134 | a node's closed-at is the time of the commit that began its maximal terminal suffix, and there is one only then |
| AnalyticsCache.CacheIsCoherent | lib/analytics.js:129-163 | after any run of commits, rewrites, retypes, vocabulary changes and queries every answer equals a cold fold of the full history |
| AnalyticsCache.UntypedNodeGoesStale | lib/analytics.js:98-111 | one commit folded while its node is not in the graph: once the node is there the cached answer lacks its closed-at and a cold fold has it |
| AnalyticsCache.ReuseIsColdExactly | lib/analytics.js:129-163 | the cached answer at its own head is the cold fold if and only if every closing run began at the same time under both graphs |
| AnalyticsCache.RangeFoldIsCold | lib/analytics.js:129-163 | folding the new range onto the cached state equals the cold fold |
| AnalyticsCache.StampTypes | lib/analytics.js:98-103 | the loop stamps every folded node's current type |
| AnalyticsCache.ClosedCache.DeriveStatusTransitions | lib/analytics.js:129-163 | the query's answer and the cache it leaves are those of the specified query |
| Timestamps.FoldGitTimestamps | lib/kernel/timestamps.js:40-62 | the line loop computes the specified extents |
| Timestamps.FoldMerges | lib/kernel/timestamps.js:40-81 | folding a log split at a commit boundary equals merging the two folds |
| Timestamps.FoldIsMinMax | lib/kernel/timestamps.js:40-62 | a node's extent is exactly the oldest and newest commit that touched it |
| Timestamps.MergeTimestampMaps | lib/kernel/timestamps.js:68-81 | the loop over the added range computes the specified merge |
| Timestamps.MergeCommutes | lib/kernel/timestamps.js:68-81 | merging does not depend on the order of the ranges |
| ProgramWalk.WalkProgram | lib/kernel/program.js:98-195 | the walk ends on every graph; ids are distinct, capped and balanced by bucket; every recorded depth is a shortest distance, truncated or not; with room for every node it has exactly those within the depth cap, untruncated exactly the reachable ones, and exactly the outside ones |
| ProgramWalk.RowIsShortest | lib/kernel/program.js:140-172 | whenever every node seen had its children queued, the first waiting row of a new node stands at that node's distance |
| ProgramWalk.SettledIsExact | lib/kernel/program.js:98-195 | with nothing left to do the nodes seen are exactly those within the depth cap, and all that are reachable if none at the cap has children |
| Glob.GlobToRegExp | lib/kernel/coupling.js:85-100 | the index loop writes the specified pattern |
| Glob.RenderParses | lib/kernel/coupling.js:85-100 | the written pattern parses to one item per glob token, so the escaping is right |
| Glob.CompiledPatternMeansGlob | lib/kernel/coupling.js:32-38 | for every glob and path without line terminators the compiled pattern matches exactly when the dialect does |
| Glob.AgreesExactlyWithoutBareStars | lib/kernel/coupling.js:32-38 | on all paths, line terminators included, the compiled pattern matches exactly when the dialect does, if and only if no double star of the glob is bare |
| Glob.LineEndIsNotCrossed | lib/kernel/coupling.js:85-100 | a double star alone does not match a line feed |
| GlobSegments.CompiledPatternIsSegmentwise | lib/kernel/coupling.js:32-38 | for globs whose double stars are whole segments it matches exactly when the segments do |
| GlobSegments.TrailingSlashIsSubtree | lib/kernel/coupling.js:36-37 | a trailing slash is a final double-star segment |

## Left out

Execution:

- Attempt spellings other than an integer or a text of digits, and references that are not objects.
- The replay branches for rows journaled before `admission_version`, beyond what the replay results use.
- The key order a JSON comparison of two references looks at: references compare by value.
- `forceRelease` has no in-place method: it is the rule `ExecutionKernel.ForceRelease` and a store call.
- File locking, the outbox and item pointers of the store; `decorate` and `releaseStateKey`.

Documents:

- The frontmatter text inside a document node is a record of its stamps, and a stamp is its text.
- The legacy `spill_*` stamps, snapshot checks, selection and asset URIs, asset embeds and descriptors.

Node files:

- `JSON.parse` of an inline `edges:` value is a parameter; the YAML flow sequence is modelled.
- FrontmatterExpand.WithEdge: takes bare tokens, because the flow line it writes quotes nothing.
- FrontmatterExpand.WithoutEdge: where a rewritten edge is a fault it only says whether the search finds one, because
  removing an edge can take its own fault away; where the first match has another place among the written edges it speaks
  of those. The match by an arbitrary predicate is `FrontmatterEdit.CutEdge`, and both work on the frontmatter's lines;
  rejoining them with the body and its line endings is not modelled.
- FrontmatterKeyEdit.KeyEditExactly: for a key that stands more than once with a flow edge among its lines it goes one
  way only, since there the other way is false (`LostAndFound`).
- FrontmatterKeyEdit.WithKey: the same; of the reader of inline values it asks `Local`, which `FlowReaderIsLocal` gives.
- FrontmatterLexer.LexFrontmatter: the wording of faults and notes, and which of several faults is thrown, are left out.
- The rewrite of inline headers is a function of the lines, not the reversed splices of the source.
- `withStamp`, `withKeyAfter`, and the serializer's options.
- The order JavaScript gives properties whose names are integers: properties keep insertion order here.

Index:

- Floating point: weights and scores are exact reals, so the order of sums does not matter; NaN has no counterpart.
- Typed posting arrays are fixed-length sequences replaced at one index, every index shown to be in bounds.
- The tokenizer: a node comes with its tokens.

Archives:

- Names are their UTF-8 bytes; decoding of malformed bytes in foreign archives is not modelled, and white space
  skipped by `parseInt` is ASCII.
- Sizes and times are below 8^12, what a field holds; gzip, file reading and `tarHeader`'s error are left out.

Timeline, walk and globs:

- Times are milliseconds; Unicode case folding and commit markers that are not digits are left out.
- The weekly counters of `computeAnalytics`; branching history (the log is linear).
- Leases, titles and statuses on program rows, and the answer for an unknown root.
- `expandAliasCandidates`, scope rules, and regular expressions beyond the forms the compiler writes.
