# ReproBit: a verified model of its hard core

ReproBit rebuilds old binaries byte for byte. This project models the parts of it that make claims over
unbounded inputs or whole runs, and proves those claims in Dafny 4.11:

* the shared incremental cache, as a transition system of leases, publications, collections, status
  counts and crashes in every interleaving (`CacheProtocol`, `CacheSafety`, `CacheSweep`, `CacheCount`, `CacheIndex`);
* the browser-information parser, include resolution, dependency hints and the warm-build probes
  (`SbrStream`, `SbrParser`, `SbrForest`, `SbrGrammar`, `IncludeResolution`, `IncludeWalk`,
  `IncludeMeaning`, `DependencyHints`, `DonorHints`, `WarmProbe`, `WarmFaithful`);
* build ordering and byte provenance (`Graphs`, `BuildOrder`, `Provenance`, `RangeMaps`);
* the diagnosis of link-order mismatches (`ChunkOrder`, `LinkImages`, `LinkLayout`, `LinkRuns`,
  `LinkRelay`);
* transactional publication of output sets (`Publication`, `PublishSet`);
* donor retuning: neighbourhoods, overlay moves, their gate and their undoing, and constraint merging
  (`RetuneShell`, `JsonPaths`, `OverlayKnobs`, `OverlayMoves`, `OverlayFit`, `OverlayChanges`,
  `OverlayLayout`, `OverlayGate`, `OverlayReview`, `OverlaySearch`, `OverlaySeats`, `OverlayOrder`,
  `ConstraintMerge`).

Code that updates objects or variables step by step is a class or a method with loops, proved against a
specification function; what the system promises is then proved about that function. Exceptions are `None`
or an outcome value.

What is taken as given: advisory locks, atomic publication and atomic removal are single steps; a digest or a
key stands for its preimage (SHA-256 and canonical JSON are injective); path folding, normalisation and
joining are parameters; the overlay renderer, the PE and PDB readers and the file-boundary token digests are
parameters; canonical JSON text of a value without floats is read back as that value; the base material of a
warm key fixes the compiler and the command it runs.

Results a maintainer may not expect:

* A dependency hint whose schema is the float 2.0 is accepted, because the code compares it with `!=`. Encoding
  an accepted document again gives the same document exactly when its schema is the integer 2
  (`CompilerJsonParse`, `TransformJsonParse`, `FloatSchemaIsAccepted`).
* The chunk search can miss the only arrangement when one chunk starts another, even when all operands of the
  core change: with operands p, q and r, chunks r, p and pq, and oracle pqrp (`PrefixHidesOrder`). It finds an
  arrangement exactly when no unused chunk rivals the placed one at any step, and always when no chunk is a prefix
  of another (`UniqueChunkPermutation`, `PrefixFreeIsFound`).
* The parser's final check for a unique primary source does not refuse a second root: it accepts every
  non-empty forest within the limits (`ParseEncoded`).
* A null in recipe parameters is not protected: a pin below it turns it into an object (`Extends`).

## Model

| member | source | states |
|---|---|---|
| CacheSafety.StepKeepsInv | src/reprobit/cache.py:355-604 | one invariant over files, locks, every actor and every pair of actors survives each lock, file and crash step |
| CacheSafety.NoLeaseOpenDuringRemoval | src/reprobit/cache.py:530-604 | in every schedule, while any actor is in the removal loops of a collection no lease is open anywhere |
| CacheSafety.PublishedRecordsComplete | src/reprobit/cache.py:1167-1236 | after every schedule, crashes between any two steps included, each published record of each implementation has all its blobs with the recorded sizes |
| CacheSafety.GateIsExclusive | src/reprobit/cache.py:355-384 | after every schedule at most one actor is inside the gate |
| CacheSafety.LeasePinsStore | src/reprobit/cache.py:790-818 | from the opening of a lease to its close no record and no blob disappears or changes, whatever the other actors do |
| CacheSafety.UnselectedRecordSurvives | src/reprobit/cache.py:553-583 | a record outlives every schedule in which each started collection is a dry run, or has a family and the record is of the collection's own implementation or outside its family |
| CacheSweep.RemovalIsReachable | src/reprobit/cache.py:355-604 | the safety results are about runs that exist: a lease can store any one-blob record and close, and any collection can then reach its removal loops |
| CacheSweep.Store.SweepRecords | src/reprobit/cache.py:558-583 | the record loop keeps exactly the recent records and, under a family, those of the own implementation or outside the family; a dry run changes nothing, and its passes are steps of the protocol |
| CacheSweep.Store.SweepBlobs | src/reprobit/cache.py:584-604 | the blob loop leaves exactly the blobs that retained records reference, as steps of the protocol |
| CacheSweep.Store.Sweep | src/reprobit/cache.py:558-604 | after both loops a record is left exactly when the run is dry, it is recent, or a family is given and it is of the own implementation or outside the family; a blob is left exactly when a remaining record names it; both refine the protocol from the start of removal to leaving the gate |
| CacheCount.LocksAreOwned | src/reprobit/cache.py:355-459 | after every schedule each held marker lock belongs to an actor using it, so a crash leaves none behind |
| CacheCount.CollectionCounts | src/reprobit/cache.py:425-459 | a collection that counts alone counts exactly the open leases, removes the markers of crashed ones unless it is a dry run, and starts removing exactly when no lease is open |
| CacheCount.StatusCounts | src/reprobit/cache.py:425-459 | a status that counts alone counts the locked markers and removes none |
| CacheIndex.IndexFile.IndexRecord | src/reprobit/cache.py:892-912 | a locked update stores the bounded move-to-front of what the index file reads as |
| CacheIndex.HistoryIsByLastUse | src/reprobit/cache.py:866-912 | the unbounded history lists each used key once, by decreasing last use |
| CacheIndex.IndexIsBoundedHistory | src/reprobit/cache.py:949-984 | over every sequence of updates and losses the index is the first sixteen of the move-to-front history since the last loss, without repeats |
| SbrParser.ParseMsvcSbr | src/reprobit/classic_includes.py:243-303 | the cursor-and-stack loop ends, never reads out of bounds, and accepts and returns exactly what the stream grammar says |
| SbrParser.Reader.TakeRecord | src/reprobit/classic_includes.py:156-290 | one record read by the mutable cursor is the record, identifiers and end offset of the grammar, or a refusal |
| SbrForest.ParseEncoded | src/reprobit/classic_includes.py:243-303 | parsing the ENTER/LEAVE encoding of a forest gives its preorder listing with parents, exactly when it is non-empty and within the size, source and nesting limits |
| SbrForest.AcceptedListsForest | src/reprobit/classic_includes.py:250-303 | every accepted stream lists some forest in preorder |
| SbrForest.StrippedTraceUnchanged | src/reprobit/classic_includes.py:264-303 | deleting every non-nesting record from an accepted stream leaves the trace unchanged |
| SbrGrammar.ParseInterleaved | src/reprobit/classic_includes.py:203-303 | a stream of encoded records, with symbol records of every kind anywhere between the entering and leaving records of a forest, is accepted exactly when no address gets two names, parent classes refer to named addresses and the limits allow it, and lists the forest |
| SbrGrammar.AcceptedIsCoded | src/reprobit/classic_includes.py:203-303 | every accepted stream is the encoding of such a consistent record list |
| IncludeResolution.ResolveMsvcIncludeTrace | src/reprobit/classic_includes.py:359-445 | the resolver's loops compute the specified resolution: one sealed file per source over all roots, the primary source first, every forced include read |
| IncludeMeaning.ResolvesExactly | src/reprobit/classic_includes.py:384-445 | a trace resolves to given reads exactly when each read is the one sealed file its source names below the directories tried for it, the first is the compiled source, and every forced include names one sealed file that was read |
| IncludeMeaning.OnlyPlaceIsFound | src/reprobit/classic_includes.py:389-427 | a relative name that only the parent's directory, the working directory, a search root or, for the first source, the source's directory can supply resolves to the file there |
| IncludeMeaning.SettingIs | src/reprobit/classic_includes.py:343-383 | the working directory and source are the invocation's, and the search roots are the directories its options name, each sealed and once |
| IncludeWalk.ResolutionSurvivesGrowth | src/reprobit/classic_includes.py:384-427 | a trace that resolves under two authorities with the same roots, one with more files, resolves to the same logical paths |
| IncludeWalk.NewHeaderChangesNothingOrMisses | src/reprobit/classic_includes.py:384-427 | adding files leaves a resolution as it is or makes it fail |
| IncludeWalk.WalkReadsTheResolved | src/reprobit/classic_includes.py:389-427 | any deterministic walk that tries the resolver's roots in a fixed order reads exactly the files its trace resolves to |
| IncludeWalk.WalkTransfers | src/reprobit/classic_includes.py:389-427 | a walk is also the walk over other files on which its trace resolves to the same files |
| IncludeWalk.ResolverSettingIsCompilers | src/reprobit/classic_includes.py:343-383 | the roots the resolver derives from a trace's spelling of the working directory are the compiler's own, up to case |
| DependencyHints.ParseCompilerJson | src/reprobit/classic_cache.py:118-170 | decoding an encoded compiler hint gives it back exactly when it is well formed, and refuses it otherwise |
| DependencyHints.CompilerJsonParse | src/reprobit/classic_cache.py:132-170 | an accepted document decodes to a well-formed hint, and encoding that gives the same document exactly when its schema is the integer 2 |
| DependencyHints.CompilerJsonReads | src/reprobit/classic_cache.py:37-51 | entry i of an encoded hint is the place of its path in the table and then its parent or null, beside the other fields of the document |
| DependencyHints.FloatSchemaIsAccepted | src/reprobit/classic_cache.py:132-145 | for every well-formed hint, the document with schema 2.0 decodes to it and is not its encoding |
| DependencyHints.PathTable.Intern | src/reprobit/classic_cache.py:37-51 | interning keeps the table and its index map inverse to each other and grows both by new paths only |
| DependencyHints.ParseSourceTopology | src/reprobit/classic_cache.py:64-98 | the entry loop accepts exactly the lists that use the path table in first-use order with earlier parents |
| DonorHints.ParseTransformJson | src/reprobit/classic_cache.py:200-291 | decoding an encoded donor hint, with its path table shared across donors, gives it back exactly when it is well formed |
| DonorHints.TransformJsonParse | src/reprobit/classic_cache.py:225-291 | an accepted donor document decodes to a well-formed hint and re-encodes to itself exactly when its schema is the integer 2 |
| DonorHints.TransformJsonReads | src/reprobit/classic_cache.py:200-223 | every donor is stored under its id and directory, and its entries are places in the one path table and parents |
| DonorHints.BuildTransformJson | src/reprobit/classic_cache.py:200-223 | the loop over donors with one growing table builds the specified document |
| WarmProbe.ProbeCandidates | src/reprobit/classic_cache.py:397-437 | the candidate loop returns the first hit, else the first usable miss |
| WarmProbe.HitsExactlyWhenNamed | src/reprobit/classic_cache.py:397-437 | there is a hit exactly when some candidate, resolved now, has a key that names a stored record, and the record is the one under that key |
| WarmFaithful.UnchangedCompilerHits | src/reprobit/classic_cache.py:131-170 | an unchanged build hits: when a candidate holds the encoding of a well-formed hint for the base key, its trace resolves now, and a record is stored under the resulting key |
| WarmFaithful.OtherBaseMisses | src/reprobit/classic_cache.py:401-415 | a compiler probe uses no hint written for another base key |
| WarmFaithful.UnchangedDonorsHit | src/reprobit/classic_cache.py:498-535 | an unchanged transform hits, when every donor resolves now with its private files below its own directory |
| WarmFaithful.OtherBaseMissesDonors | src/reprobit/classic_cache.py:605-642 | a transform probe uses no hint written for another base key |
| WarmFaithful.SameReadsSameWalk | src/reprobit/classic_cache.py:352-375 | equal resolved reads, then and now, mean the walk that was stored is the only walk over the current files |
| WarmFaithful.CompilerHitIsFaithful | src/reprobit/classic_cache.py:377-437 | when every record was stored by a walk under the command its own key records, then on a compiler hit the walk over the current authority is the one that stored the record: same files, digests and nesting, and there is no other |
| WarmFaithful.DonorHitIsFaithful | src/reprobit/classic_cache.py:498-642 | the same for the transform probe, donor by donor, with each donor's own command and its private files below its own directory |
| Graphs.AcyclicIffSearched | src/reprobit/artifacts.py:183-201 | a closed graph has no cycle exactly when depth-first search from all its nodes succeeds |
| Graphs.VisitListsAncestors | src/reprobit/artifacts.py:244-260 | a search from nothing lists exactly the node and what it reaches |
| BuildOrder.VisitWithStack | src/reprobit/build.py:152-166 | popping, expanding and emitting on an explicit stack ends and is one recursive depth-first visit |
| BuildOrder.OrderedSteps | src/reprobit/build.py:145-167 | on every accepted plan the order is the recursive post-order, a permutation of the steps, dependencies first |
| BuildOrder.OrderedPlanUnchanged | src/reprobit/build.py:145-167 | a plan already in dependency order is left as it is |
| Provenance.AcyclicSearch.Visit | src/reprobit/artifacts.py:187-198 | the recursive visit with its two sets succeeds as the search does, and a failure reports a trail that closes a cycle |
| Provenance.Accept | src/reprobit/artifacts.py:158-201 | a provenance graph is accepted exactly when ids are distinct, parents exist and there is no cycle |
| Provenance.ProvenanceGraph.Origins | src/reprobit/artifacts.py:203-216 | with the memo in any state that queries can leave, the answer is the set of reachable root origins, never empty, and only an unknown node fails |
| Provenance.SomeOrigin | src/reprobit/artifacts.py:203-216 | every node of a sound graph reaches a root with an origin |
| Provenance.ProvenanceGraph.Trace | src/reprobit/artifacts.py:244-260 | a trace lists exactly the ancestors, parents first, each once |
| RangeMaps.ValidateRanges | src/reprobit/artifacts.py:116-140 | ranges are accepted exactly when they partition the artifact in ascending order |
| RangeMaps.RangesAreBytes | src/reprobit/artifacts.py:142-145 | what holds of the covering ranges holds of the single bytes of the span, both ways |
| RangeMaps.OriginsFor | src/reprobit/artifacts.py:218-229 | the origins of a span are the union of the origins of its bytes; it fails exactly on a span past the end or a byte of an unknown node |
| RangeMaps.HasOracleAncestry | src/reprobit/artifacts.py:231-234 | oracle ancestry means some byte comes from the oracle |
| RangeMaps.HasCleanOrigin | src/reprobit/artifacts.py:236-242 | clean means there is a byte and every byte is clean |
| ChunkOrder.UniqueChunkPermutation | src/reprobit/classic_link_layout_repair.py:210-224 | an order is returned exactly when a non-identity arrangement of distinct chunks has no rival at any step, and it is then the only arrangement that spells the oracle |
| ChunkOrder.FoundIsOnly | src/reprobit/classic_link_layout_repair.py:210-224 | an arrangement without rivals agrees with every other arrangement |
| ChunkOrder.PrefixFreeIsFound | src/reprobit/classic_link_layout_repair.py:214-222 | when no chunk is a prefix of another, every non-identity arrangement is found |
| ChunkOrder.PrefixHidesOrder | src/reprobit/classic_link_layout_repair.py:214-222 | a core of four changed operands in three chunks has exactly one arrangement that spells the oracle, and the search finds none |
| LinkImages.ImageDifference | src/reprobit/classic_link_layout_repair.py:91-113 | succeeds exactly when the images differ, share geometry and operands, and differ only inside separate 32-bit operands; it returns the changed ones |
| LinkImages.RelocationOwners | src/reprobit/classic_link_layout_repair.py:104-109 | the owner table is built exactly when no two operands overlap, and covers all their bytes |
| LinkImages.SplitRuns | src/reprobit/classic_link_layout_repair.py:143-152 | changed operands are split into maximal consecutive runs in order, losing none |
| LinkRuns.SectionForSite | src/reprobit/classic_link_layout_repair.py:116-123 | a section is returned exactly when it alone holds the operand |
| LinkRuns.GroupBySection | src/reprobit/classic_link_layout_repair.py:136-140 | the groups list the changed operands of each section of initialized data in order, exactly when every changed operand lies in one section |
| LinkRuns.ChangedRuns | src/reprobit/classic_link_layout_repair.py:132-152 | succeeds exactly when every changed operand lies in one section; the runs are maximal, cover every changed operand of initialized data, and come by section and then by offset |
| LinkLayout.UniqueOccurrence | src/reprobit/classic_link_layout_repair.py:155-160 | an offset is returned exactly when the needle is non-empty and occurs there and nowhere else |
| LinkLayout.FlagsMean | src/reprobit/classic_link_layout_repair.py:126-129 | initialized data has that flag and neither the code nor the uninitialized flag; selection is the COMDAT flag |
| LinkLayout.CompleteContributionRun | src/reprobit/classic_link_layout_repair.py:163-191 | succeeds exactly when the overlapping contributions, by offset, abut from start to end, are selected data and share a module; it returns each contribution with a byte of the range as often as it is listed, in offset order |
| LinkLayout.SortIsPermutation | src/reprobit/classic_link_layout_repair.py:170-181 | sorting by offset keeps every contribution and puts them in offset order |
| LinkLayout.UniquePublicNames | src/reprobit/classic_link_layout_repair.py:194-207 | names are returned exactly when every contribution has one public and no two agree |
| LinkLayout.ProveCore | src/reprobit/classic_link_layout_repair.py:227-291 | a proof exists exactly when there is evidence, and each symbol's recorded addresses are where the loaded candidate and oracle have its debug bytes |
| LinkLayout.ProofIsLoaded | src/reprobit/pe32.py:51-129 | mapping the recorded addresses through the section table leads to the bytes of each symbol, in both images |
| LinkRelay.OutsidePointersMatch | src/reprobit/classic_link_layout_repair.py:294-314 | holds exactly when symbol addresses are distinct and each changed operand lies in the core or follows one symbol from its old to its new address |
| LinkRelay.OracleIsRelaid | src/reprobit/classic_link_layout_repair.py:210-314 | the chunk order is the only one that spells the oracle core, and the oracle is the candidate with its core permuted and each changed outside operand moved with its symbol |
| LinkRelay.SymbolsKeepTheirBytes | src/reprobit/classic_link_layout_repair.py:268-291 | each symbol names the same bytes at its old address in the candidate and its new address in the oracle |
| LinkRelay.ProofIsUnique | src/reprobit/classic_link_layout_repair.py:227-291 | a run has at most one core proof |
| LinkRelay.DeriveLayout | src/reprobit/classic_link_layout_repair.py:352-407 | a diagnosis is returned exactly when the images differ only in operands, each changed one lies in one section, and one maximal run of them alone is supported; the oracle is then determined by it, and every symbol is loaded at its recorded addresses |
| LinkRelay.CompilerOwner | src/reprobit/classic_link_layout_repair.py:317-339 | an id is returned exactly when one compiler alone makes the module's object and the target links it |
| LinkRelay.DeriveHint | src/reprobit/classic_link_layout_repair.py:352-407 | a hint is returned exactly when there is a diagnosis and its module has one linked compiler; it names that compiler and the proven symbol order, with every symbol loaded at its recorded addresses |
| PublishSet.Prepare | src/reprobit/classic_publication.py:115-144 | preparation reads every prior output without changing the tree, and refuses special mode bits |
| PublishSet.Commit | src/reprobit/classic_publication.py:146-201 | each changed output is compare-and-swapped; alone, the tree is the prior tree with the committed versions in place |
| PublishSet.FindsOwnPrior | src/reprobit/classic_publication.py:226-233 | without a folding collision the rollback lookup finds the request's own prior output |
| PublishSet.RollBack | src/reprobit/classic_publication.py:215-264 | undoing in reverse restores every path whose undo reported no error, with its prior bytes and mode or absence; with working primitives there is no error |
| PublishSet.Publish | src/reprobit/classic_publication.py:86-276 | all or nothing: refused exactly for no outputs or folded collisions; published only when no step failed, the consumer's included, and the outputs still were the published versions at the check after the consumer; alone, published exactly when no step fails and all modes are permitted, with every path as requested and nothing else changed; any failure restores the tree; for any other writers this run only replaces versions it saw and removes versions it wrote |
| RetuneShell.ManhattanShell | src/reprobit/classic_donor_retune_candidates.py:287-303 | the shell is the ascending list of admissible states at exactly the distance |
| RetuneShell.NearbyIsExact | src/reprobit/classic_donor_retune_candidates.py:123-174 | for every radius the enumeration has each admissible state at distance 1 to radius once, by distance and then ascending, never the saved state, and nothing else |
| RetuneShell.Enumerate | src/reprobit/classic_donor_retune_candidates.py:405-429 | a limit returns exactly a prefix of that enumeration |
| OverlayKnobs.SeatsAreKnobs | src/reprobit/classic_donor_retune_candidates.py:623-736 | the seats are exactly the knobs of the tree's sequences: key count or n by kind, the value and line stored there, minimum 1, maximum 4096 or the smaller of 999 and ten to the width; no two share a place |
| OverlaySeats.SeatsAreListed | src/reprobit/classic_donor_retune_candidates.py:593-736 | seats are listed exactly when renderings, operations, sequences and knobs are well formed, and by rendering, operation, item and member |
| OverlayMoves.MoveKnobs | src/reprobit/classic_donor_retune_candidates.py:803-828 | the knob loop writes exactly the recorded changes, leaves lines and canvases alone, and accumulates the total shift of every item |
| OverlayMoves.LayoutIs | src/reprobit/classic_donor_retune_candidates.py:762-777 | a layout is known exactly for a sequence generator with an integer canvas that renders |
| OverlayMoves.ShiftOfOne | src/reprobit/classic_donor_retune_candidates.py:810-828 | one move pushes exactly the later items of its own laid-out sequence, by its delta |
| OverlayMoves.ShiftsAdd | src/reprobit/classic_donor_retune_candidates.py:810-828 | the shifts of several moves add up |
| OverlayMoves.ShiftLines | src/reprobit/classic_donor_retune_candidates.py:829-859 | the lines of exactly the items with a nonzero shift are written in order, and refused exactly when one would drop below one |
| OverlayFit.FitCanvases | src/reprobit/classic_donor_retune_candidates.py:860-898 | the generator of every touched sequence is the moved one with its canvas fitted to the moved extent and nothing else changes, or some canvas has no fit |
| OverlayChanges.ApplyMoves | src/reprobit/classic_donor_retune_candidates.py:780-899 | a move is accepted exactly when no line drops below one and every touched canvas fits; the laid tree is the saved one with the knob and line changes written, and the change list of knobs, lines and canvases has no crossing paths and turns the saved tree into the result |
| OverlayChanges.MoveIsDetermined | src/reprobit/classic_donor_retune_candidates.py:780-899 | the saved tree and the moves alone determine the laid tree, the result and its change list |
| OverlayLayout.GapKept | src/reprobit/classic_donor_retune_candidates.py:820-828 | the gap between neighbouring items of a sequence with known layout does not change |
| OverlayLayout.OrderKept | src/reprobit/classic_donor_retune_candidates.py:820-828 | any two items keep their order and stay apart |
| OverlayLayout.StaysDisjoint | src/reprobit/classic_donor_retune_candidates.py:780-899 | items with disjoint line intervals have disjoint intervals after the move |
| OverlayLayout.ExtentMoves | src/reprobit/classic_donor_retune_candidates.py:820-828 | the last line of any item moves by exactly the sum of the moves of its sequence |
| OverlayLayout.CanvasHolds | src/reprobit/classic_donor_retune_candidates.py:868-881 | the moved extent is measured with 8192 spare lines; the canvas holds it, an exact canvas stays exact, a loose one grows only when it must, and kept slack stays the same |
| OverlayLayout.LayoutKept | src/reprobit/classic_donor_retune_candidates.py:780-899 | when a rendered extent is the last line of any item, an accepted move keeps the items, their order and their gaps, leaves them disjoint on positive lines within the canvas, and a canvas that was exact or keeps its slack grows by exactly the sum of the moves, any other only as far as it must |
| JsonPaths.UndoRestores | src/reprobit/classic_donor_retune_materialization.py:66-131 | undoing an applied change list from its end restores exactly the saved value |
| OverlayGate.SavedIntervention | src/reprobit/classic_donor_retune_materialization.py:104-131 | the undo loop computes the specified saved value, comparing values as Python does at every depth, or refuses a bad distance, an empty or repeating list or a non-scalar |
| OverlayReview.ReviewAccepts | src/reprobit/classic_donor_retune_materialization.py:104-288 | a candidate that passes the gate and undoes to the saved tree differs from it only in one or two knobs, moved by its distance together, and recorded layout, or by one declaration run of that length appended to a rendering |
| OverlaySearch.MovePasses | src/reprobit/classic_donor_retune_materialization.py:234-288 | every one- or two-knob candidate passes the independent shape gate |
| OverlaySearch.MoveUndoes | src/reprobit/classic_donor_retune_materialization.py:104-131 | every such candidate has distinct paths and undoes to the saved parameters |
| OverlaySearch.InsertIsGood | src/reprobit/classic_donor_retune_materialization.py:134-165 | every inserted carrier passes the gate and its removal restores the saved parameters, for every codec that reads values without floats back |
| OverlaySearch.EnumerateOverlay | src/reprobit/classic_donor_retune_candidates.py:1021-1113 | proposals are decided in order up to the limit, a candidate is missing only when its one laid tree drops a line below one or has a canvas without a fit, and every candidate passes the gate and undoes to the saved parameters |
| OverlayOrder.ProposalsAreExact | src/reprobit/classic_donor_retune_candidates.py:1021-1113 | the proposals are exactly the admissible single moves, pairs of one rendering and insertions, each once: tiers of single moves and insertions by distance, then pairs by distance, seats and states, then longer insertions |
| OverlayOrder.MovesOfTree | src/reprobit/classic_donor_retune_candidates.py:1038-1100 | the moves tried for a tree are exactly its knobs moved within 1 and their maximum, one alone or two of one rendering in tree order, by a total of at most the radius |
| OverlayOrder.InsertionsOfTree | src/reprobit/classic_donor_retune_candidates.py:910-1018 | insertions are proposed exactly when the first rendering names a source with tokens and holds no inserted carrier: a run at the end and one at the start, each witnessed by the nearest 32 tokens |
| ConstraintMerge.JsonEqualIsEquality | src/reprobit/classic_donors.py:184-197 | typed structural equality is equality of values |
| ConstraintMerge.ThawFreeze | src/reprobit/classic_donors.py:200-213 | thawing a frozen value gives it back |
| ConstraintMerge.InstallConstraint | src/reprobit/classic_donors.py:227-258 | the walk from the root, making missing members on the way, is the recursive installation |
| ConstraintMerge.InstallReadsBack | src/reprobit/classic_donors.py:227-258 | an installed pin reads back at its path as it is |
| ConstraintMerge.MergeConstraints | src/reprobit/classic_donors.py:277-306 | the merge succeeds exactly when no path of the recipe or a pin ends in a payload-shaped field and every pin installs, and its frozen copy thaws to the merged parameters |
| ConstraintMerge.PayloadFreeIs | src/reprobit/classic_donors.py:144-181 | the search finds a payload-shaped field name at the end of any path of the value |
| ConstraintMerge.MergeExtends | src/reprobit/classic_donors.py:277-306 | the merged parameters extend the recipe, in whatever order the pins come |
| ConstraintMerge.ScalarsSurvive | src/reprobit/classic_donors.py:227-258 | every non-null scalar of the recipe survives at its path |
| ConstraintMerge.PinsReadBack | src/reprobit/classic_donors.py:277-306 | every pin's path reads back a value that extends the pin, however paths nest or share prefixes |
| ConstraintMerge.ElsewhereUnchanged | src/reprobit/classic_donors.py:227-258 | a path that turns away from every pin reads as in the recipe |

## Left out

- Collection by modification time: whether a record is recent is an input of the sweep.
- Record, blob and byte totals that `gc` and `status` report; the lease count is modelled.
- Windows attributes in publication; the model is the POSIX branch.
- Serializability of two concurrent publications; one transaction is modelled against arbitrary other writers.
- PublishSet.Publish: a primitive that fails is taken to have changed nothing, and the digest check after a commit is then always met, so it is not a separate branch.
- Reading PE headers, relocation blocks, PDB link maps and debug identities: the parsed values are inputs.
- LinkRelay.DeriveHint: the object reference of each module and the compilers a target links are inputs, and the identity of the debug companion is not compared.
- OverlayLayout.LayoutKept: the height of each item is a parameter, because declaration text is not rendered here.
- OverlayKnobs.SeatsAreKnobs: the nested loops that list seats are recursive functions here, so the order of their error reports is not captured.
- Enumerations of forward runs, declaration-run triples and forward runs with a shape, which repeat the two-knob pattern with fewer or more knobs.
- Rendering declaration text and its digests in the fixed-bound generators.
- Parsing the dotted text of a constraint path; pins carry their pieces.
- ConstraintMerge.MergeConstraints: the in-place walk is modelled on values, so aliasing between the recipe and the merged copy is not captured; which names are payload-shaped is a parameter, and the stack that looks for them is a recursion here.
- The field checks of build steps and link admissions, and the plan's JSON form.
- Identifier syntax and metadata of provenance nodes.
