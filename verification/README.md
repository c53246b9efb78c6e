# Verified models of the router's scheduling core

This project models the parts of the router on which its scheduling decisions rest, and proves what they
promise. `dafny verify dfyconfig.toml` checks all of it.

**The KV-cache prefix index** (`Registry`, `Prefixes`, `TrieStore`, `TrieSteps`, `TrieRegions`, `RadixTree`).
The production Patricia trie is modelled in place: an arena of nodes with labels, payloads of block ids
("bids") and short-list or map children, the owner table from bids to nodes, lazy collection of emptied
nodes, and counters. What it stands for is one map from bids to root paths of hashes. `TrieStore.Inv` ties
the two; every method of `RadixTreeBlockHash` is proved against an operation on the map, and the laws of
these operations, among them an order-free closed form of removal, are lemmas in `Registry`.

**The ladder** the trie was lowered through (`Ladder`, `LadderPayload`, `Forests`, `LadderSeq`,
`LadderLevels`, `Level2`, `Level3`, `LadderRuns`). Four representations, from lists of nodes to in-place heap
nodes and a list/map split, refine one canonical tree; after any insertions all four answer alike.

**The flat index** (`HashTable`, `IndexAgreement`, `IndexRuns`, `BlockHashes`). The hash table a scheduler can
be built with instead, the exact conditions under which it answers like the trie, and the chained block
hashes that both are fed.

**The latency simulator** (`Sched`, `Slots`, `Rollout`, `Ahead`, `Ephemeral`, `Timeline`, `Triggers`, `SpentRun`,
`PCtx`). Chunked prefill is simulated step by step; one rollout is cached, extended for a candidate, recovered through a
savepoint, and popped as the engine confirms it. The loops of `PCtx` are proved against functions on values,
and fairness, progress, monotonicity, transparency and the meaning of slots, markers and answers are lemmas about
these.

**The request mirror** (`Snapshot`, `Syncing`, `ReqIds`, `ReqIdHash`, `Mirror`). The per-replica snapshot, the
per-request trie with its owner index, and the arbitration of evictions.

**The request lifecycle** (`Except`, `Completion`, `Turns`, `QueueRunner`, `Lifecycle`). Queue runner, work loops,
completion loops and the two-phase abort and fault handling, as a state machine over arrivals, pulls and the
two halves of each completion turn. `Turns` tells from the reports alone who leaves a replica, and when.

**Smaller parts.** The queued-prefill counter and its corrections (`PrefillLedger`), the sliding window
(`Windows`) and the Preble-BS routing policy on top of it (`Preble`). `Basics` and `Options` are shared.

Where the code and its documentation differ, the model follows the code: `size` adds positions and subtracts
bids, saturating; short child lists of the production trie are unsorted and scanned; the production trie does
not split when a key ends inside a label, while the ladder does; decoders' progress stands still in the
simulation; an excepted request keeps its phase, as in release builds.

## Model

| member | source | states |
|---|---|---|
| `Registry.InsertEffect` | radixtree/src/block_hash.rs:382-515 | after an insertion every known bid keeps its path, exactly the supplied bids are added, and each unknown one sits at the prefix of the key it was first supplied for |
| `Registry.InsertPaths` | radixtree/src/block_hash.rs:382-515 | the paths in the tree are then exactly the old ones and the prefixes of the key if and only if each bid supplied for a prefix the tree lacked is unknown and not supplied before |
| `Registry.InsertWellFormed` | radixtree/src/block_hash.rs:382-515 | the registered paths stay prefix-closed and non-empty if and only if no such position gets a new bid after one that gets none |
| `Registry.InsertExact` | radixtree/src/block_hash.rs:346-380 | if each supplied bid is unknown or already at that same position, the code's assertions hold and every supplied bid, aliases included, ends at exactly its prefix of the key |
| `Registry.InsertCount` | radixtree/src/block_hash.rs:474-514 | the prefixes of a key that the tree lacks number the key length less the longest match, which is what an insertion returns |
| `Registry.RemoveClosedForm` | radixtree/src/block_hash.rs:674-738 | the registry left by the back-to-front removal loop is exactly the bids outside the batch whose every prefix is still held by a bid outside it |
| `Registry.RemoveOrderFree` | radixtree/src/block_hash.rs:674-738 | two batches with the same bids, in whatever order and however often repeated, leave the same registry |
| `Registry.RemoveExact` | radixtree/src/block_hash.rs:674-738 | a removal drops exactly the batch if and only if no bid it spares lies below a position it empties |
| `Registry.RemovesOnlyBatch` | radixtree/src/block_hash.rs:736 | for distinct known bids the closing debug assertion, no more bids removed than listed, holds if and only if nothing spared lies below an emptied position |
| `Registry.CascadeReached` | radixtree/src/block_hash.rs:674-738 | a run reaches a registry and a batch of one bid whose removal takes two |
| `Registry.RunProvenance` | radixtree/src/block_hash.rs:789-808 | after any run from the empty tree the paths are prefix-closed, and every registration goes back to an insertion that supplied that bid for that path and was not undone by a later removal of the bid |
| `Registry.MatchIsThreshold` | radixtree/src/block_hash.rs:517-594 | in a prefix-closed set a query matches at every length up to its match and at none beyond |
| `TrieStore.PathsAreRegistered` | radixtree/src/block_hash.rs:114-122 | in every valid heap the live positions are exactly the registered paths, which are prefix-closed |
| `TrieStore.SiblingsDiffer` | radixtree/src/block_hash.rs:302-322 | live siblings have distinct first hashes |
| `TrieStore.Reachable` | radixtree/src/block_hash.rs:621-672 | every allocated node is reached from the root by a chain of children, so the node count is the number of reachable nodes and nothing leaks |
| `TrieStore.Drained` | radixtree/src/block_hash.rs:824-855 | once every bid is gone the tree is the root and one layer of bare placeholders |
| `TrieStore.BidOccursOnce` | radixtree/src/block_hash.rs:114-122 | a bid is held at one position of one node only |
| `TrieSteps.ExtensionRepeats` | radixtree/src/block_hash.rs:450-467 | where the extension of a leaf accepts a bid that already points at the leaf, or one supplied twice, the heap fits no valid tree |
| `RadixTree.RadixTreeBlockHash.constructor` | radixtree/src/block_hash.rs:769-779 | the empty tree: valid, nothing registered, one node |
| `RadixTree.RadixTreeBlockHash.Insert` | radixtree/src/block_hash.rs:789-796 | for any bids in range: the assertions hold if and only if the bids for missing prefixes are new, or the insertion extends a leaf that those bids point at if at anything; with new bids the tree then stands for the insertion, and otherwise the heap fits no valid tree; the result is the number of new key prefixes; at most two nodes are allocated |
| `RadixTree.RadixTreeBlockHash.InsertInner` | radixtree/src/block_hash.rs:382-515 | the same across the five cases: new root child, leaf extension, new child, split, perfect match |
| `RadixTree.RadixTreeBlockHash.CommonPrefixOf` | radixtree/src/block_hash.rs:596-619 | how far a node's label and a key agree: not at all, partly, or in full |
| `RadixTree.RadixTreeBlockHash.ScanSmall` | radixtree/src/block_hash.rs:387-404 | the scan of a short child list finds the child the key continues in, or shows there is none, and collects placeholders without changing what the tree stands for |
| `RadixTree.RadixTreeBlockHash.ScanLarge` | radixtree/src/block_hash.rs:405-421 | the same for the child map |
| `RadixTree.RadixTreeBlockHash.FullCombo` | radixtree/src/block_hash.rs:218-287 | the walk over fully matched nodes ends where the key leaves the tree, at a node's end or inside a label |
| `RadixTree.RadixTreeBlockHash.AliasPath` | radixtree/src/block_hash.rs:346-380 | registers each unknown bid at its prefix of a key that is in the tree and leaves the known ones |
| `RadixTree.RadixTreeBlockHash.ExtendLeaf` | radixtree/src/block_hash.rs:450-467 | a leaf takes the rest of the key into its label and payload if each bid points nowhere or at the leaf; with new, distinct bids the tree stands for the insertion, and otherwise the heap fits no valid tree |
| `RadixTree.RadixTreeBlockHash.InsertAsChild` | radixtree/src/block_hash.rs:290-337 | a new child takes the rest of the key, whether or not the child list turns into a map; the assertions hold if and only if the bids are new and distinct, and the tree then stands for the insertion |
| `RadixTree.RadixTreeBlockHash.ToMap` | radixtree/src/block_hash.rs:305-314 | the upgrade of a child list never meets an empty label and files each child under its first hash |
| `RadixTree.RadixTreeBlockHash.SplitNodeAtInsert` | radixtree/src/block_hash.rs:140-209 | splitting a label, moving its tail, children and bids to a new node and attaching the rest of the key: the assertions hold if and only if the bids for the rest are new, and the tree then stands for the insertion |
| `RadixTree.RadixTreeBlockHash.SplitNode` | radixtree/src/block_hash.rs:140-209 | the split alone changes no registration |
| `RadixTree.RadixTreeBlockHash.Get` | radixtree/src/block_hash.rs:517-594 | returns the length of the longest prefix of the query that is registered |
| `RadixTree.RadixTreeBlockHash.MatchLabel` | radixtree/src/block_hash.rs:532-539 | how far a child's label agrees with the rest of a query |
| `RadixTree.RadixTreeBlockHash.Remove` | radixtree/src/block_hash.rs:802-808 | the tree then stands for the removal applied to the registry; size saturates as in the code |
| `RadixTree.RadixTreeBlockHash.RemoveInner` | radixtree/src/block_hash.rs:674-738 | the removal loop applies the single removals from the back of the list and returns how many registrations went |
| `RadixTree.RadixTreeBlockHash.RemoveBid` | radixtree/src/block_hash.rs:679-730 | one bid goes: alone while an alias still holds its position, and otherwise with everything registered at or below it |
| `RadixTree.RadixTreeBlockHash.ClearInner` | radixtree/src/block_hash.rs:636-672 | frees exactly a node's subtree and clears exactly the owners of its bids |
| `RadixTree.RadixTreeBlockHash.DrainedToOneLayer` | radixtree/src/block_hash.rs:824-855 | the structural check succeeds if and only if no bid is registered |
| `RadixTree.RepeatReached` | radixtree/src/block_hash.rs:450-467 | two insertions into an empty tree, the second of which passes its assertions and leaves a heap that fits no valid tree |
| `Ladder.PutLen` | radixtree/benches/lowering_levels.rs:98-163 | after one insertion a query's prefix length is the larger of what it was and its agreement with the new key |
| `Ladder.BuildLen` | radixtree/benches/lowering_levels.rs:15-29 | after any insertions a query's prefix length is its longest agreement with any inserted key |
| `Ladder.BestIsMax` | radixtree/benches/lowering_levels.rs:15-29 | that longest agreement is attained by an inserted key and exceeded by none |
| `LadderPayload.PutAt` | radixtree/benches/lowering_levels.rs:121-163 | after one insertion a path has the new payload element if it begins the key and either had none or ends in the node at whose end the key ends; otherwise it keeps the element it had |
| `LadderPayload.BuildAt` | radixtree/benches/lowering_levels.rs:15-29 | after any insertions a path has an element exactly if an inserted key begins with it, and it is one that such an insertion supplied for it |
| `LadderPayload.AtLen` | radixtree/benches/lowering_levels.rs:58-88 | that is exactly if a lookup follows the path to its end |
| `Level0.RadixTreeMap.Insert` | radixtree/benches/lowering_levels.rs:51-55 | level 0, children in order of arrival: well formed, and standing for the canonical insertion |
| `Level0.RadixTreeMap.PrefixLen` | radixtree/src/verified.rs:140-183 | level 0 answers with the canonical prefix length, the property the length bounds of the earlier proof leave open |
| `Level0.NodeInsert` | radixtree/benches/lowering_levels.rs:121-163 | in place change, descent or split of a node stands for the canonical one |
| `Level1.FindChild` | radixtree/benches/lowering_levels.rs:188-190 | binary search over strictly sorted children finds the child or the place where it belongs |
| `Level1.RadixTreeMap.Insert` | radixtree/benches/lowering_levels.rs:197-201 | level 1 keeps children strictly sorted and stands for the canonical insertion |
| `Level1.RadixTreeMap.PrefixLen` | radixtree/benches/lowering_levels.rs:203-232 | level 1 answers with the canonical prefix length |
| `Level2.RadixTreeMap.Insert` | radixtree/benches/lowering_levels.rs:373-377 | level 2, nodes changed in place on the heap: ownership stays disjoint and the nodes stand for the canonical insertion |
| `Level2.RadixTreeMap.PrefixLen` | radixtree/benches/lowering_levels.rs:379-409 | level 2 answers with the canonical prefix length |
| `Level2.SplitAt` | radixtree/benches/lowering_levels.rs:462-490 | the in-place split of a heap node stands for the canonical split |
| `Level3.InsertChild` | radixtree/benches/lowering_levels.rs:583-606 | a child joins a list of at most 64, or a map, and a full list turns into a map, without changing the other children |
| `Level3.UpdateChild` | radixtree/benches/lowering_levels.rs:674-681 | a child that is there is updated without changing the form of the container |
| `Level3.RadixTreeMap.Insert` | radixtree/benches/lowering_levels.rs:621-625 | level 3 keeps short lists sorted and maps filed under first elements, and stands for the canonical insertion |
| `Level3.RadixTreeMap.PrefixLen` | radixtree/benches/lowering_levels.rs:627-661 | level 3 answers with the canonical prefix length |
| `LadderRuns.RunAll` | radixtree/benches/lowering_levels.rs:15-29 | after any sequence of insertions of non-empty keys the four levels give the same prefix length for every query, the longest agreement with any inserted key |
| `HashTable.HashTableBlockHash.Insert` | router/src/scheduler/kvcache.rs:61-107 | the hash-to-bids and bid-to-hash tables stay mutually inverse without empty lists; exactly the unknown bids are recorded, and counted |
| `HashTable.HashTableBlockHash.Get` | router/src/scheduler/kvcache.rs:109-119 | returns how many leading hashes of the query are cached |
| `HashTable.HashTableBlockHash.Remove` | router/src/scheduler/kvcache.rs:121-144 | exactly the listed bids go, and lists that empty go with them |
| `IndexAgreement.PromptsAreChained` | router/src/scheduler/kvcache.rs:178-195 | without hash collisions the hash sequences of any prompts are chained: a hash names one root path |
| `IndexAgreement.AlignedRemove` | router/src/scheduler/kvcache.rs:121-144 | a removal leaves the two indexes with the same bids if and only if the trie removes exactly the batch |
| `IndexAgreement.RemovalGet` | radixtree/src/block_hash.rs:674-738 | right after a removal both answer every chained query alike, whatever was cut |
| `IndexAgreement.RemovalIsHarmless` | router/src/scheduler/kvcache.rs:61-144 | they go on agreeing through every possible next insertion if and only if the removal cut nothing it did not list |
| `IndexAgreement.RunAgrees` | router/src/scheduler/kvcache.rs:61-144 | after any run of chained insertions and of removals that cut nothing more than they list, both answer every chained query alike |
| `IndexRuns.RunBoth` | router/src/scheduler/kvcache.rs:61-144 | the trie and the table themselves, fed one such run, return the same match for every chained query |
| `BlockHashes.HashesFitPrompt` | router/src/scheduler/kvcache.rs:178-195 | the block hashes of a prompt stand for no more tokens than it has if and only if blocks have at most 16 tokens or the last short one has fewer than 16 |
| `BlockHashes.FullBlocksHashed` | router/src/scheduler/kvcache.rs:178-195 | at block size 16 exactly the full blocks are hashed |
| `BlockHashes.SharedBlocks` | router/src/scheduler/kvcache.rs:178-195 | prompts that share their first k blocks share their first k hashes |
| `BlockHashes.SameHashSamePath` | router/src/scheduler/kvcache.rs:178-195 | without collisions equal hashes of two prompts stand at the same position and end equal prefixes |
| `BlockHashes.HashedAppend` | router/src/scheduler/kvcache.rs:244-255 | hashing a longer prompt is hashing the shorter one and continuing from its leftover |
| `BlockHashes.BlockHashState.constructor` | router/src/scheduler/kvcache.rs:178-208 | the chunk loop computes the chained hashes and the leftover block |
| `BlockHashes.BlockHashState.AppendTokens` | router/src/scheduler/kvcache.rs:244-255 | after an append the state is that of a fresh request with all tokens if and only if fewer than 32 tokens were waiting |
| `BlockHashes.BlockHashState.SetRealTokenHitsGetDiff` | router/src/scheduler/kvcache.rs:217-229 | returns the reported less the predicted hits, in blocks |
| `Slots.SlotConserves` | router/src/scheduler/simulator/pctx.rs:399-476 | a simulated step hands out min(owed, budget beside the decoders) prefill, exactly what the requests then owe less; ids stay the same and unique; budget left over means nobody owes prefill |
| `Slots.SlotIsFcfs` | router/src/scheduler/simulator/pctx.rs:438-476 | the queue loses a prefix only, every chunk advances its request by its size and nobody else moves, nobody gets two chunks, and every chunk but the last completes its request |
| `Slots.ForwardCandidate` | router/src/scheduler/simulator/pctx.rs:455-476 | a candidate at the back of the queue leaves the service of those ahead unchanged and gets what they leave |
| `Rollout.RoundsIsCeiling` | router/src/scheduler/simulator/pctx.rs:300-334 | the step bound is a division rounded up |
| `Rollout.RollCandidate` | router/src/scheduler/simulator/pctx.rs:377-389 | first come first served with a progress bound: nothing for the candidate before its first step, a chunk in every step from first to last and none for others after the first, decode in the step after; nobody else waits or owes prefill from its first step on; all within ceil(W / (T - n + 1)) + 1 slots |
| `Rollout.RollKeepsIds` | router/src/scheduler/simulator/pctx.rs:399-527 | a rollout neither adds nor loses a request |
| `Rollout.FullyCachedOnIdle` | router/src/scheduler/simulator/pctx.rs:463-482 | a fully cached candidate on an idle replica yields no slot at all |
| `Rollout.MoreHitsNeverHurt` | router/src/scheduler/simulator/pctx.rs:307-331 | of two rollouts that differ in cache hits only, the one with more hits starts the candidate in the same step and finishes its prefill no later, whether or not the cap cuts them off |
| `EphemeralRollout.EphOkKept` | router/src/scheduler/simulator/pctx.rs:65-93 | every trigger keeps the savepoint within 1..slots and only beside a bound candidate |
| `EphemeralRollout.SavepointTransparent` | router/src/scheduler/simulator/pctx.rs:231-294 | from a non-empty baseline, a query, any engine reports and a second query give exactly the rollout, savepoint and answer that the reports and the second query alone give, unless the reports pop exactly the whole baseline |
| `EphemeralRollout.SavepointExact` | router/src/scheduler/simulator/pctx.rs:231-294 | in general the two answers agree if and only if the reports did not spend the whole baseline, or snapshot and baseline end run alike ahead of the candidate |
| `EphemeralRollout.SpentBaseline` | router/src/scheduler/simulator/pctx.rs:645-661 | after a fully popped baseline the two answers agree if and only if the current snapshot and the baseline's end run alike ahead of the candidate |
| `Ahead.RollSame` | router/src/scheduler/simulator/pctx.rs:399-527 | two states give a candidate the same rollout if and only if, without it, they schedule the same steps up to the first that leaves budget over, which ends with the same requests running, or up to the cap in the same state; neither the candidate nor the predictor matters |
| `EphemeralRollout.QueryMoreHits` | router/src/scheduler/simulator/rollout.rs:72-90 | the answer of a query with more hits has the same first step and no more chunked prefill steps |
| `EphemeralRollout.QueryFcfs` | router/src/scheduler/simulator/pctx.rs:344-392 | a query's rollout, from scratch or on a baseline, is first come first served and within the bound |
| `EphemeralRollout.SeenRun` | router/src/scheduler/simulator/pctx.rs:618-731 | a cached rollout survives a run of reports if and only if it has a slot for each, and report i did some prefill and has exactly the requests of slot i, of which there are some, in prefill and in decode rows; what is left is then the rollout without these slots, its markers and the split of its baseline counted from there |
| `Timeline.SlotInOrder` | router/src/scheduler/simulator/pctx.rs:420-476 | a chunk goes to a running request that owes prefill or to a waiting one; a running request that still owes prefill after the step has kept everybody waiting and everybody running with a larger id from being served |
| `Timeline.SlotDescribes` | router/src/scheduler/simulator/pctx.rs:477-527 | each simulated slot describes its step: it lists exactly the requests whose prefill advanced, with their progress before and by how much, and exactly those that decode, with their progress; size and token totals are those of the step, rounded up to the next multiple of the block size; its latency is what the predictor says of that batch |
| `Timeline.RollTimeline` | router/src/scheduler/simulator/pctx.rs:300-392 | in any rollout every new slot describes one step of the simulation from the state it started in; the markers are the first step that prefills the candidate, the last one if that completes its prefill, and the first that decodes it; and it ends at the cap, at that first decode, or when nothing is left to schedule |
| `Timeline.QueryTells` | router/src/scheduler/simulator/rollout.rs:72-90 | whatever is cached, a query simulates on from the slots it joins, and its answer is the time at which the step that completes the candidate's prefill ends, the steps that prefill spans, and the latency of the first decode step; each is absent exactly when that step is not reached |
| `Timeline.QueryOnTime` | router/src/scheduler/simulator/rollout.rs:72-90 | under the conditions of the progress bound all three are there, and the decode step is the one after |
| `Timeline.AdmissionDecides` | router/src/scheduler/simulator/pctx.rs:539-580 | after the admission of the cached candidate the next query goes on from its slots and their end; after any other it starts from the snapshot |
| `Timeline.CandidateOwes` | router/src/scheduler/simulator/pctx.rs:359-366 | a candidate owes its prompt less the cached leading blocks, and nothing exactly if these cover it |
| `Triggers.NextKeeps` | router/src/scheduler/simulator/pctx.rs:216-294 | under fresh ids every trigger keeps snapshot, baseline and savepoint states free of repeated and of foreign ids |
| `Triggers.ReachableMoreHits` | router/src/scheduler/simulator/pctx.rs:216-294 | in every reachable context more cache hits never worsen a query's answer |
| `Triggers.ReachableFcfs` | router/src/scheduler/simulator/pctx.rs:216-294 | in every reachable context a query under sufficient budget is first come first served and within the bound |
| `Triggers.AdmittedWaits` | router/src/scheduler/simulator/pctx.rs:539-552 | in every reachable context a request that no report has mentioned since its admission waits with its whole prompt to compute |
| `Triggers.ReachableAnchor` | router/src/scheduler/simulator/pctx.rs:597-660 | in every reachable context a cached rollout starts right after the step reported last |
| `SpentRun.SpentExample` | router/src/scheduler/simulator/pctx.rs:645-661 | two legal runs that differ in one query for another request, after which the next request is answered differently |
| `PCtx.PCtx.CollectRunning` | router/src/scheduler/simulator/pctx.rs:413-428 | the running requests that decode and those that prefill, in increasing id order |
| `PCtx.PCtx.ServePrefillers` | router/src/scheduler/simulator/pctx.rs:438-454 | the loop over running prefills computes the specified pass |
| `PCtx.PCtx.PullWaiting` | router/src/scheduler/simulator/pctx.rs:456-476 | the loop over the waiting queue computes the specified pass |
| `PCtx.PCtx.SimulateStep` | router/src/scheduler/simulator/pctx.rs:399-527 | one simulated step computes the specified state, markers and slot |
| `PCtx.PCtx.RunScheduleLoop` | router/src/scheduler/simulator/pctx.rs:300-392 | the slot loop computes the specified rollout |
| `PCtx.PCtx.Query` | router/src/scheduler/simulator/pctx.rs:216-294 | a query leaves the specified cached rollout and returns its answer (`Timeline.QueryTells` says what that means) |
| `PCtx.PCtx.OnAdmit` | router/src/scheduler/simulator/pctx.rs:539-580 | an admission updates snapshot and mirror and turns the cached candidate's rollout into the baseline, or drops it |
| `PCtx.PCtx.OnSse` | router/src/scheduler/simulator/pctx.rs:597-675 | a report updates model, snapshot and mirror, and pops a matching head slot or drops the rollout (`EphemeralRollout.SeenRun` says when) |
| `Snapshot.SharesAddUp` | router/src/scheduler/simulator/sched.rs:136-150 | the shares of a step's prefill tokens over its prefill rows add up to the total |
| `Snapshot.SyncShrinks` | router/src/scheduler/simulator/sched.rs:136-189 | absorbing any report keeps ids unique over both queues and shrinks the in-flight set by exactly the finished and aborted ids |
| `Syncing.SharesSplit` | router/src/scheduler/simulator/sched.rs:136-157 | the shares of the rows add up to the step's prefill tokens if it has prefill rows, differ by at most one between these, larger ones first, and are zero for other rows |
| `Syncing.SyncTurns` | router/src/scheduler/simulator/sched.rs:136-189 | what a report with one row a request makes of each request: an unfinished prefill row leaves it running at the progress reported for before the step and its share, but not beyond max(prompt, 1); a decode row adds one token, counted from the prompt's end if it was waiting; a finished or aborted request is gone; a running request that is then preempted is queued with progress 0; nobody else moves or changes |
| `Syncing.SyncQueue` | router/src/scheduler/simulator/sched.rs:136-189 | the queue is then the running requests that are preempted, the last one first, and those no row has taken off in their old order, without the aborted ones |
| `Syncing.PrefillAddsUp` | router/src/scheduler/simulator/sched.rs:152-162 | over a run of reports that prefill a request, reported with the engine's own count, its progress is the sum of its shares, but not more than max(prompt, 1) |
| `Snapshot.SchedSnapshot.PromoteToRunning` | router/src/scheduler/simulator/sched.rs:71-76 | moves the first waiting request with the id to the running set |
| `Snapshot.SchedSnapshot.PreemptRequest` | router/src/scheduler/simulator/sched.rs:81-86 | moves a running request to the queue front, its progress lost |
| `Snapshot.SchedSnapshot.DropRequest` | router/src/scheduler/simulator/sched.rs:89-92 | removes every trace of the id |
| `Snapshot.SchedSnapshot.IsInFlight` | router/src/scheduler/simulator/sched.rs:104-107 | true exactly for waiting and running ids |
| `Snapshot.SchedSnapshot.Sync` | router/src/scheduler/simulator/sched.rs:136-189 | the report loops compute the specified state, which `Syncing.SyncTurns` and `SyncQueue` describe |
| `ReqIds.ExactClaim` | radixtree/src/req_id_hash.rs:61-74 | with one claim a request, claiming a sequence keeps nodes, owners and index exactly those of the claims |
| `ReqIds.ExactRelease` | radixtree/src/req_id_hash.rs:79-94 | so does releasing one |
| `ReqIds.ClaimThenRelease` | radixtree/src/req_id_hash.rs:61-94 | inserting a fresh request's hashes and removing them restores the trie and the index exactly |
| `ReqIds.ExactUnique` | radixtree/src/req_id_hash.rs:34-52 | claims determine trie and index |
| `ReqIds.ExactMatch` | radixtree/src/req_id_hash.rs:97-110 | the match of a query is its longest agreement with any claim |
| `ReqIds.HoldsEvict` | radixtree/src/req_id_hash.rs:124-134 | evicting a hash leaves alone whoever does not own it |
| `ReqIdHash.RadixTreeReqIdHash.InsertHashes` | radixtree/src/req_id_hash.rs:61-74 | the walk claims every node of the path and every hash for the request |
| `ReqIdHash.RadixTreeReqIdHash.RemoveByHashes` | radixtree/src/req_id_hash.rs:79-94 | strips the request from path and index and prunes what is left without owners and children |
| `ReqIdHash.RadixTreeReqIdHash.StripOwnerAlongPath` | radixtree/src/req_id_hash.rs:150-161 | removes the request from the owners of the path's existing nodes |
| `ReqIdHash.RadixTreeReqIdHash.PruneEmpty` | radixtree/src/req_id_hash.rs:163-178 | removes the dead nodes of the path from its end upwards |
| `ReqIdHash.RadixTreeReqIdHash.Get` | radixtree/src/req_id_hash.rs:97-110 | the length of the longest existing path along the query |
| `ReqIdHash.RadixTreeReqIdHash.EvictOrphanHash` | radixtree/src/req_id_hash.rs:124-134 | drops the hash's first-level subtree and its index entry |
| `Mirror.EvictionsNeverCut` | router/src/scheduler/simulator/mirror.rs:88-117 | over any run of admissions with unique ids and of reports, whatever they evict, each mirrored request is in flight, owns each of its hashes and still matches in full |
| `Mirror.SafeNext` | router/src/scheduler/simulator/mirror.rs:61-117 | each trigger keeps that |
| `Mirror.IntactAbsorbed` | router/src/scheduler/simulator/mirror.rs:88-117 | a report releases exactly the finished, aborted and preempted requests, and leaves the claims of those in flight whole |
| `Mirror.EvictedMatch` | router/src/scheduler/simulator/mirror.rs:88-104 | in any state an eviction makes a hash none of whose owners is in flight match no more, and changes no other match |
| `Mirror.EvictedOwners` | router/src/scheduler/simulator/mirror.rs:88-104 | and lists nobody for that hash any more, if it was there to match; the lists of other hashes stay |
| `Mirror.RunMatch` | router/src/scheduler/simulator/mirror.rs:122-124 | in every run the match of a query is its longest agreement with a request that is mirrored and in flight |
| `Mirror.RunExact` | router/src/scheduler/simulator/mirror.rs:61-117 | in every run with unique ids, whatever it evicts, trie and index are exactly the claims: the evictions that pass arbitration take away only what the same report releases |
| `Mirror.IncrementalMirror.InsertRequest` | router/src/scheduler/simulator/mirror.rs:61-72 | a claim replaces the request's former one; an empty one is ignored |
| `Mirror.IncrementalMirror.RemoveRequest` | router/src/scheduler/simulator/mirror.rs:74-78 | releases the request's claim, if any |
| `Mirror.IncrementalMirror.PrefixMatch` | router/src/scheduler/simulator/mirror.rs:122-124 | the match in the request trie |
| `Mirror.IncrementalMirror.ApplySse` | router/src/scheduler/simulator/mirror.rs:88-117 | evicts each listed hash unless an owner is in flight, then releases finished, aborted and preempted requests |
| `Except.PutKeeps` | router/src/engine/colocation.rs:1045-1099 | each event keeps ids unique and entries in step with states, and an exit or termination hands an entry out exactly if it was not taken yet |
| `Except.CleanKeeps` | router/src/engine/colocation.rs:1105-1127 | the end-of-cycle cleanup keeps that and finds every entry it is to hand out |
| `Except.RunConserves` | router/src/engine/colocation.rs:954-1127 | over any run with fresh aborts and faults and tracked exits and terminations, an id's entry comes out as often as it went in, less one while it is still held |
| `Except.UndisturbedFault` | router/src/engine/colocation.rs:1018-1030 | a fault that nothing else touches is handed out by exactly the second cleanup |
| `Except.LiveKeeps` | router/src/engine/colocation.rs:1067-1072 | a fault that is due at the next cleanup is kept from it if and only if a live signal names it in between |
| `Except.ExitedFaultStays` | router/src/engine/colocation.rs:1026-1028 | a faulted request that has exited is tracked after every prefix of a run if and only if no termination in the run names it |
| `Except.ExtContext.PutEvent` | router/src/engine/colocation.rs:1045-1099 | computes the specified context and entry |
| `Except.ExtContext.FilterDrop` | router/src/engine/colocation.rs:1105-1127 | hands out exactly the entries of the faults whose live flag is clear, and clears the other flags |
| `Completion.StepConserves` | router/src/engine/colocation.rs:390-875 | one turn of the loop: ids held before and ids handed in are, without overlap, the ids held after and the ids counted out, whose number is what the two decrements take off; entries and exception context stay disjoint and every entry has a phase |
| `Completion.CompletionLoop.OnStep` | router/src/engine/colocation.rs:390-875 | the loop body computes the specified state and the batch size after both saturating decrements |
| `Completion.CompletionLoop.TallyRows` | router/src/engine/colocation.rs:462-570 | the fast path counts each finished known request once and takes those in the exception context out |
| `Completion.CompletionLoop.DeliverRows` | router/src/engine/colocation.rs:710-790 | the slow path: phases advance, finished requests leave, hang-ups are noted and revoked on finish |
| `Completion.CompletionLoop.OnFrontendAbort` | router/src/engine/colocation.rs:229-248 | noted requests move to the exception context, last first, as abortions: they wait for a termination (`Turns.HungUpWaits`) |
| `Completion.CompletionLoop.OnBackendFault` | router/src/engine/colocation.rs:254-284 | faulted requests move there unless aborted in the same step, as faults: the cleanup of the next turn takes them (`Turns.FaultGoes`) |
| `Completion.CompletionLoop.OnTerm` | router/src/engine/colocation.rs:815-828 | acknowledged abortions leave, counted if their entry was still there |
| `Completion.CompletionLoop.EndCycle` | router/src/engine/colocation.rs:829-834 | the cleanup counts and forgets what it hands out |
| `QueueRunner.QueueTask.Append` | router/src/scheduler/policies/policy_runner.rs:83-97 | an arrival goes to the back of the queue and the policy may commit the oldest request |
| `QueueRunner.ArrivalsInTurn` | router/src/scheduler/policies/policy_runner.rs:83-97 | after any arrivals the j-th one is with the replica the policy named j-th, in order of arrival, and counted there once; the others still wait, which is nobody if the policy never refuses |
| `QueueRunner.QueueTask.NextRequest` | router/src/scheduler/policies/policy_runner.rs:98-131 | requests are committed as the policy decides until the asking replica has one, which it then gets |
| `QueueRunner.AskingGets` | router/src/scheduler/policies/policy_runner.rs:98-131 | a replica that asks is handed the head of its commit buffer, or, if that is empty, the first waiting request that the policy gives it before refusing one; exactly the requests up to that one leave the queue |
| `Completion.OpenedConserves` | router/src/engine/colocation.rs:390-693 | a turn up to its first decrement: ids held before and handed in are, without overlap, those held after and the finished ones, whose number the decrement takes off |
| `Completion.ClosedConserves` | router/src/engine/colocation.rs:711-837 | the rest of a turn: what leaves are acknowledged abortions and dropped faults, whose number the second decrement takes off; no trace of a new id appears |
| `Turns.TurnsCountOut` | router/src/engine/colocation.rs:229-284 | in every run of turns, told from the reports: the first decrement is the number of requests present that the report's rows finish, the second the number of the others that its terminations name or that the report before left behind as faulted, that is reported as faults without a hang-up and without a termination; these leave and nobody else |
| `Turns.HeldSince` | router/src/engine/colocation.rs:390-837 | a replica holds a request exactly as long as, since the turn that took it up, no row finishes it, no termination names it, and no turn but the last has left a fault of it behind |
| `Turns.HungUpWaits` | router/src/engine/colocation.rs:229-248 | a request whose client has hung up is held, whatever else is reported, until a later row finishes it or a later termination names it; no cleanup counts it out |
| `Turns.FaultGoes` | router/src/engine/colocation.rs:254-284 | a fault left behind is still held after its turn and no longer after the next, whose second decrement counts it out unless a row finishes it |
| `Turns.PhasesTell` | router/src/engine/colocation.rs:711-837 | in every run exactly the requests with a trace have a phase, the excepted one exactly in the exception context; a held one has the phase its last row says, and the waiting one before any |
| `Lifecycle.OpenKeeps` | router/src/engine/colocation.rs:390-693 | the first half of a turn keeps the system invariant, counts out nobody a second time, and its decrement does not saturate |
| `Lifecycle.CloseKeeps` | router/src/engine/colocation.rs:711-837 | so does the second half, whatever happened in between |
| `Lifecycle.TurnIsStep` | router/src/engine/colocation.rs:390-875 | the two halves in a row are the turn that the completion loop is proved to take |
| `Lifecycle.QueueSteps` | router/src/scheduler/policies/policy_runner.rs:81-131 | what arrivals and pulls do to the queue is what the queue runner's methods are proved to do |
| `Lifecycle.NextKeeps` | router/src/engine/colocation.rs:390-875 | every arrival, pull and half turn keeps the invariant of the whole system |
| `Lifecycle.LoadIsReal` | router/src/scheduler/policies/policy_runner.rs:81-131 | in every run, and also between the two decrements of a turn, the load counter of each replica is the requests in its commit buffer, handed to its completion loop, held, and in its exception context; what it was given is a FIFO subsequence of the arrivals |
| `Lifecycle.ExactlyOnePlace` | router/src/engine/colocation.rs:390-875 | in every run an id has arrived if and only if it is in some place, counted out being one of them, and it is never in two |
| `Lifecycle.CountedOutOnce` | router/src/engine/colocation.rs:479-500 | in every run the requests given to a replica number its load counter and those it counted out |
| `Lifecycle.AssignedOnce` | router/src/scheduler/policies/policy_runner.rs:81-131 | no request is given to two replicas |
| `PrefillLedger.NeverSaturates` | router/src/scheduler/policies/dsl_runtime.rs:532-533 | a predicted hit count is at most the prompt's full blocks, so the saturating subtraction never saturates |
| `PrefillLedger.PrefillCounter.ApplyDefaultAfter` | router/src/scheduler/policies/dsl_runtime.rs:515-551 | records the prediction and adds the tokens expected to be uncached |
| `PrefillLedger.PrefillCounter.OnStep` | router/src/engine/colocation.rs:461-523 | takes off the step's prefilled tokens and the error of each prediction the report settles |
| `PrefillLedger.StepFollows` | router/src/scheduler/state.rs:192-222 | the ledger of open requests moves the counter exactly as the report loop does |
| `PrefillLedger.PredictionErrorCancels` | router/src/engine/colocation.rs:461-523 | along any run in which no request finishes in its prefill report, the counter is the predicted uncached tokens of the unreported requests less the prefill done for them, and zero once all are reported, whatever was predicted |
| `PrefillLedger.ErrorsLeftBehind` | router/src/engine/colocation.rs:479-500 | in general the counter is then off by exactly the prediction errors of the requests that finished in their prefill report |
| `PrefillLedger.FinishedRequestDrifts` | router/src/engine/colocation.rs:479-500 | a single such request brings the counter back to zero if and only if its prediction was right |
| `Windows.ExactlyCommuting` | radixtree/src/types/sliding_window.rs:18-27 | where subtracting undoes the last addition, subtracting the oldest entry always leaves the aggregate of the others if and only if additions commute |
| `Windows.UndoingIsNotEnough` | radixtree/src/types/sliding_window.rs:18-27 | a stack is such an aggregate, and its additions do not commute |
| `Windows.OldestOut` | radixtree/src/types/sliding_window.rs:79-88 | if additions also commute, subtracting the oldest entry leaves the aggregate of the others |
| `Windows.KeptAreYoung` | radixtree/src/types/sliding_window.rs:79-88 | with pushes in time order expiry drops exactly the entries whose age exceeds the window, though it stops at the first that does not |
| `Windows.ExpiryIsLazy` | radixtree/src/types/sliding_window.rs:79-88 | expiring now and again later is expiring once, later |
| `Windows.SlidingWindow.Push` | radixtree/src/types/sliding_window.rs:72-75 | appends an entry and keeps the aggregate that of the retained entries |
| `Windows.SlidingWindow.Expire` | radixtree/src/types/sliding_window.rs:79-88 | drops old entries from the front and keeps the aggregate that of the retained entries |
| `Windows.SlidingWindow.AggregateAt` | radixtree/src/types/sliding_window.rs:109-112 | returns the aggregate of the entries left at that time |
| `Preble.BodyPicks` | router/src/scheduler/policies/preble/mod.rs:106-128 | the policy always picks a replica if there is one: if the cached blocks of some observation cover more of the prompt, in tokens, than the threshold, the last of those with the most hits and among these the least window sum; otherwise the first with the least sum |
| `Preble.PrebleBsQ.Admit` | router/src/scheduler/policies/dsl_runtime.rs:295-303 | observing, deciding, counting and recording an admission computes the specified routing step |
| `Preble.SeesYoung` | router/src/scheduler/policies/preble/mod.rs:106-133 | in every run of admissions in time order, whatever is cached, what the policy sees of a replica is the sum of the batch sizes recorded at those of its admissions no longer ago than the window, and its batch size is the number of all |
| `Preble.NeverBursts` | router/src/scheduler/policies/preble/mod.rs:106-133 | from a cold start, however many admissions over however many replicas, no two replicas differ by more than one request, every request is counted once, and a replica with k requests has window sum 1 + ... + k |
| `Preble.TriangleClosedForm` | router/src/scheduler/policies/preble/mod.rs:106-133 | that sum is k(k+1)/2 |

## Where a property fails, and exactly when

- Removal can take more than its batch (`Registry.CascadeReached`, a run that gets there). It takes exactly the
  batch if and only if no bid it spares lies below a position it empties (`Registry.RemoveExact`); the debug
  assertion on the number of removed bids fails in precisely the other cases (`Registry.RemovesOnlyBatch`), and
  so does the agreement with the flat table at the next insertion (`IndexAgreement.RemovalIsHarmless`).
- The extension of a leaf accepts a bid that already points at that leaf or is supplied twice
  (`RadixTree.RepeatReached`, two insertions that get there). An insertion that passes its assertions leaves a
  valid tree if and only if the bids for the missing prefixes are unknown and distinct
  (`RadixTree.RadixTreeBlockHash.Insert`, `TrieSteps.ExtensionRepeats`).
- The literal 16 in the hashing of a prompt: hashes stand for at most the prompt's tokens if and only if blocks
  have at most 16 tokens or the last short block has fewer (`BlockHashes.HashesFitPrompt`).
- `append_tokens` closes one block a call, so it keeps up with the tokens if and only if fewer than 32 wait
  (`BlockHashes.BlockHashState.AppendTokens`).
- A baseline that is popped down to nothing loses its savepoint, and a query for another request can then change
  an answer (`SpentRun.SpentExample`, a run the system can make: a rollout stopped by the slot cap, confirmed
  step by step, its request aborted with the last). The answers agree if and only if the baseline was not spent
  or the snapshot and the baseline's end schedule the same steps ahead of the candidate, fully cached or not
  (`EphemeralRollout.SavepointExact`, `Ahead.RollSame`).
- A faulted request that has exited is not cleaned up: it stays tracked through a run if and only if no
  termination in the run names it (`Except.ExitedFaultStays`).
- A request that finishes in its prefill report leaves its prediction error in the queued-prefill counter: the
  counter returns to zero if and only if these errors cancel (`PrefillLedger.ErrorsLeftBehind`,
  `PrefillLedger.FinishedRequestDrifts`).
- The law documented for window aggregates, that subtracting undoes an addition, does not suffice for a
  first-in-first-out window (`Windows.UndoingIsNotEnough`): under it the window drops its oldest entry if and
  only if additions commute (`Windows.ExactlyCommuting`).
- An insertion into the ladder overwrites payload that is already there only from the beginning of the node at
  whose end the key ends; a key that ends inside a label leaves it as it was (`LadderPayload.PutAt`).

## Left out

- An insertion whose assertions fail ends the program; what it leaves behind is not described, and neither is one
  with a bid outside the table or with fewer bids than hashes.
- Spin lock, atomics, raw pointers and the async runtime: each lock-protected section is one step, nodes are ids
  in an arena or heap objects, and freed ids are not reused.
- The slow path works on what only its completion loop sees, and belongs to the step of the first decrement.
- A work loop's pull and its handing over to the completion loop are one step, and channels are unbounded.
- Machine integers: counters and tokens are unbounded; saturation is modelled where the code relies on it.
- Latency prediction and its online correction are parameters (any function of the batch), and window sums are
  exact integers instead of floating point.
- The block hash is a parameter; freedom from collisions is a hypothesis where it is needed, which some hash
  into unbounded numbers meets (`BlockHashes.PairMixIsCollisionFree`).
- Levels 0, 1 and 3 of the ladder work on node values, level 2 on heap nodes; deallocation is not modelled.
- The nodes of the request trie are named by their root paths.
- The three parallel prefill vectors of a simulated step are one list of chunks.
- `all_tokens`, `waiting_reqs` and token-time averages: the code keeps no exact meaning for them. Rollout markers
  that a pop has passed stay at zero.
- Hashes that the completion loop inserts from the middle of a request: trie results are about keys from the root.
- Transports, tokenizers, validation, metrics export, configuration, the policy macro and the remaining policies.
