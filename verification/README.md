# Models and proofs for Arctic Inference

This project models the parts of Arctic Inference whose correctness rests on careful bookkeeping, and proves
what they are meant to achieve. `dafny verify dfyconfig.toml` checks all of it.

## What is modelled

**The suffix-decoding engine.** A suffix tree stores, for every position of every sequence, the suffix that
starts there, cut at a maximum depth. `Suffixes` and `Contents` say what that means without any tree:
`Occ(ins, w)` is the number of stored suffixes that start with `w`, and a `Boundary` is a string that needs a node. `Trie`
states, on records of the nodes' fields, what makes a compressed trie good for given contents: nodes exactly at
the boundaries, counts equal to occurrences, label windows that end occurrences, endpoints that record where
suffixes end. `TrieAppend`, `TrieKids` and `TrieRemove` prove that each in-place branch of `append` and each
phase of `remove` keeps this, `NodeWrites` proves what each branch writes, and `SuffixTrees` puts them together
as the class `SuffixTree` whose `Valid()` is kept by `Append`, `Extend` and `Remove` on any ids in any order.
`Occurrences` and `TreeRuns` draw the conclusions: matching and counting are occurrence counting after every
run, the contents alone determine the tree, extending and removing undo each other, label windows stay live, and
the tree has at most twice as many nodes as tokens.

`Siblings` is the pointer structure below the child order: doubly linked siblings and doubly linked groups of
equal counts, with the six helpers that change them. `SiblingOrder` is the order on counts that both `Siblings`
and the tree refer to, and `KidLists` shows that the linked lists stand for the children of the nodes, at every
node of a tree and after every change of its children. `IntMaps` is the hash map with tombstones and triangular
probing. `Drafting`, `GreedyDraft`, `TreeDraft` and `Speculation` are matching and drafting over a valid tree;
`Caches` is the request lifecycle with its eviction and its reuse of sequence ids; `CacheRuns` compares whole
runs of it with a reading of the log of commands; `Simulation` is the verification loop of the simulator.

**Forest cascade attention.** `PrefixGroups` (grouping by shared prefixes), `TokenPacking` (the token
permutation), `AttentionStates` (attention as a weighted sum over slots, and its merge), `ForestCascade` (the
metadata) and `ForestAttention` (the passes over the groups and over the requests, and the scatter) together
show that every query token gets exactly plain causal attention.

**Sequence parallelism and the shift mode.** `UlyssesAttention` shows that pack, exchange, local attention,
exchange and unpack are attention over the whole batch, `RankGroups` that the rank families cut the world into
whole groups along their own axes, `HeadOwnership` that both modes give each rank the same heads, and
`ShiftLogits` that the logits permutation undoes the order of the gather. `Blocks` holds the arithmetic of
cutting into equal blocks.

**Weight transfer.** `WeightPacking` packs weights into buckets; `WeightTransfer` is a state machine of the two
streams, the events and the receiver's loop, whose invariants hold under every interleaving and whose runs all
end with everything delivered.

Exact real numbers stand for floating point throughout.

## Where the code and its documentation differ

- `start_request` says that a cached request may start again; the code evicts its cached response first
  (arctic_inference/suffix_decoding/cache.py:140-159), and so does `Start`.
- `speculate` without `max_spec_tokens` reads an attribute that does not exist
  (arctic_inference/suffix_decoding/cache.py:285); the number is an explicit argument here.
- The threshold of tree drafting is not applied to the rest of the label in which the match ends
  (csrc/suffix_decoding/suffix_tree.cc:884-905). As those tokens have probability one, a threshold above
  one acts like one, which is what `Threshold` says.
- The comment at csrc/suffix_decoding/suffix_tree.cc:690 speaks of the sum of the children's counts; the code
  adds up one per child. `CountsAddUp` gives the actual relation.

## Model

| member | source | states |
|---|---|---|
| TreeRuns.CountAfter | csrc/suffix_decoding/suffix_tree.cc:294-591 | After any interleaving of extending and removing, on any ids, the node found for a nonempty string counts its occurrences in the sequences that are left, and none is found when it is too long or does not occur. |
| TreeRuns.Run | csrc/suffix_decoding/suffix_tree.cc:507-591 | Every run of updates leaves a valid tree whose sequences are those the updates alone determine. |
| TreeRuns.Undo | csrc/suffix_decoding/suffix_tree.cc:507-591 | Extending a new sequence and removing it restores the nodes: same strings, counts, labels, parents, next tokens and endpoints, with their indices. |
| TreeRuns.WindowsLive | csrc/suffix_decoding/suffix_tree.cc:546-591 | In a valid tree every label window lies in a stored sequence and ends an occurrence there of the whole string from the root. |
| TreeRuns.NodeBound | csrc/suffix_decoding/suffix_tree.cc:699-709 | The root counts all stored tokens, and there are at most twice as many other nodes. |
| Occurrences.StoredThrough | csrc/suffix_decoding/suffix_tree.h:30-31 | The stored suffixes that start with a string no longer than the depth are exactly the places where it occurs in a sequence; longer strings start none. |
| Occurrences.SameTree | csrc/suffix_decoding/suffix_tree.cc:327-502 | Two good trees for the same contents agree in everything but label windows and the order of children: strings, counts, labels, parents, next tokens, and endpoints with their indices. |
| Occurrences.ChildTokens | csrc/suffix_decoding/suffix_tree.cc:322-385 | A node has a child for exactly the tokens that continue its string in some stored suffix. |
| Occurrences.EndpointSids | csrc/suffix_decoding/suffix_tree.h:45-48 | A node has endpoints for exactly the sequences of which a stored suffix ends there. |
| Occurrences.SameEndpoints | csrc/suffix_decoding/suffix_tree.cc:327-328 | The indices recorded as endpoints depend on the contents alone. |
| Occurrences.EndpointIs | csrc/suffix_decoding/suffix_tree.h:45-48 | An endpoint is the end of the sequence, for strings shorter than the depth, and otherwise the end of the last occurrence of the string in the sequence. |
| Occurrences.CountsAddUp | csrc/suffix_decoding/suffix_tree.cc:684-709 | A count is the number of stored suffixes that end at the node plus the counts of its children, each of which is strictly smaller below the root. |
| Occurrences.BoundaryBound | csrc/suffix_decoding/suffix_tree.cc:699-709 | There are at most twice as many strings that need a node as stored suffixes. |
| Occurrences.SizeBound | csrc/suffix_decoding/suffix_tree.cc:699-709 | A good trie has at most two nodes below the root for each suffix the root counts. |
| Suffixes.Locus | csrc/suffix_decoding/suffix_tree.cc:800-823 | From every string that occurs the trie is followed without a choice to one first boundary, which occurs as often. |
| Suffixes.EndIsBoundary | csrc/suffix_decoding/suffix_tree.cc:342-376 | A string at which a suffix ends needs a node. |
| Suffixes.ExtendThrough | csrc/suffix_decoding/suffix_tree.cc:319-502 | Extending one suffix by a token adds one occurrence, of the extended suffix, and changes no other. |
| Suffixes.ExtendBoundary | csrc/suffix_decoding/suffix_tree.cc:330-502 | When one suffix grows by a token its new end needs a node, its old end may stop needing one, and nothing else changes. |
| Suffixes.RemoveBoundary | csrc/suffix_decoding/suffix_tree.cc:514-560 | When a suffix goes, no node off its path changes its need, and on it only the last shared one and those beyond it can. |
| Contents.GrowingStarts | csrc/suffix_decoding/suffix_tree.cc:306-316 | Planting the new suffix at the root adds an empty suffix to what is stored; the one cut off the window is complete. |
| Contents.GrowingStep | csrc/suffix_decoding/suffix_tree.cc:319-320 | Each active node, longest suffix first, extends exactly its suffix by the token. |
| Contents.GrowingEnds | csrc/suffix_decoding/suffix_tree.cc:319-504 | When all active nodes have moved, the tree stores what it should for the extended sequence. |
| Contents.GrowingUnique | csrc/suffix_decoding/suffix_tree.cc:319-320 | As longer suffixes go first, no two suffixes of the sequence end at the next active node at its turn, so that its endpoint is unambiguous. |
| Contents.WanedEnds | csrc/suffix_decoding/suffix_tree.cc:517-590 | When every suffix has been taken out, what is left is what the other sequences store. |
| Trie.LabelThrough | csrc/suffix_decoding/suffix_tree.cc:806-819 | All strings that end inside one label occur equally often. |
| Trie.ChildThrough | csrc/suffix_decoding/suffix_tree.h:52-54 | The child for a token carries exactly the occurrences of the string followed by it. |
| Trie.LabelText | csrc/suffix_decoding/suffix_tree.cc:810-819 | Labels can be read in the reference sequences, without leaving them. |
| TrieAppend.ReadyEndpoint | csrc/suffix_decoding/suffix_tree.cc:327-328 | The endpoint that the code asserts for an active node is there and is the length of the sequence before the token. |
| TrieAppend.PlantOk | csrc/suffix_decoding/suffix_tree.cc:306-309 | A new suffix at the root keeps the trie good. |
| TrieAppend.GrowLeafOk | csrc/suffix_decoding/suffix_tree.cc:330-340 | Case 1a keeps the trie good, for the suffix extended, and no other suffix ends elsewhere than before. |
| TrieAppend.LoneSuffix | csrc/suffix_decoding/suffix_tree.cc:332-340 | A node below the root that counts one has no children, and refers to the only suffix in it, as the code asserts. |
| TrieAppend.AddLeafOk | csrc/suffix_decoding/suffix_tree.cc:341-376 | Case 1b keeps the trie good. |
| TrieAppend.OnlyChild | csrc/suffix_decoding/suffix_tree.cc:377-384 | When the child counts one less than the node, it is the only child and only the suffix at hand ends at the node, as the code asserts. |
| TrieAppend.FuseOk | csrc/suffix_decoding/suffix_tree.cc:384-411 | Case 2a, in which the child takes the place of the node, keeps the trie good. |
| TrieAppend.SlideOk | csrc/suffix_decoding/suffix_tree.cc:412-438 | Case 2b, in which the border between the labels moves by a token, keeps the trie good. |
| TrieAppend.DescendOk | csrc/suffix_decoding/suffix_tree.cc:442-454 | Case 3a keeps the trie good. |
| TrieAppend.SplitOk | csrc/suffix_decoding/suffix_tree.cc:455-501 | Case 3b, which splits a label, keeps the trie good. |
| SuffixTrees.SuffixTree.constructor | csrc/suffix_decoding/suffix_tree.cc:28-30 | A new tree is valid and stores nothing. |
| SuffixTrees.SuffixTree.Advance | csrc/suffix_decoding/suffix_tree.cc:319-502 | The turn of one active node: whichever case applies, its suffix is extended, the trie stays good, and the result is the node where the suffix now ends. |
| SuffixTrees.SuffixTree.Plant | csrc/suffix_decoding/suffix_tree.cc:306-309 | The root gets the new suffix and its endpoint; nodes and order stay as they must be. |
| SuffixTrees.SuffixTree.AppendTurn | csrc/suffix_decoding/suffix_tree.cc:319-502 | After each turn the nodes hold the contents as grown so far, and the rest of the window still points at the ends of its suffixes. |
| SuffixTrees.SuffixTree.Append | csrc/suffix_decoding/suffix_tree.cc:294-504 | Validity is kept and the sequence, new if need be, has the token at its end. |
| SuffixTrees.SuffixTree.Extend | csrc/suffix_decoding/suffix_tree.cc:507-511 | Validity is kept and the sequence has the tokens at its end. |
| SuffixTrees.SuffixTree.WalkDown | csrc/suffix_decoding/suffix_tree.cc:518-545 | The walk takes one off every count on the way and removes the leaf that only this suffix had; the suffix is no longer counted, and only the last node left may be superfluous. |
| SuffixTrees.SuffixTree.MergeStep | csrc/suffix_decoding/suffix_tree.cc:546-560 | A superfluous last node is merged with its child, after which the form is canonical again. |
| SuffixTrees.SuffixTree.FindLeaf | csrc/suffix_decoding/suffix_tree.cc:561-568 | The descent by first children ends at a leaf, with the distance to it. |
| SuffixTrees.SuffixTree.RepairStep | csrc/suffix_decoding/suffix_tree.cc:561-587 | References on the way are repaired, or left for a later visit if the leaf is still to be visited; either way every node that still refers to the removed sequence is passed by one of its remaining suffixes. |
| SuffixTrees.SuffixTree.RemoveSuffix | csrc/suffix_decoding/suffix_tree.cc:518-588 | One suffix is taken out, and the invariant of removal holds for the rest. |
| SuffixTrees.SuffixTree.Remove | csrc/suffix_decoding/suffix_tree.cc:514-591 | Validity is kept, exactly the sequence is gone, and no node refers to it. |
| TrieRemove.WalkChild | csrc/suffix_decoding/suffix_tree.cc:524-530 | A child for the next token exists exactly while the stored suffix has not ended. |
| TrieRemove.LoneChild | csrc/suffix_decoding/suffix_tree.cc:531-539 | A child that counts one is the leaf of the suffix, with nothing below it, so that removing it removes nothing else. |
| TrieRemove.MergeTest | csrc/suffix_decoding/suffix_tree.cc:546-550 | The test for one child with the same count is true exactly when the node is no longer needed. |
| TrieRemove.SkipRepair | csrc/suffix_decoding/suffix_tree.cc:569-574 | Skipping is sound: the leaf is the end of a suffix still to be removed, which passes all nodes on the way. |
| TrieRemove.RepairOk | csrc/suffix_decoding/suffix_tree.cc:575-587 | The references taken from the leaf’s endpoint end occurrences, in a sequence that stays, of the strings of all nodes on the way. |
| TrieRemove.WaningEnds | csrc/suffix_decoding/suffix_tree.cc:588-591 | At the end of a removal the trie is good for what is left and nothing refers to the removed sequence. |
| TrieKids.ListRaised | csrc/suffix_decoding/suffix_tree.cc:188-228 | After a count grows, the moved child list again has exactly the children, each once, by nonincreasing count. |
| TrieKids.ListLowered | csrc/suffix_decoding/suffix_tree.cc:230-291 | The same after a count drops. |
| TrieKids.SplitKids | csrc/suffix_decoding/suffix_tree.cc:455-501 | The lists after a split: the new node stands for the child among its siblings, and has it as its only child. |
| TrieKids.FuseKids | csrc/suffix_decoding/suffix_tree.cc:384-411 | The lists after a fuse. |
| NodeWrites.SplitWrites | csrc/suffix_decoding/suffix_tree.cc:455-501 | What a split writes, field by field, in the node, the child and the new node. |
| NodeWrites.FuseWrites | csrc/suffix_decoding/suffix_tree.cc:384-411 | What a fuse writes, field by field. |
| NodeWrites.SlideWrites | csrc/suffix_decoding/suffix_tree.cc:412-438 | What moving the border between two labels writes, field by field. |
| NodeWrites.MergeWrites | csrc/suffix_decoding/suffix_tree.cc:551-559 | What a merge writes, field by field. |
| SiblingOrder.RaisedDescending | csrc/suffix_decoding/suffix_tree.cc:188-228 | Moving a child to the front of its run when its count grows keeps counts nonincreasing. |
| SiblingOrder.LoweredDescending | csrc/suffix_decoding/suffix_tree.cc:230-291 | Moving a child to the end of its run when its count drops keeps counts nonincreasing. |
| SiblingOrder.MovedElements | csrc/suffix_decoding/suffix_tree.cc:188-291 | A move loses and adds no child. |
| Siblings.Siblings.Remove | csrc/suffix_decoding/suffix_tree.cc:32-70 | One child leaves the linked list and the groups; the rest stays in order, with groups that are exactly the runs of equal counts and whose heads are their first children. |
| Siblings.Siblings.InsertBefore | csrc/suffix_decoding/suffix_tree.cc:72-113 | A child that fits there comes before another, in the right group, and nothing else changes place. |
| Siblings.Siblings.InsertAfter | csrc/suffix_decoding/suffix_tree.cc:115-159 | A child that fits there comes after another, in the right group, and nothing else changes place. |
| Siblings.Siblings.InsertFirst | csrc/suffix_decoding/suffix_tree.cc:364-368 | The first child of a node is alone in the list, in a group of its own. |
| Siblings.Siblings.InsertLast | csrc/suffix_decoding/suffix_tree.cc:369-372 | A new leaf comes last. |
| Siblings.Siblings.Replace | csrc/suffix_decoding/suffix_tree.cc:161-186 | Another node takes over place and group. |
| Siblings.Siblings.Increment | csrc/suffix_decoding/suffix_tree.cc:188-228 | The pointer operations have the effect of moving the child to the front of its run, and list and groups stay consistent. |
| Siblings.Siblings.Decrement | csrc/suffix_decoding/suffix_tree.cc:230-291 | The pointer operations have the effect of moving the child behind its run, and list and groups stay consistent. |
| Siblings.RemoveRuns | csrc/suffix_decoding/suffix_tree.h:89-99 | Without one child the groups are still exactly the runs of equal counts. |
| Siblings.InsertRuns | csrc/suffix_decoding/suffix_tree.h:89-99 | With one more child that joins the group of a neighbour with its count, or else is alone, the groups are still exactly the runs. |
| Siblings.GroupHead | csrc/suffix_decoding/suffix_tree.h:90-93 | The head of a group is the first child of its run. |
| KidLists.BuildAll | csrc/suffix_decoding/suffix_tree.h:56-99 | The children of all nodes of a tree can be kept in linked lists with groups, in the order and with the counts the tree has them, without sharing objects. |
| KidLists.Raise | csrc/suffix_decoding/suffix_tree.cc:188-228 | When the count of a child grows, incrementing it in the linked list gives the list of children the tree has afterwards. |
| KidLists.Lower | csrc/suffix_decoding/suffix_tree.cc:230-291 | The same when a count drops. |
| KidLists.Append | csrc/suffix_decoding/suffix_tree.cc:363-372 | The same for a new leaf. |
| KidLists.Take | csrc/suffix_decoding/suffix_tree.cc:531-539 | The same for a leaf that is removed. |
| KidLists.Swap | csrc/suffix_decoding/suffix_tree.cc:161-186 | The same for a node that takes the place of a child. |
| IntMaps.ProbesCover | csrc/suffix_decoding/int32_map.h:244-245 | Triangular probing over a power of two visits every slot. |
| IntMaps.ProbesDiffer | csrc/suffix_decoding/int32_map.h:320-349 | Two probes of one round look at different slots. |
| IntMaps.StoredReached | csrc/suffix_decoding/int32_map.h:318-335 | A search for a stored key meets its slot before any empty slot. |
| IntMaps.StoredBeforeEmpty | csrc/suffix_decoding/int32_map.h:332-335 | A search that meets an empty slot first has a key that is not stored. |
| IntMaps.MeetsEmpty | csrc/suffix_decoding/int32_map.h:343-346 | As long as a slot is neither live nor a tombstone, a search ends at an empty slot, so the full-map error cannot happen. |
| IntMaps.PutOk | csrc/suffix_decoding/int32_map.h:130-161 | Filling the slot a search reports adds exactly the key and keeps every key reachable. |
| IntMaps.RemoveOk | csrc/suffix_decoding/int32_map.h:102-107 | A tombstone removes exactly the key and keeps every other key reachable. |
| IntMaps.IntMap.Probe | csrc/suffix_decoding/int32_map.h:318-349 | The search finds a stored key; for any other key it gives the one slot that is the first on its way that is not live, a tombstone or empty; running through the table without either does not happen. |
| IntMaps.FirstFreeOnly | csrc/suffix_decoding/int32_map.h:320-349 | There is only one such slot. |
| IntMaps.IntMap.PlaceNew | csrc/suffix_decoding/int32_map.h:351-366 | Placing a new key always finds a slot. |
| IntMaps.IntMap.Rehash | csrc/suffix_decoding/int32_map.h:368-391 | The same map in a table of another capacity without tombstones, within the load limit. |
| IntMaps.IntMap.MakeRoom | csrc/suffix_decoding/int32_map.h:139-154 | One more slot fits afterwards, at the same capacity if tombstones alone made it too full and else at twice that, which fits in 32 bits. |
| IntMaps.IntMap.Emplace | csrc/suffix_decoding/int32_map.h:110-162 | The map gets the key with the value unless it has the key; reserved keys are errors and change nothing; a new key takes the first free slot of its search, and the table is rebuilt exactly when that is an empty one and three quarters would be passed. |
| IntMaps.IntMap.Find | csrc/suffix_decoding/int32_map.h:205-231 | The slot of the key, or the end. |
| IntMaps.IntMap.Contains | csrc/suffix_decoding/int32_map.h:80-89 | Whether the map has the key. |
| IntMaps.IntMap.Erase | csrc/suffix_decoding/int32_map.h:91-108 | The map loses the key, and the table is freed when nothing is left, halved to a quarter load, or left with a tombstone. |
| IntMaps.IntMap.MaybeRehashAfterErase | csrc/suffix_decoding/int32_map.h:296-316 | Freeing or shrinking keeps the map, and happens exactly under the load conditions. |
| IntMaps.IntMap.Assign | csrc/suffix_decoding/int32_map.h:164-167 | The indexed assignment sets the key to the value. |
| IntMaps.IntMap.Entries | csrc/suffix_decoding/int32_map.h:395-449 | Iteration from begin to end gives every entry of the map exactly once, in the order of the slots. |
| Drafting.MatchToken | csrc/suffix_decoding/suffix_tree.cc:805-821 | One token: the place of the longer string, or none when it does not occur. |
| Drafting.MatchContext | csrc/suffix_decoding/suffix_tree.cc:800-823 | A node is found exactly when the string is no longer than the depth and occurs, and its count is the number of occurrences. |
| GreedyDraft.SpeculatePath | csrc/suffix_decoding/suffix_tree.cc:825-853 | The draft is a chain of most frequent continuations whose probabilities are ratios of occurrence counts, and it stops only at the budget or when no continuation is left that is likely enough. |
| GreedyDraft.ProbIs | csrc/suffix_decoding/suffix_tree.cc:844-846 | The probability of a continuation is the fraction of the occurrences of the matched string that go on with it. |
| GreedyDraft.HeadIsMost | csrc/suffix_decoding/suffix_tree.cc:840-848 | The first child is the most frequent continuation. |
| GreedyDraft.RatioChain | csrc/suffix_decoding/suffix_tree.cc:844-846 | Probabilities multiplied along the path telescope to one ratio of counts. |
| TreeDraft.SpeculateTree | csrc/suffix_decoding/suffix_tree.cc:874-905 | Entries come by nonincreasing probability with parents before children, no string twice, and probabilities as ratios of counts; no choice of as many likely continuations has a higher sum; below the budget nothing likely enough is missing. |
| TreeDraft.KidsCover | csrc/suffix_decoding/suffix_tree.cc:892-901 | Leaving the child loop at the first unlikely child loses no continuation that is likely enough. |
| TreeDraft.TopSum | csrc/suffix_decoding/suffix_tree.cc:880-903 | Strings of probability at least c beat every choice of at most as many, of which the others have probability at most c. |
| TreeDraft.FrontierEnds | csrc/suffix_decoding/suffix_tree.cc:880-903 | When the budget is used or the queue is empty, the draft is a best choice. |
| Speculation.BudgetIs | csrc/suffix_decoding/suffix_tree.cc:607-610 | The budget is the largest number of tokens that neither the given number nor the limit for the match length forbids, or zero. |
| Speculation.ShorterMatches | csrc/suffix_decoding/suffix_tree.cc:600-605 | If a string matches, so does every string that ends it. |
| Speculation.NoneLonger | csrc/suffix_decoding/suffix_tree.cc:600-605 | Stopping at the first length whose last part of the context does not match misses no match: no longer end of the context matches. |
| Speculation.DraftSuffix | csrc/suffix_decoding/suffix_tree.cc:600-616 | For each length there is a draft exactly when the end of the context of that length matches, and it is the draft for that end, with the budget for its length. |
| Speculation.Speculate | csrc/suffix_decoding/suffix_tree.cc:593-622 | The result is the draft with the highest score over all strings w with context == u + w for a nonempty u that match, of the longest among equals; without one there is no draft. |
| Speculation.BestOverAll | csrc/suffix_decoding/suffix_tree.cc:593-622 | Such a best draft is that of some proper end of the context, and no proper end that matches has a draft with a higher score, or with the same and a longer match, whatever drafts its budget admits. |
| Caches.HeldFew | arctic_inference/suffix_decoding/cache.py:312-320 | While fewer requests are active than there are ids, the search for an id ends. |
| Caches.StartedOrder | arctic_inference/suffix_decoding/cache.py:312-347 | Starting puts the request last, forgets at most one other for its id, and eviction keeps the newest up to the limit, among them the one just started. |
| Caches.ActiveKeepIds | arctic_inference/suffix_decoding/cache.py:312-328 | Also after ids wrap around, no other active request loses its id to the new one. |
| Caches.KeptNewest | arctic_inference/suffix_decoding/cache.py:335-347 | Capacity eviction takes requests in the order of the dictionary. |
| Caches.WithoutAt | arctic_inference/suffix_decoding/cache.py:217-233 | A request taken out leaves the others in their order. |
| Caches.GlobalExtended | arctic_inference/suffix_decoding/cache.py:200-215 | Adding to a cached request changes in the response tree exactly its response. |
| Caches.Create | arctic_inference/suffix_decoding/cache.py:61-92 | A limit above the number of ids is an error; otherwise the cache is empty and valid. |
| Caches.SuffixDecodingCache.PickSeqId | arctic_inference/suffix_decoding/cache.py:313-320 | The id is the first from the counter on, counting round, that no active request has, and the counter moves past it. |
| Caches.SuffixDecodingCache.GenerateSeqId | arctic_inference/suffix_decoding/cache.py:312-333 | The dictionaries stay inverse to each other, and the request is entered under its id after what that evicts. |
| Caches.SuffixDecodingCache.MaybeEvict | arctic_inference/suffix_decoding/cache.py:335-347 | The limit holds afterwards, and what is evicted is gone from dictionaries and tree. |
| Caches.SuffixDecodingCache.Start | arctic_inference/suffix_decoding/cache.py:120-161 | An active request is an error that changes nothing; otherwise it becomes active with its prompt, and the cached responses are the old ones, as far as kept, and an empty one for it. |
| Caches.SuffixDecodingCache.Stop | arctic_inference/suffix_decoding/cache.py:163-178 | The request is no longer active; what is cached stays. An inactive request is an error. |
| Caches.SuffixDecodingCache.Add | arctic_inference/suffix_decoding/cache.py:180-215 | The tokens are added to the request’s own tree and, if it is cached, to its response. An inactive request is an error. |
| Caches.SuffixDecodingCache.Evict | arctic_inference/suffix_decoding/cache.py:217-233 | Exactly the response of the request is forgotten. A request that is not cached is an error. |
| Caches.SuffixDecodingCache.Draft | arctic_inference/suffix_decoding/cache.py:274-310 | The better of the best drafts from the request’s own tree and from the responses, the former if they are equal. Both are for the string that ends the context and has the depth as its length, or all of a shorter context. |
| CacheRuns.RunAll | arctic_inference/suffix_decoding/cache.py:120-347 | After any commands the active requests and their texts are those a reading of the log gives; each command changes the list of cached requests only as the log says, but that a start may cost one inactive request its id; while no id has been used twice, the list is computed from the log alone. The response of a cached request is what was added since its last start, and the response tree holds nothing else. |
| CacheRuns.Step | arctic_inference/suffix_decoding/cache.py:120-233 | Each command keeps this: a start puts its request last and drops the oldest beyond the limit, an eviction takes one request out, and other commands keep the list. |
| CacheRuns.StartKeepsOrder | arctic_inference/suffix_decoding/cache.py:330-347 | After a start, and the evictions it causes, the dictionary is in the order of last starts. |
| CacheRuns.JustStarted | arctic_inference/suffix_decoding/cache.py:312-347 | The request just started is cached, and an active request that is no longer cached had to go because of the limit. |
| CacheRuns.FreshId | arctic_inference/suffix_decoding/cache.py:312-328 | While fewer requests have been started than there are ids, the next id is the number of starts, and no request loses its id. |
| Simulation.Verify | arctic_inference/suffix_decoding/simulator.py:74-85 | What is accepted begins the text and is a path of the draft, and for a draft shaped like a trie it is the longest one. |
| Simulation.TreeShaped | arctic_inference/suffix_decoding/simulator.py:77-83 | Tree drafts never have two children of one parent with the same token. |
| Simulation.ChainShaped | arctic_inference/suffix_decoding/simulator.py:77-83 | Neither have greedy drafts. |
| Simulation.Round | arctic_inference/suffix_decoding/simulator.py:56-111 | One round: the better of the best drafts from the own text and from the responses, for the end of prompt and response that the depth allows; accept all that agrees, one more token if any is left, and tell the cache. |
| Simulation.SuffixDecode | arctic_inference/suffix_decoding/simulator.py:35-117 | The loop ends, every round adds a token and drafts what the cache proposes after the response so far, from an own text that is the response so far, after the prompt if that is given to the cache, with budgets within the number of tokens asked for or else the depth; the response is the given text, and the cache is left with exactly that text as the response. |
| PrefixGroups.RecursiveLcpSplit | arctic_inference/vllm/attention/flash_attn_forest_cascade.py:1303-1365 | The loop over the stack ends for every input, and its sorted ranges are those of the recursion that splits a range at its first smallest prefix when the heuristic says so. |
| PrefixGroups.SplitPays | arctic_inference/vllm/attention/flash_attn_forest_cascade.py:1329-1358 | A range is split exactly when its parts save more reads of blocks than it does, or when two neighbours in it share more than twice as much as two others. |
| PrefixGroups.ArgMinFirst | arctic_inference/vllm/attention/flash_attn_forest_cascade.py:1329-1334 | The place to split at is the first of the smallest shared prefixes. |
| PrefixGroups.SplitTiles | arctic_inference/vllm/attention/flash_attn_forest_cascade.py:1303-1365 | The ranges tile the requests in order. |
| PrefixGroups.SplitPrefixes | arctic_inference/vllm/attention/flash_attn_forest_cascade.py:1309-1322 | Each range has the prefix of its members. |
| PrefixGroups.AdjacentPairs | arctic_inference/vllm/attention/flash_attn_forest_cascade.py:1390-1413 | The comparison of blanked rows gives, for each pair of neighbours, how far they agree up to their full blocks. |
| PrefixGroups.GroupPrefixShared | arctic_inference/vllm/attention/flash_attn_forest_cascade.py:1309-1314 | The prefix of a range is shared by all its requests and of full blocks of each, and does not end before the start block; the rows need not be sorted. |
| PrefixGroups.GroupPrefixLongest | arctic_inference/vllm/attention/flash_attn_forest_cascade.py:1309-1314 | No longer prefix of full blocks is shared by all of them. |
| PrefixGroups.SortReverses | arctic_inference/vllm/attention/flash_attn_forest_cascade.py:1364-1365 | Ranges come out from right to left, so that sorting puts them in order. |
| TokenPacking.PackedToken | arctic_inference/vllm/attention/flash_attn_forest_cascade.py:1602-1618 | Token i of a packed request is token i of the request it stands for. |
| TokenPacking.TokenPermInjective | arctic_inference/vllm/attention/flash_attn_forest_cascade.py:1602-1618 | No token is packed twice. |
| TokenPacking.TokenPermOnto | arctic_inference/vllm/attention/flash_attn_forest_cascade.py:1602-1618 | Every query token is packed. |
| AttentionStates.AttendSplits | arctic_inference/vllm/attention/flash_attn_forest_cascade.py:1801-1804 | Attention over slots in two parts is the merge of attention over each. |
| AttentionStates.AttendMore | arctic_inference/vllm/attention/flash_attn_forest_cascade.py:1801-1804 | Attention over one more slot adds its weight to the total and its value to the average with that weight. |
| AttentionStates.SlotIs | arctic_inference/vllm/attention/flash_attn_forest_cascade.py:1725-1759 | Place j of block i of a row is slot row[i] * B + j of a cache with blocks of B. |
| AttentionStates.SlotsSplit | arctic_inference/vllm/attention/flash_attn_forest_cascade.py:1481-1510 | The slots of the group’s row followed by those of the request’s own row are the slots of its original row. |
| ForestCascade.SortAndGroup | arctic_inference/vllm/attention/flash_attn_forest_cascade.py:1367-1478 | Groups are given exactly when there is something to compare and the groups of the recursion meet the thresholds, and then they are those groups, without the prefixes that are too short. |
| ForestCascade.WorthIs | arctic_inference/vllm/attention/flash_attn_forest_cascade.py:1450-1469 | The thresholds count what they should: the groups with enough requests are some and not too many, the requests in them are a large enough fraction, and one of them shares more than the start blocks. |
| ForestCascade.GroupsAre | arctic_inference/vllm/attention/flash_attn_forest_cascade.py:1418-1448 | The groups are those of the recursive split, each with its prefix if that goes far enough beyond the start block and otherwise with the start block. |
| ForestCascade.GroupsShare | arctic_inference/vllm/attention/flash_attn_forest_cascade.py:1367-1478 | These groups tile the reordered requests and share their prefixes. |
| ForestCascade.SplitGroupsOk | arctic_inference/vllm/attention/flash_attn_forest_cascade.py:1418-1448 | Cutting too short a prefix back to the common one keeps this. |
| ForestCascade.GroupBlocks | arctic_inference/vllm/attention/flash_attn_forest_cascade.py:1620-1637 | The first row of a group stands for every member up to the prefix, which ends before the query tokens. |
| ForestCascade.RestFits | arctic_inference/vllm/attention/flash_attn_forest_cascade.py:1481-1510 | The blocks after the prefix are those of the row, and hold the remaining tokens. |
| ForestCascade.TokensInGroup | arctic_inference/vllm/attention/flash_attn_forest_cascade.py:1589-1598 | The tokens of a request lie among those of its group. |
| ForestCascade.AssembledIf | arctic_inference/vllm/attention/flash_attn_forest_cascade.py:1585-1642 | Only a batch without query tokens stops the assembly: the lengths left for the requests’ own blocks are never negative. |
| ForestCascade.BuildMetadata | arctic_inference/vllm/attention/flash_attn_forest_cascade.py:1513-1674 | Metadata is built exactly when the common prefix is whole blocks of all contexts, grouping is worth it and there is a query token, and then it is that of the groups found: for each, prefix blocks times block size as the prefix length, the row of its first request, the packed place of that request’s tokens as the offset, and for each member that group, that prefix, and the blocks after it as a row of its own, all rows as wide as the widest has to be. Every token of every request is in one group, and head and rest of each row together hold exactly its tokens, its query tokens in the rest. |
| ForestCascade.GroupIs | arctic_inference/vllm/attention/flash_attn_forest_cascade.py:1573-1642 | What the metadata says of one group of any list of groups that tiles the requests and shares its prefixes: prefix, row, offset and members. |
| ForestAttention.VarlenAttention | arctic_inference/vllm/attention/flash_attn_forest_cascade.py:1725-1759 | The kernel’s specification: each query sees the keys of its own row, all of them or up to its own position. |
| ForestAttention.SeenIs | arctic_inference/vllm/attention/flash_attn_forest_cascade.py:1761-1796 | Query i of the last n of len positions stands at len - n + i, and the causal kernel lets it see exactly the positions up to its own. |
| ForestAttention.PassesMerge | arctic_inference/vllm/attention/flash_attn_forest_cascade.py:1724-1804 | The group pass and the causal pass over the rest, merged, are plain causal attention over the whole row. |
| ForestAttention.Scatter | arctic_inference/vllm/attention/flash_attn_forest_cascade.py:1806-1806 | Every packed result is written to the place of its token, and nothing else is written. |
| ForestAttention.ForestCascadeAttention | arctic_inference/vllm/attention/flash_attn_forest_cascade.py:1676-1807 | Every query token of every request gets what plain causal attention gives it: query i of n stands at position len - n + i of the request and attends to the slots that the request’s own blocks have for the positions up to that one. The output beyond the tokens is untouched. |
| UlyssesAttention.Received | arctic_inference/vllm/ulysses.py:438-438 | What the exchange moves where. |
| UlyssesAttention.PairingKept | arctic_inference/vllm/ulysses.py:402-416 | With plain or replicated key heads, each query head of each rank meets the key head it is paired with. |
| UlyssesAttention.PairIs | arctic_inference/vllm/ulysses.py:402-416 | Of so many query heads to a key head, consecutive ones share it. |
| UlyssesAttention.ExchangedColumns | arctic_inference/vllm/ulysses.py:423-445 | After the exchange the columns of a rank are columns of the whole batch. |
| UlyssesAttention.LocalIsReference | arctic_inference/vllm/ulysses.py:440-448 | A rank’s attention for its heads is that of the whole batch. |
| UlyssesAttention.UlyssesIsAttention | arctic_inference/vllm/ulysses.py:418-457 | Every rank gets, for its tokens and every head, what attention without sequence parallelism over the whole batch gives. |
| RankGroups.FamilyPartition | arctic_inference/vllm/ulysses.py:139-244 | The groups of each family are whole and partition the world: each has the number of ranks of the code, and each rank is in one of them, at one place. |
| RankGroups.FamilyGroups | arctic_inference/vllm/ulysses.py:139-244 | Two ranks share a group of a family exactly when they agree in all coordinates but the family’s own. |
| RankGroups.FamilyPlaces | arctic_inference/vllm/ulysses.py:139-244 | The place of a rank in its group is its own coordinate, for expert parallelism (dp * PCP + pcp) * TP + tp, and for the shift group tp * SP + sp. |
| RankGroups.FamilyNumbers | arctic_inference/vllm/ulysses.py:139-244 | The groups of each family are numbered by the other coordinates, in the order the transpose leaves them in. |
| RankGroups.RankNumber | arctic_inference/vllm/ulysses.py:128-136 | A rank is numbered by its coordinates, from external data parallelism down to tensor parallelism. |
| RankGroups.AnyLayout | arctic_inference/vllm/ulysses.py:128-136 | What is said of layouts is said of every one that has any ranks. |
| RankGroups.FamilyDivides | arctic_inference/vllm/ulysses.py:139-244 | The group size of each family divides the world. |
| RankGroups.DecodeDivides | arctic_inference/vllm/ulysses.py:150-153 | For decode context parallelism, of a size that divides tensor parallelism, the group size divides the world. |
| RankGroups.DecodeGroups | arctic_inference/vllm/ulysses.py:150-153 | For decode context parallelism, of a size that divides tensor parallelism, ranks share a group exactly when they are in one part of a tensor parallel group, where the place is that in the part. |
| RankGroups.SameGroup | arctic_inference/vllm/ulysses.py:128-251 | For any order of the axes, groups over the last ones have the ranks that agree on those before. |
| RankGroups.FamilyPartitions | arctic_inference/vllm/ulysses.py:128-251 | For any order of the axes and any group size, each rank is in a group. |
| RankGroups.FamilyOnce | arctic_inference/vllm/ulysses.py:128-251 | And in only one, at one place. |
| RankGroups.FamilyAxes | arctic_inference/vllm/ulysses.py:139-244 | The axis orders of the families are permutations, with their inverses. |
| RankGroups.ShiftRank | arctic_inference/vllm/ulysses.py:222-246 | In the shift group the rank at s and t has place t * SP + s, in its sequence parallel group place s. |
| HeadOwnership.ModesAgree | arctic_inference/vllm/ulysses.py:237-246 | Each rank has the same query heads and the same key heads in base mode and in shift mode, for all head counts that base mode accepts. |
| HeadOwnership.AdmissibleIs | arctic_inference/vllm/ulysses.py:402-414 | Base mode accepts head counts for which in each split one of ranks and key heads is a multiple of the other, and query heads can be shared out among ranks and among key heads. |
| HeadOwnership.QueriesAgree | arctic_inference/vllm/ulysses.py:237-246 | Of a row of all query heads each rank gets the same ones in the same order in both modes: the slice of the slice that the exchange gives, and the slice among all ranks. |
| HeadOwnership.BaseEntry | arctic_inference/vllm/ulysses.py:402-408 | What the exchange gives a rank of its tensor parallel slice are exactly the query heads it has in base mode. |
| HeadOwnership.SameHeads | arctic_inference/vllm/ulysses.py:237-246 | The case of heads that all ranks share out. |
| HeadOwnership.SameReplica | arctic_inference/vllm/ulysses.py:409-412 | The case of fewer key heads than ranks, but not than tensor parallel ranks: each rank has a copy of the same one in both modes. |
| HeadOwnership.SameCopy | arctic_inference/vllm/ulysses.py:409-412 | The case of fewer key heads than tensor parallel ranks. |
| ShiftLogits.SortInverts | arctic_inference/vllm/model_runner.py:681-683 | Sorting the positions by owner gives the inverse of the owners. |
| ShiftLogits.FixedInOrder | arctic_inference/vllm/model_runner.py:664-700 | For every order of different ranks, each vocabulary shard ends up at the place of the rank that has it. |
| WeightPacking.SendWeights | arctic_inference/server/weight_sync/engine.py:86-153 | All weights are packed, in order, into buckets that they fit and fill greedily, with the layout in the metadata, alternating buffers and the last bucket marked. It is an error exactly when, with all before packed so, the next weight is larger than a bucket, or the metadata of a bucket that must be sent are too long for their buffer. |
| WeightPacking.Flush | arctic_inference/server/weight_sync/engine.py:155-169 | The bucket is added with its buffer and with the send it waits for, that of the bucket before. |
| WeightPacking.WriteMeta | arctic_inference/server/weight_sync/engine.py:408-423 | The buffer gets header, text and zeros, or an error and no change when the text does not fit. |
| WeightPacking.MetaRoundTrip | arctic_inference/server/weight_sync/engine.py:408-429 | What is parsed is what was written. |
| WeightPacking.ByteAt | arctic_inference/server/weight_sync/engine.py:420-421 | Byte k of the length in the header is its digit k to the base 256, the lowest first. |
| WeightTransfer.RunOk | arctic_inference/server/weight_sync/engine.py:86-202 | The invariants of sender, network, receiver and reads hold in every state of every interleaving. |
| WeightTransfer.TransferCorrect | arctic_inference/server/weight_sync/engine.py:171-202 | At all times the consumer has read a beginning of the sent weights, names, shapes, types and bytes in order, and at the end all of them. |
| WeightTransfer.NoSendOverwritten | arctic_inference/server/weight_sync/engine.py:155-169 | No data or metadata buffer is written while its bucket is still to be sent. |
| WeightTransfer.NoReadOverwritten | arctic_inference/server/weight_sync/engine.py:171-202 | No buffer is received into while reads from it are outstanding or its metadata is not parsed. |
| WeightTransfer.NeverStuck | arctic_inference/server/weight_sync/engine.py:86-202 | While anything is left to do, some step can be taken. |
| WeightTransfer.RunBounded | arctic_inference/server/weight_sync/engine.py:86-202 | Every step does one unit of the work, so that no run takes more than thirteen steps a bucket and three a weight. |
| WeightTransfer.RunEnds | arctic_inference/server/weight_sync/engine.py:86-202 | A run that cannot go on has done all the work and delivered all weights. |
| WeightTransfer.CopyFills | arctic_inference/server/weight_sync/engine.py:121-136 | Copying a weight to its offset damages none of those packed before. |

## Left out

- Floating point: probabilities, scores, weights and outputs are exact reals; rounding, overflow of the conversion of the token budget to an integer, and softmax exponentials are not modelled.
- SuffixTrees.SuffixTree.Append: children are kept as a sequence and as maps in the node class; the linked lists and the hash tables are not fields of these nodes. `KidLists` ties the linked lists to the sequences, the hash tables are proved on their own to be the finite maps.
- SuffixTrees.SuffixTree.constructor: a depth below one is excluded, as the code relies on a positive depth without a check.
- IntMaps.IntMap.Emplace: requires fewer than 3 * 2^29 entries, so that the doubled capacity fits in 32 bits; keys are any integers but the two reserved ones, the hash mix is an arbitrary function, and moves and memory accounting are not modelled.
- Speculation.Speculate: the integer conversion of the budget truncates an exact real.
- Caches.SuffixDecodingCache.Start: requires that fewer than 2^31 - 1 requests are active, as otherwise the search for an id need not end.
- CacheRuns.RunAll: the same bound on active requests, at every command of the log; drafting is not a command, since it changes nothing.
- ForestCascade.BuildMetadata: the order of the requests is any permutation, as the result of the lexicographic sort is not relied on. The maxima of lengths that the metadata carries as hints for the kernel are not modelled.
- ForestAttention.ForestCascadeAttention: the attention kernel and `merge_attn_states` are modelled by their specification; sliding windows, ALiBi slopes, soft caps, sinks, scheduler metadata and scaling factors are not modelled.
- AttentionStates.AttendSplits: a state carries the total weight itself, of which the kernel returns the logarithm.
- UlyssesAttention.UlyssesIsAttention: the exchange is modelled by its specification, attention is an arbitrary function of the columns of one head, and a head is one value rather than a vector of numbers.
- RankGroups.FamilyPartitions: process groups and communicators are not modelled, only their ranks.
- ShiftLogits.FixedInOrder: one row of logits; the gather is modelled by its specification.
- WeightPacking.SendWeights: the text encoding of the metadata is an arbitrary function; `MetaRoundTrip` covers the framing in the buffer.
- WeightTransfer.TransferCorrect: the receiver decodes the metadata it was sent; the direct mode of the engine and the choice of streams on the device are not modelled.
- Simulation.SuffixDecode: times are left out of the results.
- Binding the caches of the shift model to those of the base model, slicing and padding of batches, and CUDA graph size tables: only easy members.
- Memory estimation and the integrity check as programs; the latter's conditions are part of `Good`, `AllKids` and `ActiveOk`.
- Serving, scheduling, Ray actors, sockets, shared memory, embeddings, Dynasor, benchmarks and command lines: timing, input and output.
