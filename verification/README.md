# spsync, modelled in Dafny

A model of the hard parts of spsync: a replicated, authenticated chain of records with a client
that accepts, parks, rebases and commits blocks, prunes history and verifies what is left; the
merge of membership changes; record data as encrypted chunks with a store, a cached reader and
windowed transfers; the planning of anti-entropy between replicas; and the two-table object list
of the group chat on top. Tables are finite maps and sequences. Hashes, authenticated encryption
and signatures are uninterpreted functions with the usual laws, given as values with their
inverses. Objects that change in place are classes; where the heap would only add weight a class
holds its fields and hands values to methods that carry the loops and the invariants.

`dafny verify dfyconfig.toml` checks the project.

## Where to start

| file | what is proved |
|---|---|
| `user_merge.dfy`, `user_merge_order.dfy`, `user_merge_full.dfy` | `saw` is reachability on any parent map; members do not depend on the causal order; the winning update does, unless one effective update dominates, and with it the access where accesses differ; a full change starts anew with what it grants |
| `chain_acceptance.dfy`, `chain_engine.dfy`, `chain_delivery.dfy` | whatever arrives in whatever order, the in sync records are a gap-free linked chain; the one way to leave it, and exactly when; which blocks wait and which are refused; an honest chain that came in any order is in sync as a whole |
| `history_verifier.dfy`, `history_guarantees.dfy` | what full and fast verification accept, and what an accepted storage guarantees |
| `local_history.dfy`, `history_runs.dfy` | a history built by appending, sealing and pruning always verifies, in both ways, and every record is counted |
| `record_storage.dfy`, `object_history.dfy`, `retention.dfy` | the version list of an object is its history along the links; a prune keeps exactly what the histories reach; retention by exact reference counts |
| `commit_loop.dfy`, `commit_retry.dfy`, `server_rules.dfy` | one rebase settles a pending record; the commit loop ends and loses exactly what has to go; refusals never make it send the same again; what the rebase policy leaves alone is what the server takes |
| `data_descriptor.dfy`, `size_padding.dfy`, `data_crypt.dfy` | chunking and padding, and their inverse |
| `piece_cursor.dfy`, `transfer_queue.dfy`, `transfer_machine.dfy`, `data_uploader.dfy` | every interleaving of the transfer queue; each data ends with one callback that tells the first error it met; in every state of an uploader the octets are accounted for, the pieces sent begin a tiling, and success is reported only for what went as a whole |
| `have_bitmap.dfy`, `record_data_store.dfy`, `incoming_chunk.dfy`, `data_sync.dfy`, `record_data_reader.dfy` | what is said to be held is held and verified; a cached read is an uncached one |
| `divergence.dfy`, `anti_entropy.dfy` | samples bracket a fork; replicas never have holes |
| `object_store.dfy` | two tables search like one list |

## What turned out not to hold as stated

- Membership merge. The header says that the local order never changes the outcome
  (spsync/core/user_merge.hpp:26-28). For the set of members this is true over causal orders
  (`MembershipOrderFree`), over others it is not (`NonCausalLosesMember`). For the access it is
  false: for any two accesses there are three entries that the merge turns into one or the other by
  their causal order (`AccessDependsOnOrder`). Which update wins is the same in all causal orders
  exactly when there is no effective update or one dominates: no other effective one has seen it,
  and its tag is below those of all effective updates it has not seen itself
  (`WinnerOrderFreeIff`). The access returned is then the same too, and also when all maximal updates
  grant the same (`AccessOrderFreeIf`). The other direction needs that the accesses tell the
  updates apart: under the hypothesis that no other maximal update grants what the maximal one with the
  smallest tag grants, in particular when a user's effective updates grant pairwise different
  accesses, the access is order free exactly with a dominant update or without an effective one
  (`AccessOrderFreeIff`, `DifferentAccessesIff`).
- Strict chain. A commit answer can park an own record under an assigned position while its stored
  block keeps the predicted one, and the later retry checks the stored block
  (spsync/engine/sync_engine.cpp:671-699). `RetryBreaksChainIff` says exactly when a retry breaks the
  chain: a key opens the row, its stored block passes, and the free position it was assigned is
  neither next nor below a held anchor nor the awaited anchor (`Astray`). A local record's block has no
  parent; for it the guard is that it was stored as the first and nothing is in sync, or for an unused
  sequence below a held anchor, or as the awaited anchor (`LocalStrayIff`). `ParkedFirstRecordMisplaced`
  shows it going wrong. Every run in which no retry meets that guard has a good chain, and without an
  anchor local records never meet it once one record is in sync (`Engine.Receive`).
- Rebase policy. Its header says that it tells whether the server would reject the record
  (spsync/engine/rebase_policy.hpp:34-43). On a shared log the server's seen rules take a record
  exactly when the policy asks for nothing, no object conflicts, and every change builds on what is
  there, or when it is a data change without any change (`CheckRules`). What the policy does not see is
  an add of an object that somebody else has added meanwhile, and a change of an object that is not
  there: such a record is left as it is and refused (`AddOfKnownRefused`).
- Data store. A data rebuilt from held content over a row whose known descriptor counts more
  chunks than the data has is marked in sync and is not complete. `RegisterHeld` states the exact
  condition, `ContradictedRow` shows it. Every other step keeps "in sync or to be uploaded means
  complete". A writer's chunks are discarded when the directory of the data is already there; what
  the row says is then right exactly when every chunk is there too (`RegisterHeld`).
- Backbone walk. It ends because the segment starts decrease, as long as no segment starts at 0: a
  start of 0 is taken for none and two such segments that name each other pass without an end
  (`ZeroStartsCycle`), so fast verification is stated for segments with a start of at least 1.
- Samples. The factor of two of spsync/core/divergence.hpp:38-42 holds exactly for heads up to
  2^63 + 1 (`SampleSequences`, `BracketsFork`); beyond, some fork is placed less well
  (`FarHeadsMiss`). The samples are strictly decreasing from the head to 1 for every head.

## Model

| member | source | states |
|---|---|---|
| `UserMerge.Saw` | spsync/core/user_merge.cpp:12-27 | the size-bounded walk decides reachability over parents exactly, on any map, cycles included |
| `UserMerge.FirstMetWithinSize` | spsync/core/user_merge.cpp:12-27 | a tag that the parents reach is first met within as many steps as the map has entries |
| `UserMerge.FoldState.ApplyRemoval` | spsync/core/user_merge.cpp:47-56 | the fold state of the removed user only; a member that did not see the removal goes, the removal is remembered |
| `UserMerge.FoldState.ApplyUpdate` | spsync/core/user_merge.cpp:58-86 | the fold state of the updated user only: defeated by unseen removals, else it replaces a member it saw or one with a larger tag |
| `UserMerge.FoldState.ApplyEntry` | spsync/core/user_merge.cpp:90-113 | one record on the state of every user; a full change forgets everything before it |
| `UserMerge.FoldState.Accesses` | spsync/core/user_merge.cpp:90-113 | every member once, in key order, under its access |
| `UserMerge.MergeUserChanges` | spsync/core/user_merge.cpp:90-113 | the listing of all users that are members after the fold, in key order; who that is: `MergedSinceFull` |
| `UserMergeOrder.MemberCharacterised` | spsync/core/user_merge.cpp:47-113 | a user is a member exactly with an update that saw every removal of the user, under the access of one such update that no other one saw |
| `UserMergeOrder.MembershipOrderFree` | spsync/core/user_merge.cpp:90-113 | the members are the same for any two causal arrangements of the same delta entries |
| `UserMergeOrder.DominantWins` | spsync/core/user_merge.cpp:58-86 | an update that dominates the effective ones wins in every causal order |
| `UserMergeOrder.SmallestConcurrentWins` | spsync/core/user_merge.cpp:71-81 | with pairwise concurrent effective updates the smallest tag wins in every order |
| `UserMergeOrder.LastMaximalWins` | spsync/core/user_merge.cpp:58-86 | the maximal update with the smallest tag of the maximal ones wins in an order that puts the others first |
| `UserMergeOrder.OvertakenLoses` | spsync/core/user_merge.cpp:58-86 | an update never wins when a smaller effective tag comes after it |
| `UserMergeOrder.WinnerOrderFreeIff` | spsync/core/user_merge.cpp:58-86 | the same update wins in all causal orders if and only if an effective update dominates, or there is none |
| `UserMergeOrder.UndominatedDepends` | spsync/core/user_merge.cpp:58-86 | without a dominant update the least maximal one wins in one causal order and another maximal one in another |
| `UserMergeOrder.AccessOrderFreeIf` | spsync/core/user_merge.hpp:26-28 | a dominant update, or maximal ones that all grant the same, settle the access returned in every causal order |
| `UserMergeOrder.AccessOrderFreeIff` | spsync/core/user_merge.hpp:26-28 | where the maximal update with the smallest tag grants what no other maximal one grants, the access returned is the same in all causal orders if and only if an effective update dominates, or there is none |
| `UserMergeOrder.DifferentAccessesIff` | spsync/core/user_merge.hpp:26-28 | the same equivalence where a user's effective updates grant pairwise different accesses |
| `UserMergeOrder.SameListingIff` | spsync/core/user_merge.cpp:90-113 | two merges return the same list if and only if they agree on every user's access |
| `UserMergeOrder.ListingOrderFree` | spsync/core/user_merge.hpp:26-28 | the returned list is the same in all causal orders when every user's access is |
| `UserMergeOrder.BetweenDepends` | spsync/core/user_merge.cpp:71-81 | one update saw another and a third concurrent one has its tag between: one causal order returns the access of the third, another that of the first |
| `UserMergeOrder.AccessDependsOnOrder` | spsync/core/user_merge.hpp:26-28 | for any user and any two accesses there are entries with two causal orders whose returned lists are the one access and the other |
| `UserMergeOrder.LateRemovalErases` | spsync/core/user_merge.cpp:47-56 | in an order that is not causal a removal erases a member although an effective update was there |
| `UserMergeOrder.NonCausalLosesMember` | spsync/core/user_merge.cpp:47-113 | hence membership needs the causal order |
| `UserMergeOrder.FullResets` | spsync/core/user_merge.cpp:90-113 | what came before a full change does not matter |
| `UserMergeFull.SameSlot` | spsync/core/user_merge.cpp:90-107 | a full change that comes first does what a delta with its accesses does |
| `UserMergeFull.BegunMembers` | spsync/core/user_merge.cpp:47-113 | with a full change first: a user is a member exactly with an update, in it or later, that saw every removal of the user, under the access of one such update that no other one saw |
| `UserMergeFull.BegunMembershipOrderFree` | spsync/core/user_merge.cpp:90-113 | the members are the same in all causal orders that leave the full change first |
| `UserMergeFull.BegunDominantWins` | spsync/core/user_merge.cpp:58-86 | a dominant update wins, also when it is the full change |
| `UserMergeFull.FoundersListed` | spsync/core/user_merge.cpp:94-106 | the merge of a full change alone lists exactly the accesses it grants |
| `UserMergeFull.MergedSinceFull` | spsync/core/user_merge.cpp:90-113 | for every sequence of entries: listed is exactly who has an update since the last full change that saw every removal since, under the access of such an update that no other one saw |
| `RecordStorage.FindObjectVersion` | spsync/core/record_storage.cpp:488-504 | the in sync record of the tag that changes the object, if there is one |
| `RecordStorage.ObjectVersions` | spsync/core/record_storage.cpp:514-524 | the walk along previous-record links ends on any link structure and gives `Versions`, which is the history of the object (`VersionsAreHistory`) |
| `RecordStorage.CollectObjectHeads` | spsync/core/record_storage.cpp:458-481 | exactly the objects of the in sync records, each with its newest one |
| `RecordStorage.CollectObjectChain` | spsync/core/record_storage.cpp:528-535 | adds exactly the tags of the object's version list below the cut, none twice |
| `RecordStorage.ObjectChainTagsBelow` | spsync/core/record_storage.cpp:839-846 | exactly the tags below the cut that are on some object's chain, none twice |
| `RecordStorage.VersionsFromKept` | spsync/core/record_storage.cpp:514-535 | if all a version's chain reaches stays in the table, the chain stays as it was |
| `RecordStorage.CutKeepsVersions` | spsync/core/record_storage.cpp:839-868 | a cut that keeps the object chains leaves every object's head and whole version list unchanged |
| `ObjectHistory.VersionsAreHistory` | spsync/core/record_storage.cpp:488-524 | the first version is the newest in sync record that changes the object, each next one is the record its predecessor names, and the last one names none, one that is not there, or one already listed |
| `ObjectHistory.VersionsReach` | spsync/core/record_storage.cpp:488-524 | listed are exactly the records that previous links reach from the newest one |
| `ObjectHistory.OneHistory` | spsync/core/record_storage.cpp:514-524 | no other list is such a history |
| `ObjectHistory.CutKeepsExactly` | spsync/core/record_storage.cpp:839-868 | a record stays in a cut if and only if it is at or above it, or previous links reach it from the newest record of some object |
| `ObjectHistory.CutKeepsReached` | spsync/core/record_storage.cpp:839-868 | the same for the whole table, every record that stays as it was |
| `Retention.RowIdentifies` | spsync/core/record_storage.cpp:974-991 | a reference row belongs to one version of one object and names one data |
| `Retention.CountObject` | spsync/core/record_storage.cpp:974-991 | one object's superseded versions are added to the counts, each row once |
| `Retention.CountSuperseded` | spsync/core/record_storage.cpp:974-991 | the count of every data is the number of distinct superseded reference rows that name it |
| `Retention.CountVersion` | spsync/core/record_storage.cpp:974-991 | the row of a version is counted exactly when the version is superseded |
| `Retention.SupersededAtIff` | spsync/core/record_storage.cpp:974-991 | a version is superseded exactly when it carries data below the cut and at least the kept number of newer ones does |
| `Retention.CountDecides` | spsync/core/data/data_index.cpp:76-86 | equal counts mean that every reference, in any record in any state, is superseded, and the reverse |
| `Retention.SupersededData` | spsync/core/record_storage.cpp:974-991 | exactly the datas that only superseded versions below the cut name and that are not pruned yet |
| `Retention.NewestKeepData` | spsync/core/record_storage.cpp:974-991 | a version with fewer newer data-carrying versions below the cut than are kept keeps its data |
| `Retention.SupersededBelow` | spsync/core/record_storage.cpp:974-991 | only rows of in sync records below the cut are superseded |
| `Retention.OtherReferencesKeepData` | spsync/core/data/data_index.cpp:25-30 | a record at or above the cut, or not in sync, keeps the data it names |
| `HistoryVerifier.VerifyRecord` | spsync/engine/history_verifier.cpp:39-56 | accepts exactly the records with a key that authenticate, and counts them by kind |
| `HistoryVerifier.VerifyRange` | spsync/engine/history_verifier.cpp:59-80 | accepts exactly a gap-free authentic chain from the parent given, and counts all of it |
| `HistoryVerifier.VerifyDetached` | spsync/engine/history_verifier.cpp:84-97 | accepts exactly when all held records of the range are genuine, and counts them |
| `HistoryVerifier.VerifyAnchor` | spsync/engine/history_verifier.cpp:103-121 | accepts exactly a held genuine anchor with genuine records below it |
| `HistoryVerifier.VerifyFromAnchor` | spsync/engine/history_verifier.cpp:123-141 | from the anchor on: accepted exactly when the chain above links to it, every record counted |
| `HistoryVerifier.VerifyFromRoot` | spsync/engine/history_verifier.cpp:123-141 | without an anchor: accepted exactly when 1 to the last is one linked authentic chain, every record counted |
| `HistoryVerifier.FullVerify` | spsync/engine/history_verifier.cpp:123-141 | full verification accepts exactly such histories, with counters that sum to the in sync records |
| `HistoryVerifier.CheckSegmentCoverage` | spsync/engine/history_verifier.cpp:144-159 | accepts exactly a segment that ends where the next starts and lists the tags of its range |
| `HistoryVerifier.NextBackboneSegment` | spsync/engine/history_verifier.cpp:162-176 | the previous segment by tag; the first segment has to start at 1 |
| `HistoryVerifier.ZeroStartsCycle` | spsync/engine/history_verifier.cpp:144-229 | two segments with start 0 that name each other pass one after the other without an end |
| `HistoryVerifier.BackboneStep` | spsync/engine/history_verifier.cpp:198-229 | one segment of the walk: an error only when the backbone is not good from there |
| `HistoryVerifier.VerifyBackbone` | spsync/engine/history_verifier.cpp:198-229 | terminates, accepts exactly a good backbone, and counts its segments and the records they list |
| `HistoryVerifier.VerifyTail` | spsync/engine/history_verifier.cpp:182-190 | accepts exactly a linked authentic tail above the newest segment's end |
| `HistoryVerifier.VerifyRetained` | spsync/engine/history_verifier.cpp:231-272 | with an anchor the records kept below it are genuine and counted |
| `HistoryVerifier.VerifyByBackbone` | spsync/engine/history_verifier.cpp:231-272 | retained records, backbone and tail together, with the sum of all counters |
| `HistoryVerifier.FastVerify` | spsync/engine/history_verifier.cpp:231-272 | fast verification accepts exactly those histories, with the sum of its counters |
| `HistoryGuarantees.TagsOfRange` | spsync/engine/history_verifier.cpp:144-159 | the listed tags of a range are the tags of the held records of that range and of nothing else |
| `HistoryGuarantees.TagsCount` | spsync/engine/history_verifier.cpp:144-159 | as many tags as held records |
| `HistoryGuarantees.WalkHasFacts` | spsync/engine/history_verifier.cpp:198-229 | the ranges of the walked segments partition the sequences below the start of the walk, starts strictly decrease, lists are exact |
| `HistoryGuarantees.FastVouches` | spsync/engine/history_verifier.cpp:198-272 | after a successful fast verification each record below the newest segment's end is named by exactly one authenticated list, the rest is a linked authentic chain |
| `HistoryGuarantees.NamesOnlyHeld` | spsync/engine/history_verifier.cpp:144-159 | a list names nothing but held records of its own range |
| `HistoryGuarantees.FastCountsAll` | spsync/engine/history_verifier.cpp:231-272 | the three counters sum to the number of in sync records for every storage accepted without an anchor |
| `LocalHistory.BuiltBackbone` | spsync/engine/history_verifier.cpp:198-229 | the backbone of a built history is good from any of its segments, and its counts are known |
| `LocalHistory.BuiltVerifies` | spsync/engine/history_verifier.cpp:123-272 | both verifications succeed on every built history and their counters sum to its records |
| `HistoryRuns.AppendKeeps` | spsync/engine/sync_engine.cpp:869-878 | an authentic record, or a segment made from the table, appended to a built history gives a built history |
| `HistoryRuns.CutKeeps` | spsync/engine/sync_engine.cpp:1475-1501 | a cut at any segment gives a built history under the new anchor |
| `HistoryRuns.RunBuilt` | spsync/engine/sync_engine.cpp:1444-1501 | after every run of appends and cuts the history is built |
| `HistoryRuns.RunVerifies` | spsync/engine/sync_engine.cpp:1503-1508 | after every run both verifications succeed under the run's anchor and count every record that remains |
| `HistoryRuns.FindPruneTarget` | spsync/engine/sync_engine.cpp:1475-1501 | the in sync segment of the tag, found exactly when there is one |
| `HistoryRuns.TruncatePrefix` | spsync/core/record_storage.cpp:848-868 | exactly the records from the cut on and those that some object's links reach stay; every object keeps its versions |
| `HistoryRuns.Client.MakeSegmentData` | spsync/engine/sync_engine.cpp:869-878 | a segment that starts at the end of the newest one and lists the tags up to the last record |
| `HistoryRuns.Client.SyncSegmentEnd` | spsync/engine/sync_engine.cpp:1444-1473 | refused exactly when there is nothing to seal or a change waits for its commit |
| `HistoryRuns.Client.Commit` | spsync/engine/sync_engine.cpp:535-542 | a confirmed record goes on top of the newest one, the history stays built |
| `HistoryRuns.Client.PruneHistory` | spsync/engine/sync_engine.cpp:1475-1501 | refused exactly without such a segment and then unchanged; else cut there, anchored there, with exactly what the objects' links reach kept below |
| `HistoryRuns.Client.VerifyHistory` | spsync/engine/sync_engine.cpp:1503-1508 | verification of an own history never fails and counts what is held |
| `ChainAcceptance.CheckedContinues` | spsync/engine/sync_engine.cpp:383-533 | what the strict check lets in sync continues the chain |
| `ChainAcceptance.EntersGoodIff` | spsync/engine/sync_engine.cpp:487-533 | one more in sync record keeps the chain good if and only if its position continues it |
| `ChainAcceptance.NoGapBelow` | spsync/engine/sync_engine.cpp:487-533 | without an anchor every sequence below an in sync one is in sync |
| `ChainAcceptance.NoGapToAnchor` | spsync/engine/sync_engine.cpp:398-471 | with an anchor nothing is in sync before it is held, and from it on there is no gap and every record links |
| `ChainAcceptance.ChainIsPrefix` | spsync/engine/sync_engine.cpp:487-533 | the in sync records are exactly 1..n, each once, the first without a parent |
| `ChainAcceptance.LinkedToPrevious` | spsync/engine/sync_engine.cpp:487-533 | each names the hash of the one before |
| `ChainEngine.CheckPendingRecords` | spsync/engine/sync_engine.cpp:367-381 | parked records that link follow, up to the first that does not; it fails only at a sequence that is taken; nothing else changes and the chain stays good |
| `ChainEngine.PromotePreAnchorRecords` | spsync/engine/sync_engine.cpp:477-485 | once the anchor is in sync nothing below it stays parked; only parked records below it change |
| `ChainEngine.Settle` | spsync/engine/sync_engine.cpp:601-603 | after a record went in sync the walk behind it ends at the newest of what it put in sync, where nothing is parked next or a parked record there has another parent; only parked rows changed |
| `ChainEngine.LeftBehindIff` | spsync/engine/sync_engine.cpp:367-381 | the walk can stop before a parked record that links if and only if another one is parked at its sequence under another parent |
| `ChainEngine.WriteRow` | spsync/core/record_storage.cpp:317-318 | a row that breaks a uniqueness constraint is not written and nothing changes |
| `ChainEngine.VerifyBlock` | spsync/engine/sync_engine.cpp:596-613 | an authentic block is stored in the state of `PassesIff`, `ParkedIff` and `RefusedIff` unless that breaks a uniqueness constraint; what waited for it follows, no other row changes |
| `ChainEngine.RetryRow` | spsync/engine/sync_engine.cpp:671-699 | a parked row is promoted exactly when a key opens it, its stored block passes and its sequence is free; the chain breaks exactly when it goes astray |
| `ChainEngine.RetryUndecryptedPending` | spsync/engine/sync_engine.cpp:671-699 | terminates; afterwards no parked row is left that the keys at hand open and that fits; the chain is good unless one of the tries went astray |
| `ChainEngine.UpdateRecordCommitState` | spsync/engine/sync_engine.cpp:340-365 | a confirmed record is left alone, a matching one takes the position assigned, any other becomes invalid; no other row changes |
| `ChainEngine.AdoptCommitted` | spsync/engine/sync_engine.cpp:720-730 | the committed form replaces the own pending record and never leaves a stray |
| `ChainEngine.HandleBlock` | spsync/engine/sync_engine.cpp:643-667 | stored in that state when a key opens it, else parked; after an unreadable user change that brings a key under a new sequence no parked row is left that the keys open and that may stand where it is stored; nothing goes in sync once the anchor was contradicted |
| `ChainEngine.HandleIncomingRecord` | spsync/engine/sync_engine.cpp:732-766 | known blocks change nothing, pending ones take the server's word, others are stored in that state; nothing goes in sync once the anchor was contradicted; the chain is good exactly as long as no try went astray; only a parked position makes a stray |
| `ChainEngine.OnCommitted` | spsync/engine/sync_engine.cpp:1314-1349 | only the answered record changes, as the server's word says; the chain stays good |
| `ChainEngine.PassesIff` | spsync/engine/sync_engine.cpp:383-533 | the strict check lets a block in exactly as the awaited anchor, below a held anchor at an unused sequence, as the first with nothing in sync, or behind the newest record |
| `ChainEngine.ParkedIff` | spsync/engine/sync_engine.cpp:383-533 | a block is parked exactly while the anchor is awaited and it is neither the anchor nor at its sequence, or when its sequence is beyond the next one and its parent is not held |
| `ChainEngine.RefusedIff` | spsync/engine/sync_engine.cpp:383-533 | a block is refused exactly when the anchor was contradicted or this block does it, its sequence is used up, its parent is held elsewhere, or it comes next without its parent |
| `ChainEngine.NoneLeftLocked` | spsync/engine/sync_engine.cpp:671-699 | after the retries no parked row that the keys open may stand where it is stored |
| `ChainEngine.RetryBreaksChainIff` | spsync/engine/sync_engine.cpp:671-699 | a retry puts a row in sync and breaks the chain if and only if a key opens it, its stored block passes, and its free assigned position is neither next, nor below a held anchor, nor the awaited anchor |
| `ChainEngine.StrayGoesAstrayIff` | spsync/engine/sync_engine.cpp:671-699 | without an anchor a row stored for another position breaks the chain whenever it is promoted |
| `ChainEngine.LocalStrayIff` | spsync/engine/sync_engine.cpp:671-699 | for a stored block without a parent: if and only if it was stored as the first and nothing is in sync, or for an unused sequence below a held anchor, or as the awaited anchor |
| `ChainEngine.AgreeingStays` | spsync/engine/sync_engine.cpp:671-699 | a row stored for the position it has never breaks the chain |
| `ChainEngine.HoldsOnceInSync` | spsync/engine/sync_engine.cpp:671-699 | without an anchor, once one record is in sync no retry of a local stray breaks the chain |
| `ChainEngine.ParkedFirstRecordMisplaced` | spsync/engine/sync_engine.cpp:340-365 | an own first record, answered at a later sequence while nothing is in sync, goes astray as soon as a key opens it |
| `ChainEngine.Engine.Receive` | spsync/engine/sync_engine.cpp:732-766 | in every reachable state the chain is good unless some retry met the guard of going astray, which the list of tries records exactly; without an anchor local strays never meet it once a record is in sync; a new readable block takes the state the three equivalences say, and nothing goes in sync once the anchor was contradicted |
| `ChainEngine.Engine.CommitAnswered` | spsync/engine/sync_engine.cpp:1314-1349 | a commit answer never breaks the chain; a stray comes only from an answer that parks |
| `ChainEngine.Engine.CreateLocal` | spsync/engine/sync_engine.cpp:1370-1393 | a local change waits under a predicted sequence and leaves the chain alone |
| `ChainEngine.Engine.ReplacePending` | spsync/engine/sync_engine.cpp:999-1016 | a rebuilt or dropped pending record leaves the chain alone |
| `ChainDelivery.CheckedAs` | spsync/engine/sync_engine.cpp:487-533 | a block of an honest chain goes in sync exactly when none before it is missing, and waits otherwise |
| `ChainDelivery.DeliveredNext` | spsync/engine/sync_engine.cpp:596-613 | one more block of the chain always finds its row, and afterwards in sync are exactly the blocks with none missing before them |
| `ChainDelivery.ReceiveOne` | spsync/engine/sync_engine.cpp:732-766 | the table tells only which blocks came; one that comes again changes nothing |
| `ChainDelivery.Deliver` | spsync/engine/sync_engine.cpp:732-766 | without an anchor the readable blocks of an honest chain, received in any order and any number of times, end with exactly 1..n in sync and nothing parked; before the last has come, with exactly those in sync that miss none before them |
| `ChainDelivery.HonestChain` | spsync/engine/sync_engine.cpp:487-533 | there are such chains, of every length |
| `CommitLoop.UpdateRecord` | spsync/engine/sync_engine.cpp:822-847 | the rebuilt form: same operation and body, on the current head, changes on the current versions |
| `CommitLoop.RebuiltSettles` | spsync/engine/sync_engine.cpp:822-976 | a rebuilt record keeps its op id and objects and needs no rebase and has no conflict in any mode |
| `CommitLoop.NeededIsRebuilt` | spsync/engine/rebase_policy.cpp:7-35 | whenever a rebase is asked for the record is not taken as up to date |
| `CommitLoop.FindOidConflicts` | spsync/engine/sync_engine.cpp:961-976 | finds a conflict exactly when some change is not on its object's newest version |
| `CommitLoop.UpdatePendingCommit` | spsync/engine/sync_engine.cpp:902-925 | left alone exactly when on the head without conflicts, else rebuilt or unusable |
| `CommitLoop.RebaseIfNeeded` | spsync/engine/sync_engine.cpp:999-1016 | lost exactly when a rebuild is asked for and the record is not usable; else the record itself, or on the head with conflicting changes on the newest versions and sealed anew |
| `CommitLoop.PassAfterKept` | spsync/engine/sync_engine.cpp:999-1046 | replacing a record by its settled form changes nothing about the rest of the pass |
| `CommitLoop.PassEnds` | spsync/engine/sync_engine.cpp:1018-1046 | one commit is sent, or every record left was refused in exactly its current form |
| `CommitLoop.PassKeepsOrder` | spsync/engine/sync_engine.cpp:1018-1046 | the operations left are those there were, in their order, none twice |
| `CommitLoop.OutcomeIsLeft` | spsync/engine/sync_engine.cpp:999-1016 | what may be lost of one record, and what is left of it, from the rules alone |
| `CommitLoop.PassDeals` | spsync/engine/sync_engine.cpp:1018-1046 | the records up to the one sent, or all, are dealt with one by one: gone, as they were, or moved to the head; the rest stays as it was |
| `CommitLoop.DealtMissing` | spsync/engine/sync_engine.cpp:1018-1046 | an operation is missing afterwards if and only if its record was dealt with and had a conflict to ask about, or needed a rebuild and was not usable |
| `CommitLoop.DealtKeepsAll` | spsync/engine/sync_engine_config.hpp:50 | under the default policy with usable records the operations are exactly those there were |
| `CommitLoop.Commit` | spsync/engine/sync_engine.cpp:1018-1046 | the loop ends and does all of this, though it starts over after every record it drops |
| `CommitLoop.Turn` | spsync/engine/sync_engine.cpp:1018-1046 | the record at the position is dropped exactly when it has to go, else replaced by what is left of it; each turn makes progress and does not change what the whole pass gives |
| `CommitLoop.Committer.TryCommitPending` | spsync/engine/sync_engine.cpp:1018-1046 | the loop that starts over after each drop terminates; an operation is missing if and only if its record had to go, the others are left as they were or moved to the head, and at most one is sent; nothing while a commit is out or a fork is suspected |
| `CommitLoop.Committer.OnRejected` | spsync/engine/sync_engine.cpp:189-238 | the refused record is marked in its form, if it is still pending, and the loop goes on with the others |
| `CommitRetry.NextIsLater` | spsync/engine/sync_engine.cpp:1018-1046 | the next record that is sent comes after those that were refused in their form |
| `CommitRetry.Refusals` | spsync/engine/sync_engine.cpp:182-238 | with every commit refused and nothing to fetch the exchange ends: no form is sent twice, at most one commit for each record that is left, each of them refused in exactly its form |
| `ServerRules.CheckSpecialSeen` | spsync/server/server_lib/chain_sync.cpp:264-283 | passes exactly when the reference is the newest special record, where the mode asks and there is one |
| `ServerRules.CheckChange` | spsync/server/server_lib/chain_sync.cpp:195-256 | one change passes exactly as an add of an object that is not there or a change of its newest version, having seen what the mode asks |
| `ServerRules.CheckChanges` | spsync/server/server_lib/chain_sync.cpp:232-256 | a data change passes exactly when all its changes do |
| `ServerRules.CheckRules` | spsync/server/server_lib/chain_sync.cpp:195-327 | the server takes exactly the records that need no rebase and have no conflict on its log and whose changes build on what is there, and data changes without a change |
| `ServerRules.ChainSync.CommitBlock` | spsync/server/server_lib/chain_sync.cpp:389-408 | taken exactly when new by tag and operation and the rules pass; the newest add and special record stay known |
| `ServerRules.SentIsTaken` | spsync/engine/rebase_policy.hpp:34-43 | what the commit loop sends on the server's log is taken when its changes build on what is there, and only then if it has changes |
| `ServerRules.RebuiltIsTaken` | spsync/engine/rebase_policy.hpp:34-43 | so one rebuild is enough as long as nothing else comes in between |
| `ServerRules.AddOfKnownRefused` | spsync/engine/rebase_policy.cpp:7-35 | an add of an object that is there already is left alone by the policy and refused in every mode |
| `ServerRules.SomeView` | spsync/engine/sync_engine.cpp:941-958 | every log has a view |
| `DataDescriptor.ChunkStarts` | spsync/core/data/data_descriptor.cpp:25-48 | the chunks counted are exactly those that start before the end of the data |
| `DataDescriptor.ChunksSumToSize` | spsync/core/data/data_descriptor.cpp:25-48 | the chunk sizes sum to the encrypted size and no chunk is empty |
| `SizePadding.PaddedSizeClass` | spsync/core/data/size_padding.hpp:22-32 | a whole number of units of the size class, at least the size and less than a unit more |
| `SizePadding.PaddedAtLeast` | spsync/core/data/size_padding.hpp:22-32 | never less than the size or the floor |
| `SizePadding.PaddingIsSmall` | spsync/core/data/size_padding.hpp:16-32 | above 256 octets less than a sixteenth of the size is added |
| `DataCrypt.BlocksOfJoin` | spsync/core/data/data_encryptor.cpp:39-55 | full blocks and rest of two parts together follow from the rest of the first |
| `DataCrypt.DataEncryptor.Write` | spsync/core/data/data_encryptor.cpp:33-37 | the emitted chunks and the buffer are those of everything written, however it was split |
| `DataCrypt.DataEncryptor.Consume` | spsync/core/data/data_encryptor.cpp:39-55 | the same for plaintext and padding |
| `DataCrypt.DataEncryptor.EmitChunk` | spsync/core/data/data_encryptor.cpp:57-63 | manifest and encrypted size stay those of the chunks |
| `DataCrypt.DataEncryptor.Pad` | spsync/core/data/data_encryptor.cpp:65-75 | zeros up to exactly the padded size |
| `DataCrypt.DataEncryptor.Finish` | spsync/core/data/data_encryptor.cpp:77-89 | the chunks, manifest and descriptor are a function of the plaintext alone |
| `DataCrypt.DescriptorAgrees` | spsync/core/data/data_descriptor.cpp:25-48 | number and sizes of the emitted chunks are what the descriptor computes |
| `DataCrypt.RoundTrip` | spsync/core/data/data_decryptor.cpp:17-41 | decrypting all chunks in order gives exactly the plaintext, the padding gone |
| `DataCrypt.DecryptsChunk` | spsync/core/data/data_decryptor.cpp:26-41 | each chunk by itself decrypts to its slice of the plaintext |
| `PieceCursor.NextConserves` | spsync/transfer/piece_cursor.cpp:30-47 | a piece takes from the cursor exactly its size; no piece exactly when the cursor is done |
| `PieceCursor.PiecesTile` | spsync/transfer/piece_cursor.cpp:30-47 | the pieces of each chunk tile it in order from 0, without gap or overlap, none larger than asked |
| `TransferQueue.Enqueue` | spsync/transfer/transfer_queue.hpp:82-95 | accepted exactly when neither queued nor active, at the end of the queue |
| `TransferQueue.Reset` | spsync/transfer/transfer_queue.hpp:192-197 | everything is forgotten under a new generation |
| `TransferQueue.StartQueued` | spsync/transfer/transfer_queue.hpp:233-248 | datas start in queue order until the slots are full or the queue is empty |
| `TransferQueue.FillWindow` | spsync/transfer/transfer_queue.hpp:250-261 | the pieces sent are the next ones of the cursor and begin no chunk that is refused; the window is never exceeded and is full unless the cursor is done or the next chunk was refused |
| `TransferQueue.Collect` | spsync/transfer/transfer_queue.hpp:216-231 | after a round each active transfer waits for an answer and has sent the next pieces of its cursor, nothing is owed, whatever ended in it ended with an error, and without refusals a queue means busy slots |
| `TransferQueue.Opened` | spsync/transfer/transfer_queue.hpp:134-146 | a stale answer changes nothing; a current one goes to its transfer, which leaves when it is over with a callback that tells the first error the data met |
| `TransferQueue.PieceAnswered` | spsync/transfer/transfer_queue.hpp:150-163 | the same for a piece |
| `TransferQueue.PutKeeps` | spsync/transfer/transfer_queue.hpp:282-318 | unanswered calls are exactly those of the active transfers, every started data is active, owed or reported once, and every callback tells how its data ended |
| `TransferQueue.PutHonest` | spsync/transfer/transfer_queue.hpp:295-318 | a data that ends is owed a callback with the first error it met, else that the holder lacks chunks, else without an error |
| `TransferQueue.OpeningRemembered` | spsync/transfer/transfer_queue.hpp:134-146 | the failure kept is the first error met, through an opening |
| `TransferQueue.PieceRemembered` | spsync/transfer/transfer_queue.hpp:150-163 | the same through the answer to a piece |
| `TransferQueue.PlanUpload` | spsync/transfer/data_uploader.cpp:77-88 | exactly the chunks the holder lacks go; with what it has they make the whole data |
| `TransferQueue.UploadOpens` | spsync/transfer/data_uploader.cpp:77-88 | an upload opens with octets moved and left summing to the encrypted size |
| `TransferQueue.UploadMoves` | spsync/transfer/data_uploader.cpp:90-92 | octets moved, unanswered and left always sum to the encrypted size; a successful end moved all of it |
| `TransferQueue.ReportedOnce` | spsync/transfer/transfer_queue.hpp:295-318 | an accepted data is queued, active, owed or reported, in all as often as it was accepted |
| `TransferQueue.DoneTells` | spsync/transfer/transfer_queue.hpp:127-318 | in every reachable state the callbacks made or owed are exactly those that tell how the datas of the generation ended |
| `TransferMachine.Machine.Round` | spsync/transfer/transfer_queue.hpp:209-231 | the machine stays valid through a round: calls, callbacks and conservation included |
| `TransferMachine.Machine.OnOpened` | spsync/transfer/transfer_queue.hpp:282-293 | answers of another generation leave machine and world as they are; a current one changes its transfer and the calls it waits for, and what the data met is what its callback will tell |
| `TransferMachine.Machine.OnPiece` | spsync/transfer/transfer_queue.hpp:282-293 | the same for pieces |
| `DataUploader.UploadAccounted` | spsync/transfer/data_uploader.cpp:77-92 | in every reachable state of an uploader: octets moved, on the way and left are the encrypted size; the pieces sent are a beginning of the tiling of the planned chunks |
| `DataUploader.RoundTracked` | spsync/transfer/transfer_queue.hpp:216-261 | what a round sends follows in the tiling on what was sent before |
| `DataUploader.EndsWell` | spsync/transfer/transfer_queue.hpp:311-318 | an upload that ends without a failure has moved exactly its size, and its pieces tile every planned chunk |
| `DataUploader.SuccessWentWell` | spsync/engine/data_sync.cpp:116-139 | in every reachable state a callback without an error is made or owed only for an upload that went as a whole |
| `DataUploader.OpenUpload` | spsync/transfer/data_uploader.cpp:77-88 | the state stays accounted for through the answer to an opening, of any generation |
| `DataUploader.SendUpload` | spsync/transfer/data_uploader.cpp:90-92 | the same through the answer to a piece |
| `DataUploader.Uploader.Round` | spsync/transfer/transfer_queue.hpp:209-231 | accounting, tiling and the proof of every success hold after every round; no upload under way ends in one |
| `DataUploader.Uploader.OnOpened` | spsync/transfer/data_uploader.cpp:77-88 | exactly the chunks the holder lacks are planned and the others count as moved; an upload with nothing to send is over and went well |
| `DataUploader.Uploader.OnPieceSent` | spsync/transfer/data_uploader.cpp:90-92 | an upload that ends here without a failure moved exactly the encrypted size, piece by piece along the whole tiling, and is recorded as such |
| `DataUploader.Uploader.Reset` | spsync/transfer/transfer_queue.hpp:97-100 | a reset leaves no upload and a new generation |
| `TransferMachine.ActionPump.Enter` | spsync/transfer/action_pump.hpp:70-76 | one runner at most; everybody else asks it for another round |
| `TransferMachine.ActionPump.Again` | spsync/transfer/action_pump.hpp:79-85 | the runner leaves only when every request so far was served by a later round |
| `ChunkBitmap.OneFormPerSet` | spsync/core/data/have_bitmap.hpp:11-13 | a set of chunks has exactly one normal octet vector |
| `ChunkBitmap.FullSize` | spsync/core/data/have_bitmap.hpp:44-45 | as many held as chunks means every chunk |
| `ChunkBitmap.HaveBitmap.FromOctets` | spsync/core/data/have_bitmap.cpp:16-29 | octets of any length and with stray bits become normal, every other bit is kept |
| `ChunkBitmap.HaveBitmap.Normalise` | spsync/core/data/have_bitmap.cpp:23-29 | the last octet is masked, the set stays |
| `ChunkBitmap.HaveBitmap.Test` | spsync/core/data/have_bitmap.cpp:31-33 | membership in the set, false past the end |
| `ChunkBitmap.HaveBitmap.Set` | spsync/core/data/have_bitmap.cpp:35-44 | adds or takes away exactly that chunk, ignored past the end |
| `ChunkBitmap.HaveBitmap.SetAll` | spsync/core/data/have_bitmap.cpp:46-51 | every chunk and no stray bit |
| `ChunkBitmap.HaveBitmap.Clear` | spsync/core/data/have_bitmap.cpp:53-57 | the empty set |
| `ChunkBitmap.HaveBitmap.Count` | spsync/core/data/have_bitmap.cpp:59-65 | the sum of the one bits is the size of the set |
| `ChunkBitmap.HaveBitmap.Complete` | spsync/core/data/have_bitmap.hpp:44-45 | true exactly when every chunk is held |
| `ChunkBitmap.HaveBitmap.FirstMissing` | spsync/core/data/have_bitmap.cpp:67-73 | everything from the start up to it is held and it is not; the chunk count when there is none |
| `DataStore.RecordDataStore.Ensure` | spsync/core/data/data_state_table.cpp:109-130 | a new row holds nothing, an old one stays as it is, an unusable descriptor is refused |
| `DataStore.RecordDataStore.RegisterHeld` | spsync/core/data/record_data_store.cpp:70-88 | the row says everything is held; every set bit has its verified file if and only if the chunks were put there or all were there; the row is complete if and only if its descriptor does not count more chunks than there are |
| `DataStore.RecordDataStore.RegisterData` | spsync/core/data/record_data_store.cpp:626-650 | known exactly with a usable, uncontradicted descriptor and a manifest that the id commits to |
| `DataStore.RecordDataStore.MarkHeld` | spsync/core/data/record_data_store.cpp:131-137 | one more chunk is held; the last one makes the data in sync unless it is to be uploaded |
| `DataStore.RecordDataStore.StoreChunk` | spsync/core/data/record_data_store.cpp:661-674 | kept exactly when it is the chunk the manifest names; file, bit and, with the last one, state change and nothing else |
| `DataStore.RecordDataStore.AdoptChunk` | spsync/core/data/record_data_store.cpp:99-111 | the same for a verified chunk that came in pieces, whatever happened to the data meanwhile |
| `DataStore.RecordDataStore.ReadChunk` | spsync/core/data/record_data_store.cpp:31-42 | the held chunk, and it is the one the data id commits to |
| `DataStore.RecordDataStore.DropChunk` | spsync/core/data/record_data_store.cpp:158-169 | the bit and the file go together; the only copy is kept and the data is invalid |
| `DataStore.RecordDataStore.ChunkFailed` | spsync/core/data/record_data_store.cpp:49-62 | rot is dropped to be fetched again; a verified chunk that does not decrypt makes the data invalid and drops nothing |
| `DataStore.RecordDataStore.DropChunks` | spsync/core/data/record_data_store.cpp:320-326 | nothing is held of the data any more and readers are told |
| `DataStore.RecordDataStore.Evict` | spsync/core/data/record_data_store.cpp:328-340 | refused exactly for an unknown data and one to be uploaded |
| `DataStore.RecordDataStore.Prune` | spsync/core/data/record_data_store.cpp:592-599 | whatever the state, a known data is pruned and holds nothing |
| `DataStore.RecordDataStore.Remove` | spsync/core/data/record_data_store.cpp:601-614 | exactly the named rows go, counted, each telling the readers |
| `DataStore.RecordDataStore.SetState` | spsync/core/data/record_data_store.cpp:580-586 | only the state of a known data changes |
| `DataStore.Reference` | spsync/core/data/data_index.cpp:15-23 | a pruned data named by a new record is deferred again, an unknown one gets an empty row, any other stays as it is |
| `DataStore.ContradictedRow` | spsync/core/data/record_data_store.cpp:554-578 | a rebuilt data over a row with another descriptor is in sync and not complete |
| `IncomingChunks.IncomingChunk.Append` | spsync/core/data/record_data_store.cpp:441-459 | accepted exactly as the next piece that fits; anything else loses the chunk |
| `IncomingChunks.IncomingChunk.Finish` | spsync/core/data/record_data_store.cpp:461-473 | true exactly when the pieces together are the committed chunk of a known data, which is then held |
| `IncomingChunks.BeginChunk` | spsync/core/data/record_data_store.cpp:676-686 | possible exactly when the digest of the chunk is known |
| `DataSync.DataSync.OnUploadAnswer` | spsync/engine/data_sync.cpp:116-131 | an uploaded data becomes in sync, a failed upload leaves its state, a pruned data goes unless it was in sync; nothing else changes, no data claims more than it holds |
| `DataSync.DataSync.MarkUploaded` | spsync/engine/data_sync.cpp:133-139 | only a data to be uploaded becomes in sync |
| `DataSync.DataSync.OnDataPruned` | spsync/engine/data_sync.cpp:146-154 | pruned and empty unless it was in sync |
| `DataSync.DataSync.OnDownloadAnswer` | spsync/engine/data_sync.cpp:156-176 | a holder that lacks chunks is waited for, a data the server does not know is deferred, another failure changes no state; refusals are remembered exactly for failures |
| `DataSync.DataSync.OnDownloadFailed` | spsync/engine/data_sync.cpp:178-195 | a data unknown to the server is deferred, every failed one remembered |
| `DataSync.DataSync.OnDataAnnounced` | spsync/engine/data_sync.cpp:197-204 | wanted again exactly when it waited for the holder |
| `DataSync.DataSync.WantData` | spsync/engine/data_sync.cpp:207-218 | true exactly when the data is wanted afterwards; an evicted or pruned one can always be wanted again, one that is here or to be uploaded never is |
| `DataSync.DataSync.MarkAutoFetch` | spsync/engine/data_sync.cpp:99-109 | exactly the small deferred datas that were not refused become wanted |
| `DataSync.DataSync.PruneSuperseded` | spsync/engine/data_sync.cpp:226-238 | named datas are pruned except those on their way, which stay as they are; one that waits for its upload never goes |
| `DataReader.OrderFree` | spsync/core/data/record_data_store.cpp:253-262 | the order of the key candidates does not change what a chunk decrypts to |
| `DataReader.CacheStaysGood` | spsync/core/data/record_data_store.cpp:274-299 | no step of the store spoils a cached chunk without counting |
| `DataReader.CacheOutlivesHistory` | spsync/core/data/record_data_store.cpp:274-299 | hence after any history of the store a handle's cache is good or known to be stale |
| `DataReader.StoredRecordData.DecryptChunk` | spsync/core/data/record_data_store.cpp:253-262 | the plaintext that any authenticating candidate gives; the candidates stay the same, in whatever order |
| `DataReader.StoredRecordData.Load` | spsync/core/data/record_data_store.cpp:275-299 | true exactly when the chunk is held now and decrypts, and then cached as it is now |
| `DataReader.StoredRecordData.Read` | spsync/core/data/record_data_store.cpp:218-229 | what a reader without a cache gives at that moment |
| `DataReader.StoredRecordData.RemoveData` | spsync/core/data/record_data_store.cpp:342-348 | afterwards nothing can be read, unless the data was to be uploaded |
| `DataReader.HeldReads` | spsync/core/data/record_data_store.cpp:275-299 | a held chunk reads as its slice of the plaintext |
| `DataReader.ReadsPlaintext` | spsync/core/data/record_data_store.cpp:218-229 | a read is the plaintext from the offset, cut at the size asked, the end of the data or the first chunk not held |
| `Divergence.SampleSequences` | spsync/core/divergence.cpp:9-22 | strictly decreasing from the head to 1; distances at most double exactly for heads up to 2^63 + 1 |
| `Divergence.FindDivergence` | spsync/core/divergence.cpp:24-38 | the newest sample held under the same hash and the oldest held under another |
| `Divergence.BracketsFork` | spsync/core/divergence.hpp:12-43 | the fork lies between the bounds, within the factor of two up to 2^63 + 1; no bound without a fork |
| `Divergence.FarHeadsMiss` | spsync/core/divergence.hpp:38-43 | for every larger head some fork is placed less well |
| `Divergence.ForkExists` | spsync/core/divergence.hpp:12-43 | for every fork there are a history and a fully held log that agree exactly below it |
| `AntiEntropy.PullIsWhatIsMissing` | spsync/core/divergence.cpp:40-47 | the range planned has exactly the origin's records that are missing up to the peer's head; none planned means none missing |
| `AntiEntropy.ForkStopsPull` | spsync/core/divergence.cpp:40-47 | something is pulled exactly when no sample is held under another hash and the peer's head is beyond what is known and common |
| `AntiEntropy.ForkedPullsNothing` | spsync/core/divergence.cpp:24-47 | a log that forked at or below the sampled head pulls nothing |
| `AntiEntropy.TakenOnlyWithoutHole` | spsync/core/divergence.cpp:49-56 | a pushed record is taken as it is if and only if no origin can have issued one before it that is missing |
| `AntiEntropy.StepKeeps` | spsync/core/divergence.hpp:68-87 | every step, of pushes, plans, answers and applied records in any order, keeps all replicas without holes |
| `AntiEntropy.AnswerKeeps` | spsync/core/record_storage.cpp:910-932 | an answer that is a prefix of a peer's records has no hole, whenever it arrives |
| `AntiEntropy.NoHoles` | spsync/core/divergence.hpp:68-87 | in every run a replica holds exactly the origin's records up to its head |
| `AntiEntropy.FullAnswerCloses` | spsync/core/record_storage.cpp:910-932 | a pull answered in full leaves nothing missing up to its end |
| `ObjectStore.AscendingJoin` | groupchat/core/object_store.cpp:207-236 | searching one list and then the other, for what is left of the count, is searching them joined |
| `ObjectStore.DescendingJoin` | groupchat/core/object_store.cpp:207-236 | the same backwards |
| `ObjectStore.ByIndexFinds` | groupchat/core/object_store.cpp:207-236 | the finds of an index search are at the start and the positions after it, or before it, in that order, as far as the list goes and not more than the count |
| `ObjectStore.OneSort` | groupchat/core/object_store.cpp:142-156 | the order by time and index has one arrangement |
| `ObjectStore.TopOfMerge` | groupchat/core/object_store.cpp:238-246 | the first n of a merge come from the first n of either side |
| `ObjectStore.TopOfBoth` | groupchat/core/object_store.cpp:142-156 | the top of each table, merged and cut, is the top of both together |
| `ObjectStore.SortByTime` | groupchat/core/object_store.cpp:142-156 | a rearrangement in the order of time |
| `ObjectStore.ObjectStore.Listing` | groupchat/core/object_store.hpp:35-41 | the indexes are 1 to the number of objects, pending ones above the confirmed |
| `ObjectStore.ObjectStore.UpdatePending` | groupchat/core/object_store.cpp:104-126 | the object leaves the pending list, the others close up in their order; the index it had |
| `ObjectStore.ObjectStore.Insert` | groupchat/core/object_store.cpp:55-96 | confirmed objects never move; a confirmed one leaves the pending list, a pending one is added once; the same id confirmed twice changes nothing |
| `ObjectStore.ObjectStore.RemovePending` | groupchat/core/object_store.cpp:98-101 | true exactly when it was pending, and then only it goes |
| `ObjectStore.ObjectStore.GetByIndex` | groupchat/core/object_store.cpp:207-236 | any start, count and direction: the slice of the confirmed list followed by the pending list |
| `ObjectStore.ObjectStore.GetByTime` | groupchat/core/object_store.cpp:238-246 | the first of the whole list in the order of time |
| `ObjectStore.ObjectStore.Get` | groupchat/core/object_store.cpp:207-246 | every search gives what it gives on one list |

## Left out

- Cryptography, codecs and SQL: uninterpreted functions with laws, and their effect on finite maps; schema upgrades and migrations are not modelled.
- Network, sessions, timers, threads, user interface, logging and the configuration tree: at most nondeterministic steps of a state machine.
- 64-bit wrap-around: sequence numbers, sizes and counters are unbounded; the one place where the width shows, the samples of a head near 2^64, is modelled with its shift bound.
- Weak sync modes of the chain check: only strict mode; rebase and commit are modelled for every mode.
- Segments that start at 0: the walk along them need not end (`HistoryVerifier.ZeroStartsCycle`), so fast verification and its steps are stated for segments with start >= 1.
- Disk faults and failing stores: lost or unreadable chunk files, and exceptions of actions in the pump, are not modelled; read_piece and drop_if_lost belong to that.
- The server's checks of size, signature, data descriptor, segment coverage and full changes on replicated storages (spsync/server/server_lib/chain_sync.cpp:70-127): only its seen rules are modelled.
- The server's replicator and data role: not part of this model, anti-entropy follows the contract of spsync/core/divergence.hpp:68-87.
- Order in which parked rows are visited: any, where the source takes the order of the query.
- Which transfers are asked for after a reconnect (spsync/engine/data_sync.cpp:53-96), events and progress notifications: bookkeeping beside the states that are modelled.
- Content index, adoption planning and the data header in the store: the rebuilt data enters the model as its chunks.
- Concurrency inside one read of a handle: a read is one step, though each chunk load is stated for the moment it happens.
- The plan of a download (spsync/transfer/data_downloader.cpp:108-125): what the holder has is part of the opening answer; the pieces go through IncomingChunk and the queue separately.
- UserMergeOrder.AccessOrderFreeIff: one direction needs the hypothesis on the accesses; where several maximal updates grant what the least one grants, only the sufficient condition of `AccessOrderFreeIf` is stated.
- UserMergeFull.BegunDominantWins: for orders that leave a full change first, who wins is stated for a dominant update; when the winner is order free is stated for delta entries only (`WinnerOrderFreeIff`).
- ChainDelivery.Deliver: the keys that open the chain are known from the start; that keys brought along unlock what waits is `HandleBlock`.
- TransferQueue.Collect: with a window of 0 an opened transfer waits for nothing, so "fed" is stated for windows above 0.
- PieceCursor: a value that is replaced, not an object updated in place; aliasing of cursors does not occur in the source.
- CommitRetry.Refusals: stated for tags that stand for one content; a refusal that something can be fetched for, a duplicate and a permanent one (spsync/engine/sync_engine.cpp:202-279) are not part of the exchange.
- CommitLoop.UpdateRecord: the fresh IV of a rebuilt record is part of the uninterpreted crypto, so rebuilding is a function of its inputs.
- ObjectStore.ObjectStore.Insert: a statement that fails rolls its transaction back; the refusal is decided before the pending list is touched.
- ObjectStore.SortByTime: the order of the query and of std::ranges::sort is modelled by an insertion sort; stability does not matter, no two objects compare equal.
