# MLS4RN in Dafny

A model of the parts of MLS4RN that carry state or bytes from one place to another, and proofs of
what they keep. MLS4RN puts OpenMLS (Rust, compiled to WebAssembly) behind a TypeScript client and
a React Native bridge.

What is modelled, bottom up:

- **Storage.** `MemoryStorage` simulates some 25 typed tables on one flat byte map (`FlatStore`,
  `MemoryStorage`), with JSON for keys and values (`Json`, `StoredLists`). On top of it sit the
  proposal queue (`ProposalQueue`), epoch key pairs (`EpochKeyPairs`), and the reference-counted
  state of virtual clients (`VcStore`). Queue and virtual clients are also modelled under
  concurrency: one step per lock section (`QueueInterleaving`, `VcInterleaving`) and one step per
  SQL statement (`VcStatements`). The SQLite provider is the relational reference throughout.
- **Secrets.** The sender ratchets (`SenderRatchet`), the one that the devices of a virtual client
  share (`DualUseRatchet`), the index arithmetic of the array tree (`TreeMath`), and the lazily
  derived secret tree (`SecretTree`).
- **Codecs.** The storage-tag derive macros as a code generator with a semantics (`StorageTags`),
  base64 (`Base64`, `Persistence`), strings on their way into WebAssembly and back (`Utf`),
  provider snapshots (`Snapshot`), and client envelopes (`Envelope`).
- **Clients and services.** The persistent client and its restarts (`MlsClient`), the
  request/response bridge (`Bridge`), and key packages at the delivery service (`KeyPackages`).

`Bytes` and `Renaming` hold byte-sequence and map lemmas. `dafny verify dfyconfig.toml` checks
everything.

Structs that Rust keeps by value inside vectors are values here and their `&mut self` methods take
the value in and give it back; objects that live on their own are classes. A Rust panic is an
outcome (`Panic`, `None`, `ArithmeticPanic`), never a precondition.

## What turned out to be conditional

Each of these is intended without the condition. The condition is exact: the property is proved to
hold if and only if it does, and a lemma shows an instance that fails.

- Stored virtual-client material keeps its epoch tag under every interleaving exactly when no batch
  stores a reference whose deletion is under way (`MaterialTaggedIff`, `InterleavedDeleteOrphans`).
- A run of bare SQL statements can always finish without orphaning a row, or the state of its epoch,
  exactly when no batch with a row to store begins while its epoch is being dropped and no delete
  passes its liveness query while such a batch is under way (`RunFinishesIff`, `StatementsOrphan`);
  both the batch write and the conditional delete need their transaction (`DeleteNeedsTransaction`,
  `BatchNeedsTransaction`).
- The two providers' proposal queues agree exactly on runs that never queue a queued reference
  (`AgreementIff`, `RequeueDisagrees`). On every run, requeues included, reading a queue panics exactly when a reference
  still listed was touched last by a removal (`ReadPanicsIff`, `RequeuedBodyMissing`).
- Under every interleaving of lock sections the reference lists are those of the calls one after the
  other (`ListsAreAtomic`), but bodies are not: every queue can be read, however the calls in flight go
  on, exactly when no reference is queued while its removal is under way, nor removed while it is being
  queued or is listed more than once (`AlwaysReadsIff`, `QueuedDuringRemoval`). A reader that has the
  list gets every body, wherever its own lock sections fall, exactly when no call deletes one of them
  meanwhile (`ReaderSafeIff`, `RemovalOvertakesRead`).
- Epoch key pairs are independent exactly when no two (epoch, leaf) pairs of a group concatenate to
  the same decimal (`IndependentIff`, `EpochsMixUp`).
- A group id survives a restart exactly when its surrogates are paired and it does not start with a
  byte order mark (`Utf.SurvivesIff`, `MlsClient.RestartIff`). Lone surrogates all come back as U+FFFD
  (`LoneSurrogate`), the mark does not come back (`LeadingMark`), and two groups can become one
  (`GroupsCollapse`).
- Base64 decoding undoes encoding exactly below 2^29 bytes, because the output length is computed with
  a signed 32-bit shift; at 2^29 bytes it throws, and at 2^30 it silently returns nothing
  (`RoundTripIff`, `DecodesIff`, `LongInputs`).
- The two snapshot readers agree while the announced count is within the platform's range. Beyond it the
  slice reader always refuses and the stream reader accepts exactly what the slice reader would with
  the count cast (`ReadersAgree`, `CountWraps`).
- A late message within the out-of-order tolerance still has its key exactly when its distance fits
  a signed 32-bit index (`HandedOutIff`, `FarTolerance`).
- The tree size computed from a node count is the least full tree's exactly below 2^31 nodes
  (`SmallestTreeIff`); at 2^31 a checked build panics and an unchecked one computes zero (`HugeTree`).
- The copath of a leaf lies inside the tree exactly when the tree has more than one leaf
  (`CopathInTreeIff`, `OneLeafCopath`).
- In a checked build two leaves have a lowest common ancestor computed exactly when they differ and lie on
  the same side of 2^30; across it the code shifts by the word size (`LowestCommonAncestor`,
  `AcrossIff`, `AcrossRoot`). An unchecked build still finds the ancestor of any two different leaves.

The comment on `clear_proposal_queue` speaks of deleting all proposals; the code leaves their
bodies behind because it deletes under keys without a label. The model follows the code
(`ClearKeepsBodies`), and proves that no later call can tell (`ClearIsFullClear`).

## Model

| member | source | states |
|---|---|---|
| FlatStore.LabelsPrefixFree | openmls/memory_storage/src/lib.rs:251-286 | no table label is a prefix of another |
| FlatStore.KeyOfInjective | openmls/memory_storage/src/lib.rs:1308-1325 | label, key and two-byte version can be read back from the concatenated storage key |
| FlatStore.FlattenLookup | openmls/memory_storage/src/lib.rs:165-187 | looking a key up in the flat map is looking the entry up in its table |
| FlatStore.FlattenWrite | openmls/memory_storage/src/lib.rs:88-105 | writing one key of the flat map writes one typed entry and leaves every other as it was |
| FlatStore.FlattenDelete | openmls/memory_storage/src/lib.rs:219-238 | deleting one key deletes one typed entry and leaves every other as it was |
| FlatStore.FlattenForeignKey | openmls/memory_storage/src/lib.rs:863-885 | a key that starts with no label is never in the map, so removing it does nothing |
| FlatStore.EpochTagKey | openmls/memory_storage/src/lib.rs:1318-1321 | the prefix test holds of a storage key if and only if it belongs to the epoch-tag table |
| FlatStore.ScanIsTableScan | openmls/memory_storage/src/lib.rs:1081-1104 | scanning the flat map by prefix and value finds an epoch if and only if the tag table holds it |
| Json.DecodeEncode | openmls/memory_storage/src/lib.rs:165-187 | stored JSON reads back, escapes and nesting included |
| Json.EncodeInjective | openmls/memory_storage/src/lib.rs:1323-1325 | different keys serialise differently |
| Json.UniqueSplit | openmls/memory_storage/src/lib.rs:1327-1336 | concatenated JSON texts split in one way, unless a bare number is followed by a digit |
| StoredLists.ListRoundTrip | openmls/memory_storage/src/lib.rs:107-215 | a stored list of byte strings reads back |
| MemoryStorage.MemoryStorage.Write | openmls/memory_storage/src/lib.rs:88-105 | on the real flat map: one typed entry is set, and the map stays the flattening of the typed store |
| MemoryStorage.MemoryStorage.Delete | openmls/memory_storage/src/lib.rs:219-238 | one typed entry is removed |
| MemoryStorage.MemoryStorage.Lookup | openmls/memory_storage/src/lib.rs:165-187 | returns the typed entry, or none |
| MemoryStorage.MemoryStorage.Append | openmls/memory_storage/src/lib.rs:107-132 | the stored list grows by one at the end; a value that is no list is an error |
| MemoryStorage.MemoryStorage.RemoveItem | openmls/memory_storage/src/lib.rs:134-163 | the first equal item, and only it, leaves the stored list |
| MemoryStorage.MemoryStorage.QueueProposal | openmls/memory_storage/src/lib.rs:291-312 | body and reference are stored as the queue specification says |
| MemoryStorage.MemoryStorage.RemoveProposal | openmls/memory_storage/src/lib.rs:982-997 | the reference leaves the list and the body its entry |
| MemoryStorage.MemoryStorage.QueuedProposalRefs | openmls/memory_storage/src/lib.rs:394-402 | the references listed, or the error or panic of reading them |
| MemoryStorage.MemoryStorage.QueuedProposals | openmls/memory_storage/src/lib.rs:404-424 | the listed references with their bodies, or a panic when a body is missing |
| MemoryStorage.MemoryStorage.ClearProposalQueue | openmls/memory_storage/src/lib.rs:863-885 | only the group's reference list goes; the loop's own removals hit nothing |
| MemoryStorage.UnlabelledKey | openmls/memory_storage/src/lib.rs:863-885 | the key the clearing loop removes, a JSON object or array without label, is no storage key |
| MemoryStorage.MemoryStorage.WriteRetainedBatch | openmls/memory_storage/src/lib.rs:1226-1262 | tree, then per record material and tag, stopping at the first that does not serialise |
| MemoryStorage.MemoryStorage.RetainedMaterial | openmls/memory_storage/src/lib.rs:1264-1281 | the record stored for the reference, or none |
| MemoryStorage.MemoryStorage.HasRetainedMaterial | openmls/memory_storage/src/lib.rs:1283-1294 | whether any tag names the epoch, by a scan of the flat map |
| MemoryStorage.MemoryStorage.DeleteIfUnreferenced | openmls/memory_storage/src/lib.rs:1081-1104 | emulation state and tree go, both and only if no tag names the epoch |
| MemoryStorage.MemoryStorage.DeleteRetainedMaterial | openmls/memory_storage/src/lib.rs:1296-1305 | material and tag of the reference go |
| MemoryStorage.MemoryStorage.DeleteKeyPackage | openmls/memory_storage/src/lib.rs:618-629 | material, tag and package of the reference go |
| MemoryStorage.ScanIsLiveness | openmls/memory_storage/src/lib.rs:1283-1294 | the prefix scan answers whether a tag names the epoch |
| ProposalQueue.OrderedQueue | openmls/memory_storage/src/lib.rs:404-424 | on every run that never requeues, each group reads back its insertion-ordered queue, and no body is missing |
| ProposalQueue.AgreementIff | openmls/sqlite_storage/src/proposals.rs:84-142 | memory and SQLite agree after every call of a run if and only if the run never queues a queued reference |
| ProposalQueue.ReadPanicsIff | openmls/memory_storage/src/lib.rs:404-424 | on every run the references read back are those queued more often than removed since the last clear; reading bodies panics if and only if one of them was touched last by a removal, and never fails otherwise |
| ProposalQueue.RequeuedBodyMissing | openmls/memory_storage/src/lib.rs:982-997 | the smallest failing run: queue twice, remove once |
| ProposalQueue.RemoveRefItems | openmls/memory_storage/src/lib.rs:134-163 | removal drops exactly the items of that reference and keeps the others |
| ProposalQueue.StepList | openmls/memory_storage/src/lib.rs:291-312 | what each call does to each group's reference list |
| ProposalQueue.StepBody | openmls/memory_storage/src/lib.rs:982-997 | what each call does to each stored body |
| ProposalQueue.RefsReadable | openmls/memory_storage/src/lib.rs:394-402 | reference lists stay readable on every run, requeues included |
| ProposalQueue.RunIndistinguishable | openmls/memory_storage/src/lib.rs:394-424 | stores that differ in unlisted bodies answer every later run of calls alike |
| ProposalQueue.ClearIsFullClear | openmls/memory_storage/src/lib.rs:863-885 | from every reachable store, clearing is a full clear to every later run, and changes one entry |
| ProposalQueue.ClearKeepsBodies | openmls/memory_storage/src/lib.rs:863-885 | the bodies of a cleared queue are still stored |
| QueueInterleaving.SoloCall | openmls/memory_storage/src/lib.rs:291-312 | run alone, the lock sections of a queueing, a removal or a clear are the whole call |
| QueueInterleaving.SoloRead | openmls/memory_storage/src/lib.rs:404-424 | run alone, a reader answers what reading at once answers |
| QueueInterleaving.ListsAreAtomic | openmls/memory_storage/src/lib.rs:108-163 | in every interleaving of lock sections, the reference lists are those of the calls one after the other: a removal where it begins, a queueing or a clear where it ends |
| QueueInterleaving.AlwaysReadsIff | openmls/memory_storage/src/lib.rs:404-424 | every queue can be read at every point, however the calls in flight go on, if and only if no reference is queued while being removed, nor removed while being queued or listed more than once |
| QueueInterleaving.FinishesIff | openmls/memory_storage/src/lib.rs:982-997 | from any state, that holds of the calls in flight if and only if what is listed or being queued has a body that no removal is about to delete |
| QueueInterleaving.NextCleanIff | openmls/memory_storage/src/lib.rs:291-312 | over all kinds of call, the lock sections that endanger a clean state are exactly those queueings and removals |
| QueueInterleaving.ReaderSafeIff | openmls/memory_storage/src/lib.rs:404-424 | a reader gets every body on its list, wherever its turns fall among those of the other calls, if and only if none of them deletes one; its answer then names just that list |
| QueueInterleaving.RemovalOvertakesRead | openmls/memory_storage/src/lib.rs:982-997 | a removal between the list and the body of a reader makes it panic, though no reference was ever queued twice |
| QueueInterleaving.QueuedDuringRemoval | openmls/memory_storage/src/lib.rs:982-997 | a queueing between the two lock sections of a removal leaves the reference listed without a body |
| QueueInterleaving.ClearDropsLate | openmls/memory_storage/src/lib.rs:863-885 | a proposal queued between the two lock sections of a clear is dropped, though the clear never read it |
| VcStore.CallsAgree | openmls/sqlite_storage/src/storage_provider.rs:685-693 | one call on two flat entries per reference and on one row gives the same answer and the same content |
| VcStore.ProvidersAgree | openmls/sqlite_storage/src/vc_secrets.rs:387-460 | every sequential run, failing batches included, is answered alike by both providers |
| VcStore.RewriteMovesReference | openmls/sqlite_storage/src/vc_secrets.rs:155-174 | writing a reference under a new epoch moves its reference there, and no other |
| VcInterleaving.EveryInterleaving | openmls/memory_storage/src/lib.rs:1226-1305 | in every interleaving of lock sections, a tag's epoch has its tree, and no step removes the state of an epoch a tag names |
| VcInterleaving.NextKeepsTrees | openmls/memory_storage/src/lib.rs:1081-1104 | the same for one lock section |
| VcInterleaving.MaterialTaggedIff | openmls/memory_storage/src/lib.rs:1296-1305 | material keeps its tag, however calls in flight finish, if and only if no batch stores a reference being deleted |
| VcInterleaving.NextKeepsIff | openmls/memory_storage/src/lib.rs:618-629 | the steps that endanger the invariant are exactly those batches |
| VcInterleaving.FinishesIff | openmls/memory_storage/src/lib.rs:1296-1305 | the calls in flight can finish in any order safely if and only if no stored reference is being deleted |
| VcInterleaving.InterleavedDeleteOrphans | openmls/traits/src/storage.rs:752-769 | a batch between the two lock sections of a delete leaves material without tag, tree or state |
| VcInterleaving.SoloDelete | openmls/memory_storage/src/lib.rs:618-629 | run alone, the lock sections of a delete are the whole call |
| VcStatements.TransactionsKeep | openmls/traits/src/storage.rs:752-769 | with a transaction around every call, no run orphans a row or its epoch's state |
| VcStatements.RunFinishesIff | openmls/sqlite_storage/src/storage_provider.rs:773-790 | from an empty database, a run of bare statements can at every point finish without orphaning a row or its epoch's state if and only if batches and deletes of one epoch never overlap as the two clauses say |
| VcStatements.NextSafeIff | openmls/sqlite_storage/src/storage_provider.rs:886-911 | over all kinds of statement, the steps that endanger a safe state are exactly those clashes |
| VcStatements.FinishesIff | openmls/sqlite_storage/src/storage_provider.rs:886-911 | from any given state, the statements in flight finish safely in any order if and only if deletes and batches share no epoch and batches find their tree |
| VcStatements.StatementsOrphan | openmls/sqlite_storage/src/storage_provider.rs:773-790 | a batch begun between the liveness query and the deletes is such a run |
| VcStatements.DeleteNeedsTransaction | openmls/sqlite_storage/src/storage_provider.rs:773-790 | a batch committed between the liveness query and the deletes is orphaned |
| VcStatements.BatchNeedsTransaction | openmls/sqlite_storage/src/storage_provider.rs:886-911 | a conditional delete committed between tree and row takes the tree away |
| VcStatements.SoloBatch | openmls/sqlite_storage/src/storage_provider.rs:886-911 | run alone, the statements of a batch are the whole call, stopping where a value does not serialise |
| VcStatements.SoloPackage | openmls/sqlite_storage/src/storage_provider.rs:685-693 | run alone, the two statements of a package delete are the whole call |
| VcStatements.SoloDelete | openmls/sqlite_storage/src/storage_provider.rs:773-790 | run alone, the statements of a conditional delete are the whole call |
| EpochKeyPairs.IdsCollideIff | openmls/memory_storage/src/lib.rs:1327-1336 | two concatenated ids are equal if and only if group and decimal concatenation are |
| EpochKeyPairs.IndependentIff | openmls/sqlite_storage/src/epoch_key_pairs.rs:33-54 | every run over a set of triples reads back as from separate columns if and only if no two of them collide |
| EpochKeyPairs.FixedLeafIndependent | openmls/memory_storage/src/lib.rs:798-861 | one leaf index per group is enough |
| EpochKeyPairs.SelfDelimitingEpochs | openmls/memory_storage/src/lib.rs:1327-1336 | so are epochs that do not serialise as bare numbers |
| EpochKeyPairs.WrittenAlike | openmls/memory_storage/src/lib.rs:1327-1336 | epoch and leaf written one after the other agree if and only if the numbers read off do |
| EpochKeyPairs.EpochsMixUp | openmls/memory_storage/src/lib.rs:798-861 | epoch 1 at leaf 11 and epoch 11 at leaf 1 share an entry |
| SenderRatchet.ForwardOnChain | openmls/openmls/src/tree/sender_ratchet.rs:187-232 | ratcheting forward hands out the current generation's key and nonce and moves to the next secret of the chain |
| SenderRatchet.SkipForward | openmls/openmls/src/tree/sender_ratchet.rs:297-307 | every skipped generation's key is kept, newest first |
| SenderRatchet.WindowIndex | openmls/openmls/src/tree/sender_ratchet.rs:318-328 | the signed index is the distance less one for distances up to 2^31, else negative; at 2^31 checked builds panic |
| SenderRatchet.TakeForward | openmls/openmls/src/tree/sender_ratchet.rs:297-316 | the generation's own key, its place kept empty, the window cut to the tolerance; the last generation fails and leaves the skipped keys |
| SenderRatchet.TakePast | openmls/openmls/src/tree/sender_ratchet.rs:317-340 | a kept key is handed out once; each refusal has its own cause |
| SenderRatchet.SecretForDecryption | openmls/openmls/src/tree/sender_ratchet.rs:274-341 | the queue of optional keys refines the window machine: same outcome, the chain's key, same next state |
| SenderRatchet.AtMostOnce | openmls/openmls/src/tree/sender_ratchet.rs:333-340 | on every run, configurations changing or not, no generation's key is handed out twice |
| SenderRatchet.HandedOutIff | openmls/openmls/src/tree/sender_ratchet.rs:282-295 | after every run under one configuration, a generation is handed out if and only if unused, in both distances, not the last, and indexable |
| SenderRatchet.RunHead | openmls/openmls/src/tree/sender_ratchet.rs:312-316 | the head follows the highest generation handed out, and no key older than the tolerance is kept |
| SenderRatchet.FarTolerance | openmls/openmls/src/tree/sender_ratchet.rs:318-328 | an unused generation within a large tolerance is refused as too old |
| SenderRatchet.SendsChain | openmls/openmls/src/tree/sender_ratchet.rs:187-232 | a sender's keys are the chain's in order, none skipped or repeated, until generations run out |
| TreeMath.LevelOf | openmls/openmls/src/binary_tree/array_representation/treemath.rs:282-292 | the loop counts trailing one bits; on the index of all ones it comes to a shift by the word size and gives no result |
| TreeMath.NodeIndex | openmls/openmls/src/binary_tree/array_representation/treemath.rs:282-292 | level and position are read back from the index |
| TreeMath.IndexNode | openmls/openmls/src/binary_tree/array_representation/treemath.rs:129-151 | every index is the index of a node |
| TreeMath.Children | openmls/openmls/src/binary_tree/array_representation/treemath.rs:300-314 | flipping the bits gives the two nodes of the level below over the two halves of the leaves |
| TreeMath.ParentIs | openmls/openmls/src/binary_tree/array_representation/treemath.rs:316-324 | the bit operations give the node of the level above with half the position |
| TreeMath.SiblingIs | openmls/openmls/src/binary_tree/array_representation/treemath.rs:332-339 | comparing with the parent picks its other child |
| TreeMath.SmallestTreeIff | openmls/openmls/src/binary_tree/array_representation/treemath.rs:187-194 | the size is that of the least full tree with that many nodes if and only if there are fewer than 2^31 |
| TreeMath.HugeTree | openmls/openmls/src/binary_tree/array_representation/treemath.rs:187-194 | 2^31 nodes: a panic in checked builds, size zero in the others |
| TreeMath.RootIs | openmls/openmls/src/binary_tree/array_representation/treemath.rs:294-298 | the root is the one node over all leaves |
| TreeMath.WordFits | openmls/openmls/src/binary_tree/array_representation/treemath.rs:6-7 | up to twice the largest tree the cap on nodes admits, no index and no shift leaves 32 bits |
| TreeMath.DirectPath | openmls/openmls/src/binary_tree/array_representation/treemath.rs:347-360 | exactly the nodes above the leaf, one per level, up to the root |
| TreeMath.Copath | openmls/openmls/src/binary_tree/array_representation/treemath.rs:362-379 | the siblings along the path |
| TreeMath.CopathPartition | openmls/openmls/src/binary_tree/array_representation/treemath.rs:362-379 | every other leaf is in the block of 2^k leaves below exactly one copath node, the leaf in none |
| TreeMath.BelowIff | openmls/openmls/src/binary_tree/array_representation/treemath.rs:316-324 | climbing k levels from a leaf comes to node p if and only if the leaf is one of the 2^k of the p-th block |
| TreeMath.CopathInTreeIff | openmls/openmls/src/binary_tree/array_representation/treemath.rs:362-379 | copath nodes are in the tree if and only if it has more than one leaf |
| TreeMath.OneLeafCopath | openmls/openmls/src/binary_tree/array_representation/treemath.rs:362-379 | the sibling of the only leaf is outside the tree of one node |
| TreeMath.LowestCommonAncestor | openmls/openmls/src/binary_tree/array_representation/treemath.rs:381-401 | the node over both leaves, at the lowest level where they meet; checked builds give none exactly for equal leaves and leaves across 2^30; unchecked ones give the root across it, and for equal leaves the slot before |
| TreeMath.AcrossIff | openmls/openmls/src/binary_tree/array_representation/treemath.rs:392-400 | the climb takes all 32 shifts if and only if the leaves lie across 2^30 |
| TreeMath.AcrossRoot | openmls/openmls/src/binary_tree/array_representation/treemath.rs:392-400 | leaf 2^30 and leaf 0 meet only at level 31 |
| SecretTree.SecretTree.constructor | openmls/openmls/src/tree/secret_tree.rs:153-185 | the encryption secret at the root, nothing else stored |
| SecretTree.SecretTree.DeriveDown | openmls/openmls/src/tree/secret_tree.rs:450-503 | children get their secrets, the parent's is deleted, nothing else changes |
| SecretTree.DeriveKeeps | openmls/openmls/src/tree/secret_tree.rs:450-503 | deriving keeps the frontier: right secrets, at most one above any leaf, none above leaves in use |
| SecretTree.TakeLeaf | openmls/openmls/src/tree/secret_tree.rs:326-328 | deleting a leaf's secret leaves none above it and disturbs no other leaf |
| SecretTree.SetShows | openmls/openmls/src/tree/secret_tree.rs:505-540 | writing one cell of the two vectors writes one node |
| SecretTree.SecretTree.EmptyParents | openmls/openmls/src/tree/secret_tree.rs:224-240 | the parents up to the first that has a secret |
| SecretTree.SecretTree.InitializeSenderRatchets | openmls/openmls/src/tree/secret_tree.rs:201-328 | the leaf gets its ratchets, no secret above it stays, and no other leaf's state changes |
| SecretTree.SecretTree.DecryptionSecret | openmls/openmls/src/tree/secret_tree.rs:333-369 | in whatever order leaves were used, the key is the eagerly derived one; refusals are the leaf's own ratchet's, with and without virtual clients |
| SecretTree.SecretTree.EncryptionSecret | openmls/openmls/src/tree/secret_tree.rs:373-396 | the own leaf's next generation and its eagerly derived key, with and without virtual clients; other leaves are refused |
| SecretTree.SecretTree.DeleteOwnSecret | openmls/openmls/src/tree/secret_tree.rs:398-413 | an unconfirmed own key goes; a ratchet not set up is an error |
| SecretTree.Deliver | openmls/openmls/src/tree/secret_tree.rs:330-396 | a receiver, another member or another device of the same virtual client, decrypts with the key the sender encrypted with, whatever both did before, if its ratchet accepts |
| SecretTree.Perform | openmls/openmls/src/tree/secret_tree.rs:330-413 | any sequence of calls on one tree hands out what the run on progress records says, with eagerly derived keys |
| SecretTree.KeysOnce | openmls/openmls/src/tree/secret_tree.rs:330-413 | on every such run of sends, receipts and confirmations, for a leaf and type no generation encrypts twice, none decrypts twice, and none encrypts after it has decrypted |
| DualUseRatchet.SecretForEncryption | openmls/openmls/src/tree/dual_use_ratchet.rs:128-143 | the next generation's chain key, kept as unconfirmed |
| DualUseRatchet.DeleteSecretForGeneration | openmls/openmls/src/tree/dual_use_ratchet.rs:106-117 | an unconfirmed key goes, and nothing else |
| DualUseRatchet.SecretForDecryption | openmls/openmls/src/tree/dual_use_ratchet.rs:151-197 | the map of past secrets refines the steps on marks: same outcome, the chain's key, same next state |
| DualUseRatchet.Prune | openmls/openmls/src/tree/dual_use_ratchet.rs:213-233 | the oldest retained generations beyond the tolerance go |
| DualUseRatchet.PrunedKeeps | openmls/openmls/src/tree/dual_use_ratchet.rs:213-233 | pruning never drops an unconfirmed send |
| DualUseRatchet.WindowBounded | openmls/openmls/src/tree/dual_use_ratchet.rs:213-233 | a receipt leaves at most the tolerance of generations retained |
| DualUseRatchet.EachOnce | openmls/openmls/src/tree/dual_use_ratchet.rs:53-67 | on every run of sends, confirmations and receipts, no generation is sent twice, none decrypted twice, and none sent after it was decrypted |
| DualUseRatchet.OwnMessageIff | openmls/openmls/src/tree/dual_use_ratchet.rs:145-197 | an own message can be decrypted, however far the ratchet has moved on, if and only if neither confirmed nor decrypted since |
| DualUseRatchet.GoneForever | openmls/openmls/src/tree/dual_use_ratchet.rs:199-211 | a generation without a key left is refused on every later run |
| SecretTree.UsedLeafUnreachable | openmls/openmls/src/tree/secret_tree.rs:199-206 | a leaf is in use if and only if no stored secret is its own or an ancestor's; before, exactly one is |
| StorageTags.FirstTagDecides | openmls/serialization_helpers/src/attrs.rs:13-39 | the first storage tag attribute decides, and must be an integer that fits 32 bits; without one no tag is provided |
| StorageTags.GenerateSerialize | openmls/serialization_helpers/src/serialize.rs:20-85 | the generator accepts exactly definitions with distinct tags and supported fields, one arm per variant |
| StorageTags.GenerateDeserialize | openmls/serialization_helpers/src/deserialize.rs:35-173 | the same for the reader, with a tuple visitor exactly when some variant has two fields |
| StorageTags.RoundTrip | openmls/serialization_helpers/src/deserialize.rs:35-173 | for every accepted definition, reading undoes writing, by tag and by name |
| StorageTags.StableIff | openmls/serialization_helpers/src/lib.rs:6-36 | by tag, another definition reads a value back if and only if it shares the variant's name, tag and arity |
| StorageTags.StableByNameIff | openmls/serialization_helpers/src/deserialize.rs:41-74 | by name, if and only if the variant kept its arity |
| StorageTags.EvolutionKeepsReading | openmls/serialization_helpers/src/lib.rs:6-36 | reordering and adding variants never changes how a shared one is read |
| StorageTags.SwappedTagsMisread | openmls/serialization_helpers/src/lib.rs:6-36 | tags moved between variants are read as the wrong variant |
| Base64.BuildLookup | packages/react-native/src/base64.ts:5-10 | the table inverts the alphabet and is zero elsewhere |
| Base64.BytesToBase64 | packages/react-native/src/base64.ts:12-28 | the characters of the base-64 digits of each group, padded |
| Base64.Base64ToBytes | packages/react-native/src/base64.ts:30-47 | for every string: a range error when the signed 32-bit length is negative, else as many bytes of the unpadded groups as that length |
| Base64.DecodesIff | packages/react-native/src/base64.ts:30-47 | all the bytes a string stands for come back if and only if three times its unpadded length is below 2^31 |
| Base64.EncodedLength | packages/react-native/src/base64.ts:12-28 | four characters per started group of three bytes |
| Base64.RoundTripIff | packages/react-native/src/base64.ts:12-47 | decoding undoes encoding if and only if there are fewer than 2^29 bytes |
| Base64.ResultOfEncoded | packages/react-native/src/base64.ts:12-47 | in general the length counts modulo 2^30, as a signed number |
| Base64.LongInputs | packages/react-native/src/base64.ts:33-34 | 2^29 bytes throw, 2^30 bytes come back empty |
| Base64.DecodedEncoded | packages/react-native/src/base64.ts:12-47 | the text of a byte sequence stands for that sequence |
| Base64.GroupRoundTrip | packages/react-native/src/base64.ts:12-47 | in all three group sizes |
| Base64.EncodedDecoded | openmls/memory_storage/src/persistence.rs:61-66 | whole padded groups of the alphabet with clear unused bits are the text of the bytes they stand for |
| Persistence.StandardCanonical | openmls/memory_storage/src/persistence.rs:27-36 | the standard engine, which takes just such text, decodes exactly what it encodes |
| Persistence.SaveToFile | openmls/memory_storage/src/persistence.rs:27-42 | the file holds exactly the store's entries as text |
| Persistence.LoadFromFile | openmls/memory_storage/src/persistence.rs:53-71 | file entries are laid over the store's; one that does not decode panics and poisons the lock, with the entries before it in place |
| Persistence.LoadSaved | openmls/memory_storage/src/persistence.rs:27-71 | a saved store always loads, and into an empty store gives itself back |
| Utf.Utf8Bound | wasm/openmls_wasm.js:858-893 | three bytes per code unit are enough |
| Utf.SplitIff | wasm/openmls_wasm.js:858-893 | encoding in two pieces is encoding the whole if and only if the cut goes through no surrogate pair |
| Utf.EncodeIntoFits | wasm/openmls_wasm.js:858-893 | `encodeInto` writes everything if and only if there is room |
| Utf.PassString | wasm/openmls_wasm.js:858-893 | every string, lone surrogates included, arrives as its UTF-8 bytes in a block of just that size, on both branches |
| Utf.DecodeUtf8 | src/bytes.ts:5-16 | decoding encoded text gives its code points, replacements included |
| Utf.SurvivesIff | src/bytes.ts:5-16 | a string survives encoding and decoding if and only if well-formed and without a leading byte order mark |
| Utf.LoneSurrogate | src/bytes.ts:5-16 | a lone surrogate comes back as the replacement character |
| Utf.LeadingMark | src/bytes.ts:5-16 | a leading byte order mark does not come back |
| Snapshot.Serialize | openmls/openmls-wasm/src/lib.rs:645-655 | in whatever order entries come: count, then sized records; the returned count is the bytes written |
| Snapshot.Deserialize | openmls/openmls-wasm/src/lib.rs:657-688 | the loop over one running position is the recursive reader, errors included |
| Snapshot.ReadRecord | openmls/openmls-wasm/src/lib.rs:673-684 | the position arithmetic of one entry, with its casts and bounds checks, takes what the recursive reader takes |
| Snapshot.RoundTrip | openmls/openmls-wasm/src/lib.rs:645-688 | a dump below the platform's range reads back as the map, trailing bytes or not |
| Snapshot.PrefixRefused | openmls/openmls-wasm/src/lib.rs:657-688 | every strict prefix of a dump is refused |
| Snapshot.ReadersAgree | openmls/memory_storage/src/lib.rs:57-84 | the stream reader and the slice reader accept the same input and read the same map while the announced count is in range; beyond it the slice reader refuses and the stream reader goes by the count cast |
| Snapshot.CountWraps | openmls/memory_storage/src/lib.rs:68-71 | a count of 2^32 is an empty store to the stream reader in wasm32 and an error to the other |
| Envelope.ConcatBytes | src/client.ts:360-370 | the parts one after the other in one array |
| Envelope.EncodeEnvelope | src/client.ts:372-382 | version, sized identity, sized provider, counted and sized group ids |
| Envelope.DecodeEnvelope | src/client.ts:384-418 | the offset-based reader is the recursive one, corrupt and unsupported input included |
| Envelope.BodyIff | src/client.ts:372-418 | the fields read back if and only if all sizes fit 32 bits |
| Envelope.EnvelopeIff | src/client.ts:372-418 | given that, the envelope reads back if and only if every group id survives UTF-8, trailing bytes or not |
| Envelope.PrefixRefused | src/client.ts:384-418 | every strict prefix of an envelope is refused |
| MlsClient.MlsClient.CreateGroup | src/client.ts:116-126 | the store as the call leaves it, and the id among the groups unless the call throws |
| MlsClient.MlsClient.JoinGroup | src/client.ts:128-135 | the same, but a group joined without an id is not among them |
| MlsClient.MlsClient.Save | src/client.ts:146-176 | with an adapter, the blob of the current state under the client's id, whatever order the store is dumped in; without one, nothing |
| MlsClient.Open | src/client.ts:84-109 | a fresh client when nothing is stored, else what the stored blob decodes to, or its error |
| MlsClient.FirstStart | src/client.ts:84-109 | a first start saves at once, so every run begins with a snapshot of its client |
| MlsClient.ReopenIff | src/client.ts:84-109 | reopening a blob gives the client back if and only if its identity is accepted and its group ids survive and load |
| MlsClient.RestartIff | src/client.ts:84-176 | after every run, restarts included, reopening gives exactly the last saved state if and only if its identity is accepted and its group ids survive and load |
| MlsClient.GroupsCollapse | src/client.ts:97-103 | two groups with different lone surrogates as ids come back as one group |
| MlsClient.Perform | src/client.ts:84-176 | any sequence of calls on the object, and on the object each restart opens, is a run of the machine: same state, same stored blob, every save a dump of the store it found |
| MlsClient.GroupsAreNamed | src/client.ts:116-135 | between restarts the groups are exactly those created, or joined with an id |
| MlsClient.SavedGroups | src/client.ts:168-176 | restarts included, the saved groups are those the last restart before the save brought back and those named between the two |
| MlsClient.GroupsSinceOpen | src/client.ts:97-103 | at every point the groups are those of the last snapshot opened and those named since |
| Bridge.Bridge.Request | packages/react-native/src/bridge.ts:35-41 | the next id, pending before the message is sent |
| Bridge.Bridge.HandleMessage | packages/react-native/src/bridge.ts:44-61 | settles at most the pending request named, and throws only on a literal null |
| Bridge.RunConsistent | packages/react-native/src/bridge.ts:15-61 | on every run pending is issued minus answered, below the next id, and no promise settles twice |
| Bridge.SettledIffFirstAnswer | packages/react-native/src/bridge.ts:44-61 | a request is settled with an outcome if and only if the first message bearing its id after it was issued carries it |
| Bridge.HonestHost | packages/react-native/src/bridge.ts:35-61 | a host that computes a function, in any order and any number of times, yields it of the request's own arguments |
| Bridge.ReadyRestoresOnce | packages/react-native/src/client.ts:67-78 | on every run, failing storage reads included, at most one restore is sent, after the ready message, and ready resolves only after it succeeded |
| Bridge.ReadyIsFinal | packages/react-native/src/client.ts:67-78 | once ready has resolved or failed, nothing changes that or sends another restore |
| KeyPackages.NewClient | openmls/delivery-service/ds-lib/src/lib.rs:88-105 | named after the first package; an empty list panics |
| KeyPackages.ClientInfo.ConsumeKp | openmls/delivery-service/ds-lib/src/lib.rs:116-128 | hands out the last package and reserves its hash, unless one is left |
| KeyPackages.EveryRun | openmls/delivery-service/ds-lib/src/lib.rs:88-128 | from n packages exactly the first n - 1 calls succeed, one stays, handed out and kept make up the original, and the reserved set is the hashes handed out |
| KeyPackages.HandedOutAt | openmls/delivery-service/ds-lib/src/lib.rs:116-128 | packages go out in reverse order of registration |

## Left out

- Json: negative and fractional numbers, whitespace and non-ASCII escapes, which no stored key or value uses.
- QueueInterleaving: lock poisoning; no call of the queue panics while it holds the write lock.
- VcStore: emulation bindings, registered epochs and the other single-entry tables, which are plain reads and writes of `MemoryStorage`.
- ProposalQueue.AgreementIff: the SQLite table is keyed by (group id, proposal reference), as its primary key makes it; SQL itself is a map operation per statement.
- VcStatements: the isolation levels of SQLite; a transaction is one step.
- sqlx_storage: the same tables behind another driver.
- Snapshot: allocation that fails, and `with_capacity` on a forged count.
- Utf.PassString: the `encodeInto` polyfill for old engines, and one array stands for one WebAssembly allocation.
- SenderRatchet: a crypto provider that fails; expansion is a total function of secret, label, context and length.
- DualUseRatchet: reading back a ratchet persisted by a build with the other setting of `virtual-clients-draft`.
- TreeMath: `common_direct_path`, blank nodes, and growing and shrinking the tree.
- MlsClient.RestartIff: what group operations do inside WebAssembly; the store they leave, whether they succeed, and which identities and groups are accepted back are parameters.
- MlsClient.MlsClient.CreateGroup: the same.
- MlsClient.MlsClient.JoinGroup: the same.
- MlsClient.Open: the same; every failure to open is one outcome.
- MlsClient.ReopenIff: the same.
- MlsClient.Perform: the same; calls follow one another, so a save that another call overtakes while it waits for its adapter is not among the runs.
- Bridge: ids beyond 2^53 and fractional ids, which match no request; a transport whose `send` throws; the promise machinery of the engine.
- KeyPackages: `hashset_codec` and the rest of the wire format.
- Persistence: pretty-printing of the file; it is a map of strings.
- Crypto, HPKE, credentials, key schedule, ratchet-tree synchronisation and the group state machine.
- React, WebView, NestJS, demo, CLI and interop code.
