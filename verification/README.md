# Stratum: version storage, collection and hand-off, in Dafny

Stratum keeps each knowledge base as a linear chain of document-set versions. A version
writes only the documents it changes; a read at a version resolves to the newest record at
or below it; a separate list materialises each version's full document set; chunk vectors
are shared by content. Deletion and chunk collection must never disturb a version that is
still served. This project models that logic and the protocols around it, and proves what
they keep over every run.

`dafny verify dfyconfig.toml` checks everything.

## How the model is laid out

- **Version storage.** `Mvcc` is the multi-version read and the anchored drop. `Storage` is
  one knowledge base on one node as a state machine whose steps are single store or metadata
  calls; `StorageProofs` proves its invariant and the theorems over runs, and `MissedReads`
  what reads that wrongly find nothing do to them. `KbNode.Node` holds
  the same state in fields, and each of its store calls is one step of the machine or a
  failure that changes nothing. `VersionWriter`, `VersionDropper` and `ChunkGc` are the
  coordinators' methods, written on top of those calls. `Batches` is about batches of changes,
  `Replicas` about deriving a version's document set on any node.
- **Key layout.** `Bytes` is the byte order and the key encodings; `DocStore` and `ChunkDoc`
  are the two Pebble stores, refined to the maps and sets the rest of the model uses.
- **Protocols.** `KbLocks` (per-knowledge-base locks), `BuildPool` (index builds), `Dispatch`
  (handing a new version's changes over), `DeleteResume` (deletes across crashes),
  `DeletingSweep` (the dirty set). Each is a state machine over critical sections or single
  calls, with theorems about every run, and a class whose methods are those sections.
- **Queries and tools.** `QueryFilter`, `RankRead`, `DeadShare`, `TailFile`; `Lines` and
  `Sorting` are shared by several of them.

## What the model takes for granted

- A new version's parent is the newest version, or 0 for the first one, and version IDs only
  grow. The source also accepts parent 0 on a chain that has versions already;
  `Batches.SecondRootDisagrees` shows what that does, and `Batches.ChildAgreesIff` says for
  every parent when the two views agree.
- The parent's data is durable when a child is created, and a version that a still-pending
  child derives from is not deleted. Both are admission rules of the metadata state machine
  (internal/raft/state_machine.go:566-617 and 884-930).
- The newest version is never itself deleted or discarded. `Batches.DroppedTailLeaks` shows
  a later version reading a record it never inherited when it is.
- Document IDs within one batch are distinct. `Batches.BatchAgreesIff` gives the exact
  condition the code needs, which is a little weaker.
- Collection and writing exclude each other through the write lock: inline writes and replays
  hold it, and so does a collector while it judges and erases.
- The hash behind digests and fingerprints is collision-free on strings; what is fed to it is
  modelled. Theorems that tell sets apart by their hash are about document IDs without
  newlines (and, for the bloom fingerprint, NULs) and sets other than the one empty ID alone;
  `Replicas.SetsHashedAlikeIff` and `Replicas.EverySetHasATwin` say exactly why. The services
  do not reject such IDs.
- Knowledge-base IDs are not empty, since the service mints them (service/knowledgebase.go:191-197);
  `DeletingSweep.AlwaysCoveredIff` says what the empty ID would lose.
- Strings in keys are shorter than 2^32 bytes, and version IDs are non-negative 64-bit
  integers. Version IDs passed to deletes may be negative, as in the source.
- Store calls, embedding and metadata reads may fail at any point; a failed call changes
  nothing unless said otherwise. Retries are further attempts of the same call. Whether calls
  can fail at all is a parameter of each component (`mayFail`, and `mayMiss` for reads that
  fail while iterating), so each contract also says that without faults there is no error.
- Pebble is a sorted byte-string map with atomic batches; the vector store is a volatile and a
  durable set; a bloom filter is any predicate true of everything added to it; scores are
  reals.

## Findings

- A second version created with parent 0 reads the first chain's documents but does not list
  them (`Batches.SecondRootDisagrees`).
- A batch that deletes and puts the same document leaves list and records disagreeing for
  some order in which the concurrent document writers finish (`Batches.MixedBatchDisagrees`).
- The document store reads a failed iteration as "not found" (internal/docstore/pebble.go:142-144
  never asks the iterator for its error), and the collector takes "not found" for "no longer
  visible" (internal/coordinator/gc_impl.go:427-445). For a chunk of one document, one such
  read per live version is enough to erase it under a version that reads it
  (`MissedReads.LiveChunkErased`). Collection is safe from a state with something to lose if and
  only if no judging read misses (`MissedReads.SafeFromHereIff`).
- Without a dispatcher, Execute returns without taking its registration; it stays behind
  unless the apply hook took it (`Dispatch.UnwiredLeaks`, `Dispatch.NothingLeftIffWired`,
  `Dispatch.RegisteredIffNotHandedOver`).
- The parent-digest check lets every node through while no digest is committed for the parent,
  and cannot tell an empty parent set from the one empty ID (`Replicas.CheckDecidesIff`).
- The committed digest hashes IDs joined by newlines: an ID containing a newline collides with
  the two IDs it is made of, the empty set with the set of one empty ID, and every set with the
  single ID that is its own joined listing (`Replicas.NewlineCollides`,
  `Replicas.EmptySetCollides`, `Replicas.EverySetHasATwin`). The bloom fingerprint ends each ID
  with a NUL and only has the first problem, with NULs (`QueryFilter.NulCollides`).
- A sidecar that records a live chunk twice makes the dead-share estimate report weight that
  is not there (`DeadShare.RepeatedIdMisleads`). Nothing seen in the source writes such a
  sidecar, and nothing checks for one.

## Model

| member | source | states |
|---|---|---|
| Mvcc.VisibleIsNewest | internal/docstore/mock.go:67-91 | a read resolves to the largest version at or below the asked one that the document has a record of, and to none exactly when there is none |
| Mvcc.ReadAtIff | internal/docstore/mock.go:67-91 | a read returns a value if and only if that is the record of the newest version at or below the asked one |
| Mvcc.DropPreservesReads | internal/coordinator/kb_dropper.go:214-267 | dropping a version against one anchor leaves every read (value, tombstone or absence) below it and at or above the anchor as it was |
| Mvcc.DropInGap | internal/docstore/pebble.go:250-317 | for a reader between the dropped version and the anchor, the record stays if and only if nothing newer hides it from the anchor |
| Mvcc.DropRetainsOnlyAnchorReads | internal/docstore/pebble.go:250-317 | a record of the dropped version stays if and only if the anchor reads it, and removing one that stays would change what the anchor reads |
| Mvcc.DropTouchesOnlyItsVersion | internal/docstore/pebble.go:250-317 | records of other versions stay as they are, and without an anchor nothing of the dropped one stays |
| Mvcc.DropAllOneMore | internal/coordinator/kb_dropper.go:214-267 | in a sequence of drops each works on what the ones before it left |
| Mvcc.DropSequencePreservesSurvivors | internal/coordinator/kb_dropper.go:214-267 | any sequence of drops, each anchored at the smallest survivor above it at its time, preserves every read at every version that survives them all |
| Storage.ReadableIff | internal/coordinator/gc_impl.go:427-445 | a document is alive if and only if a read finds a text, and readable if and only if it finds a non-empty one, inherited or not |
| StorageProofs.RunKeepsInv | internal/coordinator/gc_impl.go:104-445 | the storage invariant holds after every run of writes, deletes, sweeps, missed reads, crashes and power losses interleaved in any order; its clause that no needed chunk is missing stands while no judging read has missed a readable document |
| StorageProofs.ChunkCollectionIsSafe | internal/coordinator/gc_impl.go:104-445 | on every run on which no judging read missed a document with text: for every non-empty text a read at a live version returns, inherited or not, every chunk of it is mapped both ways and, once that version or the one that wrote the text has committed, has a vector that also survives a power loss |
| StorageProofs.MisledIff | internal/docstore/pebble.go:142-144 | that guarantee is void after a run if and only if some judging read on it missed a readable document |
| StorageProofs.NoneMissedIff | internal/docstore/pebble.go:142-144 | none is missed along a run if and only if every judging read that fails while iterating is of a document whose text is empty or absent at that point |
| StorageProofs.SafeUnderPower | internal/coordinator/write_impl.go:789-846 | on every such run without a power loss, the vector of every chunk a live version reads is in the store, uncommitted versions included |
| MissedReads.MissedReadsEraseAnyChunk | internal/coordinator/gc_impl.go:427-445 | from any state whose lock is free, missed reads let one sweep erase any mapped chunk without touching records, lists or versions |
| MissedReads.SafeFromHereIff | internal/coordinator/gc_impl.go:391-445 | from every reachable state in which a live version needs a chunk, every continuation keeps serving all needed chunks if and only if judging reads may not miss |
| MissedReads.LiveChunkErased | internal/docstore/pebble.go:142-144 | for every document and text of one chunk, a run from the empty store that writes it and ends with the chunk erased under the live version that reads it |
| StorageProofs.ViewsAgreeOnEveryRun | internal/coordinator/write_impl.go:1172-1228 | on every run, a live committed version's list has a document if and only if a read at that version finds a text |
| StorageProofs.UnmovedTailMeansSnapshotCovers | internal/coordinator/gc_impl.go:230-277 | on every run, a sweep snapshot, however old, contains every live version while the newest version is still the one it saw |
| StorageProofs.CommittedVersionsAreImmutable | internal/coordinator/write_impl.go:1172-1228 | from any point of any run on, a committed version's list and every read at it are the same as long as it stays live |
| StorageProofs.WrittenTailAgrees | internal/coordinator/write_impl.go:927-940 | once every changed document and the list are written for the newest version, its list and its reads describe one set |
| StorageProofs.DropCommitKeepsInv | internal/docstore/pebble.go:291-317 | committing the deletes a drop collected earlier keeps the invariant, however much happened since its anchor was computed |
| StorageProofs.ReadTailKeepsInv | internal/coordinator/gc_impl.go:230-277 | judging by the snapshot after finding the newest version unmoved still covers every live version |
| StorageProofs.ConfirmedUnread | internal/coordinator/gc_impl.go:391-411 | a document found unreadable at every version judged by is unreadable at every live version, a version allocated meanwhile included |
| StorageProofs.PowerLossKeepsInv | internal/coordinator/write_impl.go:789-846 | losing any vectors that are not durable keeps the invariant: only an uncommitted version can miss a vector |
| Batches.DocSetIsApplyChanges | internal/coordinator/write_impl.go:1199-1206 | applying a batch change by change gives the set that applying its last change per document gives |
| Batches.BatchAgreesIff | internal/coordinator/write_impl.go:902-920 | list and records agree for every order the concurrent writers may finish in, if and only if no document is both deleted and put |
| Batches.MixedBatchDisagrees | internal/coordinator/write_impl.go:902-920 | for any batch that deletes and puts one document there is an order of its writers after which the list has it exactly when a read finds no text |
| Batches.AgreeingReads | internal/coordinator/write_impl.go:902-920 | agreeing is listing exactly the documents a read finds a text for |
| Batches.LastChangeWins | internal/coordinator/write_impl.go:927-940 | a document's last change decides: a delete leaves a tombstone and takes it off the list, a put leaves the change's own text and lists it |
| Batches.ChildAgreesIff | internal/coordinator/write_impl.go:1172-1228 | for any parent, a child's list and reads agree if and only if every document it does not change is alive at the child's ID exactly when it is alive at the parent |
| Batches.TailChildAgrees | internal/coordinator/write_impl.go:1172-1228 | with the newest version as parent they always agree |
| Batches.RootChildAgreesIff | internal/coordinator/write_impl.go:1172-1228 | with parent 0 they agree if and only if the batch changes every document alive at the newest version |
| Batches.SecondRootDisagrees | internal/raft/state_machine.go:884-930 | a second version with parent 0 reads a document its list does not have |
| Batches.DroppedTailLeaks | internal/coordinator/kb_dropper.go:252-267 | a retried drop of a deleted newest version anchors on a version created since, which then reads a document it never inherited |
| KbNode.Node.WriteMappings | internal/chunkdoc/pebble.go:143-162 | exactly the document's chunks are mapped, both directions, in one step or not at all |
| KbNode.Node.FlushWAL | internal/coordinator/write_impl.go:837-843 | success makes every vector written so far durable and changes nothing else |
| KbNode.Node.CommitVersionMeta | internal/coordinator/write_impl.go:820-843 | only the newest version commits, only once its vectors have been flushed, and the storage invariant holds afterwards |
| KbNode.Node.CreateVersion | internal/raft/state_machine.go:869-977 | a new uncommitted version with the next ID on top of the newest one, refused exactly while the newest one's data is not durable; the storage invariant holds whoever holds the lock |
| KbNode.Node.MarkVersionDeleting | internal/raft/state_machine.go:485-588 | marks exactly that version; refused exactly for an absent one, the newest, and the parent of an uncommitted one; the storage invariant holds |
| KbNode.Node.RemoveVersionMeta | internal/raft/state_machine.go:750-790 | exactly that version's metadata goes, an absent version is no error, one not marked Deleting is left; the storage invariant holds |
| KbNode.Node.Restart | internal/coordinator/write_impl.go:789-846 | a restart keeps metadata, documents and mappings and frees the lock; losing power may take any vectors that were not flushed; the storage invariant holds |
| VersionWriter.ChunkPresent | internal/coordinator/write_impl.go:1092-1107 | an answer of present means the chunk is in the store, whichever of presence cache, bloom hint and store gave it; absent means it was not cached and, if the bloom hint has it, is not in the store |
| VersionWriter.WriteChunk | internal/coordinator/write_impl.go:1143-1166 | success means the chunk is in the store, written now or there before; no other vector changes |
| VersionWriter.Pending | internal/coordinator/write_impl.go:983-1000 | every chunk of the document is known to be stored or is in the list to embed, and nothing known to be stored is in it |
| VersionWriter.StorePending | internal/coordinator/write_impl.go:1002-1041 | success means every pending chunk is stored, and only those are added; a vector the embedder left out is an error |
| VersionWriter.WriteDocument | internal/coordinator/write_impl.go:946-1083 | success means the record is the change's own text and every chunk of that text is stored and mapped; no other record is touched, and on failure the storage invariant still holds |
| VersionWriter.WriteOneChange | internal/coordinator/write_impl.go:927-940 | success means the change's record, its own text or a tombstone, is written, and no other record is touched |
| VersionWriter.WriteDocuments | internal/coordinator/write_impl.go:873-923 | success means every change of the batch is written; the first failure stops the write with the invariant intact; records of other versions are untouched |
| VersionWriter.VerifyParentDocSet | internal/coordinator/write_impl.go:1238-1261 | passes only if no digest is committed for the parent or it is the digest of the set read here; refuses only if it is another one |
| VersionWriter.WriteVersionDocList | internal/coordinator/write_impl.go:1172-1228 | success means the parent set passed the digest check and the list is that set with the batch applied in order |
| VersionWriter.FlushedIsLanded | internal/coordinator/write_impl.go:789-846 | behind the flush, every change has its record and every chunk of every changed document, reused ones included, its mappings and a durable vector |
| VersionWriter.WriteVersionStorage | internal/coordinator/write_impl.go:789-846 | success means, change by change, a tombstone or the change's own text is on record, every chunk of the text is mapped both ways and durable, and the list is the parent's set with each change applied; it fails only through a fault or a parent set the committed digest refuses, and touches no other version's records |
| VersionWriter.Replay | internal/coordinator/write_impl.go:592-600 | a locked attempt commits the version if and only if it succeeds; it then reads exactly the batch's texts and, for other documents, what the parent's set has, with all chunks durable; otherwise the stores are sound for the next attempt, and it fails only through a fault or a refused parent set |
| VersionWriter.ReplayedReads | internal/coordinator/write_impl.go:592-600 | what such a version reads, lists and has stored, document by document |
| Replicas.PassingDerivesFold | internal/coordinator/write_impl.go:1172-1261 | a node that passes the check against true digests derives the fold of all changes, whatever else it holds |
| Replicas.CommittedDigestsAreFolds | internal/coordinator/write_impl.go:1172-1261 | over every sequence of writes by any nodes with any local data, every committed digest is the digest of the fold from the root |
| Replicas.ReplicasAgree | internal/coordinator/write_impl.go:1172-1261 | two nodes that pass derive the same child set |
| Replicas.CheckDecidesIff | internal/coordinator/write_impl.go:1238-1261 | over every set of newline-free IDs a node may hold, all that pass derive the right child if and only if there is no parent, or its digest is committed and either its set is neither empty nor the one empty ID or the batch changes the empty ID |
| Sorting.FirstDifferenceDecides | internal/sync/summary.go:24-37 | IDs are sorted in byte order: behind a common prefix the first difference decides |
| Replicas.DigestForgetsOrder | internal/sync/summary.go:24-37 | the digest does not depend on the order the IDs are listed in |
| Replicas.DigestInputsAgreeIff | internal/sync/summary.go:24-37 | two lists are hashed alike if and only if their newline-free pieces agree |
| Replicas.DigestInputInjective | internal/sync/summary.go:24-37 | non-empty lists of IDs without newlines are hashed alike if and only if they have the same IDs |
| Replicas.SetsHashedAlikeIff | internal/sync/summary.go:24-37 | sets of newline-free IDs are hashed alike if and only if they are equal or both are the empty set or the one empty ID |
| Replicas.EverySetHasATwin | internal/sync/summary.go:24-37 | every set is hashed like the set of the one ID that is its joined listing |
| Replicas.NewlineCollides | internal/sync/summary.go:24-37 | an ID with a newline is hashed like the two IDs around it |
| Replicas.EmptySetCollides | internal/sync/summary.go:24-37 | the empty set is hashed like the set of one empty ID |
| ChunkGc.LiveVersionIDs | internal/coordinator/gc_impl.go:174-191 | exactly the versions not marked Deleting, less the excepted one, ascending |
| ChunkGc.DocReadableFromAny | internal/coordinator/gc_impl.go:427-445 | true if and only if a read at one of the versions that does not fail while iterating returns a non-empty text, inherited or not; an error only through a fault |
| ChunkGc.IsOrphanChunk | internal/coordinator/gc_impl.go:391-411 | an orphan if and only if it is mapped and every read, at any of the versions, of any document it is mapped to, that does not fail while iterating, finds no text |
| ChunkGc.LooksOrphanIff | internal/coordinator/gc_impl.go:391-411 | what orphan means, in terms of mappings and reads |
| ChunkGc.DeleteChunk | internal/coordinator/gc_impl.go:370-384 | only the chunk's own mappings and vector go; a vector goes only after every mapping has; on success all of them are gone |
| ChunkGc.ReclaimOrphan | internal/coordinator/gc_impl.go:230-277 | on success a chunk is erased if and only if it looks like an orphan to the versions judged by, and no other chunk is touched; unless a read missed, anything but a real orphan is left as it was even when the call fails; only missed reads mislead it |
| ChunkGc.ReclaimVersionChunks | internal/coordinator/gc_impl.go:298-354 | unless a read missed, every chunk of a document some live version reads text for keeps its mappings and vector, even when the call fails; on success every orphan the version's documents name is gone; without faults it succeeds |
| ChunkGc.SweepKB | internal/coordinator/gc_impl.go:104-159 | unless a read missed, every chunk of a document some live version reads text for keeps its mappings and vector, whether or not the sweep finishes; on success every orphan is gone; without faults it succeeds |
| VersionDropper.VisibilityAnchor | internal/coordinator/kb_dropper.go:252-267 | the smallest surviving version above the dropped one, or 0 if there is none |
| VersionDropper.DeleteByVersionExceptVisibleFrom | internal/docstore/pebble.go:250-317 | on success the records are the anchored drop of what they were, else unchanged |
| VersionDropper.DropKeepsSurvivors | internal/coordinator/kb_dropper.go:214-247 | every live version lists and reads every document as before the drop |
| VersionDropper.DropVersion | internal/coordinator/kb_dropper.go:214-247 | whatever fails, survivors read and list what they did and, unless a read missed, no chunk they read is touched; on success the list is gone, of the version's records exactly those some survivor reads remain, and no orphan its list named is left; on failure the records are as before and at most the list is gone |
| VersionDropper.AnchorReadsForAll | internal/coordinator/kb_dropper.go:252-267 | the anchor reads a record of the dropped version if and only if some survivor does |
| VersionDropper.RerunEqualsOneDrop | internal/coordinator/kb_dropper.go:214-267 | a drop that stopped anywhere and is run again leaves the records and lists one uninterrupted drop leaves |
| Bytes.PrefixSuccessor | internal/pebbleutil/keys.go:89-99 | the loop computes the least byte string above every key with the prefix, or none for all-0xFF |
| Bytes.SuccessorRange | internal/pebbleutil/keys.go:81-99 | the range from a prefix to its successor holds exactly the keys with that prefix, also when there is no successor |
| Bytes.BigEndianRoundTrip | internal/pebbleutil/keys.go:36-53 | decoding an encoded integer gives it back |
| Bytes.BigEndianOrder | internal/pebbleutil/keys.go:36-53 | byte order of encoded integers is numeric order |
| Bytes.EncodePrefixIff | internal/pebbleutil/keys.go:25-34 | one encoded string begins another if and only if the lengths agree modulo 2^32 and one string begins the other |
| Bytes.OverlongStringCollides | internal/pebbleutil/keys.go:25-34 | a string of 2^32 bytes is encoded as an extension of the empty string |
| Bytes.Peel | internal/pebbleutil/keys.go:25-34 | keys built of strings that fit share a start only if they share their first component |
| DocStore.ValueRoundTrip | internal/docstore/pebble.go:79-105 | tombstone, empty content and content all decode to what was encoded, behind the tags 0 and 1 |
| DocStore.ReadRange | internal/docstore/pebble.go:156-170 | the range a read scans holds exactly that document's keys up to the asked version, at the largest version ID too |
| DocStore.KbRange | internal/docstore/pebble.go:175-185 | a knowledge base's range holds its keys and no others, also when one ID is a prefix of another |
| DocStore.KeyInjective | internal/docstore/pebble.go:62-67 | different records have different keys |
| DocStore.LastKeyIsVisible | internal/docstore/pebble.go:125-154 | the last key of a read's range is the key of the visible record, and the range is empty if and only if there is none |
| DocStore.NotFoundMeansGoneIff | internal/docstore/pebble.go:142-144 | a not-found answer means there is no text to read if and only if the iteration did not fail |
| DocStore.DropInIsAnchoredDrop | internal/docstore/pebble.go:250-317 | the store's version delete is the anchored drop on that knowledge base's records |
| DocStore.DropInElsewhere | internal/docstore/pebble.go:250-317 | it leaves every other knowledge base alone |
| DocStore.PebbleDocStore.Write | internal/docstore/pebble.go:111-117 | one record is set, tombstone or content, and nothing else changes |
| DocStore.PebbleDocStore.ReadAt | internal/docstore/pebble.go:125-154 | a negative version, and only that, is an invalid argument; content returned is that of the visible record; not found means a tombstone, no record, or an iteration that failed; a store error only through a fault |
| DocStore.PebbleDocStore.VisibleVersionOf | internal/docstore/pebble.go:324-343 | the version a read resolves to, tombstones included |
| DocStore.PebbleDocStore.DeleteByKB | internal/docstore/pebble.go:175-185 | exactly the knowledge base's records go |
| DocStore.PebbleDocStore.DeleteByVersion | internal/docstore/pebble.go:193-233 | exactly the knowledge base's records of the version go; a negative version matches none |
| DocStore.PebbleDocStore.DeleteByVersionExceptVisibleFrom | internal/docstore/pebble.go:250-317 | of those, the ones a read at the anchor resolves to stay |
| ChunkDoc.KeyInjective | internal/chunkdoc/pebble.go:52-81 | different rows, and the two directions of one row, have different keys |
| ChunkDoc.DecodeSuffixRoundTrip | internal/chunkdoc/pebble.go:332-345 | the string after a prefix is decoded whatever precedes and follows it |
| ChunkDoc.RowIff | internal/chunkdoc/pebble.go:52-108 | a pair's forward key is present if and only if the pair is in the forward set, and likewise in reverse |
| ChunkDoc.MiddleRow | internal/chunkdoc/pebble.go:164-194 | between two rows of one chunk in key order there are only rows of that chunk |
| ChunkDoc.CompactNames | internal/chunkdoc/pebble.go:180-189 | comparing with the previous name only yields every name exactly once when equal names are adjacent |
| ChunkDoc.PebbleChunkDocMapper.Write | internal/chunkdoc/pebble.go:94-108 | the pair is added in both directions or in neither |
| ChunkDoc.PebbleChunkDocMapper.WriteMany | internal/chunkdoc/pebble.go:143-162 | all of the document's pairs are added in both directions or none is |
| ChunkDoc.PebbleChunkDocMapper.ListDocIDs | internal/chunkdoc/pebble.go:112-134 | exactly the documents mapped to the chunk |
| ChunkDoc.PebbleChunkDocMapper.ListChunkIDs | internal/chunkdoc/pebble.go:169-194 | every mapped chunk of the knowledge base exactly once |
| ChunkDoc.PebbleChunkDocMapper.ListChunkIDsByDocs | internal/chunkdoc/pebble.go:206-238 | the chunks of any of the documents, each exactly once |
| ChunkDoc.PebbleChunkDocMapper.DeleteByKB | internal/chunkdoc/pebble.go:242-254 | both directions of the knowledge base go and no other; stopping half way unbalances only it, and completing restores the balance |
| ChunkDoc.PebbleChunkDocMapper.DeleteByDoc | internal/chunkdoc/pebble.go:262-303 | the document's reverse rows go, and the forward rows of exactly those pairs |
| ChunkDoc.PebbleChunkDocMapper.DeleteMapping | internal/chunkdoc/pebble.go:313-327 | one pair goes in both directions and no other pair is affected |
| KbLocks.LockSetIsExclusive | internal/coordinator/kblocks.go:42-72 | over every interleaving, at most one caller holds a knowledge base's lock, all its callers are on one mutex, the count is their number, and there is an entry if and only if there are callers |
| KbLocks.FreeLockCanBeTaken | internal/coordinator/kblocks.go:42-72 | a waiting caller can take the lock if and only if no user of that knowledge base holds it |
| KbLocks.SomeoneCanGoOn | internal/coordinator/kblocks.go:42-72 | while anyone is counted in, some caller can take its next step |
| KbLocks.KBLockSet.Enter | internal/coordinator/kblocks.go:50-60 | counting in is one step of the machine: the existing entry's count grows, or a new entry starts at one |
| KbLocks.KBLockSet.TakeMutex | internal/coordinator/kblocks.go:62-62 | acquiring the entry's mutex is one step |
| KbLocks.KBLockSet.ReleaseMutex | internal/coordinator/kblocks.go:63-64 | releasing it is one step |
| KbLocks.KBLockSet.Leave | internal/coordinator/kblocks.go:65-71 | counting out is one step, and drops the entry when nobody is left |
| KbLocks.KBLockSet.Len | internal/coordinator/kblocks.go:76-83 | the number of knowledge bases somebody holds or waits for |
| BuildPool.QueuedWorkHasAWorker | internal/index/build_queue.go:123-165 | on every run, while any worker sleeps there are as many woken as requests queued, so while work is queued some worker is neither asleep nor gone |
| BuildPool.StartsInOrder | internal/index/build_queue.go:107-145 | on every run, each start has its own acceptance before it and is of the request accepted after as many of its class as have started; a backfill starts only when all interactive requests accepted so far have; the builds in flight are counted exactly and at most the pool size |
| BuildPool.CloseReturnsAfterEverythingRan | internal/index/build_queue.go:172-182 | when all workers have left, every accepted request has run exactly once and none is queued or running |
| BuildPool.WorkerStepDecreases | internal/index/build_queue.go:123-145 | every step of a worker brings the pool closer to rest |
| BuildPool.StuckMeansDone | internal/index/build_queue.go:123-182 | a pool where no worker can step has nothing queued or running, and if it is closed all workers have left |
| BuildPool.WorkersRest | internal/index/build_queue.go:123-145 | without submissions, the number of steps workers take is at most the rank they use up |
| BuildPool.CloseReturns | internal/index/build_queue.go:172-182 | after any run that closed the pool, the workers can take no more steps than its rank, and they can take none exactly when everything has run and all have left |
| BuildPool.SharedPool.constructor | internal/index/build_queue.go:51-105 | a pool of the asked size, or of the default when that is not positive, never empty |
| BuildPool.SharedPool.NextLocked | internal/index/build_queue.go:109-121 | pops the oldest interactive request, or else the oldest of the others, or nothing |
| BuildPool.SharedPool.Submit | internal/index/build_queue.go:152-165 | one step: queued in its class and one sleeper woken, refused exactly when closed |
| BuildPool.SharedPool.TakeWork | internal/index/build_queue.go:126-138 | one step: sleep on an empty open pool, leave an empty closed one, else take the next request |
| BuildPool.SharedPool.Returned | internal/index/build_queue.go:139-139 | one step: the request has run |
| BuildPool.SharedPool.FinishWork | internal/index/build_queue.go:141-143 | one step: the in-flight count goes down |
| BuildPool.SharedPool.StopIntake | internal/index/build_queue.go:172-181 | one step: closed and everyone woken; only the first call waits |
| DeleteResume.CompletionsAreTrue | internal/coordinator/delete_version_impl.go:101-152 | over every run with crashes and failures anywhere, a completion means the metadata is gone, and bytes left are named by the metadata or the deletion log |
| DeleteResume.ListOutlivesChunks | internal/coordinator/kb_dropper.go:214-247 | over every run, while a version's chunks are not reclaimed its list is not either, nor, while the list is there, its records and bloom filter |
| DeleteResume.SettledMeansReclaimed | internal/coordinator/delete_version_impl.go:179-237 | over every run, a tombstone that says done is of a version with nothing left in any store |
| DeleteResume.DeleteRuns | internal/coordinator/delete_version_impl.go:101-152 | an undisturbed delete ends with mark and completion written, metadata gone and logged as deleted, the bytes of all five stores reclaimed and nothing else changed |
| DeleteResume.ResumeClosesMark | internal/coordinator/delete_version_impl.go:179-237 | resuming any open mark closes it, also when the metadata is gone already, whether or not the tombstone is written and wherever the reclaim stops |
| DeleteResume.InterruptedEqualsUninterrupted | internal/coordinator/delete_version_impl.go:101-237 | over any run from any reachable state, whatever else runs, crashes and restarts: once the version is completed and its bytes reclaimed, its metadata is gone, its deletion and mark are on record, and everything durable about it is what an undisturbed delete leaves |
| DeleteResume.StoppedAndRerunEqualsOne | internal/coordinator/kb_dropper.go:214-247 | a reclaim stopped between any two stores and run again leaves what one reclaim leaves |
| DeleteResume.DeleteVersionCoordinator.DeleteOne | internal/coordinator/delete_version_impl.go:101-152 | success, and a failed reclaim too, means marked, completed, logged as deleted and without metadata; success also that no store has anything left; only that version is touched; an error only through a fault |
| DeleteResume.DeleteVersionCoordinator.ResumeVersionDelete | internal/coordinator/delete_version_impl.go:179-237 | every outcome but a failed log write or metadata removal closes the mark; success means nothing left in any store and the tombstone paid, and an unfinished reclaim is never recorded as paid; an ID that is not positive is refused and changes nothing; any other error only through a fault |
| DeleteResume.DeleteVersionCoordinator.Execute | internal/coordinator/delete_version_impl.go:84-98 | success means every version of the knowledge base marked Deleting at the start is completed, and no other metadata changes; no mark or completion is ever taken back; an error only through a fault |
| DeleteResume.DeleteVersionCoordinator.RunCrashRecovery | cmd/stratum/main.go:1835-1860 | a record not counted as unpaid is closed; without faults only an ID of 0 is unpaid, and every version marked Deleting in the knowledge bases named is closed too |
| DeletingSweep.NoLostDelete | internal/coordinator/deleting_sweep.go:145-195 | at every point of every run that is not shutting down, a knowledge base with a Deleting version is dirty, unfinished in the current pass, or about to be marked dirty |
| DeletingSweep.AlwaysCoveredIff | internal/coordinator/deleting_sweep.go:145-195 | over all runs, a knowledge base is always so covered if and only if its ID is not empty |
| DeletingSweep.EmptyIdWaitsForMarkAll | internal/raft/impl.go:1255-1265 | the empty ID is never swept until a restart or an installed snapshot marks everything |
| DeletingSweep.DeletingVersionSweeper.SweepOnce | internal/coordinator/deleting_sweep.go:145-195 | unless cancelled, a pass leaves every knowledge base that still has a Deleting version covered, whatever failed or was marked meanwhile; if nothing failed either, every version Deleting in a dirty knowledge base at the start is removed; it counts only knowledge bases whose Deleting versions it saw removed; failures and cancellation only through faults |
| DeletingSweep.DeletingVersionSweeper.Execute | internal/coordinator/delete_version_impl.go:84-98 | success means every version Deleting at the start was removed and is not Deleting, so what remains is covered by later marks; failure only through a fault |
| Dispatch.HandedOverOnce | internal/coordinator/write_impl.go:354-479 | with a dispatcher, over every interleaving, a successful Execute's changes are handed over exactly once for the version it returned, a failed one's at most once, and no registration remains while no Execute holds the lock |
| Dispatch.NothingLeftIffWired | internal/coordinator/write_impl.go:415-426 | over all runs, no registration is left while its lock is free if and only if a dispatcher is wired |
| Dispatch.RegisteredIffNotHandedOver | internal/coordinator/write_impl.go:354-479 | wired or not, changes are handed over at most once, and until an Execute fails its registration is there if and only if they have not been, as long as no other Execute used its key |
| Dispatch.OnlyOwnEntry | internal/coordinator/write_impl.go:354-399 | while an Execute holds the lock, the only registration its knowledge base can have is its own or, without a dispatcher, one a succeeded Execute left behind |
| Dispatch.UnwiredLeaks | internal/coordinator/write_impl.go:415-426 | a run without a dispatcher that ends with the lock free and the registration still there |
| Dispatch.WriteCoordinator.TakePendingDispatch | internal/coordinator/write_impl.go:219-232 | removes and returns the registration; a second taker gets nothing |
| Dispatch.WriteCoordinator.DispatchCommitted | cmd/stratum/main.go:3109-3151 | what was registered is handed over once with its own parent, and nothing happens on a miss |
| Dispatch.WriteCoordinator.Execute | internal/coordinator/write_impl.go:354-441 | succeeds if and only if this node leads, there are changes and the proposal commits; whatever hooks run meanwhile: handed over exactly once on success, for the version returned and with its changes and parent, at most once on failure, untouched when refused, and no registration of the knowledge base left |
| QueryFilter.DocSetCache.Put | service/query_docset.go:116-132 | first in, first out with at most four sets, order and entries in step, the new set in place |
| QueryFilter.DocSetCache.Lookup | service/query_docset.go:67-104 | a cached set under the digest asked for is returned, else the store's; a set returned for a committed digest hashes to it; a mismatch, and only that, is not-ready, an unreadable store, and only that, an error; nothing but a verified set is ever cached |
| QueryFilter.CodeDigestTellsApart | internal/sync/summary.go:24-37 | lists of plain IDs, other than the one empty ID, with the same digest have the same IDs |
| QueryFilter.CodeFingerprintTellsApart | internal/bloom/version_bloom_store.go:35-46 | likewise with the same fingerprint |
| QueryFilter.VersionBloomStore.GetForDocuments | internal/bloom/version_bloom_store.go:122-148 | the filter returned misses none of the IDs, whatever cache and disk hold |
| QueryFilter.VersionBloomStore.BuildAndPersist | internal/bloom/version_bloom_store.go:154-165 | a filter returned misses none of the IDs and is cached and on disk under their fingerprint; a failed write caches nothing and happens only through a fault |
| QueryFilter.VersionBloomStore.DeleteByVersion | internal/bloom/version_bloom_store.go:183-195 | exactly that version's cached filter goes, and on success exactly its file |
| QueryFilter.VersionBloomStore.DeleteByKB | internal/bloom/version_bloom_store.go:202-218 | exactly the knowledge base's filters go |
| QueryFilter.PreTestChangesNothing | service/query.go:749-793 | testing a filter without false negatives before membership yields the scores membership alone yields |
| QueryFilter.FilterHits | service/query.go:749-793 | the loop yields the scores of the kept documents of every hit at or above the threshold |
| QueryFilter.CollectTally | service/query.go:749-793 | a document has a score as often as it is found, in a hit at or above the threshold, with that score, and only documents kept have any |
| QueryFilter.FilteredScores | service/query.go:749-793 | the filtered answer has exactly the members of the set some such hit finds, the unfiltered one all of them, each with every score it was found with |
| QueryFilter.FilterStage | service/query.go:674-793 | with a committed digest, an answer is plain membership in the committed set; refused if and only if the store can be read, no verified set is cached and the store's set does not match (or, without a digest, is empty); unfiltered if and only if the store cannot be read and no verified set is cached |
| QueryFilter.FingerprintForgetsOrder | internal/bloom/version_bloom_store.go:35-46 | the fingerprint does not depend on the order of the IDs |
| QueryFilter.FingerprintInputsAgreeIff | internal/bloom/version_bloom_store.go:35-46 | two lists are hashed alike if and only if their NUL-free pieces agree |
| QueryFilter.FingerprintInputInjective | internal/bloom/version_bloom_store.go:35-46 | lists of IDs without NULs are hashed alike if and only if they have the same IDs |
| QueryFilter.NulCollides | internal/bloom/version_bloom_store.go:35-46 | an ID with a NUL is hashed like the two IDs around it |
| RankRead.Aggregate | service/query.go:861-889 | the maximum, mean or median of the scores, which are left sorted when there is more than one |
| RankRead.AggregateForgetsOrder | service/query.go:861-889 | an aggregate depends only on the multiset of scores |
| RankRead.AggregateBetween | service/query.go:861-889 | an aggregate lies between the least and the greatest score |
| RankRead.MaxIsGreatest | service/query.go:861-889 | the maximum is one of the scores and none is above it |
| RankRead.MeanIsAverage | service/query.go:861-889 | the mean is the sum of the scores over their number |
| RankRead.MedianIsMiddle | service/query.go:861-889 | the median is the middle score in ascending order, or halfway between the middle two |
| RankRead.MedianSplits | service/query.go:861-889 | the lower half of the scores is at or below the median and the upper half at or above it |
| RankRead.Rank | service/query.go:820-825 | the candidates, all of them, best first |
| RankRead.ReadTop | service/query.go:828-845 | stopping early returns what reading every candidate, dropping unreadable ones and cutting at top_k would |
| RankRead.TopIs | service/query.go:828-845 | each result is a candidate with its own score and the text read for it, best first, at most top_k; a readable candidate is left out only if there are top_k from better places |
| RankRead.TiesDoNotMatter | service/query.go:820-845 | the scores returned, place by place, are the same however ties are broken |
| DeadShare.LooksLikeChunkId | internal/index/gc_scan.go:541-552 | true exactly for 64 lower-case hex digits |
| DeadShare.ArtifactChunkIds | internal/index/gc_scan.go:404-423 | the sidecar's chunk-ID lines, in order |
| DeadShare.RecognisedCount | internal/index/gc_scan.go:404-423 | a chunk ID is recognised as often as it is a line, and nothing else is |
| DeadShare.RecognisedOfConcat | internal/index/gc_scan.go:404-423 | recognised IDs keep the file's order |
| DeadShare.EstimateIdentity | internal/index/gc_scan.go:324-356 | on any sidecar the estimate is the dead set's size, plus repeated IDs, minus live chunks it lacks |
| DeadShare.EstimateIsSound | internal/index/gc_scan.go:324-356 | for distinct IDs it never exceeds the dead set, with equality if and only if every live chunk is in the artifact |
| DeadShare.EstimateBoundIff | internal/index/gc_scan.go:324-356 | on any sidecar the bound holds if and only if there are no more repeats than missing live chunks |
| DeadShare.RepeatedIdMisleads | internal/index/gc_scan.go:324-356 | one live chunk recorded twice gives a positive estimate and no dead chunk |
| DeadShare.DeadShareOf | internal/index/gc_scan.go:324-356 | the recorded IDs less the distinct live chunks, over the recorded IDs; none exactly when a read fails, the artifact is empty or the count is negative |
| DeadShare.ScanGCCandidates | internal/index/gc_scan.go:256-293 | exactly the sealed targets with a share above the threshold, in order |
| DeadShare.OneCandidate | internal/index/gc_scan.go:256-293 | a target is a candidate if and only if it is sealed, its share is known and above the threshold |
| DeadShare.CandidatesOfConcat | internal/index/gc_scan.go:256-293 | targets are taken one after the other, in order |
| DeadShare.DeadChunksOf | internal/index/gc_scan.go:431-457 | the artifact's IDs no document justifies, in order; with the live ones they make up the artifact, counted with repetition |
| DeadShare.DeadListOfConcat | internal/index/gc_scan.go:431-457 | dead and kept IDs keep the artifact's order |
| DeadShare.ReportedHasDead | internal/index/gc_scan.go:256-293 | a reported version has a non-empty dead list |
| DeadShare.CollectedIsNotReported | internal/index/gc_scan.go:256-293 | without its dead list a version is not reported again while its documents stay the same |
| TailFile.SuffixHasLastLines | cmd/stratum-gateway/ops.go:936-975 | a suffix with more than n newlines has the file's last n lines whole, and more than n lines exactly when the file has |
| TailFile.LinesAre | cmd/stratum-gateway/ops.go:936-975 | lines have no newline in them and, joined by newlines, give the text back up to a final newline, which ends the last line |
| TailFile.Tail | cmd/stratum-gateway/ops.go:936-975 | the backward read ends, returns the last n lines of splitting the whole file, and reports truncation if and only if there are more; an error only through a fault |
| TailFile.BytesCount | cmd/stratum-gateway/ops.go:977-985 | the number of occurrences of the byte |

## Left out

- gRPC and HTTP services, gateway routing, configuration, supervision, metrics, logging, timing fields and the web UI.
- Raft itself, and node-to-node transport: metadata changes are steps that happen in any order their admission rules allow.
- Pebble, RocksDB, the vector store, Faiss and the bits of bloom filters.
- The delete of a permanently failed version's storage without an anchor (DropVersionStorage): its contract says no survivor reads it.
- The table of recently claimed dispatches, which only decides which log line is written.
- Index files: discarding a version's index, building it, and the serving-replica check of the collection of dead chunks.
- Whole-knowledge-base deletion (LocalKBDropper) and the broadcast and deferred droppers: a fixed order of the deletes modelled here.
- Retry counts, backoff, deadlines, rate limits and the cancellation of sibling workers: a call either succeeds or fails.
- Version writes arriving by push, which take no write lock of their own.
- Rounding of 32-bit scores.
- VersionWriter.WriteDocuments: writes the batch in order, while the source runs up to eight writers at once; the storage machine allows their calls in any order, and Batches.BatchAgreesIff covers the order of the records.
- DeletingSweep.DeletingVersionSweeper.SweepOnce: takes the dirty knowledge bases in any order, not sorted.
- RankRead.Rank: one of the orders the source's unstable sort may give; TiesDoNotMatter covers the others.
- DocStore.PebbleDocStore.Write: requires strings shorter than 2^32 bytes and, as the source panics otherwise, a non-negative version.
- QueryFilter.VersionBloomStore.Persist: a failed write either keeps or destroys the file; a damaged file that still parses is not considered.
- Dispatch.WriteCoordinator.Execute: the dispatched path only; the inline path is in the state machine.
- ChunkGc.ReclaimOrphan: takes which reads fail while iterating as an argument, and is without the source's two early returns for an empty chain, since under the invariant a collector runs only on a chain with a live newest version.
- ChunkGc.SweepKB: nothing else runs between its calls; the storage machine interleaves them with everything, and ReclaimOrphan takes any earlier snapshot.
- ChunkGc.ReclaimVersionChunks: likewise nothing else runs between its calls.
- VersionDropper.DropVersion: likewise, and without the index and bloom-filter deletes, whose order with the others is in DeleteResume.
- Replicas.PassingDerivesFold: only for sets the digest tells apart, as are CommittedDigestsAreFolds and ReplicasAgree; SetsHashedAlikeIff and EverySetHasATwin give the others.
- QueryFilter.FilterStage: whether the store can be read is an argument; only for lists the two hashes tell apart, as are DocSetCache.Lookup, GetForDocuments and BuildAndPersist of the stores it uses.
- DeletingSweep.NoLostDelete: only for IDs that are not empty; AlwaysCoveredIff says the condition is exact.
- KbNode.Node.CreateVersion: takes the newest version, or 0, as the parent, and a batch that is not empty, as Execute has checked before.
- KbNode.Node.MarkVersionDeleting: one version at a time, and refuses the newest one, which is taken never to be deleted.
- DocStore.PebbleDocStore.ReadAt: whether the iteration fails is an argument.
