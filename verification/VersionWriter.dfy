/**
  A version's storage write: split, embed and store what is new, map the chunks, write the
  documents, write the version's full document list, then flush the vectors.
*/
module VersionWriter {
  import opened Basics
  import opened Mvcc
  import opened Storage
  import opened StorageProofs
  import opened KbNode
  import opened Batches
  import Replicas

  /** The writer holds the lock for the newest version and is still writing documents. */
  ghost predicate Writing(kb: Node)
    reads kb
  {
    kb.Valid() && kb.holder.Writer? && !kb.holder.work.flushed && kb.cat.tail in kb.cat.metas
  }

  /** Whether the chunk store already holds the chunk: the presence cache, the bloom hint, the store. */
  method ChunkPresent(kb: Node, c: Chunk, presence: set<Chunk>) returns (r: Result<bool, Fault>, presence': set<Chunk>)
    requires Writing(kb) && presence <= kb.holder.work.noted
    modifies kb`holder
    ensures Writing(kb) && presence <= presence' <= kb.holder.work.noted
    ensures kb.holder == Writer(old(kb.holder.work).(noted := kb.holder.work.noted))
    ensures old(kb.holder.work.noted) <= kb.holder.work.noted
    ensures r == Ok(true) ==> c in presence' && c in kb.chunks.vectors
    ensures r == Ok(false) ==> c !in presence && (c in kb.bloom ==> c !in kb.chunks.vectors)
    ensures r.Err? ==> kb.mayFail
  {
    presence' := presence;
    if c in presence { return Ok(true), presence'; }
    if c !in kb.bloom { return Ok(false), presence'; }
    r := kb.Exists(c);
    if r == Ok(true) {
      kb.Note(c);
      presence' := presence + {c};
    }
  }

  /** Stores a chunk's vector unless the store already holds it. */
  method WriteChunk(kb: Node, c: Chunk, presence: set<Chunk>) returns (r: Result<bool, Fault>, presence': set<Chunk>)
    requires Writing(kb) && presence <= kb.holder.work.noted
    modifies kb`chunks, kb`holder, kb`bloom
    ensures Writing(kb) && presence <= presence' <= kb.holder.work.noted
    ensures kb.holder == Writer(old(kb.holder.work).(noted := kb.holder.work.noted))
    ensures old(kb.holder.work.noted) <= kb.holder.work.noted
    ensures r.Ok? ==> c in presence' && c in kb.chunks.vectors
    ensures kb.chunks == old(kb.chunks).(vectors := kb.chunks.vectors)
    ensures kb.chunks.vectors <= old(kb.chunks.vectors) + {c} && old(kb.chunks.vectors) <= kb.chunks.vectors
    ensures r.Err? ==> kb.mayFail
  {
    r, presence' := ChunkPresent(kb, c, presence);
    if r.Err? || r.value { return; }
    var ok := kb.WriteVector(c);
    if !ok { return Err(StoreFailed), presence'; }
    kb.bloom := kb.bloom + {c};
    presence' := presence' + {c};
    r := Ok(false);
  }

  /** The chunks the knowledge base does not hold yet: only these are embedded. */
  method Pending(kb: Node, cs: seq<Chunk>, presence: set<Chunk>)
    returns (r: Result<seq<Chunk>, Fault>, presence': set<Chunk>)
    requires Writing(kb) && presence <= kb.holder.work.noted
    modifies kb`holder
    ensures Writing(kb) && presence <= presence' <= kb.holder.work.noted
    ensures kb.holder == Writer(old(kb.holder.work).(noted := kb.holder.work.noted))
    ensures old(kb.holder.work.noted) <= kb.holder.work.noted
    ensures r.Ok? ==> forall c :: c in cs ==> c in r.value || (c in presence' && c in kb.chunks.vectors)
    ensures r.Ok? ==> forall c :: c in r.value ==> c in cs && c !in presence && (c in kb.bloom ==> c !in kb.chunks.vectors)
    ensures r.Err? ==> kb.mayFail
  {
    presence' := presence;
    var pending := [];
    for i := 0 to |cs|
      invariant Writing(kb) && presence <= presence' <= kb.holder.work.noted
      invariant kb.holder == Writer(old(kb.holder.work).(noted := kb.holder.work.noted))
      invariant old(kb.holder.work.noted) <= kb.holder.work.noted
      invariant forall c :: c in cs[..i] ==> c in pending || c in presence'
      invariant forall c :: c in pending ==> c in cs && c !in presence && (c in kb.bloom ==> c !in kb.chunks.vectors)
    {
      var present;
      present, presence' := ChunkPresent(kb, cs[i], presence');
      if present.Err? { return Err(present.error), presence'; }
      if present.value { continue; }
      pending := pending + [cs[i]];
    }
    assert cs[..|cs|] == cs;
    r := Ok(pending);
  }

  /** The embedding service: it may fail, and it may leave out a chunk. */
  method Embed(kb: Node, cs: seq<Chunk>) returns (r: Result<set<Chunk>, Fault>)
    ensures r.Ok? ==> r.value <= (set c | c in cs) && ((exists c :: c in cs && c !in r.value) ==> kb.mayFail)
    ensures r.Err? ==> kb.mayFail
  {
    var fails := kb.Fails();
    if fails { return Err(StoreFailed); }
    var leftOut: set<Chunk> := *;
    r := Ok((set c | c in cs) - if kb.mayFail then leftOut else {});
  }

  /** Embeds and stores the pending chunks. */
  method StorePending(kb: Node, pending: seq<Chunk>, presence: set<Chunk>)
    returns (r: Result<(), Fault>, presence': set<Chunk>)
    requires Writing(kb) && presence <= kb.holder.work.noted
    modifies kb`chunks, kb`holder, kb`bloom
    ensures Writing(kb) && presence <= presence' <= kb.holder.work.noted
    ensures kb.holder == Writer(old(kb.holder.work).(noted := kb.holder.work.noted))
    ensures old(kb.holder.work.noted) <= kb.holder.work.noted
    ensures r.Ok? ==> forall c :: c in pending ==> c in presence' && c in kb.chunks.vectors
    ensures kb.chunks == old(kb.chunks).(vectors := kb.chunks.vectors) && old(kb.chunks.vectors) <= kb.chunks.vectors
    ensures forall c :: c in kb.chunks.vectors ==> c in old(kb.chunks.vectors) || c in pending
    ensures r.Err? ==> kb.mayFail
  {
    presence' := presence;
    if |pending| == 0 { return Ok(()), presence'; }
    var embedded := Embed(kb, pending);
    if embedded.Err? { return Err(embedded.error), presence'; }
    for i := 0 to |pending|
      invariant Writing(kb) && presence <= presence' <= kb.holder.work.noted
      invariant kb.holder == Writer(old(kb.holder.work).(noted := kb.holder.work.noted))
      invariant old(kb.holder.work.noted) <= kb.holder.work.noted
      invariant forall c :: c in pending[..i] ==> c in presence'
      invariant kb.chunks == old(kb.chunks).(vectors := kb.chunks.vectors) && old(kb.chunks.vectors) <= kb.chunks.vectors
      invariant forall c :: c in kb.chunks.vectors ==> c in old(kb.chunks.vectors) || c in pending
    {
      if pending[i] !in embedded.value { return Err(EmbedIncomplete), presence'; }
      var stored;
      stored, presence' := WriteChunk(kb, pending[i], presence');
      if stored.Err? { return Err(stored.error), presence'; }
    }
    assert pending[..|pending|] == pending;
    r := Ok(());
  }

  /** The writer's progress on documents since `old`: it only grows, and nothing is listed or flushed yet. */
  ghost predicate Grew(before: Work, after: Work) {
    before.noted <= after.noted && before.written <= after.written && after.listed == before.listed
  }

  /** Filters, embeds and stores the chunks of one document. */
  method StoreChunks(kb: Node, ids: set<Chunk>, presence: set<Chunk>) returns (r: Result<(), Fault>, presence': set<Chunk>)
    requires Writing(kb) && presence <= kb.holder.work.noted
    modifies kb`chunks, kb`holder, kb`bloom
    ensures Writing(kb) && presence <= presence' <= kb.holder.work.noted
    ensures kb.holder == Writer(old(kb.holder.work).(noted := kb.holder.work.noted))
    ensures old(kb.holder.work.noted) <= kb.holder.work.noted
    ensures r.Ok? ==> ids <= presence' && ids <= kb.chunks.vectors
    ensures kb.chunks == old(kb.chunks).(vectors := kb.chunks.vectors)
    ensures old(kb.chunks.vectors) <= kb.chunks.vectors <= old(kb.chunks.vectors) + ids
    ensures r.Err? ==> kb.mayFail
  {
    var cs := Enumerate(ids);
    var pending;
    pending, presence' := Pending(kb, cs, presence);
    if pending.Err? { return Err(pending.error), presence'; }
    r, presence' := StorePending(kb, pending.value, presence');
  }

  /** Only the record of one document at the newest version may be new. */
  ghost predicate OnlyRecord(docs: DocData, docs': DocData, d: Doc, n: Version) {
    docs'.lists == docs.lists &&
    forall k :: k != (d, n) ==> (k in docs'.records <==> k in docs.records) && (k in docs.records ==> docs'.records[k] == docs.records[k])
  }

  /**
    Splits a document, stores its new chunks, maps all of them, then writes its text. What it
    writes is the change's own text, and what it maps and stores are that text's chunks.
  */
  method WriteDocument(kb: Node, ch: Change, presence: set<Chunk>) returns (r: Result<(), Fault>, presence': set<Chunk>)
    requires Writing(kb) && presence <= kb.holder.work.noted
    requires !ch.op.Delete? && ch.doc in TailMeta(kb.cat).changes && TailMeta(kb.cat).changes[ch.doc] == ValueOf(ch)
    modifies kb`chunks, kb`docs, kb`holder, kb`bloom
    ensures Writing(kb) && presence' <= kb.holder.work.noted
    ensures Grew(old(kb.holder.work), kb.holder.work)
    ensures r.Ok? ==> ch.doc in kb.holder.work.written
    ensures r.Ok? ==> (ch.doc, kb.cat.tail) in kb.docs.records && kb.docs.records[(ch.doc, kb.cat.tail)] == Content(ch.text)
    ensures r.Ok? ==> forall c :: c in kb.split(ch.text) ==>
      (c, ch.doc) in kb.chunks.fwd && (ch.doc, c) in kb.chunks.rev && c in kb.chunks.vectors
    ensures OnlyRecord(old(kb.docs), kb.docs, ch.doc, kb.cat.tail)
    ensures kb.chunks.vectors <= old(kb.chunks.vectors) + kb.split(ch.text)
    ensures r.Err? ==> kb.mayFail
  {
    presence' := presence;
    var ids := kb.split(ch.text);
    if ids == {} {
      kb.MapNothing(ch.doc);
    } else {
      r, presence' := StoreChunks(kb, ids, presence');
      if r.Err? { return; }
      var mapped := kb.WriteMappings(ch.doc, ids);
      if !mapped { return Err(StoreFailed), presence'; }
    }
    var ok := kb.WriteDoc(ch.doc, ValueOf(ch));
    r := if ok then Ok(()) else Err(StoreFailed);
  }

  /** One change: an add or update goes through the split and embed path, a delete writes a tombstone. */
  method WriteOneChange(kb: Node, ch: Change, presence: set<Chunk>) returns (r: Result<(), Fault>, presence': set<Chunk>)
    requires Writing(kb) && presence <= kb.holder.work.noted
    requires ch.doc in TailMeta(kb.cat).changes && TailMeta(kb.cat).changes[ch.doc] == ValueOf(ch)
    modifies kb`chunks, kb`docs, kb`holder, kb`bloom
    ensures Writing(kb) && presence' <= kb.holder.work.noted
    ensures Grew(old(kb.holder.work), kb.holder.work)
    ensures r.Ok? ==> ch.doc in kb.holder.work.written
    ensures r.Ok? ==> (ch.doc, kb.cat.tail) in kb.docs.records
    ensures r.Ok? ==> kb.docs.records[(ch.doc, kb.cat.tail)] == if ch.op.Delete? then Tombstone else Content(ch.text)
    ensures OnlyRecord(old(kb.docs), kb.docs, ch.doc, kb.cat.tail)
    ensures r.Err? ==> kb.mayFail
  {
    presence' := presence;
    match ch.op
    case Add => r, presence' := WriteDocument(kb, ch, presence');
    case Update => r, presence' := WriteDocument(kb, ch, presence');
    case Delete =>
      var ok := kb.WriteDoc(ch.doc, Tombstone);
      r := if ok then Ok(()) else Err(StoreFailed);
  }

  ghost predicate Distinct(batch: seq<Change>) {
    forall i, j :: 0 <= i < j < |batch| ==> batch[i].doc != batch[j].doc
  }

  /** A batch of distinct documents, as a map, gives each document its one change. */
  lemma {:induction false} DistinctAsMap(batch: seq<Change>)
    requires Distinct(batch)
    ensures forall i :: 0 <= i < |batch| ==> batch[i].doc in AsMap(batch) && AsMap(batch)[batch[i].doc] == ValueOf(batch[i])
    ensures forall d :: d in AsMap(batch) ==> Touches(batch, d)
  {
    if batch != [] {
      var front := batch[..|batch| - 1];
      DistinctAsMap(front);
      forall d | d in AsMap(batch) ensures Touches(batch, d) {
        if d != batch[|batch| - 1].doc {
          assert Touches(front, d);
          var i :| 0 <= i < |front| && front[i].doc == d;
          assert batch[i].doc == d;
        }
      }
    }
  }

  /** The lists, and every record of another version than `n`, are as they were. */
  ghost predicate OlderKept(docs: DocData, docs': DocData, n: Version) {
    docs'.lists == docs.lists && RecordsKept(docs.records, docs'.records, n)
  }

  ghost predicate RecordsKept(r: Records, r': Records, n: Version) {
    forall d, w: Version :: w != n ==> ((d, w) in r' <==> (d, w) in r) && ((d, w) in r ==> r'[(d, w)] == r[(d, w)])
  }

  lemma OneMoreKept(docs0: DocData, docs: DocData, docs': DocData, d: Doc, n: Version)
    requires OlderKept(docs0, docs, n) && OnlyRecord(docs, docs', d, n)
    ensures OlderKept(docs0, docs', n)
  {
  }

  lemma AllWritten(batch: seq<Change>, written: set<Doc>)
    requires Distinct(batch) && forall j :: 0 <= j < |batch| ==> batch[j].doc in written
    ensures AsMap(batch).Keys <= written
  {
    DistinctAsMap(batch);
    forall d | d in AsMap(batch) ensures d in written {
      var i :| 0 <= i < |batch| && batch[i].doc == d;
    }
  }

  lemma ChangeOf(batch: seq<Change>, i: nat)
    requires Distinct(batch) && i < |batch|
    ensures batch[i].doc in AsMap(batch) && AsMap(batch)[batch[i].doc] == ValueOf(batch[i])
  {
    DistinctAsMap(batch);
  }

  /** The batch's documents, under one presence cache; the first failure stops the write. */
  method WriteDocuments(kb: Node, batch: seq<Change>) returns (r: Result<(), Fault>)
    requires Writing(kb) && Distinct(batch) && TailMeta(kb.cat).changes == AsMap(batch)
    modifies kb`chunks, kb`docs, kb`holder, kb`bloom
    ensures Writing(kb)
    ensures r.Ok? ==> kb.holder.work.written == TailMeta(kb.cat).changes.Keys
    ensures OlderKept(old(kb.docs), kb.docs, kb.cat.tail)
    ensures r.Err? ==> kb.mayFail
  {
    var presence := {};
    for i := 0 to |batch|
      invariant Writing(kb) && presence <= kb.holder.work.noted
      invariant forall j :: 0 <= j < i ==> batch[j].doc in kb.holder.work.written
      invariant OlderKept(old(kb.docs), kb.docs, kb.cat.tail)
    {
      ghost var before := kb.docs;
      ChangeOf(batch, i);
      r, presence := WriteOneChange(kb, batch[i], presence);
      OneMoreKept(old(kb.docs), before, kb.docs, batch[i].doc, kb.cat.tail);
      if r.Err? { return; }
    }
    AllWritten(batch, kb.holder.work.written);
    r := Ok(());
  }

  /** Whether the parent set read here is the committed one, as far as a digest can tell. */
  method VerifyParentDocSet(kb: Node, parent: Version, ids: set<Doc>) returns (r: Result<(), Fault>)
    requires parent != 0
    ensures r.Ok? ==> parent !in kb.digests || kb.digests[parent] in {"", kb.digest(ids)}
    ensures r == Err(ParentMismatch) ==> parent in kb.digests && kb.digests[parent] !in {"", kb.digest(ids)}
    ensures r.Err? ==> r == Err(ParentMismatch) || kb.mayFail
  {
    var fails := kb.Fails();
    if fails { return Err(StoreFailed); }
    var committed := Replicas.CommittedDigest(kb.digests, parent);
    if committed == "" { return Ok(()); }
    if kb.digest(ids) == committed { return Ok(()); }
    r := Err(ParentMismatch);
  }

  /** The parent's document set as this node has it; no parent, no documents. */
  ghost function ParentSet(cat: Catalog, lists: map<Version, set<Doc>>): set<Doc>
    requires cat.tail in cat.metas
  {
    var base := TailMeta(cat).base;
    if base != 0 && base in lists then lists[base] else {}
  }

  /** The digest committed for the parent, if any, is not that of the set this node has for it. */
  ghost predicate Mismatch(cat: Catalog, digest: set<Doc> -> string, digests: map<Version, string>, lists: map<Version, set<Doc>>)
    requires cat.tail in cat.metas
  {
    var base := TailMeta(cat).base;
    base != 0 && base in digests && digests[base] !in {"", digest(ParentSet(cat, lists))}
  }

  /** Reads the parent's set, if there is a parent, and checks it against the committed digest. */
  method ReadParentSet(kb: Node) returns (r: Result<set<Doc>, Fault>)
    requires Writing(kb)
    ensures r.Ok? ==> r.value == ParentSet(kb.cat, kb.docs.lists) && !Mismatch(kb.cat, kb.digest, kb.digests, kb.docs.lists)
    ensures r == Err(ParentMismatch) ==> Mismatch(kb.cat, kb.digest, kb.digests, kb.docs.lists)
    ensures r.Err? ==> r == Err(ParentMismatch) || kb.mayFail
  {
    var base := TailMeta(kb.cat).base;
    if base == 0 { return Ok({}); }
    var listed := kb.ReadList(base);
    if listed.Err? { return Err(StoreFailed); }
    assert listed.value == ParentSet(kb.cat, kb.docs.lists);
    var checked := VerifyParentDocSet(kb, base, listed.value);
    r := if checked.Err? then Err(checked.error) else Ok(listed.value);
  }

  /** The batch applied to a set, change by change. */
  method ApplyInOrder(parent: set<Doc>, batch: seq<Change>) returns (ids: set<Doc>)
    ensures ids == DocSet(parent, batch)
  {
    ids := parent;
    for i := 0 to |batch|
      invariant ids == DocSet(parent, batch[..i])
    {
      assert batch[..i + 1][..i] == batch[..i];
      match batch[i].op
      case Add => ids := ids + {batch[i].doc};
      case Update => ids := ids + {batch[i].doc};
      case Delete => ids := ids - {batch[i].doc};
    }
    assert batch[..|batch|] == batch;
  }

  /** The version's full document set: the parent's, with the batch applied in order. */
  method WriteVersionDocList(kb: Node, batch: seq<Change>) returns (r: Result<set<Doc>, Fault>)
    requires Writing(kb) && TailMeta(kb.cat).changes == AsMap(batch)
    requires kb.holder.work.written == TailMeta(kb.cat).changes.Keys
    modifies kb`docs, kb`holder
    ensures Writing(kb) && (r.Ok? ==> kb.holder.work.listed)
    ensures r.Ok? ==> kb.cat.tail in kb.docs.lists && kb.docs.lists[kb.cat.tail] == r.value
    ensures r.Ok? ==> !Mismatch(kb.cat, kb.digest, kb.digests, old(kb.docs.lists)) && r.value == DocSet(ParentSet(kb.cat, old(kb.docs.lists)), batch)
    ensures r == Err(ParentMismatch) ==> Mismatch(kb.cat, kb.digest, kb.digests, old(kb.docs.lists))
    ensures r.Err? ==> r == Err(ParentMismatch) || kb.mayFail
    ensures kb.docs.records == old(kb.docs.records)
  {
    var parent := ReadParentSet(kb);
    if parent.Err? { return Err(parent.error); }
    var ids := ApplyInOrder(parent.value, batch);
    DocSetIsApplyChanges(parent.value, batch);
    assert parent.value == ListOf(kb.docs.lists, TailMeta(kb.cat).base);
    ListIsWhole(kb.M(), ids);
    var ok := kb.WriteList(ids);
    r := if ok then Ok(ids) else Err(StoreFailed);
  }

  /** A list an earlier attempt left for the newest version is the one this attempt writes. */
  lemma ListIsWhole(s: State, ids: set<Doc>)
    requires Inv(s) && s.holder.Writer? && ids == ApplyChanges(ListOf(s.docs.lists, TailMeta(s.cat).base), TailMeta(s.cat).changes)
    ensures ListOf(s.docs.lists, s.cat.tail) + ids == ids
  {
  }

  /** What a successful storage write promises to outlive a power loss. */
  ghost predicate Landed(split: Splitter, n: Version, docs: DocData, ch: ChunkData, changes: map<Doc, Value>) {
    forall d :: d in changes ==>
      && (d, n) in docs.records && docs.records[(d, n)] == changes[d]
      && forall c :: c in ChunksOf(split, changes[d]) ==>
           (c, d) in ch.fwd && (d, c) in ch.rev && c in ch.vectors && c in ch.durable
  }

  /** Once the flush is behind it, everything the writer vouches for is in place and durable. */
  lemma FlushedIsLanded(s: State)
    requires Inv(s) && s.holder.Writer? && s.holder.work.flushed
    ensures Landed(s.split, s.cat.tail, s.docs, s.chunks, TailMeta(s.cat).changes)
  {
    var n, changes := s.cat.tail, TailMeta(s.cat).changes;
    forall d | d in changes
      ensures (d, n) in s.docs.records && s.docs.records[(d, n)] == changes[d]
    {
      assert d in s.holder.work.written;
    }
    forall d, c | d in changes && c in ChunksOf(s.split, changes[d])
      ensures (c, d) in s.chunks.fwd && (d, c) in s.chunks.rev && c in s.chunks.vectors && c in s.chunks.durable
    {
      assert d in s.holder.work.mapped;
      assert c in s.holder.work.noted;
    }
  }

  /** A batch has landed: each change has its record, and each text's chunks are mapped and durable. */
  ghost predicate BatchLanded(kb: Node, batch: seq<Change>)
    reads kb
  {
    forall i :: 0 <= i < |batch| ==>
      && (batch[i].doc, kb.cat.tail) in kb.docs.records
      && (batch[i].op.Delete? ==> kb.docs.records[(batch[i].doc, kb.cat.tail)] == Tombstone)
      && (!batch[i].op.Delete? ==>
            && kb.docs.records[(batch[i].doc, kb.cat.tail)] == Content(batch[i].text)
            && forall c :: c in kb.split(batch[i].text) ==>
                 && (c, batch[i].doc) in kb.chunks.fwd && (batch[i].doc, c) in kb.chunks.rev
                 && c in kb.chunks.vectors && c in kb.chunks.durable)
  }

  lemma LandedBatch(kb: Node, batch: seq<Change>)
    requires Distinct(batch) && Landed(kb.split, kb.cat.tail, kb.docs, kb.chunks, AsMap(batch))
    ensures BatchLanded(kb, batch)
  {
    DistinctAsMap(batch);
  }

  /** A set is the parent's set with what the batch puts, without what it deletes. */
  lemma AppliedSet(parent: set<Doc>, batch: seq<Change>)
    requires Distinct(batch)
    ensures forall i :: 0 <= i < |batch| ==> (batch[i].doc in DocSet(parent, batch) <==> !batch[i].op.Delete?)
    ensures forall d :: !Touches(batch, d) ==> (d in DocSet(parent, batch) <==> d in parent)
  {
    forall i | 0 <= i < |batch| ensures batch[i].doc in DocSet(parent, batch) <==> !batch[i].op.Delete? {
      LastChangeWins(parent, map[], 0, batch, i);
    }
    forall d | !Touches(batch, d) ensures d in DocSet(parent, batch) <==> d in parent {
      UntouchedKept(parent, map[], 0, batch, d, 0);
    }
  }

  /** Documents, then the document list, then the flush; success means all of it has landed. */
  method StoreVersion(kb: Node, batch: seq<Change>) returns (r: Result<set<Doc>, Fault>)
    requires Writing(kb) && Distinct(batch) && TailMeta(kb.cat).changes == AsMap(batch)
    modifies kb`chunks, kb`docs, kb`holder, kb`bloom
    ensures kb.Valid() && kb.holder.Writer?
    ensures r.Ok? ==> kb.holder.work.flushed && Landed(kb.split, kb.cat.tail, kb.docs, kb.chunks, AsMap(batch))
    ensures r.Ok? ==> kb.cat.tail in kb.docs.lists && kb.docs.lists[kb.cat.tail] == r.value
    ensures r.Ok? ==> !Mismatch(kb.cat, kb.digest, kb.digests, old(kb.docs.lists)) && r.value == DocSet(ParentSet(kb.cat, old(kb.docs.lists)), batch)
    ensures r.Err? ==> kb.mayFail || Mismatch(kb.cat, kb.digest, kb.digests, old(kb.docs.lists))
    ensures RecordsKept(old(kb.docs.records), kb.docs.records, kb.cat.tail)
  {
    var written := WriteDocuments(kb, batch);
    if written.Err? { return Err(written.error); }
    r := WriteVersionDocList(kb, batch);
    if r.Err? { return; }
    var ok := kb.FlushWAL();
    if !ok { return Err(StoreFailed); }
    FlushedIsLanded(kb.M());
  }

  /**
    A version's storage write. Success means the records carry the changes' own texts, their
    chunks are mapped and durable, and the list is the parent's with each change applied; a
    parent set the digest refuses stops it. Nothing of another version is touched.
  */
  method WriteVersionStorage(kb: Node, batch: seq<Change>) returns (r: Result<set<Doc>, Fault>)
    requires Writing(kb) && Distinct(batch) && TailMeta(kb.cat).changes == AsMap(batch)
    modifies kb`chunks, kb`docs, kb`holder, kb`bloom
    ensures kb.Valid() && kb.holder.Writer?
    ensures r.Ok? ==> kb.holder.work.flushed
    ensures r.Ok? ==> forall i :: 0 <= i < |batch| ==>
      && (batch[i].doc, kb.cat.tail) in kb.docs.records
      && kb.docs.records[(batch[i].doc, kb.cat.tail)] == if batch[i].op.Delete? then Tombstone else Content(batch[i].text)
    ensures r.Ok? ==> forall i :: 0 <= i < |batch| && !batch[i].op.Delete? ==> forall c :: c in kb.split(batch[i].text) ==>
      && (c, batch[i].doc) in kb.chunks.fwd && (batch[i].doc, c) in kb.chunks.rev
      && c in kb.chunks.vectors && c in kb.chunks.durable
    ensures r.Ok? ==> kb.cat.tail in kb.docs.lists && kb.docs.lists[kb.cat.tail] == r.value
    ensures r.Ok? ==> forall i :: 0 <= i < |batch| ==> (batch[i].doc in r.value <==> !batch[i].op.Delete?)
    ensures r.Ok? ==> forall d :: !Touches(batch, d) ==> (d in r.value <==> d in ParentSet(kb.cat, old(kb.docs.lists)))
    ensures if r.Ok? then !Mismatch(kb.cat, kb.digest, kb.digests, old(kb.docs.lists)) else kb.mayFail || Mismatch(kb.cat, kb.digest, kb.digests, old(kb.docs.lists))
    ensures RecordsKept(old(kb.docs.records), kb.docs.records, kb.cat.tail)
  {
    r := StoreVersion(kb, batch);
    if r.Ok? {
      LandedBatch(kb, batch);
      AppliedSet(ParentSet(kb.cat, old(kb.docs.lists)), batch);
    }
  }

  /** What a version reads once its batch has landed and it has committed. */
  lemma CommittedReads(s: State, batch: seq<Change>, ids: set<Doc>)
    requires Inv(s) && s.cat.tail in s.cat.metas && s.cat.metas[s.cat.tail].committed
    requires s.cat.tail in s.docs.lists && s.docs.lists[s.cat.tail] == ids
    requires forall i :: 0 <= i < |batch| ==> (batch[i].doc, s.cat.tail) in s.docs.records
    ensures forall i :: 0 <= i < |batch| ==>
      ReadAt(s.docs.records, batch[i].doc, s.cat.tail) == Some(s.docs.records[(batch[i].doc, s.cat.tail)])
    ensures forall d :: d in ids <==> exists x :: ReadAt(s.docs.records, d, s.cat.tail) == Some(Content(x))
  {
    assert Live(s.cat, s.cat.tail) && Agree(s.docs, s.cat.tail);
    forall i | 0 <= i < |batch|
      ensures ReadAt(s.docs.records, batch[i].doc, s.cat.tail) == Some(s.docs.records[(batch[i].doc, s.cat.tail)])
    {
      VisibleIs(s.docs.records, batch[i].doc, s.cat.tail, s.cat.tail);
    }
    forall d ensures d in ids <==> exists x :: ReadAt(s.docs.records, d, s.cat.tail) == Some(Content(x)) {
      ReadableIff(s.docs.records, d, s.cat.tail);
      assert d in ListOf(s.docs.lists, s.cat.tail) <==> Alive(s.docs.records, d, s.cat.tail);
    }
  }

  /** Vouches for a version whose storage is written, and gives the lock back. */
  method CommitAndRelease(kb: Node, stored: bool) returns (ok: bool)
    requires kb.Valid() && kb.holder.Writer? && (stored ==> kb.holder.work.flushed)
    modifies kb`cat, kb`chunks, kb`holder
    ensures kb.Valid() && kb.holder == Free
    ensures kb.cat.tail == old(kb.cat.tail) && kb.cat.tail in kb.cat.metas && kb.cat.metas.Keys == old(kb.cat.metas.Keys)
    ensures kb.cat.metas[kb.cat.tail].committed <==> ok
    ensures kb.chunks == old(kb.chunks).(tainted := kb.chunks.tainted)
    ensures (ok ==> stored) && (stored && !ok ==> kb.mayFail)
  {
    ok := false;
    if stored {
      ok := kb.CommitVersionMeta();
    }
    if !ok {
      kb.Release();
    }
  }

  /** A committed version is its batch on top of its parent's set, and all of it is durable. */
  ghost predicate Replayed(s: State, batch: seq<Change>, ids: set<Doc>, parent: set<Doc>) {
    && (forall i :: 0 <= i < |batch| ==>
          ReadAt(s.docs.records, batch[i].doc, s.cat.tail) == Some(if batch[i].op.Delete? then Tombstone else Content(batch[i].text)))
    && (forall i :: 0 <= i < |batch| && !batch[i].op.Delete? ==> forall c :: c in s.split(batch[i].text) ==>
          && (c, batch[i].doc) in s.chunks.fwd && (batch[i].doc, c) in s.chunks.rev
          && c in s.chunks.vectors && c in s.chunks.durable)
    && (forall i :: 0 <= i < |batch| ==> (batch[i].doc in ids <==> !batch[i].op.Delete?))
    && (forall d :: !Touches(batch, d) ==> (d in ids <==> d in parent))
    && (forall d :: d in ids <==> exists x :: ReadAt(s.docs.records, d, s.cat.tail) == Some(Content(x)))
  }

  lemma ReplayedFrom(s: State, batch: seq<Change>, ids: set<Doc>, parent: set<Doc>)
    requires Inv(s) && s.cat.tail in s.cat.metas && s.cat.metas[s.cat.tail].committed
    requires s.cat.tail in s.docs.lists && s.docs.lists[s.cat.tail] == ids
    requires forall i :: 0 <= i < |batch| ==>
      && (batch[i].doc, s.cat.tail) in s.docs.records
      && s.docs.records[(batch[i].doc, s.cat.tail)] == if batch[i].op.Delete? then Tombstone else Content(batch[i].text)
    requires forall i :: 0 <= i < |batch| && !batch[i].op.Delete? ==> forall c :: c in s.split(batch[i].text) ==>
      && (c, batch[i].doc) in s.chunks.fwd && (batch[i].doc, c) in s.chunks.rev
      && c in s.chunks.vectors && c in s.chunks.durable
    requires forall i :: 0 <= i < |batch| ==> (batch[i].doc in ids <==> !batch[i].op.Delete?)
    requires forall d :: !Touches(batch, d) ==> (d in ids <==> d in parent)
    ensures Replayed(s, batch, ids, parent)
  {
    CommittedReads(s, batch, ids);
  }

  /** What that means for a document: the batch's text or none if the batch has it, else as in the parent. */
  lemma ReplayedReads(s: State, batch: seq<Change>, ids: set<Doc>, parent: set<Doc>, i: nat, d: Doc, c: Chunk)
    requires Replayed(s, batch, ids, parent)
    ensures i < |batch| && batch[i].op.Delete? ==> ReadAt(s.docs.records, batch[i].doc, s.cat.tail) == Some(Tombstone)
    ensures i < |batch| && !batch[i].op.Delete? ==> ReadAt(s.docs.records, batch[i].doc, s.cat.tail) == Some(Content(batch[i].text))
    ensures i < |batch| && !batch[i].op.Delete? && c in s.split(batch[i].text) ==>
      (c, batch[i].doc) in s.chunks.fwd && (batch[i].doc, c) in s.chunks.rev && c in s.chunks.vectors && c in s.chunks.durable
    ensures (forall j :: 0 <= j < |batch| ==> batch[j].doc != d) ==>
      (d in parent <==> exists x :: ReadAt(s.docs.records, d, s.cat.tail) == Some(Content(x)))
    ensures d in ids <==> exists x :: ReadAt(s.docs.records, d, s.cat.tail) == Some(Content(x))
  {
    assert (forall j :: 0 <= j < |batch| ==> batch[j].doc != d) ==> !Touches(batch, d);
  }

  method TakeLock(kb: Node)
    requires kb.Valid() && kb.holder.Free? && kb.cat.tail in kb.cat.metas && !kb.cat.metas[kb.cat.tail].committed
    modifies kb`holder
    ensures Writing(kb)
  {
    kb.Lock();
  }

  /**
    Replay, and the tail of an inline write: take the lock, write the storage, vouch for it,
    release. Whatever fails, the stores stay sound for the next attempt and the version stays
    uncommitted; it commits only when every chunk of every text it changed is durable, and
    then reads exactly the batch's texts and, for the rest, what its parent's set has.
  */
  method Replay(kb: Node, batch: seq<Change>) returns (r: Result<set<Doc>, Fault>)
    requires kb.Valid() && kb.holder.Free? && kb.cat.tail in kb.cat.metas && !kb.cat.metas[kb.cat.tail].committed
    requires Distinct(batch) && TailMeta(kb.cat).changes == AsMap(batch)
    modifies kb
    ensures kb.Valid() && kb.holder == Free && kb.cat.tail == old(kb.cat.tail) && kb.cat.metas.Keys == old(kb.cat.metas.Keys)
    ensures kb.cat.metas[kb.cat.tail].committed <==> r.Ok?
    ensures r.Ok? ==> Replayed(kb.M(), batch, r.value, ParentSet(old(kb.cat), old(kb.docs.lists)))
    ensures var mismatch := Mismatch(old(kb.cat), kb.digest, old(kb.digests), old(kb.docs.lists));
      if r.Ok? then !mismatch else kb.mayFail || mismatch
    ensures RecordsKept(old(kb.docs.records), kb.docs.records, kb.cat.tail)
  {
    TakeLock(kb);
    r := WriteAndCommit(kb, batch);
  }

  /** The same, once the lock is taken. */
  method WriteAndCommit(kb: Node, batch: seq<Change>) returns (r: Result<set<Doc>, Fault>)
    requires Writing(kb) && Distinct(batch) && TailMeta(kb.cat).changes == AsMap(batch)
    modifies kb
    ensures kb.Valid() && kb.holder == Free && kb.cat.tail == old(kb.cat.tail) && kb.cat.metas.Keys == old(kb.cat.metas.Keys)
    ensures kb.cat.metas[kb.cat.tail].committed <==> r.Ok?
    ensures r.Ok? ==> Replayed(kb.M(), batch, r.value, ParentSet(old(kb.cat), old(kb.docs.lists)))
    ensures var mismatch := Mismatch(old(kb.cat), kb.digest, old(kb.digests), old(kb.docs.lists));
      if r.Ok? then !mismatch else kb.mayFail || mismatch
    ensures RecordsKept(old(kb.docs.records), kb.docs.records, kb.cat.tail)
  {
    r := WriteVersionStorage(kb, batch);
    var ok := CommitAndRelease(kb, r.Ok?);
    if !ok { return Err(if r.Err? then r.error else StoreFailed); }
    ReplayedFrom(kb.M(), batch, r.value, ParentSet(old(kb.cat), old(kb.docs.lists)));
  }
}
