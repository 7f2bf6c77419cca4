/**
  The stores of one knowledge base on one node, with the calls the coordinators make on
  them. Each call that changes a store is one step of the storage machine; a call may
  also fail, and then changes nothing.
*/
module KbNode {
  import opened Basics
  import opened Mvcc
  import opened Storage
  import opened StorageProofs

  datatype Fault = StoreFailed | EmbedIncomplete | ParentMismatch | ParentNotDurable

  /** Judging a drop's documents one by one dooms exactly those hidden from the anchor. */
  lemma DoomAll(cat: Catalog, r: Records, p: Drop, owners: seq<Doc>, doomed: set<Doc>)
    requires DropSound(cat, r, p) && p.doomed == {}
    requires forall d :: d in owners ==> (d, p.version) in r
    requires forall d :: d in doomed <==> d in owners && Visible(r, d, p.anchor) != Some(p.version)
    ensures DropSound(cat, r, p.(doomed := doomed))
  {
    var q := p;
    for i := 0 to |owners|
      invariant DropSound(cat, r, q) && q == p.(doomed := q.doomed)
      invariant forall d :: d in q.doomed <==> d in owners[..i] && Visible(r, d, p.anchor) != Some(p.version)
    {
      assert owners[i] in owners;
      if Visible(r, owners[i], p.anchor) != Some(p.version) {
        HiddenFromAnchor(cat, r, q, owners[i]);
        q := q.(doomed := q.doomed + {owners[i]});
      }
    }
    assert owners[..|owners|] == owners;
    assert q.doomed == doomed;
  }

  lemma StartedDropIsSound(s: State, id: nat, v: Version, anchor: Version)
    requires Inv(s) && ChainEnabled(s, DropStart(id, v, anchor))
    ensures DropSound(s.cat, s.docs.records, Drop(v, anchor, {}))
  {
    DropStartKeepsInv(s, id, v, anchor);
    var s' := ChainApply(s, DropStart(id, v, anchor));
    assert DropSound(s'.cat, s'.docs.records, s'.drops[id]);
  }

  lemma NewDropKeepsInv(s: State, id: nat, p: Drop)
    requires Inv(s) && DropSound(s.cat, s.docs.records, p)
    ensures Inv(s.(drops := s.drops[id := p]))
  {
  }

  /** The elements of a set in some order, each once. */
  method Enumerate<T(==)>(s: set<T>) returns (out: seq<T>)
    ensures forall x :: x in out <==> x in s
    ensures forall i, j :: 0 <= i < j < |out| ==> out[i] != out[j]
  {
    var rest := s;
    out := [];
    while rest != {}
      invariant forall x :: x in s <==> x in out || x in rest
      invariant forall x :: x in out ==> x !in rest
      invariant forall i, j :: 0 <= i < j < |out| ==> out[i] != out[j]
      decreases rest
    {
      var x :| x in rest;
      rest, out := rest - {x}, out + [x];
    }
  }

  class Node {
    const split: Splitter
    const digest: set<Doc> -> string        // ComputeDocIDSetHash
    const mayFail: bool                     // whether a store, metadata or embedding call can fail at all
    const mayMiss: bool                     // whether a document read can fail while iterating
    var digests: map<Version, string>       // committed DocIDSetHash per version, "" or absent for none
    var bloom: set<Chunk>                   // what the chunk bloom filter answers "maybe" for
    var cat: Catalog
    var docs: DocData
    var chunks: ChunkData
    ghost var holder: Holder
    ghost var drops: map<nat, Drop>
    ghost var snapshots: set<Snapshot>
    ghost var misled: bool                  // a collector's read of a readable document failed while iterating

    /** The node as a state of the storage machine. */
    ghost function M(): State
      reads this
    {
      State(split, cat, docs, chunks.(misled := misled), holder, drops, snapshots)
    }

    ghost predicate Valid()
      reads this
    {
      Inv(M())
    }

    constructor (split: Splitter, digest: set<Doc> -> string, mayFail: bool, mayMiss: bool)
      ensures Valid() && Init(M()) && this.split == split && this.digest == digest
      ensures this.mayFail == mayFail && this.mayMiss == mayMiss
    {
      this.split, this.digest, this.mayFail, this.mayMiss, digests, bloom := split, digest, mayFail, mayMiss, map[], {};
      cat := Catalog(1, 0, map[]);
      docs := DocData(map[], map[]);
      chunks := ChunkData({}, {}, {}, {}, false, false);
      holder, drops, snapshots, misled := Free, map[], {}, false;
    }

    /** Whether the next call fails. */
    method Fails() returns (fails: bool)
      ensures fails ==> mayFail
    {
      fails := *;
      fails := fails && mayFail;
    }

    /** The document reads of the next judgement that fail while iterating. */
    method Misses() returns (misses: set<(Doc, Version)>)
      ensures misses != {} ==> mayMiss
    {
      misses := *;
      if !mayMiss { misses := {}; }
    }

    // -------------------------------------------------------- reads

    /** A read; `miss` says that its iteration fails, which reads as "no such document". */
    method ReadDoc(d: Doc, v: Version, miss: bool) returns (r: Result<Option<Value>, Fault>)
      ensures r.Ok? ==> r.value == if miss then None else ReadAt(docs.records, d, v)
      ensures r.Err? ==> mayFail
    {
      var fails := Fails();
      if fails { return Err(StoreFailed); }
      r := Ok(if miss then None else ReadAt(docs.records, d, v));
    }

    /** The mapping's documents of a chunk, in no particular order. */
    method ListDocIDs(c: Chunk) returns (r: Result<seq<Doc>, Fault>)
      ensures r.Ok? ==> (set d | d in r.value) == MappedDocs(chunks.fwd, c)
      ensures r.Err? ==> mayFail
    {
      var fails := Fails();
      if fails { return Err(StoreFailed); }
      var out := Enumerate(MappedDocs(chunks.fwd, c));
      r := Ok(out);
    }

    /** The chunks mapped to any of the documents, each once. */
    method ListChunkIDsByDocs(ids: set<Doc>) returns (r: Result<seq<Chunk>, Fault>)
      ensures r.Ok? ==> forall c :: c in r.value <==> exists d :: d in ids && (d, c) in chunks.rev
      ensures r.Ok? ==> forall i, j :: 0 <= i < j < |r.value| ==> r.value[i] != r.value[j]
      ensures r.Err? ==> mayFail
    {
      var fails := Fails();
      if fails { return Err(StoreFailed); }
      var rest := set p | p in chunks.rev && p.0 in ids :: p.1;
      var out := Enumerate(rest);
      r := Ok(out);
    }

    /** Every chunk that has a mapping, each once. */
    method ListChunkIDs() returns (r: Result<seq<Chunk>, Fault>)
      ensures r.Ok? ==> forall c :: c in r.value <==> MappedDocs(chunks.fwd, c) != {}
      ensures r.Ok? ==> forall i, j :: 0 <= i < j < |r.value| ==> r.value[i] != r.value[j]
      ensures r.Err? ==> mayFail
    {
      var fails := Fails();
      if fails { return Err(StoreFailed); }
      var all := set p | p in chunks.fwd :: p.0;
      forall c ensures c in all <==> MappedDocs(chunks.fwd, c) != {} {
        if c in all {
          var p :| p in chunks.fwd && p.0 == c;
          assert p.1 in MappedDocs(chunks.fwd, c);
        }
      }
      var out := Enumerate(all);
      r := Ok(out);
    }

    method Exists(c: Chunk) returns (r: Result<bool, Fault>)
      ensures r.Ok? ==> r.value == (c in chunks.vectors)
      ensures r.Err? ==> mayFail
    {
      var fails := Fails();
      if fails { return Err(StoreFailed); }
      r := Ok(c in chunks.vectors);
    }

    /** VersionDocList.ListDocIDs of one version. */
    method ReadList(v: Version) returns (r: Result<set<Doc>, Fault>)
      ensures r.Ok? ==> r.value == ListOf(docs.lists, v)
      ensures r.Err? ==> mayFail
    {
      var fails := Fails();
      if fails { return Err(StoreFailed); }
      r := Ok(ListOf(docs.lists, v));
    }

    /** Every version in the metadata, in no particular order. */
    method ListVersions() returns (r: Result<seq<Version>, Fault>)
      ensures r.Ok? ==> (forall v :: v in r.value <==> v in cat.metas)
      ensures r.Err? ==> mayFail
    {
      var fails := Fails();
      if fails { return Err(StoreFailed); }
      var out := Enumerate(cat.metas.Keys);
      r := Ok(out);
    }

    method LastVersionID() returns (r: Result<Version, Fault>)
      ensures r.Ok? ==> r.value == cat.tail
      ensures r.Err? ==> mayFail
    {
      var fails := Fails();
      if fails { return Err(StoreFailed); }
      r := Ok(cat.tail);
    }

    // -------------------------------------------------------- steps that only move the holder

    ghost method Collect(a: CollectStep)
      requires Valid() && CollectEnabled(M(), a) && !a.Unmap? && !a.EraseVector?
      modifies this`holder, this`snapshots, this`misled
      ensures Valid() && M() == CollectApply(old(M()), a)
    {
      CollectStepKeepsInv(M(), a);
      var s := CollectApply(M(), a);
      holder, snapshots, misled := s.holder, s.snapshots, s.chunks.misled;
    }

    /** Starts a drop and judges each of the documents, dooming those in `doomed`. */
    ghost method PlanDrop(id: nat, v: Version, anchor: Version, owners: seq<Doc>, doomed: set<Doc>)
      requires Valid() && ChainEnabled(M(), DropStart(id, v, anchor))
      requires forall d :: d in owners ==> (d, v) in docs.records
      requires forall d :: d in doomed <==> d in owners && Visible(docs.records, d, anchor) != Some(v)
      modifies this`drops
      ensures Valid() && M() == old(M()).(drops := old(drops)[id := Drop(v, anchor, doomed)]) && anchor != 0
    {
      StartedDropIsSound(M(), id, v, anchor);
      DoomAll(cat, docs.records, Drop(v, anchor, {}), owners, doomed);
      NewDropKeepsInv(M(), id, Drop(v, anchor, doomed));
      drops := drops[id := Drop(v, anchor, doomed)];
    }

    ghost method Lock()
      requires Valid() && WriteEnabled(M(), WriterLock)
      modifies this`holder
      ensures Valid() && M() == WriteApply(old(M()), WriterLock)
    {
      holder := Writer(Work({}, {}, {}, false, false));
    }

    ghost method Note(c: Chunk)
      requires Valid() && WriteEnabled(M(), NotePresent(c))
      modifies this`holder
      ensures Valid() && M() == WriteApply(old(M()), NotePresent(c))
    {
      WriteStepKeepsInv(M(), NotePresent(c));
      holder := Writer(holder.work.(noted := holder.work.noted + {c}));
    }

    /** A document without chunks needs no mapping. */
    ghost method MapNothing(d: Doc)
      requires Valid() && WriteEnabled(M(), PutMappings(d)) && ChunksOf(split, TailMeta(cat).changes[d]) == {}
      modifies this`holder
      ensures Valid() && M() == WriteApply(old(M()), PutMappings(d))
    {
      assert WithMappings(M().chunks, d, {}) == M().chunks;
      PutMappingsKeepsInv(M(), d);
      holder := Writer(holder.work.(mapped := holder.work.mapped + {d}));
    }

    ghost method Release()
      requires Valid()
      modifies this`holder
      ensures Valid() && M() == old(M()).(holder := Free)
    {
      holder := Free;
    }

    // -------------------------------------------------------- metadata and restarts

    /**
      A new version on top of the newest one, with nothing stored for it yet; refused while the
      newest one's data is not durable.
    */
    method CreateVersion(changes: map<Doc, Value>) returns (r: Result<Version, Fault>)
      requires Valid() && changes != map[]
      modifies this`cat
      ensures r == Err(ParentNotDurable) <==> old(cat.tail) != 0 && !old(cat.metas)[old(cat.tail)].committed
      ensures r.Err? ==> r.error == ParentNotDurable && cat == old(cat)
      ensures r.Ok? ==> r.value == old(cat.next) == cat.tail && cat.next == r.value + 1
      ensures r.Ok? ==> cat.metas == old(cat.metas)[r.value := Meta(old(cat.tail), changes, false, false)]
      ensures r.Ok? ==> M() == ChainApply(old(M()), Allocate(r.value, changes))
      ensures Valid()
    {
      if cat.tail != 0 && !cat.metas[cat.tail].committed { return Err(ParentNotDurable); }
      var n := cat.next;
      AllocateKeepsInv(M(), n, changes);
      cat := Catalog(n + 1, n, cat.metas[n := Meta(cat.tail, changes, false, false)]);
      r := Ok(n);
    }

    /** Marks a version Deleting; refused for one that is not there, the newest, and the parent of an uncommitted one. */
    method MarkVersionDeleting(v: Version) returns (ok: bool)
      requires Valid()
      modifies this`cat
      ensures ok <==> old(v in cat.metas && v != cat.tail && (cat.metas[cat.tail].committed || cat.metas[cat.tail].base != v))
      ensures cat == if ok then old(cat).(metas := old(cat.metas)[v := old(cat.metas)[v].(deleting := true)]) else old(cat)
      ensures ok ==> M() == ChainApply(old(M()), MarkDeleting(v))
      ensures Valid()
    {
      if v !in cat.metas || v == cat.tail { return false; }
      if !cat.metas[cat.tail].committed && cat.metas[cat.tail].base == v { return false; }
      MarkDeletingKeepsInv(M(), v);
      cat := cat.(metas := cat.metas[v := cat.metas[v].(deleting := true)]);
      ok := true;
    }

    /** Removes the metadata of a version marked Deleting; an absent version is no error. */
    method RemoveVersionMeta(v: Version) returns (ok: bool)
      requires Valid()
      modifies this`cat
      ensures ok <==> v in old(cat.metas) ==> old(cat.metas)[v].deleting
      ensures cat == if ok then old(cat).(metas := old(cat.metas) - {v}) else old(cat)
      ensures Valid()
    {
      if v !in cat.metas {
        assert cat.metas - {v} == cat.metas;
        return true;
      }
      if !cat.metas[v].deleting { return false; }
      RemoveMetaKeepsInv(M(), v);
      cat := cat.(metas := cat.metas - {v});
      ok := true;
    }

    /**
      The process dies and comes back: whoever held the lock, drops and snapshots are gone.
      Losing power can also take any vectors that were not flushed.
    */
    method Restart(powerLost: bool, lost: set<Chunk>)
      requires Valid() && lost !! chunks.durable
      modifies this
      ensures Valid() && cat == old(cat) && docs == old(docs) && misled == old(misled)
      ensures M() == Apply(old(M()), if powerLost then PowerLoss(old(chunks.vectors) - lost) else Crash)
      ensures holder == Free && drops == map[] && snapshots == {}
      ensures chunks.fwd == old(chunks.fwd) && chunks.rev == old(chunks.rev)
      ensures chunks.vectors == old(chunks.vectors) - if powerLost then lost else {}
    {
      StepKeepsInv(M(), if powerLost then PowerLoss(chunks.vectors - lost) else Crash);
      if powerLost {
        var left := chunks.vectors - lost;
        chunks := chunks.(vectors := left, durable := left,
                          tainted := chunks.tainted || (cat.tail in cat.metas && !cat.metas[cat.tail].committed));
      }
      holder, drops, snapshots := Free, map[], {};
    }

    // -------------------------------------------------------- chunk store and mapping

    method DeleteMapping(c: Chunk, d: Doc) returns (ok: bool)
      requires Valid() && CollectEnabled(M(), Unmap(d)) && holder.judge.chunk == c
      modifies this`chunks
      ensures Valid() && M() == if ok then CollectApply(old(M()), Unmap(d)) else old(M())
      ensures !ok ==> mayFail
      ensures ok ==> (c, d) !in chunks.fwd && (d, c) !in chunks.rev
    {
      var fails := Fails();
      if fails { return false; }
      UnmapKeepsInv(M(), d);
      chunks := chunks.(fwd := chunks.fwd - {(c, d)}, rev := chunks.rev - {(d, c)});
      ok := true;
    }

    method DeleteVector(c: Chunk) returns (ok: bool)
      requires Valid() && CollectEnabled(M(), EraseVector) && holder.judge.chunk == c
      modifies this`chunks, this`holder
      ensures Valid() && M() == if ok then CollectApply(old(M()), EraseVector) else old(M())
      ensures !ok ==> mayFail
      ensures ok ==> c !in chunks.vectors
    {
      var fails := Fails();
      if fails { return false; }
      EraseVectorKeepsInv(M());
      chunks := chunks.(vectors := chunks.vectors - {c}, durable := chunks.durable - {c});
      holder := Collector(Judging(holder.judge.live));
      ok := true;
    }

    method WriteVector(c: Chunk) returns (ok: bool)
      requires Valid() && WriteEnabled(M(), PutVector(c))
      modifies this`chunks, this`holder
      ensures Valid() && M() == if ok then WriteApply(old(M()), PutVector(c)) else old(M())
      ensures !ok ==> mayFail
      ensures chunks == old(chunks).(vectors := old(chunks.vectors) + if ok then {c} else {})
    {
      var fails := Fails();
      if fails { return false; }
      PutVectorKeepsInv(M(), c);
      chunks := chunks.(vectors := chunks.vectors + {c});
      holder := Writer(holder.work.(noted := holder.work.noted + {c}));
      ok := true;
    }

    method FlushWAL() returns (ok: bool)
      requires Valid() && WriteEnabled(M(), FlushVectors)
      modifies this`chunks, this`holder
      ensures Valid() && M() == if ok then WriteApply(old(M()), FlushVectors) else old(M())
      ensures !ok ==> mayFail
      ensures chunks == old(chunks).(durable := if ok then old(chunks.vectors) else old(chunks.durable))
    {
      var fails := Fails();
      if fails { return false; }
      FlushKeepsInv(M());
      chunks := chunks.(durable := chunks.vectors);
      holder := Writer(holder.work.(flushed := true));
      ok := true;
    }

    /** One durable commit maps a document to all of its chunks, both directions. */
    method WriteMappings(d: Doc, cs: set<Chunk>) returns (ok: bool)
      requires Valid() && WriteEnabled(M(), PutMappings(d)) && cs == ChunksOf(split, TailMeta(cat).changes[d])
      modifies this`chunks, this`holder
      ensures Valid() && M() == if ok then WriteApply(old(M()), PutMappings(d)) else old(M())
      ensures !ok ==> mayFail
      ensures forall x, e :: (x, e) in chunks.fwd <==> (x, e) in old(chunks.fwd) || (ok && e == d && x in cs)
      ensures forall x, e :: (e, x) in chunks.rev <==> (e, x) in old(chunks.rev) || (ok && e == d && x in cs)
    {
      var fails := Fails();
      if fails { return false; }
      PutMappingsKeepsInv(M(), d);
      chunks := WithMappings(chunks, d, cs);
      holder := Writer(holder.work.(mapped := holder.work.mapped + {d}));
      ok := true;
    }

    // -------------------------------------------------------- document store and lists

    method WriteDoc(d: Doc, x: Value) returns (ok: bool)
      requires Valid() && WriteEnabled(M(), PutRecord(d)) && x == TailMeta(cat).changes[d]
      modifies this`docs, this`holder
      ensures Valid() && M() == if ok then WriteApply(old(M()), PutRecord(d)) else old(M())
      ensures !ok ==> mayFail
      ensures docs == if ok then old(docs).(records := old(docs.records)[(d, cat.tail) := x]) else old(docs)
    {
      var fails := Fails();
      if fails { return false; }
      PutRecordKeepsInv(M(), d);
      docs := docs.(records := docs.records[(d, cat.tail) := x]);
      holder := Writer(holder.work.(written := holder.work.written + {d}));
      ok := true;
    }

    method WriteList(ids: set<Doc>) returns (ok: bool)
      requires Valid() && WriteEnabled(M(), PutList)
      requires ids == ApplyChanges(ListOf(docs.lists, TailMeta(cat).base), TailMeta(cat).changes)
      modifies this`docs, this`holder
      ensures Valid() && M() == if ok then WriteApply(old(M()), PutList) else old(M())
      ensures !ok ==> mayFail
    {
      var fails := Fails();
      if fails { return false; }
      PutListKeepsInv(M());
      docs := docs.(lists := docs.lists[cat.tail := ListOf(docs.lists, cat.tail) + ids]);
      holder := Writer(holder.work.(listed := true));
      ok := true;
    }

    method DeleteList(v: Version) returns (ok: bool)
      requires Valid() && ChainEnabled(M(), DropList(v))
      modifies this`docs
      ensures Valid() && M() == if ok then ChainApply(old(M()), DropList(v)) else old(M())
      ensures !ok ==> mayFail
    {
      var fails := Fails();
      if fails { return false; }
      DropListKeepsInv(M(), v);
      docs := docs.(lists := docs.lists - {v});
      ok := true;
    }

    /** Commits the batch of record deletes a drop has collected, or gives it up. */
    method CommitDrop(v: Version, doomed: set<Doc>, ghost id: nat) returns (ok: bool)
      requires Valid() && ChainEnabled(M(), DropCommit(id))
      requires drops[id].version == v && drops[id].doomed == doomed
      modifies this`docs, this`drops
      ensures Valid() && M() == ChainApply(old(M()), if ok then DropCommit(id) else DropAbort(id))
      ensures !ok ==> mayFail
    {
      var fails := Fails();
      if fails {
        ChainStepKeepsInv(M(), DropAbort(id));
        drops := drops - {id};
        return false;
      }
      DropCommitKeepsInv(M(), id);
      docs := docs.(records := map k | k in docs.records && !(k.1 == v && k.0 in doomed) :: docs.records[k]);
      drops := drops - {id};
      ok := true;
    }

    method CommitVersionMeta() returns (ok: bool)
      requires Valid() && WriteEnabled(M(), CommitVersion)
      modifies this`cat, this`chunks, this`holder
      ensures Valid() && M() == if ok then WriteApply(old(M()), CommitVersion) else old(M())
      ensures !ok ==> mayFail
      ensures cat.tail == old(cat.tail) && cat.metas.Keys == old(cat.metas.Keys) && docs == old(docs)
      ensures ok ==> cat.metas[cat.tail].committed && holder == Free
      ensures chunks == old(chunks).(tainted := if ok then false else old(chunks.tainted))
      ensures forall v :: v in cat.metas && v != cat.tail ==> cat.metas[v] == old(cat.metas)[v]
    {
      var fails := Fails();
      if fails { return false; }
      CommitKeepsInv(M());
      cat := cat.(metas := cat.metas[cat.tail := TailMeta(cat).(committed := true)]);
      chunks := chunks.(tainted := false);
      holder := Free;
      ok := true;
    }
  }
}
