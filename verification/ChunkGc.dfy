/**
  Orphan-chunk collection: the event-driven reclaim of a deleted version's chunks and the
  periodic sweep. Every change goes through the node's store calls, so each method keeps
  the storage machine's invariant, whether it finishes or fails half way.
*/
module ChunkGc {
  import opened Basics
  import opened Mvcc
  import opened Storage
  import opened StorageProofs
  import opened KbNode

  predicate Ascending(ids: seq<Version>) {
    forall i, j :: 0 <= i < j < |ids| ==> ids[i] < ids[j]
  }

  /** Puts a new version in its place. */
  method Insert(ids: seq<Version>, v: Version) returns (out: seq<Version>)
    requires Ascending(ids) && v !in ids
    ensures Ascending(out) && forall x :: x in out <==> x in ids || x == v
  {
    var i := 0;
    while i < |ids| && ids[i] < v
      invariant 0 <= i <= |ids| && forall j :: 0 <= j < i ==> ids[j] < v
    {
      i := i + 1;
    }
    out := ids[..i] + [v] + ids[i..];
    assert i < |ids| ==> v < ids[i];
  }

  /** The versions a query can still name, ascending. */
  method LiveVersionIDs(kb: Node, except: Version) returns (r: Result<seq<Version>, Fault>)
    ensures r.Ok? ==> Ascending(r.value)
    ensures r.Ok? ==> forall v :: v in r.value <==> v in kb.cat.metas && !kb.cat.metas[v].deleting && v != except
    ensures r.Err? ==> kb.mayFail
  {
    var versions := kb.ListVersions();
    if versions.Err? { return Err(versions.error); }
    var ids := [];
    for i := 0 to |versions.value|
      invariant Ascending(ids)
      invariant forall v :: v in ids <==> v in versions.value[..i] && Live(kb.cat, v) && v != except
    {
      var v := versions.value[i];
      if !(kb.cat.metas[v].deleting || v == except) && v !in ids {
        ids := Insert(ids, v);
      }
    }
    assert versions.value[..|versions.value|] == versions.value;
    r := Ok(ids);
  }

  /**
    Whether some of the versions still reads text for the document, newest first. A failed
    read is an error, except that a failed iteration reads as "not found": `misses` has the
    versions where that happens.
  */
  method DocReadableFromAny(kb: Node, d: Doc, live: seq<Version>, misses: set<Version>) returns (r: Result<bool, Fault>)
    ensures r.Ok? ==>
      (r.value <==> exists v, x :: v in live && v !in misses && ReadAt(kb.docs.records, d, v) == Some(Content(x)) && x != "")
    ensures r.Err? ==> kb.mayFail
  {
    var i := |live|;
    while i > 0
      invariant 0 <= i <= |live|
      invariant forall k, x ::
        i <= k < |live| && live[k] !in misses && ReadAt(kb.docs.records, d, live[k]) == Some(Content(x)) ==> x == ""
    {
      i := i - 1;
      var x := kb.ReadDoc(d, live[i], live[i] in misses);
      if x.Err? { return Err(x.error); }
      if x.value.Some? && x.value.value.Content? && |x.value.value.text| > 0 {
        assert live[i] in live && ReadAt(kb.docs.records, d, live[i]) == Some(Content(x.value.value.text));
        return Ok(true);
      }
    }
    r := Ok(false);
  }

  /** No document mapped to the chunk is read from any of the versions, and there is one. */
  ghost predicate Orphan(fwd: set<(Chunk, Doc)>, r: Records, c: Chunk, live: set<Version>) {
    && MappedDocs(fwd, c) != {}
    && forall d, v :: d in MappedDocs(fwd, c) && v in live ==> !Readable(r, d, v)
  }

  /** It looks like one: every read that did not fail came back empty. */
  ghost predicate LooksOrphan(fwd: set<(Chunk, Doc)>, r: Records, c: Chunk, live: set<Version>, misses: set<(Doc, Version)>) {
    && MappedDocs(fwd, c) != {}
    && forall d, v :: d in MappedDocs(fwd, c) && v in live && (d, v) !in misses ==> !Readable(r, d, v)
  }

  lemma MappedIff(fwd: set<(Chunk, Doc)>, c: Chunk)
    ensures forall d :: d in MappedDocs(fwd, c) <==> (c, d) in fwd
    ensures MappedDocs(fwd, c) != {} <==> exists d :: (c, d) in fwd
  {
    forall d ensures d in MappedDocs(fwd, c) <==> (c, d) in fwd {
      if (c, d) in fwd { assert (c, d).1 in MappedDocs(fwd, c); }
    }
    if MappedDocs(fwd, c) != {} {
      var d :| d in MappedDocs(fwd, c);
    }
  }

  /** An orphan is mapped, and every read of a document it is mapped to finds no text at any of the versions. */
  lemma LooksOrphanIff(fwd: set<(Chunk, Doc)>, r: Records, c: Chunk, live: set<Version>, misses: set<(Doc, Version)>)
    ensures LooksOrphan(fwd, r, c, live, misses) <==>
      && (exists d :: (c, d) in fwd)
      && forall d, v, x :: (c, d) in fwd && v in live && (d, v) !in misses && ReadAt(r, d, v) == Some(Content(x)) ==> x == ""
    ensures Orphan(fwd, r, c, live) <==> LooksOrphan(fwd, r, c, live, {})
    ensures Orphan(fwd, r, c, live) <==>
      && (exists d :: (c, d) in fwd)
      && forall d, v, x :: (c, d) in fwd && v in live && ReadAt(r, d, v) == Some(Content(x)) ==> x == ""
  {
    MappedIff(fwd, c);
    forall d, v ensures Readable(r, d, v) <==> exists x :: x != "" && ReadAt(r, d, v) == Some(Content(x)) {
      ReadableIff(r, d, v);
    }
  }

  /** The verdict on a chunk is right about every read that does not fail. */
  method IsOrphanChunk(kb: Node, c: Chunk, live: seq<Version>, misses: set<(Doc, Version)>)
    returns (r: Result<(bool, seq<Doc>), Fault>)
    ensures r.Ok? ==> (r.value.0 <==>
      && (exists d :: (c, d) in kb.chunks.fwd)
      && forall d, v, x ::
           (c, d) in kb.chunks.fwd && v in live && (d, v) !in misses && ReadAt(kb.docs.records, d, v) == Some(Content(x)) ==> x == "")
    ensures r.Ok? && r.value.0 ==> forall d :: d in r.value.1 <==> (c, d) in kb.chunks.fwd
    ensures r.Err? ==> kb.mayFail
  {
    var listed := kb.ListDocIDs(c);
    if listed.Err? { return Err(listed.error); }
    var ids := listed.value;
    MappedIff(kb.chunks.fwd, c);
    assert forall d :: d in (set e | e in ids) <==> d in ids;
    if |ids| == 0 { return Ok((false, [])); }
    assert ids[0] in ids && (c, ids[0]) in kb.chunks.fwd;
    for i := 0 to |ids|
      invariant forall d, v, x ::
        d in ids[..i] && v in live && (d, v) !in misses && ReadAt(kb.docs.records, d, v) == Some(Content(x)) ==> x == ""
    {
      var missed := set p | p in misses && p.0 == ids[i] :: p.1;
      assert forall v :: v in missed <==> (ids[i], v) in misses by {
        forall v | (ids[i], v) in misses ensures v in missed { assert (ids[i], v).1 == v; }
      }
      var alive := DocReadableFromAny(kb, ids[i], live, missed);
      if alive.Err? { return Err(alive.error); }
      if alive.value {
        ghost var v, x :| v in live && v !in missed && ReadAt(kb.docs.records, ids[i], v) == Some(Content(x)) && x != "";
        assert ids[i] in ids && (c, ids[i]) in kb.chunks.fwd;
        return Ok((false, []));
      }
    }
    assert ids[..|ids|] == ids;
    assert forall d :: (c, d) in kb.chunks.fwd ==> d in ids;
    r := Ok((true, ids));
  }

  /** Nothing changed except that parts of one chunk may be gone. */
  ghost predicate OnlyChunk(ch: ChunkData, ch': ChunkData, c: Chunk) {
    && ch'.tainted == ch.tainted
    && ch'.fwd <= ch.fwd && ch'.vectors <= ch.vectors && ch'.durable <= ch.durable
    && (forall p :: p in ch.fwd && p.0 != c ==> p in ch'.fwd)
    && (forall x :: x in ch.vectors && x != c ==> x in ch'.vectors)
    && (forall x :: x in ch.durable && x != c ==> x in ch'.durable)
  }

  /** A chunk's mappings and vector are the same in both. */
  ghost predicate Spares(ch: ChunkData, ch': ChunkData, c: Chunk) {
    MappedDocs(ch'.fwd, c) == MappedDocs(ch.fwd, c) && (c in ch'.vectors <==> c in ch.vectors)
  }

  /** Versions, documents, drops and snapshots are as they were. */
  twostate predicate RestKept(kb: Node)
    reads kb
  {
    kb.cat == old(kb.cat) && kb.docs == old(kb.docs) && kb.drops == old(kb.drops) &&
    kb.snapshots == old(kb.snapshots)
  }

  ghost predicate Gone(ch: ChunkData, c: Chunk) {
    c !in ch.vectors && forall d :: (c, d) !in ch.fwd && (d, c) !in ch.rev
  }

  /** Removes a confirmed orphan's mappings, one by one. */
  method UnmapAll(kb: Node, c: Chunk, ids: seq<Doc>) returns (ok: bool)
    requires kb.Valid() && kb.holder.Collector? && kb.holder.judge.Erasing?
    requires kb.holder.judge.chunk == c && kb.holder.judge.docs == set d | d in ids
    modifies kb`chunks
    ensures kb.Valid() && OnlyChunk(old(kb.chunks), kb.chunks, c)
    ensures kb.chunks.vectors == old(kb.chunks.vectors) && kb.chunks.durable == old(kb.chunks.durable)
    ensures ok ==> forall d :: d in ids ==> (c, d) !in kb.chunks.fwd
    ensures !ok ==> kb.mayFail
  {
    var i := 0;
    while i < |ids|
      invariant 0 <= i <= |ids| && kb.Valid()
      invariant OnlyChunk(old(kb.chunks), kb.chunks, c)
      invariant kb.chunks.vectors == old(kb.chunks.vectors) && kb.chunks.durable == old(kb.chunks.durable)
      invariant forall d :: d in ids[..i] ==> (c, d) !in kb.chunks.fwd
    {
      ok := kb.DeleteMapping(c, ids[i]);
      if !ok { return; }
      i := i + 1;
    }
    assert ids[..|ids|] == ids;
    ok := true;
  }

  /** Removes a confirmed orphan: its mappings first, its vector second. */
  method DeleteChunk(kb: Node, c: Chunk, ids: seq<Doc>) returns (ok: bool)
    requires kb.Valid() && kb.holder.Collector? && kb.holder.judge.Erasing?
    requires kb.holder.judge.chunk == c && kb.holder.judge.docs == set d | d in ids
    modifies kb`chunks, kb`holder
    ensures kb.Valid() && OnlyChunk(old(kb.chunks), kb.chunks, c)
    ensures c in old(kb.chunks.vectors) && c !in kb.chunks.vectors ==> forall d :: (c, d) !in kb.chunks.fwd && (d, c) !in kb.chunks.rev
    ensures ok ==> c !in kb.chunks.vectors && forall d :: (c, d) !in kb.chunks.fwd && (d, c) !in kb.chunks.rev
    ensures !ok ==> kb.mayFail
    ensures ok ==> kb.holder == Collector(Judging(old(kb.holder.judge.live)))
  {
    ok := UnmapAll(kb, c, ids);
    if !ok { return; }
    ok := kb.DeleteVector(c);
  }

  /**
    The machine's reads behind an orphan verdict: every document at every version judged by,
    the missed ones included. They mislead the collector exactly when the chunk is no orphan.
  */
  ghost method ConfirmOrphan(kb: Node, c: Chunk, live: set<Version>, missed: set<(Doc, Version)>)
    requires kb.Valid() && kb.holder == Collector(Judging(live))
    requires LooksOrphan(kb.chunks.fwd, kb.docs.records, c, live, missed)
    modifies kb`holder, kb`snapshots, kb`misled
    ensures kb.Valid() && kb.snapshots == old(kb.snapshots)
    ensures kb.holder == Collector(Erasing(live, c, MappedDocs(kb.chunks.fwd, c)))
    ensures kb.misled <==> old(kb.misled) || !Orphan(kb.chunks.fwd, kb.docs.records, c, live)
  {
    var ids := MappedDocs(kb.chunks.fwd, c);
    kb.Collect(ListDocs(c));
    ReadAll(kb, missed);
    kb.Collect(Confirm);
  }

  /** Reads every document at every version judged by; none of the reads that succeed finds text. */
  ghost method ReadAll(kb: Node, missed: set<(Doc, Version)>)
    requires kb.Valid() && kb.holder.Collector? && kb.holder.judge.Checking?
    requires forall d, u :: d in kb.holder.judge.docs && u in kb.holder.judge.live && (d, u) !in missed ==> !Readable(kb.docs.records, d, u)
    modifies kb`holder, kb`snapshots, kb`misled
    ensures kb.Valid() && kb.snapshots == old(kb.snapshots) && kb.holder.Collector? && kb.holder.judge.Checking?
    ensures kb.holder.judge == old(kb.holder.judge).(checked := kb.holder.judge.checked)
    ensures forall d, u :: d in kb.holder.judge.docs && u in kb.holder.judge.live ==> (d, u) in kb.holder.judge.checked
    ensures kb.misled <==>
      (old(kb.misled) || exists d, u :: d in kb.holder.judge.docs && u in kb.holder.judge.live && Readable(kb.docs.records, d, u))
  {
    var j := kb.holder.judge;
    var all := set d, u | d in j.docs && u in j.live :: (d, u);
    ReadThese(kb, all, missed);
    forall d, u | d in j.docs && u in j.live ensures (d, u) in kb.holder.judge.checked {
      assert (d, u) in all;
    }
    if d, u :| d in j.docs && u in j.live && Readable(kb.docs.records, d, u) {
      assert (d, u) in all && Readable(kb.docs.records, (d, u).0, (d, u).1);
    }
  }

  ghost method ReadThese(kb: Node, all: set<(Doc, Version)>, missed: set<(Doc, Version)>)
    requires kb.Valid() && kb.holder.Collector? && kb.holder.judge.Checking?
    requires forall p :: p in all ==> p.0 in kb.holder.judge.docs && p.1 in kb.holder.judge.live
    requires forall p :: p in all && p !in missed ==> !Readable(kb.docs.records, p.0, p.1)
    modifies kb`holder, kb`snapshots, kb`misled
    ensures kb.Valid() && kb.snapshots == old(kb.snapshots)
    ensures kb.holder == Collector(old(kb.holder.judge).(checked := old(kb.holder.judge.checked) + all))
    ensures kb.misled <==> (old(kb.misled) || exists p :: p in all && Readable(kb.docs.records, p.0, p.1))
    decreases all
  {
    if all == {} {
      assert kb.holder.judge.checked + all == kb.holder.judge.checked;
      return;
    }
    var p :| p in all;
    ReadOne(kb, p.0, p.1, p in missed);
    ReadThese(kb, all - {p}, missed);
    assert old(kb.holder.judge.checked) + {(p.0, p.1)} + (all - {p}) == old(kb.holder.judge.checked) + all;
  }

  /** One judging read that finds no text, or whose iteration fails. */
  ghost method ReadOne(kb: Node, d: Doc, u: Version, miss: bool)
    requires kb.Valid() && kb.holder.Collector? && kb.holder.judge.Checking?
    requires d in kb.holder.judge.docs && u in kb.holder.judge.live && (!miss ==> !Readable(kb.docs.records, d, u))
    modifies kb`holder, kb`snapshots, kb`misled
    ensures kb.Valid() && kb.snapshots == old(kb.snapshots)
    ensures kb.holder == Collector(old(kb.holder.judge).(checked := old(kb.holder.judge.checked) + {(d, u)}))
    ensures kb.misled <==> old(kb.misled) || Readable(kb.docs.records, d, u)
  {
    kb.Collect(if miss then MissRead(d, u) else CheckRead(d, u));
  }

  /** The documents of a chunk that looks like an orphan. */
  method Verdict(kb: Node, c: Chunk, live: seq<Version>, misses: set<(Doc, Version)>) returns (r: Result<Option<seq<Doc>>, Fault>)
    ensures r.Ok? ==> (r.value.Some? <==> LooksOrphan(kb.chunks.fwd, kb.docs.records, c, (set v | v in live), misses))
    ensures r.Ok? && r.value.Some? ==> (set d | d in r.value.value) == MappedDocs(kb.chunks.fwd, c)
    ensures Orphan(kb.chunks.fwd, kb.docs.records, c, set v | v in live) ==>
      LooksOrphan(kb.chunks.fwd, kb.docs.records, c, (set v | v in live), misses)
    ensures misses == {} && LooksOrphan(kb.chunks.fwd, kb.docs.records, c, (set v | v in live), misses) ==>
      Orphan(kb.chunks.fwd, kb.docs.records, c, set v | v in live)
    ensures r.Err? ==> kb.mayFail
  {
    var verdict := IsOrphanChunk(kb, c, live, misses);
    LooksOrphanIff(kb.chunks.fwd, kb.docs.records, c, (set v | v in live), misses);
    LooksOrphanIff(kb.chunks.fwd, kb.docs.records, c, (set v | v in live), {});
    MappedIff(kb.chunks.fwd, c);
    r := if verdict.Err? then Err(verdict.error) else Ok(if verdict.value.0 then Some(verdict.value.1) else None);
  }

  /** Judges one chunk under the lock and reclaims it if it looks like an orphan. */
  method JudgeChunk(kb: Node, c: Chunk, live: seq<Version>, misses: set<(Doc, Version)>) returns (r: Result<bool, Fault>)
    requires kb.Valid() && kb.holder == Collector(Judging(set v | v in live))
    modifies kb
    ensures kb.Valid() && RestKept(kb) && OnlyChunk(old(kb.chunks), kb.chunks, c)
    ensures r.Ok? ==> kb.holder == old(kb.holder)
    ensures r.Ok? ==> (r.value <==> LooksOrphan(old(kb.chunks.fwd), kb.docs.records, c, (set v | v in live), misses))
    ensures r == Ok(false) ==> kb.chunks == old(kb.chunks)
    ensures r == Ok(true) ==> Gone(kb.chunks, c)
    ensures r.Err? ==> kb.mayFail
    ensures Misled(old(kb.misled), kb.misled, misses, Orphan(old(kb.chunks.fwd), kb.docs.records, c, set v | v in live))
    ensures !kb.misled && !Orphan(old(kb.chunks.fwd), kb.docs.records, c, set v | v in live) ==> kb.chunks == old(kb.chunks)
  {
    var verdict := Verdict(kb, c, live, misses);
    ghost var vs := set v | v in live;
    if verdict.Err? { return Err(verdict.error); }
    if verdict.value.None? { return Ok(false); }
    ConfirmOrphan(kb, c, vs, misses);
    var ok := DeleteChunk(kb, c, verdict.value.value);
    r := if ok then Ok(true) else Err(StoreFailed);
  }

  /** Only a missed read misleads a collector, and only about a chunk that is no orphan. */
  ghost predicate Misled(before: bool, after: bool, misses: set<(Doc, Version)>, orphan: bool) {
    (before ==> after) && (after && !before ==> misses != {} && !orphan)
  }

  function AsSnapshot(ids: seq<Version>): Snapshot
    requires ids != []
  {
    Snapshot((set v | v in ids), ids[|ids| - 1])
  }

  /** The versions the re-check judges by: the snapshot while the tail stands, else the chain. */
  ghost function JudgedBy(cat: Catalog, snapshot: seq<Version>): set<Version>
    requires snapshot != []
  {
    if cat.tail == snapshot[|snapshot| - 1] then set v | v in snapshot else LiveSet(cat)
  }

  /**
    Reclaims one candidate of a sweep, re-judging it under the lock: it goes exactly when no
    read that does not fail finds text for a document mapped to it at a version judged by.
  */
  method ReclaimOrphan(kb: Node, c: Chunk, snapshot: seq<Version>, misses: set<(Doc, Version)>) returns (r: Result<bool, Fault>)
    requires kb.Valid() && kb.holder.Free? && snapshot != []
    requires AsSnapshot(snapshot) in kb.snapshots
    modifies kb
    ensures kb.Valid() && kb.holder.Free? && RestKept(kb) && OnlyChunk(old(kb.chunks), kb.chunks, c)
    ensures r.Ok? ==> (r.value <==> LooksOrphan(old(kb.chunks.fwd), kb.docs.records, c, JudgedBy(kb.cat, snapshot), misses))
    ensures r == Ok(false) ==> kb.chunks == old(kb.chunks)
    ensures r == Ok(true) ==> Gone(kb.chunks, c)
    ensures r.Err? ==> kb.mayFail
    ensures Misled(old(kb.misled), kb.misled, misses, Orphan(old(kb.chunks.fwd), kb.docs.records, c, JudgedBy(kb.cat, snapshot)))
    ensures !kb.misled && !Orphan(old(kb.chunks.fwd), kb.docs.records, c, JudgedBy(kb.cat, snapshot)) ==>
      kb.chunks == old(kb.chunks)
  {
    kb.Collect(SweepLock(AsSnapshot(snapshot)));
    var live := VersionsToJudgeBy(kb, snapshot);
    if live.Err? {
      kb.Release();
      return Err(live.error);
    }
    r := JudgeChunk(kb, c, live.value, misses);
    kb.Release();
  }

  /** Under the lock: the snapshot if the newest version is still the one it ends in, else the chain read again. */
  method VersionsToJudgeBy(kb: Node, snapshot: seq<Version>) returns (r: Result<seq<Version>, Fault>)
    requires kb.Valid() && snapshot != [] && kb.holder == Collector(AwaitTail(AsSnapshot(snapshot)))
    modifies kb`holder, kb`snapshots, kb`misled
    ensures kb.Valid() && kb.snapshots == old(kb.snapshots) && kb.misled == old(kb.misled)
    ensures r.Ok? ==> (set v | v in r.value) == JudgedBy(kb.cat, snapshot) && kb.holder == Collector(Judging(set v | v in r.value))
    ensures r.Err? ==> kb.mayFail
  {
    var tail := kb.LastVersionID();
    if tail.Err? { return Err(tail.error); }
    kb.Collect(ReadTail);
    if tail.value == snapshot[|snapshot| - 1] { return Ok(snapshot); }
    var chain := LiveVersionIDs(kb, 0);
    if chain.Err? { return Err(chain.error); }
    assert 0 !in kb.cat.metas;
    assert (set v | v in chain.value) == LiveSet(kb.cat);
    kb.Collect(ReadChain);
    r := Ok(chain.value);
  }

  lemma RowsApart(fwd: set<(Chunk, Doc)>, fwd': set<(Chunk, Doc)>, c: Chunk, x: Chunk)
    requires fwd' <= fwd && x != c && forall p :: p in fwd && p.0 != c ==> p in fwd'
    ensures MappedDocs(fwd', x) == MappedDocs(fwd, x)
  {
    assert forall d :: d in MappedDocs(fwd, x) <==> (x, d) in fwd;
    assert forall d :: d in MappedDocs(fwd', x) <==> (x, d) in fwd';
  }

  lemma GoneHasNoDocs(ch: ChunkData, c: Chunk)
    requires Gone(ch, c)
    ensures MappedDocs(ch.fwd, c) == {}
  {
    assert forall d :: d in MappedDocs(ch.fwd, c) <==> (c, d) in ch.fwd;
  }

  method JudgeOne(kb: Node, c: Chunk, live: seq<Version>) returns (r: Result<bool, Fault>)
    requires kb.Valid() && kb.holder == Collector(Judging(set u | u in live))
    modifies kb
    ensures kb.Valid() && RestKept(kb) && (old(kb.misled) ==> kb.misled) && (kb.misled && !old(kb.misled) ==> kb.mayMiss)
    ensures r.Err? ==> kb.mayFail
    ensures r.Ok? ==> kb.holder == old(kb.holder)
    ensures forall x :: x != c ==> Spares(old(kb.chunks), kb.chunks, x)
    ensures !kb.misled && !Orphan(old(kb.chunks.fwd), kb.docs.records, c, set u | u in live) ==> Spares(old(kb.chunks), kb.chunks, c)
    ensures r.Ok? && Orphan(old(kb.chunks.fwd), kb.docs.records, c, set u | u in live) ==> Gone(kb.chunks, c)
  {
    var misses := kb.Misses();
    r := JudgeChunk(kb, c, live, misses);
    forall x | x != c ensures Spares(old(kb.chunks), kb.chunks, x) {
      RowsApart(old(kb.chunks.fwd), kb.chunks.fwd, c, x);
    }
  }

  lemma SparedStaysGone(ch: ChunkData, ch': ChunkData, c: Chunk)
    requires Paired(ch') && Gone(ch, c) && Spares(ch, ch', c)
    ensures Gone(ch', c)
  {
    GoneHasNoDocs(ch, c);
    assert forall d :: (c, d) in ch'.fwd ==> d in MappedDocs(ch'.fwd, c);
  }

  /** Judges each chunk in turn; orphans go, the rest is spared. */
  method JudgeAll(kb: Node, cs: seq<Chunk>, live: seq<Version>) returns (r: Result<(), Fault>)
    requires kb.Valid() && kb.holder == Collector(Judging(set u | u in live))
    requires forall i, j :: 0 <= i < j < |cs| ==> cs[i] != cs[j]
    modifies kb
    ensures kb.Valid() && RestKept(kb)
    ensures (old(kb.misled) ==> kb.misled) && (kb.misled && !old(kb.misled) ==> kb.mayMiss)
    ensures r.Err? ==> kb.mayFail
    ensures forall c :: c !in cs ==> Spares(old(kb.chunks), kb.chunks, c)
    ensures !kb.misled ==>
      forall c :: !Orphan(old(kb.chunks.fwd), kb.docs.records, c, set u | u in live) ==> Spares(old(kb.chunks), kb.chunks, c)
    ensures r.Ok? ==> forall c :: c in cs && Orphan(old(kb.chunks.fwd), kb.docs.records, c, set u | u in live) ==> Gone(kb.chunks, c)
  {
    ghost var ch0 := kb.chunks;
    var i := 0;
    while i < |cs|
      invariant 0 <= i <= |cs|
      invariant kb.Valid() && kb.holder == old(kb.holder) && RestKept(kb)
      invariant (old(kb.misled) ==> kb.misled) && (kb.misled && !old(kb.misled) ==> kb.mayMiss)
      invariant forall c :: c !in cs[..i] ==> Spares(ch0, kb.chunks, c)
      invariant !kb.misled ==>
        forall c :: !Orphan(old(kb.chunks.fwd), kb.docs.records, c, set u | u in live) ==> Spares(ch0, kb.chunks, c)
      invariant forall c :: c in cs[..i] && Orphan(old(kb.chunks.fwd), kb.docs.records, c, set u | u in live) ==> Gone(kb.chunks, c)
    {
      ghost var ch1 := kb.chunks;
      assert cs[i] !in cs[..i];
      assert Orphan(ch1.fwd, kb.docs.records, cs[i], set u | u in live) ==
             Orphan(ch0.fwd, kb.docs.records, cs[i], set u | u in live);
      var done := JudgeOne(kb, cs[i], live);
      assert cs[..i + 1] == cs[..i] + [cs[i]];
      forall c | c !in cs[..i + 1] ensures Spares(ch0, kb.chunks, c) {
        assert Spares(ch0, ch1, c) && Spares(ch1, kb.chunks, c);
      }
      forall c | !kb.misled && !Orphan(ch0.fwd, kb.docs.records, c, set u | u in live) ensures Spares(ch0, kb.chunks, c) {
        assert Spares(ch0, ch1, c) && Spares(ch1, kb.chunks, c);
      }
      if done.Err? { return Err(done.error); }
      forall c | c in cs[..i] && Orphan(old(kb.chunks.fwd), kb.docs.records, c, set u | u in live) ensures Gone(kb.chunks, c) {
        SparedStaysGone(ch1, kb.chunks, c);
      }
      i := i + 1;
    }
    assert cs[..|cs|] == cs;
    r := Ok(());
  }

  /** A chunk mapped to a document some live version reads text for is no orphan. */
  lemma ReadIsNoOrphan(fwd: set<(Chunk, Doc)>, cat: Catalog, r: Records, u: Version, d: Doc, x: string, c: Chunk)
    requires u in cat.metas && !cat.metas[u].deleting && ReadAt(r, d, u) == Some(Content(x)) && x != "" && (c, d) in fwd
    ensures !Orphan(fwd, r, c, LiveSet(cat))
  {
    LooksOrphanIff(fwd, r, c, LiveSet(cat), {});
    assert u in LiveSet(cat);
  }

  lemma SparedIs(ch: ChunkData, ch': ChunkData, c: Chunk)
    requires Spares(ch, ch', c)
    ensures forall e :: (c, e) in ch'.fwd <==> (c, e) in ch.fwd
  {
    MappedIff(ch.fwd, c);
    MappedIff(ch'.fwd, c);
  }

  /** Sparing all that are no orphans is leaving every chunk of a document some live version reads text for. */
  lemma ReadChunksSpared(cat: Catalog, r: Records, ch: ChunkData, ch': ChunkData)
    requires forall c :: !Orphan(ch.fwd, r, c, LiveSet(cat)) ==> Spares(ch, ch', c)
    ensures forall u, d, x, c ::
      u in cat.metas && !cat.metas[u].deleting && ReadAt(r, d, u) == Some(Content(x)) && x != "" && (c, d) in ch.fwd ==>
        (c in ch'.vectors <==> c in ch.vectors) && forall e :: (c, e) in ch'.fwd <==> (c, e) in ch.fwd
  {
    forall u, d, x, c
      | u in cat.metas && !cat.metas[u].deleting && ReadAt(r, d, u) == Some(Content(x)) && x != "" && (c, d) in ch.fwd
      ensures c in ch'.vectors <==> c in ch.vectors
      ensures forall e :: (c, e) in ch'.fwd <==> (c, e) in ch.fwd
    {
      ReadIsNoOrphan(ch.fwd, cat, r, u, d, x, c);
      SparedIs(ch, ch', c);
    }
  }

  /**
    The event-driven reclaim: judges every chunk of the deleted version's documents against
    the versions that stay live. On success each orphan among them is gone; a chunk some
    live version reads is never touched, not even when the pass fails half way.
  */
  method ReclaimVersionChunks(kb: Node, v: Version) returns (r: Result<(), Fault>)
    requires kb.Valid() && kb.holder.Free? && !Live(kb.cat, v) && v < kb.cat.tail
    modifies kb
    ensures kb.Valid() && kb.holder.Free? && RestKept(kb)
    ensures (old(kb.misled) ==> kb.misled) && (kb.misled && !old(kb.misled) ==> kb.mayMiss) && (r.Err? ==> kb.mayFail)
    ensures !kb.misled ==> forall u, d, x, c ::
      u in kb.cat.metas && !kb.cat.metas[u].deleting && ReadAt(kb.docs.records, d, u) == Some(Content(x)) && x != "" &&
      (c, d) in old(kb.chunks.fwd) ==>
        (c in kb.chunks.vectors <==> c in old(kb.chunks.vectors)) &&
        forall e :: (c, e) in kb.chunks.fwd <==> (c, e) in old(kb.chunks.fwd)
    ensures r.Ok? ==> forall e, c ::
      v in kb.docs.lists && e in kb.docs.lists[v] && (e, c) in old(kb.chunks.rev) &&
      Orphan(old(kb.chunks.fwd), kb.docs.records, c, LiveSet(kb.cat)) ==>
        c !in kb.chunks.vectors && forall d :: (c, d) !in kb.chunks.fwd && (d, c) !in kb.chunks.rev
  {
    r := ReclaimOrphansOf(kb, v);
    if !kb.misled {
      ReadChunksSpared(kb.cat, kb.docs.records, old(kb.chunks), kb.chunks);
    }
    forall e, c
      | r.Ok? && v in kb.docs.lists && e in kb.docs.lists[v] && (e, c) in old(kb.chunks.rev) &&
        Orphan(old(kb.chunks.fwd), kb.docs.records, c, LiveSet(kb.cat))
      ensures c !in kb.chunks.vectors && forall d :: (c, d) !in kb.chunks.fwd && (d, c) !in kb.chunks.rev
    {
      assert e in ListOf(kb.docs.lists, v) && NamedBy(kb.docs.lists, old(kb.chunks.rev), v, c);
      assert Gone(kb.chunks, c);
    }
  }

  /** The same, in terms of orphans. */
  method ReclaimOrphansOf(kb: Node, v: Version) returns (r: Result<(), Fault>)
    requires kb.Valid() && kb.holder.Free? && !Live(kb.cat, v) && v < kb.cat.tail
    modifies kb
    ensures kb.Valid() && kb.holder.Free? && RestKept(kb) && (old(kb.misled) ==> kb.misled)
    ensures (kb.misled && !old(kb.misled) ==> kb.mayMiss) && (r.Err? ==> kb.mayFail)
    ensures !kb.misled ==>
      forall c :: !Orphan(old(kb.chunks.fwd), kb.docs.records, c, LiveSet(kb.cat)) ==> Spares(old(kb.chunks), kb.chunks, c)
    ensures r.Ok? ==> forall c ::
              NamedBy(kb.docs.lists, old(kb.chunks.rev), v, c) &&
              Orphan(old(kb.chunks.fwd), kb.docs.records, c, LiveSet(kb.cat))
              ==> Gone(kb.chunks, c)
  {
    var ids := kb.ReadList(v);
    if ids.Err? { return Err(ids.error); }
    if ids.value == {} { return Ok(()); }
    var candidates := kb.ListChunkIDsByDocs(ids.value);
    if candidates.Err? { return Err(candidates.error); }
    assert forall c :: NamedBy(kb.docs.lists, kb.chunks.rev, v, c) ==> c in candidates.value;
    if |candidates.value| == 0 { return Ok(()); }

    kb.Collect(ReclaimLock(v));
    var chain := LiveVersionIDs(kb, v);
    if chain.Err? {
      kb.Release();
      return Err(chain.error);
    }
    assert (set u | u in chain.value) == LiveSet(kb.cat);
    kb.Collect(ReadChain);
    assert kb.holder == Collector(Judging(LiveSet(kb.cat)));
    r := JudgeAll(kb, candidates.value, chain.value);
    kb.Release();
  }

  /** The version's document list names the chunk, through the reverse mapping. */
  ghost predicate NamedBy(lists: map<Version, set<Doc>>, rev: set<(Doc, Chunk)>, v: Version, c: Chunk) {
    exists d :: d in ListOf(lists, v) && (d, c) in rev
  }

  /**
    One sweep of the knowledge base, with nothing else running. On success every chunk whose
    documents no live version reads is gone, and nothing a live version reads was touched.
  */
  method SweepKB(kb: Node) returns (r: Result<(), Fault>)
    requires kb.Valid() && kb.holder.Free?
    modifies kb
    ensures kb.Valid() && kb.holder.Free? && kb.cat == old(kb.cat) && kb.docs == old(kb.docs) && kb.drops == old(kb.drops)
    ensures (old(kb.misled) ==> kb.misled) && (kb.misled && !old(kb.misled) ==> kb.mayMiss) && (r.Err? ==> kb.mayFail)
    ensures !kb.misled ==> forall u, d, x, c ::
      u in kb.cat.metas && !kb.cat.metas[u].deleting && ReadAt(kb.docs.records, d, u) == Some(Content(x)) && x != "" &&
      (c, d) in old(kb.chunks.fwd) ==>
        (c in kb.chunks.vectors <==> c in old(kb.chunks.vectors)) &&
        forall e :: (c, e) in kb.chunks.fwd <==> (c, e) in old(kb.chunks.fwd)
    ensures r.Ok? && kb.cat.tail != 0 ==> forall c :: Orphan(old(kb.chunks.fwd), kb.docs.records, c, LiveSet(kb.cat)) ==>
      c !in kb.chunks.vectors && forall d :: (c, d) !in kb.chunks.fwd && (d, c) !in kb.chunks.rev
  {
    r := SweepOrphans(kb);
    if !kb.misled {
      ReadChunksSpared(kb.cat, kb.docs.records, old(kb.chunks), kb.chunks);
    }
    if r.Ok? && kb.cat.tail != 0 {
      assert kb.cat.tail in LiveSet(kb.cat);
      forall c | Orphan(old(kb.chunks.fwd), kb.docs.records, c, LiveSet(kb.cat))
        ensures c !in kb.chunks.vectors && forall d :: (c, d) !in kb.chunks.fwd && (d, c) !in kb.chunks.rev
      {
        assert Gone(kb.chunks, c);
      }
    }
  }

  /** The same, in terms of orphans. */
  method SweepOrphans(kb: Node) returns (r: Result<(), Fault>)
    requires kb.Valid() && kb.holder.Free?
    modifies kb
    ensures kb.Valid() && kb.holder.Free?
    ensures kb.cat == old(kb.cat) && kb.docs == old(kb.docs) && kb.drops == old(kb.drops) && (old(kb.misled) ==> kb.misled)
    ensures (kb.misled && !old(kb.misled) ==> kb.mayMiss) && (r.Err? ==> kb.mayFail)
    ensures !kb.misled ==>
      forall c :: !Orphan(old(kb.chunks.fwd), kb.docs.records, c, LiveSet(kb.cat)) ==> Spares(old(kb.chunks), kb.chunks, c)
    ensures r.Ok? && LiveSet(kb.cat) != {} ==>
              forall c :: Orphan(old(kb.chunks.fwd), kb.docs.records, c, LiveSet(kb.cat)) ==> Gone(kb.chunks, c)
  {
    var chain := LiveVersionIDs(kb, 0);
    if chain.Err? { return Err(chain.error); }
    var snapshot := chain.value;
    assert (set u | u in snapshot) == LiveSet(kb.cat);
    if |snapshot| == 0 {
      assert LiveSet(kb.cat) == {};
      return Ok(());
    }
    ghost var last := snapshot[|snapshot| - 1];
    assert last in snapshot && kb.cat.tail in LiveSet(kb.cat);
    assert last == kb.cat.tail;
    kb.Collect(TakeSnapshot(last));
    assert AsSnapshot(snapshot) == Snapshot(LiveSet(kb.cat), last);
    var candidates := kb.ListChunkIDs();
    if candidates.Err? { return Err(candidates.error); }
    r := SweepAll(kb, candidates.value, snapshot);
    forall c | Orphan(old(kb.chunks.fwd), kb.docs.records, c, LiveSet(kb.cat)) && r.Ok? ensures Gone(kb.chunks, c) {
      assert c in candidates.value;
    }
  }

  method SweepAll(kb: Node, cs: seq<Chunk>, snapshot: seq<Version>) returns (r: Result<(), Fault>)
    requires kb.Valid() && kb.holder.Free? && snapshot != [] && AsSnapshot(snapshot) in kb.snapshots
    requires snapshot[|snapshot| - 1] == kb.cat.tail
    requires forall i, j :: 0 <= i < j < |cs| ==> cs[i] != cs[j]
    modifies kb
    ensures kb.Valid() && kb.holder.Free? && RestKept(kb)
    ensures (old(kb.misled) ==> kb.misled) && (kb.misled && !old(kb.misled) ==> kb.mayMiss)
    ensures r.Err? ==> kb.mayFail
    ensures forall c :: c !in cs ==> Spares(old(kb.chunks), kb.chunks, c)
    ensures !kb.misled ==>
      forall c :: !Orphan(old(kb.chunks.fwd), kb.docs.records, c, set u | u in snapshot) ==> Spares(old(kb.chunks), kb.chunks, c)
    ensures r.Ok? ==> forall c :: c in cs && Orphan(old(kb.chunks.fwd), kb.docs.records, c, set u | u in snapshot) ==> Gone(kb.chunks, c)
  {
    ghost var ch0 := kb.chunks;
    var i := 0;
    while i < |cs|
      invariant 0 <= i <= |cs|
      invariant kb.Valid() && kb.holder.Free? && RestKept(kb)
      invariant (old(kb.misled) ==> kb.misled) && (kb.misled && !old(kb.misled) ==> kb.mayMiss)
      invariant forall c :: c !in cs[..i] ==> Spares(ch0, kb.chunks, c)
      invariant !kb.misled ==>
        forall c :: !Orphan(old(kb.chunks.fwd), kb.docs.records, c, set u | u in snapshot) ==> Spares(ch0, kb.chunks, c)
      invariant forall c :: c in cs[..i] && Orphan(old(kb.chunks.fwd), kb.docs.records, c, set u | u in snapshot) ==> Gone(kb.chunks, c)
    {
      ghost var ch1 := kb.chunks;
      assert cs[i] !in cs[..i];
      assert Orphan(ch1.fwd, kb.docs.records, cs[i], set u | u in snapshot) ==
             Orphan(ch0.fwd, kb.docs.records, cs[i], set u | u in snapshot);
      var done := SweepOne(kb, cs[i], snapshot);
      assert cs[..i + 1] == cs[..i] + [cs[i]];
      forall c | c !in cs[..i + 1] ensures Spares(ch0, kb.chunks, c) {
        assert Spares(ch0, ch1, c) && Spares(ch1, kb.chunks, c);
      }
      forall c | !kb.misled && !Orphan(ch0.fwd, kb.docs.records, c, set u | u in snapshot) ensures Spares(ch0, kb.chunks, c) {
        assert Spares(ch0, ch1, c) && Spares(ch1, kb.chunks, c);
      }
      if done.Err? { return Err(done.error); }
      forall c | c in cs[..i] && Orphan(old(kb.chunks.fwd), kb.docs.records, c, set u | u in snapshot) ensures Gone(kb.chunks, c) {
        SparedStaysGone(ch1, kb.chunks, c);
      }
      i := i + 1;
    }
    assert cs[..|cs|] == cs;
    r := Ok(());
  }

  /** The lock-free first pass on one chunk, and the locked reclaim of a candidate. */
  method SweepOne(kb: Node, c: Chunk, snapshot: seq<Version>) returns (r: Result<(), Fault>)
    requires kb.Valid() && kb.holder.Free? && snapshot != [] && AsSnapshot(snapshot) in kb.snapshots
    requires snapshot[|snapshot| - 1] == kb.cat.tail
    modifies kb
    ensures kb.Valid() && kb.holder.Free? && RestKept(kb)
    ensures forall x :: x != c ==> Spares(old(kb.chunks), kb.chunks, x)
    ensures (old(kb.misled) ==> kb.misled) && (kb.misled && !old(kb.misled) ==> kb.mayMiss)
    ensures r.Err? ==> kb.mayFail
    ensures !kb.misled && !Orphan(old(kb.chunks.fwd), kb.docs.records, c, set u | u in snapshot) ==> Spares(old(kb.chunks), kb.chunks, c)
    ensures r.Ok? && Orphan(old(kb.chunks.fwd), kb.docs.records, c, set u | u in snapshot) ==> Gone(kb.chunks, c)
  {
    var misses := kb.Misses();
    var verdict := Verdict(kb, c, snapshot, misses);
    if verdict.Err? { return Err(verdict.error); }
    if verdict.value.None? { return Ok(()); }
    misses := kb.Misses();
    var done := ReclaimOrphan(kb, c, snapshot, misses);
    forall x | x != c ensures Spares(old(kb.chunks), kb.chunks, x) {
      RowsApart(old(kb.chunks.fwd), kb.chunks.fwd, c, x);
    }
    r := if done.Ok? then Ok(()) else Err(done.error);
  }
}
