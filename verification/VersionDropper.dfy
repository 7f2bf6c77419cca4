/**
  Reclaiming a deleted version's data: its chunks while its document list still names
  them, then the list, then the records no surviving later version reads.
*/
module VersionDropper {
  import opened Basics
  import opened Mvcc
  import opened Storage
  import opened StorageProofs
  import opened KbNode
  import opened ChunkGc

  /** The smallest surviving version above `v`, or 0. */
  method VisibilityAnchor(kb: Node, v: Version) returns (r: Result<Version, Fault>)
    requires forall u :: u in kb.cat.metas ==> u >= 1
    ensures r.Ok? && r.value != 0 ==> r.value in kb.cat.metas && !kb.cat.metas[r.value].deleting && r.value > v
    ensures r.Ok? ==> forall u :: u in kb.cat.metas && !kb.cat.metas[u].deleting && u > v ==> r.value != 0 && r.value <= u
    ensures r.Ok? ==> IsAnchor(LiveSet(kb.cat), v, r.value)
    ensures r.Err? ==> kb.mayFail
  {
    var versions := kb.ListVersions();
    if versions.Err? { return Err(versions.error); }
    var vs := versions.value;
    var anchor := 0;
    for i := 0 to |vs|
      invariant anchor != 0 ==> anchor in vs[..i] && Live(kb.cat, anchor) && anchor > v
      invariant forall u :: u in vs[..i] && Live(kb.cat, u) && u > v ==> anchor != 0 && u >= anchor
    {
      if kb.cat.metas[vs[i]].deleting || vs[i] <= v { continue; }
      if anchor == 0 || vs[i] < anchor {
        anchor := vs[i];
      }
    }
    assert vs[..|vs|] == vs;
    r := Ok(anchor);
  }

  lemma DoomedIsTheRest(r: Records, p: Drop)
    requires p.anchor != 0
    requires forall d :: d in p.doomed <==> (d, p.version) in r && Visible(r, d, p.anchor) != Some(p.version)
    ensures WithoutDoomed(r, p) == DropExceptVisible(r, p.version, p.anchor)
  {
  }

  /** The documents whose record at `v` a read at the anchor does not resolve to. */
  method CollectDoomed(r: Records, owners: seq<Doc>, v: Version, anchor: Version) returns (doomed: set<Doc>)
    ensures forall d :: d in doomed <==> d in owners && Visible(r, d, anchor) != Some(v)
  {
    doomed := {};
    for i := 0 to |owners|
      invariant forall d :: d in doomed <==> d in owners[..i] && Visible(r, d, anchor) != Some(v)
    {
      if Visible(r, owners[i], anchor) == Some(v) { continue; }
      doomed := doomed + {owners[i]};
    }
  }

  /**
    Deletes the records of `v` that a read at the anchor does not resolve to: collects them
    first, then commits the deletes as one batch.
  */
  method DeleteByVersionExceptVisibleFrom(kb: Node, v: Version, anchor: Version, ghost id: nat) returns (ok: bool)
    requires kb.Valid() && ChainEnabled(kb.M(), DropStart(id, v, anchor))
    modifies kb`docs, kb`drops
    ensures kb.Valid() && kb.drops == old(kb.drops) && kb.docs.lists == old(kb.docs.lists)
    ensures kb.docs.records == if ok then DropExceptVisible(old(kb.docs.records), v, anchor) else old(kb.docs.records)
    ensures !ok ==> kb.mayFail
  {
    var r := kb.docs.records;
    var owners := Enumerate(set k | k in r && k.1 == v :: k.0);
    assert forall d :: d in owners <==> (d, v) in r;
    var doomed := CollectDoomed(r, owners, v, anchor);
    ok := RunDrop(kb, v, anchor, owners, doomed, id);
    DoomedIsTheRest(r, Drop(v, anchor, doomed));
  }

  method RunDrop(kb: Node, v: Version, anchor: Version, owners: seq<Doc>, doomed: set<Doc>, ghost id: nat)
    returns (ok: bool)
    requires kb.Valid() && ChainEnabled(kb.M(), DropStart(id, v, anchor))
    requires forall d :: d in owners ==> (d, v) in kb.docs.records
    requires forall d :: d in doomed <==> d in owners && Visible(kb.docs.records, d, anchor) != Some(v)
    modifies kb`docs, kb`drops
    ensures kb.Valid() && kb.drops == old(kb.drops) && kb.docs.lists == old(kb.docs.lists) && anchor != 0
    ensures kb.docs.records ==
              if ok then WithoutDoomed(old(kb.docs.records), Drop(v, anchor, doomed)) else old(kb.docs.records)
    ensures !ok ==> kb.mayFail
  {
    kb.PlanDrop(id, v, anchor, owners, doomed);
    ok := kb.CommitDrop(v, doomed, id);
    assert kb.drops == old(kb.drops);
  }

  /** What a drop leaves: no list, and of the version's records only the anchor's. */
  ghost predicate Dropped(docs: DocData, docs': DocData, cat: Catalog, v: Version) {
    exists anchor :: IsAnchor(LiveSet(cat), v, anchor) &&
      docs' == DocData(DropExceptVisible(docs.records, v, anchor), docs.lists - {v})
  }

  lemma OneAnchor(survivors: set<Version>, v: Version, a: Version, b: Version)
    requires IsAnchor(survivors, v, a) && IsAnchor(survivors, v, b)
    ensures a == b
  {
  }

  /** Dropping a version again against the same anchor removes nothing more. */
  lemma DropTwiceIsOnce(r: Records, v: Version, anchor: Version)
    requires anchor == 0 || v < anchor
    ensures DropExceptVisible(DropExceptVisible(r, v, anchor), v, anchor) == DropExceptVisible(r, v, anchor)
  {
    var r' := DropExceptVisible(r, v, anchor);
    if anchor != 0 {
      forall d ensures Visible(r', d, anchor) == Visible(r, d, anchor) {
        DropPreservesReads(r, v, anchor, d, anchor);
      }
    }
  }

  /**
    A drop that stopped after the list, or finished, and is run again while the same versions
    are live, ends where one drop ends.
  */
  lemma RerunEqualsOneDrop(cat: Catalog, docs: DocData, stopped: DocData, v: Version, after: DocData)
    requires stopped in {docs, docs.(lists := docs.lists - {v})} || Dropped(docs, stopped, cat, v)
    requires Dropped(stopped, after, cat, v)
    ensures Dropped(docs, after, cat, v)
  {
    var anchor :| IsAnchor(LiveSet(cat), v, anchor) &&
      after == DocData(DropExceptVisible(stopped.records, v, anchor), stopped.lists - {v});
    assert (docs.lists - {v}) - {v} == docs.lists - {v};
    if Dropped(docs, stopped, cat, v) {
      var first :| IsAnchor(LiveSet(cat), v, first) &&
        stopped == DocData(DropExceptVisible(docs.records, v, first), docs.lists - {v});
      OneAnchor(LiveSet(cat), v, first, anchor);
      DropTwiceIsOnce(docs.records, v, anchor);
    }
  }

  /** Every live version reads every document, and lists its documents, as before. */
  ghost predicate SurvivorsKept(cat: Catalog, docs: DocData, docs': DocData) {
    forall u: Version :: Live(cat, u) ==>
      ListOf(docs'.lists, u) == ListOf(docs.lists, u) &&
      forall d :: ReadAt(docs'.records, d, u) == ReadAt(docs.records, d, u)
  }

  lemma DropKeepsSurvivors(cat: Catalog, docs: DocData, v: Version, anchor: Version)
    requires ChainSound(cat) && !Live(cat, v) && v < cat.tail && IsAnchor(LiveSet(cat), v, anchor)
    ensures SurvivorsKept(cat, docs, DocData(DropExceptVisible(docs.records, v, anchor), docs.lists - {v}))
  {
    assert cat.tail in LiveSet(cat);
    forall u: Version | Live(cat, u)
      ensures forall d :: ReadAt(DropExceptVisible(docs.records, v, anchor), d, u) == ReadAt(docs.records, d, u)
    {
      assert u in LiveSet(cat);
      forall d ensures ReadAt(DropExceptVisible(docs.records, v, anchor), d, u) == ReadAt(docs.records, d, u) {
        DropPreservesReads(docs.records, v, anchor, d, u);
      }
    }
  }

  /** The anchor reads a record of the dropped version exactly when some live version does. */
  lemma AnchorReadsForAll(cat: Catalog, r: Records, v: Version, anchor: Version, d: Doc)
    requires !Live(cat, v) && IsAnchor(LiveSet(cat), v, anchor)
    ensures (anchor != 0 && Visible(r, d, anchor) == Some(v)) <==>
      exists u :: u in cat.metas && !cat.metas[u].deleting && Visible(r, d, u) == Some(v)
  {
    if u :| u in cat.metas && !cat.metas[u].deleting && Visible(r, d, u) == Some(v) {
      assert u in LiveSet(cat);
      VisibleIsNewest(r, d, u);
      VisibleIs(r, d, anchor, v);
    }
    if anchor != 0 && Visible(r, d, anchor) == Some(v) {
      assert anchor in LiveSet(cat);
    }
  }

  /** What a drop leaves of the records, without naming an anchor. */
  lemma DroppedRecords(cat: Catalog, docs: DocData, docs': DocData, v: Version, d: Doc)
    requires !Live(cat, v) && Dropped(docs, docs', cat, v)
    ensures (d, v) in docs'.records <==>
      exists u :: u in cat.metas && !cat.metas[u].deleting && Visible(docs.records, d, u) == Some(v)
  {
    var anchor :| IsAnchor(LiveSet(cat), v, anchor) &&
      docs' == DocData(DropExceptVisible(docs.records, v, anchor), docs.lists - {v});
    AnchorReadsForAll(cat, docs.records, v, anchor, d);
  }

  /**
    Reclaims one deleted version. Whatever fails, every survivor reads and lists what it did
    before and no chunk a survivor reads is touched; on success the version's list is gone,
    of its records exactly those some survivor reads remain, and so does no chunk its list
    named that no survivor reads.
  */
  method DropVersion(kb: Node, v: Version, ghost id: nat) returns (r: Result<(), Fault>)
    requires kb.Valid() && kb.holder.Free? && !Live(kb.cat, v) && v < kb.cat.tail && id !in kb.drops
    modifies kb
    ensures kb.Valid() && kb.holder.Free? && kb.cat == old(kb.cat) && kb.drops == old(kb.drops)
    ensures (kb.misled && !old(kb.misled) ==> kb.mayMiss) && (r.Err? ==> kb.mayFail)
    ensures forall u, d :: u in kb.cat.metas && !kb.cat.metas[u].deleting ==>
      && ReadAt(kb.docs.records, d, u) == ReadAt(old(kb.docs.records), d, u)
      && (u in kb.docs.lists && d in kb.docs.lists[u] <==> u in old(kb.docs.lists) && d in old(kb.docs.lists)[u])
    ensures !kb.misled ==> forall u, d, x, c ::
      u in kb.cat.metas && !kb.cat.metas[u].deleting && ReadAt(old(kb.docs.records), d, u) == Some(Content(x)) && x != "" &&
      (c, d) in old(kb.chunks.fwd) ==>
        (c in kb.chunks.vectors <==> c in old(kb.chunks.vectors)) &&
        forall e :: (c, e) in kb.chunks.fwd <==> (c, e) in old(kb.chunks.fwd)
    ensures r.Ok? ==> v !in kb.docs.lists
    ensures forall d, w: Version :: w != v ==> ((d, w) in kb.docs.records <==> (d, w) in old(kb.docs.records))
    ensures r.Ok? ==> forall d :: (d, v) in kb.docs.records <==>
      exists u :: u in kb.cat.metas && !kb.cat.metas[u].deleting && Visible(old(kb.docs.records), d, u) == Some(v)
    ensures forall k :: k in kb.docs.records ==> k in old(kb.docs.records) && kb.docs.records[k] == old(kb.docs.records)[k]
    ensures r.Ok? ==> Dropped(old(kb.docs), kb.docs, kb.cat, v)
    ensures r.Err? ==> kb.docs in {old(kb.docs), old(kb.docs).(lists := old(kb.docs).lists - {v})}
    ensures r.Ok? ==> forall e, c ::
      v in old(kb.docs.lists) && e in old(kb.docs.lists)[v] && (e, c) in old(kb.chunks.rev) &&
      Orphan(old(kb.chunks.fwd), old(kb.docs.records), c, LiveSet(kb.cat)) ==>
        c !in kb.chunks.vectors && forall d :: (c, d) !in kb.chunks.fwd && (d, c) !in kb.chunks.rev
  {
    var reclaimed := ReclaimVersionChunks(kb, v);
    if reclaimed.Err? { return reclaimed; }
    r := DropDocuments(kb, v, id);
  }

  method DropDocuments(kb: Node, v: Version, ghost id: nat) returns (r: Result<(), Fault>)
    requires kb.Valid() && !Live(kb.cat, v) && v < kb.cat.tail && id !in kb.drops
    modifies kb`docs, kb`drops
    ensures kb.Valid() && kb.drops == old(kb.drops) && (r.Err? ==> kb.mayFail)
    ensures forall u, d :: u in kb.cat.metas && !kb.cat.metas[u].deleting ==>
      && ReadAt(kb.docs.records, d, u) == ReadAt(old(kb.docs.records), d, u)
      && (u in kb.docs.lists && d in kb.docs.lists[u] <==> u in old(kb.docs.lists) && d in old(kb.docs.lists)[u])
    ensures r.Ok? ==> v !in kb.docs.lists
    ensures forall d, w: Version :: w != v ==> ((d, w) in kb.docs.records <==> (d, w) in old(kb.docs.records))
    ensures r.Ok? ==> forall d :: (d, v) in kb.docs.records <==>
      exists u :: u in kb.cat.metas && !kb.cat.metas[u].deleting && Visible(old(kb.docs.records), d, u) == Some(v)
    ensures forall k :: k in kb.docs.records ==> k in old(kb.docs.records) && kb.docs.records[k] == old(kb.docs.records)[k]
    ensures r.Ok? ==> Dropped(old(kb.docs), kb.docs, kb.cat, v)
    ensures r.Err? ==> kb.docs in {old(kb.docs), old(kb.docs).(lists := old(kb.docs).lists - {v})}
  {
    r := DropListAndRecords(kb, v, id);
    ghost var was, now := old(kb.docs), kb.docs;
    forall u, d | u in kb.cat.metas && !kb.cat.metas[u].deleting
      ensures ReadAt(now.records, d, u) == ReadAt(was.records, d, u)
      ensures u in now.lists && d in now.lists[u] <==> u in was.lists && d in was.lists[u]
    {
      assert Live(kb.cat, u) && ListOf(now.lists, u) == ListOf(was.lists, u);
      assert d in ListOf(now.lists, u) <==> d in ListOf(was.lists, u);
    }
    if r.Ok? {
      forall d
        ensures (d, v) in now.records <==>
          exists u :: u in kb.cat.metas && !kb.cat.metas[u].deleting && Visible(was.records, d, u) == Some(v)
      {
        DroppedRecords(kb.cat, was, now, v, d);
      }
    }
  }

  method DropListAndRecords(kb: Node, v: Version, ghost id: nat) returns (r: Result<(), Fault>)
    requires kb.Valid() && !Live(kb.cat, v) && v < kb.cat.tail && id !in kb.drops
    modifies kb`docs, kb`drops
    ensures kb.Valid() && kb.drops == old(kb.drops) && (r.Err? ==> kb.mayFail)
    ensures SurvivorsKept(kb.cat, old(kb.docs), kb.docs)
    ensures r.Ok? ==> Dropped(old(kb.docs), kb.docs, kb.cat, v)
    ensures r.Err? ==> kb.docs in {old(kb.docs), old(kb.docs).(lists := old(kb.docs).lists - {v})}
  {
    var ok := kb.DeleteList(v);
    if !ok { return Err(StoreFailed); }
    var anchor := VisibilityAnchor(kb, v);
    if anchor.Err? { return Err(anchor.error); }
    ok := DeleteByVersionExceptVisibleFrom(kb, v, anchor.value, id);
    DropKeepsSurvivors(kb.cat, old(kb.docs), v, anchor.value);
    if !ok { return Err(StoreFailed); }
    r := Ok(());
  }
}
