/**
  The storage machine keeps its invariant on every step, hence on every run. One group
  of lemmas per step that touches versions, records or lists; then the writer's and the
  collector's steps; then whole runs.
*/
module StorageProofs {
  import opened Basics
  import opened Mvcc
  import opened Storage

  // ------------------------------------------------------------ reads that do not move

  /** Every version live afterwards was live before and reads the same. */
  ghost predicate ReadsKept(cat: Catalog, r: Records, cat': Catalog, r': Records) {
    forall u: Version :: Live(cat', u) ==> Live(cat, u) && forall d :: Visible(r', d, u) == Visible(r, d, u)
  }

  /** Records only go away, never change. */
  ghost predicate Shrunk(r: Records, r': Records) {
    forall k :: k in r' ==> k in r && r'[k] == r[k]
  }

  lemma KeptReadable(cat: Catalog, r: Records, cat': Catalog, r': Records, d: Doc, u: Version)
    requires ReadsKept(cat, r, cat', r') && Shrunk(r, r') && Live(cat', u)
    ensures ReadAt(r', d, u) == ReadAt(r, d, u)
    ensures Alive(r', d, u) == Alive(r, d, u) && Readable(r', d, u) == Readable(r, d, u)
  {
    assert Visible(r', d, u) == Visible(r, d, u);
  }

  lemma DropsKept(cat: Catalog, r: Records, cat': Catalog, r': Records, drops: map<nat, Drop>)
    requires DropsSound(cat, r, drops) && ReadsKept(cat, r, cat', r') && cat'.tail == cat.tail
    ensures DropsSound(cat', r', drops)
  {
    forall id | id in drops ensures DropSound(cat', r', drops[id]) {
      assert DropSound(cat, r, drops[id]);
    }
  }

  lemma SnapshotsKept(cat: Catalog, cat': Catalog, snaps: set<Snapshot>)
    requires SnapshotsSound(cat, snaps) && cat'.next >= cat.next && (cat.tail != 0 ==> cat'.tail != 0)
    requires forall u: Version :: Live(cat', u) ==> Live(cat, u) || u >= cat.next
    ensures SnapshotsSound(cat', snaps)
  {
    forall snap | snap in snaps ensures SnapshotSound(cat', snap) {
      assert SnapshotSound(cat, snap);
    }
  }

  lemma CoversKept(cat: Catalog, r: Records, cat': Catalog, r': Records, live: set<Version>)
    requires Covers(cat, r, live) && Shrunk(r, r') && cat'.tail == cat.tail && cat'.next == cat.next
    requires forall u: Version :: Live(cat', u) ==> Live(cat, u) && cat'.metas[u] == cat.metas[u]
    requires Open(cat) && Live(cat, TailMeta(cat).base) ==> Live(cat', TailMeta(cat).base)
    requires cat.tail in cat.metas ==> Live(cat', cat.tail)
    ensures Covers(cat', r', live)
  {
    forall u: Version | Live(cat', u) ensures u in live || Untouched(cat', r', u, live) {
      if u !in live { assert Untouched(cat, r, u, live); }
    }
  }

  lemma JudgeKept(cat: Catalog, r: Records, cat': Catalog, r': Records, j: Judge)
    requires JudgeSound(cat, r, j) && ReadsKept(cat, r, cat', r') && Shrunk(r, r')
    requires cat'.tail == cat.tail && cat'.next == cat.next
    requires forall u: Version :: Live(cat', u) ==> Live(cat, u) && cat'.metas[u] == cat.metas[u]
    requires Open(cat) && Live(cat, TailMeta(cat).base) ==> Live(cat', TailMeta(cat).base)
    requires cat.tail in cat.metas ==> Live(cat', cat.tail)
    ensures JudgeSound(cat', r', j)
  {
    if j.Judging? || j.Checking? || j.Erasing? { CoversKept(cat, r, cat', r', j.live); }
    forall d: Doc, u: Version | Live(cat', u) ensures Readable(r', d, u) == Readable(r, d, u) {
      KeptReadable(cat, r, cat', r', d, u);
    }
    if j.Erasing? {
      forall d | d in j.docs ensures Unread(cat', r', d) {
        assert Unread(cat, r, d);
      }
    }
  }

  lemma SafeKept(split: Splitter, cat: Catalog, r: Records, cat': Catalog, r': Records, ch: ChunkData)
    requires Safe(split, cat, r, ch) && ReadsKept(cat, r, cat', r') && Shrunk(r, r')
    requires cat'.tail == cat.tail && Open(cat') == Open(cat)
    ensures Safe(split, cat', r', ch)
  {
    forall u: Version, d, c | !ch.misled && Needs(split, cat', r', u, d, c)
      ensures Held(cat', ch, Visible(r', d, u).value, d, c)
    {
      KeptReadable(cat, r, cat', r', d, u);
      assert Needs(split, cat, r, u, d, c);
    }
  }

  // ------------------------------------------------------------ metadata steps

  lemma MarkDeletingKeepsInv(s: State, v: Version)
    requires Inv(s) && ChainEnabled(s, MarkDeleting(v))
    ensures Inv(ChainApply(s, MarkDeleting(v)))
  {
    var cat, r := s.cat, s.docs.records;
    var cat' := cat.(metas := cat.metas[v := cat.metas[v].(deleting := true)]);
    assert cat'.tail in cat'.metas;
    assert forall u: Version :: Live(cat', u) <==> Live(cat, u) && u != v;
    HideMetaKeepsInv(s, cat');
  }

  lemma RemoveMetaKeepsInv(s: State, v: Version)
    requires Inv(s) && ChainEnabled(s, RemoveMeta(v))
    ensures Inv(ChainApply(s, RemoveMeta(v)))
  {
    var cat' := s.cat.(metas := s.cat.metas - {v});
    assert cat'.tail in cat'.metas;
    assert forall u: Version :: Live(cat', u) <==> Live(s.cat, u);
    HideMetaKeepsInv(s, cat');
  }

  /** Any shrinking of the live versions that spares the tail and an open tail's base. */
  lemma HideMetaKeepsInv(s: State, cat': Catalog)
    requires Inv(s) && ChainSound(cat')
    requires cat'.tail == s.cat.tail && cat'.next == s.cat.next
    requires forall u: Version :: u in cat'.metas ==> u in s.cat.metas
    requires forall u: Version :: Live(cat', u) ==> Live(s.cat, u) && cat'.metas[u] == s.cat.metas[u]
    requires Open(s.cat) && Live(s.cat, TailMeta(s.cat).base) ==> Live(cat', TailMeta(s.cat).base)
    requires s.cat.tail in s.cat.metas ==> Live(cat', s.cat.tail)
    ensures Inv(s.(cat := cat'))
  {
    var cat, r := s.cat, s.docs.records;
    assert Open(cat') == Open(cat);
    DropsKept(cat, r, cat', r, s.drops);
    SnapshotsKept(cat, cat', s.snapshots);
    SafeKept(s.split, cat, r, cat', r, s.chunks);
    match s.holder
    case Free =>
    case Writer(w) =>
    case Collector(j) => if !s.chunks.misled { JudgeKept(cat, r, cat', r, j); }
  }

  lemma DropsNeedTail(cat: Catalog, r: Records, drops: map<nat, Drop>)
    requires DropsSound(cat, r, drops)
    ensures cat.tail != 0 || drops == map[]
  {
    if drops != map[] {
      var id :| id in drops;
      assert DropSound(cat, r, drops[id]);
    }
  }

  lemma AllocateKeepsDrops(cat: Catalog, cat': Catalog, docs: DocData, drops: map<nat, Drop>)
    requires ChainSound(cat) && DataSound(cat, docs) && DropsSound(cat, docs.records, drops)
    requires cat'.tail >= cat.next && (cat.tail != 0 || drops == map[])
    requires forall v: Version :: Live(cat', v) <==> Live(cat, v) || v == cat'.tail
    ensures DropsSound(cat', docs.records, drops)
  {
    var n := cat'.tail;
    forall id | id in drops ensures DropSound(cat', docs.records, drops[id]) {
      var p := drops[id];
      assert DropSound(cat, docs.records, p);
      forall d | d in p.doomed ensures Visible(docs.records, d, n) != Some(p.version) {
        VisibleGap(docs.records, d, cat.tail, n);
      }
    }
  }

  lemma AllocateKeepsJudge(cat: Catalog, cat': Catalog, docs: DocData, j: Judge)
    requires ChainSound(cat) && DataSound(cat, docs) && JudgeSound(cat, docs.records, j)
    requires cat'.tail >= cat.next && cat'.next > cat'.tail && !Open(cat) && Open(cat') && cat.tail != 0
    requires TailMeta(cat').base == cat.tail
    requires forall v: Version :: Live(cat', v) <==> Live(cat, v) || v == cat'.tail
    ensures JudgeSound(cat', docs.records, j)
  {
    var n, r := cat'.tail, docs.records;
    if j.Judging? || j.Checking? || j.Erasing? {
      assert cat.tail in j.live;
      assert Untouched(cat', r, n, j.live);
      assert Covers(cat', r, j.live);
    }
    forall d ensures Readable(r, d, n) == Readable(r, d, cat.tail) { VisibleGap(r, d, cat.tail, n); }
    if j.Checking? {
      assert forall d, u :: (d, u) in j.checked && Live(cat, u) ==> !Readable(r, d, u);
    }
    if j.Erasing? {
      forall d | d in j.docs ensures Unread(cat', r, d) { assert Unread(cat, r, d); }
    }
  }

  lemma AllocateKeepsSafe(split: Splitter, cat: Catalog, cat': Catalog, docs: DocData, ch: ChunkData)
    requires ChainSound(cat) && DataSound(cat, docs) && Safe(split, cat, docs.records, ch)
    requires cat'.tail >= cat.next && !Open(cat)
    requires forall v: Version :: Live(cat', v) <==> Live(cat, v) || v == cat'.tail
    ensures Safe(split, cat', docs.records, ch)
  {
    var n, r := cat'.tail, docs.records;
    forall u: Version, d, c | !ch.misled && Needs(split, cat', r, u, d, c)
      ensures Held(cat', ch, Visible(r, d, u).value, d, c)
    {
      if u == n {
        // Nothing is written for the new version yet: it reads what the old tail reads.
        VisibleGap(r, d, cat.tail, n);
        assert cat.tail != 0;
        assert Needs(split, cat, r, cat.tail, d, c);
      } else {
        assert Needs(split, cat, r, u, d, c);
      }
    }
  }

  lemma AllocateKeepsChain(cat: Catalog, docs: DocData, n: Version, changes: map<Doc, Value>)
    requires ChainSound(cat) && DataSound(cat, docs) && ViewsAgree(cat, docs) && !Open(cat) && n >= cat.next
    ensures var cat' := Catalog(n + 1, n, cat.metas[n := Meta(cat.tail, changes, false, false)]);
      && ChainSound(cat') && DataSound(cat', docs) && OpenTailSound(cat', docs) && ViewsAgree(cat', docs)
      && (forall v: Version :: Live(cat', v) <==> Live(cat, v) || v == n)
  {
    var cat' := Catalog(n + 1, n, cat.metas[n := Meta(cat.tail, changes, false, false)]);
    assert n in cat'.metas;
  }

  lemma AllocateKeepsWatchers(cat: Catalog, cat': Catalog, docs: DocData, drops: map<nat, Drop>, snaps: set<Snapshot>)
    requires ChainSound(cat) && DataSound(cat, docs) && DropsSound(cat, docs.records, drops) && SnapshotsSound(cat, snaps)
    requires cat'.tail >= cat.next && cat'.next > cat'.tail
    requires forall v: Version :: Live(cat', v) <==> Live(cat, v) || v == cat'.tail
    ensures DropsSound(cat', docs.records, drops) && SnapshotsSound(cat', snaps)
  {
    DropsNeedTail(cat, docs.records, drops);
    AllocateKeepsDrops(cat, cat', docs, drops);
    SnapshotsKept(cat, cat', snaps);
  }

  lemma AllocateKeepsHolder(split: Splitter, cat: Catalog, cat': Catalog, docs: DocData, ch: ChunkData, h: Holder)
    requires ChainSound(cat) && DataSound(cat, docs) && HolderSound(split, cat, docs, ch, h)
    requires cat'.tail >= cat.next && cat'.next > cat'.tail && !Open(cat) && Open(cat') && TailMeta(cat').base == cat.tail
    requires forall v: Version :: Live(cat', v) <==> Live(cat, v) || v == cat'.tail
    ensures HolderSound(split, cat', docs, ch, h)
  {
    if h.Collector? && !ch.misled {
      AllocateKeepsJudge(cat, cat', docs, h.judge);
    }
  }

  lemma AllocateKeepsInv(s: State, n: Version, changes: map<Doc, Value>)
    requires Inv(s) && ChainEnabled(s, Allocate(n, changes))
    ensures Inv(ChainApply(s, Allocate(n, changes)))
  {
    AllocateKeepsParts(s.split, s.cat, s.docs, s.chunks, s.holder, s.drops, s.snapshots, n, changes);
  }

  lemma AllocateKeepsParts(
    split: Splitter, cat: Catalog, docs: DocData, ch: ChunkData, h: Holder, drops: map<nat, Drop>, snaps: set<Snapshot>,
    n: Version, changes: map<Doc, Value>)
    requires ChainSound(cat) && DataSound(cat, docs) && ViewsAgree(cat, docs) && !Open(cat) && n >= cat.next
    requires DropsSound(cat, docs.records, drops) && SnapshotsSound(cat, snaps)
    requires HolderSound(split, cat, docs, ch, h) && Safe(split, cat, docs.records, ch)
    ensures var cat' := Catalog(n + 1, n, cat.metas[n := Meta(cat.tail, changes, false, false)]);
      && ChainSound(cat') && DataSound(cat', docs) && OpenTailSound(cat', docs) && ViewsAgree(cat', docs)
      && DropsSound(cat', docs.records, drops) && SnapshotsSound(cat', snaps)
      && HolderSound(split, cat', docs, ch, h) && Safe(split, cat', docs.records, ch)
  {
    var cat' := Catalog(n + 1, n, cat.metas[n := Meta(cat.tail, changes, false, false)]);
    AllocateKeepsChain(cat, docs, n, changes);
    AllocateKeepsWatchers(cat, cat', docs, drops, snaps);
    AllocateKeepsSafe(split, cat, cat', docs, ch);
    AllocateKeepsHolder(split, cat, cat', docs, ch, h);
  }

  // ------------------------------------------------------------ drops

  lemma DropListKeepsInv(s: State, v: Version)
    requires Inv(s) && ChainEnabled(s, DropList(v))
    ensures Inv(ChainApply(s, DropList(v)))
  {
    var docs := s.docs;
    var docs' := docs.(lists := docs.lists - {v});
    assert forall u: Version :: u != v ==> ListOf(docs'.lists, u) == ListOf(docs.lists, u);
    assert forall u: Version :: u != v ==> (Agree(docs', u) <==> Agree(docs, u));
    if Open(s.cat) {
      assert ListOf(docs'.lists, TailMeta(s.cat).base) == ListOf(docs.lists, TailMeta(s.cat).base);
    }
  }

  lemma DropStartKeepsInv(s: State, id: nat, v: Version, anchor: Version)
    requires Inv(s) && ChainEnabled(s, DropStart(id, v, anchor))
    ensures Inv(ChainApply(s, DropStart(id, v, anchor)))
  {
    var cat := s.cat;
    assert forall u: Version :: Live(cat, u) ==> u in LiveSet(cat);
    assert cat.tail in LiveSet(cat);
    assert DropSound(cat, s.docs.records, Drop(v, anchor, {}));
  }

  lemma DropJudgeKeepsInv(s: State, id: nat, d: Doc)
    requires Inv(s) && ChainEnabled(s, DropJudge(id, d))
    ensures Inv(ChainApply(s, DropJudge(id, d)))
  {
    var p, r := s.drops[id], s.docs.records;
    assert DropSound(s.cat, r, p);
    if Visible(r, d, p.anchor) != Some(p.version) {
      HiddenFromAnchor(s.cat, r, p, d);
    }
  }

  /** A live reader of a record would make it visible at the anchor as well. */
  lemma HiddenFromAnchor(cat: Catalog, r: Records, p: Drop, d: Doc)
    requires DropSound(cat, r, p) && (d, p.version) in r && Visible(r, d, p.anchor) != Some(p.version)
    ensures DropSound(cat, r, p.(doomed := p.doomed + {d}))
  {
    forall u: Version | Live(cat, u) ensures Visible(r, d, u) != Some(p.version) {
      if Visible(r, d, u) == Some(p.version) {
        VisibleIsNewest(r, d, u);
        VisibleIs(r, d, p.anchor, p.version);
      }
    }
  }

  lemma DoomedRemovalKeepsReads(cat: Catalog, r: Records, p: Drop)
    requires DropSound(cat, r, p)
    ensures ReadsKept(cat, r, cat, WithoutDoomed(r, p)) && Shrunk(r, WithoutDoomed(r, p))
  {
    var r' := WithoutDoomed(r, p);
    forall u: Version, d | Live(cat, u) ensures Visible(r', d, u) == Visible(r, d, u) {
      RemovalKeepsVisible(r, r', d, u);
    }
  }

  lemma RemovalKeepsViews(cat: Catalog, docs: DocData, r': Records)
    requires ViewsAgree(cat, docs) && ReadsKept(cat, docs.records, cat, r') && Shrunk(docs.records, r')
    ensures ViewsAgree(cat, docs.(records := r'))
  {
    forall v: Version | Live(cat, v) && cat.metas[v].committed ensures Agree(docs.(records := r'), v) {
      assert Agree(docs, v);
      forall d ensures Alive(r', d, v) == Alive(docs.records, d, v) {
        KeptReadable(cat, docs.records, cat, r', d, v);
      }
    }
  }

  lemma RemovalKeepsWriter(split: Splitter, cat: Catalog, docs: DocData, ch: ChunkData, w: Work, p: Drop)
    requires WriterSound(split, cat, docs, ch, w) && DropSound(cat, docs.records, p)
    ensures WriterSound(split, cat, docs.(records := WithoutDoomed(docs.records, p)), ch, w)
  {
  }

  lemma DropCommitKeepsInv(s: State, id: nat)
    requires Inv(s) && ChainEnabled(s, DropCommit(id))
    ensures Inv(ChainApply(s, DropCommit(id)))
  {
    var cat, r, p := s.cat, s.docs.records, s.drops[id];
    var r' := WithoutDoomed(r, p);
    assert DropSound(cat, r, p);
    DoomedRemovalKeepsReads(cat, r, p);
    RemovalKeepsViews(cat, s.docs, r');
    DropsKept(cat, r, cat, r', s.drops);
    SafeKept(s.split, cat, r, cat, r', s.chunks);
    match s.holder
    case Free =>
    case Writer(w) => RemovalKeepsWriter(s.split, cat, s.docs, s.chunks, w, p);
    case Collector(j) => if !s.chunks.misled { JudgeKept(cat, r, cat, r', j); }
  }

  // ------------------------------------------------------------ the writer

  /** Adding mappings or vectors, or flushing them, endangers nobody. */
  lemma GrowthKeepsSafe(split: Splitter, cat: Catalog, r: Records, ch: ChunkData, ch': ChunkData)
    requires Safe(split, cat, r, ch)
    requires ch.fwd <= ch'.fwd && ch.vectors <= ch'.vectors && ch'.tainted == ch.tainted && ch'.misled == ch.misled
    requires ch.durable <= ch'.durable || ch.vectors <= ch'.durable
    ensures Safe(split, cat, r, ch')
  {
    forall u: Version, d, c | !ch.misled && Needs(split, cat, r, u, d, c)
      ensures Held(cat, ch', Visible(r, d, u).value, d, c)
    {
      assert Held(cat, ch, Visible(r, d, u).value, d, c);
    }
  }

  lemma PutVectorKeepsInv(s: State, c: Chunk)
    requires Inv(s) && WriteEnabled(s, PutVector(c))
    ensures Inv(WriteApply(s, PutVector(c)))
  {
    GrowthKeepsSafe(s.split, s.cat, s.docs.records, s.chunks, s.chunks.(vectors := s.chunks.vectors + {c}));
  }

  lemma FlushKeepsInv(s: State)
    requires Inv(s) && WriteEnabled(s, FlushVectors)
    ensures Inv(WriteApply(s, FlushVectors))
  {
    GrowthKeepsSafe(s.split, s.cat, s.docs.records, s.chunks, s.chunks.(durable := s.chunks.vectors));
  }

  lemma PutMappingsKeepsInv(s: State, d: Doc)
    requires Inv(s) && WriteEnabled(s, PutMappings(d))
    ensures Inv(WriteApply(s, PutMappings(d)))
  {
    var cs := ChunksOf(s.split, TailMeta(s.cat).changes[d]);
    GrowthKeepsSafe(s.split, s.cat, s.docs.records, s.chunks, WithMappings(s.chunks, d, cs));
  }

  lemma PutRecordKeepsViews(cat: Catalog, docs: DocData, d: Doc, x: Value)
    requires ChainSound(cat) && ViewsAgree(cat, docs) && Open(cat)
    ensures ViewsAgree(cat, docs.(records := docs.records[(d, cat.tail) := x]))
  {
    var docs' := docs.(records := docs.records[(d, cat.tail) := x]);
    forall v: Version | Live(cat, v) && cat.metas[v].committed ensures Agree(docs', v) {
      assert Agree(docs, v);
      forall e ensures Alive(docs'.records, e, v) == Alive(docs.records, e, v) {
        WriteBelow(docs.records, d, cat.tail, x, e, v);
      }
    }
  }

  lemma PutRecordKeepsDrops(cat: Catalog, r: Records, drops: map<nat, Drop>, d: Doc, x: Value)
    requires ChainSound(cat) && DropsSound(cat, r, drops)
    ensures DropsSound(cat, r[(d, cat.tail) := x], drops)
  {
    forall id | id in drops ensures DropSound(cat, r[(d, cat.tail) := x], drops[id]) {
      var p := drops[id];
      assert DropSound(cat, r, p);
      forall e, u: Version | e in p.doomed && Live(cat, u)
        ensures Visible(r[(d, cat.tail) := x], e, u) != Some(p.version)
      {
        if e != d || u != cat.tail { WriteBelow(r, d, cat.tail, x, e, u); }
      }
    }
  }

  lemma PutRecordKeepsSafe(split: Splitter, cat: Catalog, docs: DocData, ch: ChunkData, w: Work, d: Doc)
    requires ChainSound(cat) && Safe(split, cat, docs.records, ch) && WriterSound(split, cat, docs, ch, w)
    requires d in TailMeta(cat).changes && (TailMeta(cat).changes[d].Content? ==> d in w.mapped)
    ensures Safe(split, cat, docs.records[(d, cat.tail) := TailMeta(cat).changes[d]], ch)
  {
    var r, x := docs.records, TailMeta(cat).changes[d];
    var r' := r[(d, cat.tail) := x];
    forall u: Version, e, c | !ch.misled && Needs(split, cat, r', u, e, c)
      ensures Held(cat, ch, Visible(r', e, u).value, e, c)
    {
      if e != d || u != cat.tail {
        WriteBelow(r, d, cat.tail, x, e, u);
        assert Needs(split, cat, r, u, e, c);
      } else {
        assert Visible(r', d, u) == Some(cat.tail);
      }
    }
  }

  lemma PutRecordKeepsInv(s: State, d: Doc)
    requires Inv(s) && WriteEnabled(s, PutRecord(d))
    ensures Inv(WriteApply(s, PutRecord(d)))
  {
    var x := TailMeta(s.cat).changes[d];
    PutRecordKeepsViews(s.cat, s.docs, d, x);
    PutRecordKeepsDrops(s.cat, s.docs.records, s.drops, d, x);
    PutRecordKeepsSafe(s.split, s.cat, s.docs, s.chunks, s.holder.work, d);
  }

  lemma PutListKeepsInv(s: State)
    requires Inv(s) && WriteEnabled(s, PutList)
    ensures Inv(WriteApply(s, PutList))
  {
    var cat, docs, m := s.cat, s.docs, TailMeta(s.cat);
    var full := ApplyChanges(ListOf(docs.lists, m.base), m.changes);
    assert ListOf(docs.lists, cat.tail) + full == full;
    var docs' := docs.(lists := docs.lists[cat.tail := full]);
    assert forall v: Version :: v != cat.tail ==> ListOf(docs'.lists, v) == ListOf(docs.lists, v);
    assert forall v: Version :: v != cat.tail ==> (Agree(docs', v) <==> Agree(docs, v));
  }

  /** A fully written tail lists exactly the documents its reads find. */
  lemma WrittenTailAgrees(cat: Catalog, docs: DocData)
    requires ChainSound(cat) && DataSound(cat, docs) && OpenTailSound(cat, docs) && ViewsAgree(cat, docs)
    requires Open(cat) && cat.tail in docs.lists
    requires forall d :: d in TailMeta(cat).changes ==> (d, cat.tail) in docs.records
    ensures Agree(docs, cat.tail)
  {
    var n, m, r := cat.tail, TailMeta(cat), docs.records;
    forall d ensures d in ListOf(docs.lists, n) <==> Alive(r, d, n) {
      if d in m.changes {
        VisibleIs(r, d, n, n);
      } else {
        VisibleGap(r, d, m.base, n);
        if m.base != 0 { assert Agree(docs, m.base); } else { VisibleNone(r, d, 0); }
      }
    }
  }

  /** At commit the writer's flushed chunks cover every record of the version. */
  lemma CommitKeepsSafe(split: Splitter, cat: Catalog, cat': Catalog, docs: DocData, ch: ChunkData, w: Work)
    requires ChainSound(cat) && OpenTailSound(cat, docs) && Safe(split, cat, docs.records, ch)
    requires WriterSound(split, cat, docs, ch, w) && w.flushed
    requires cat'.tail == cat.tail && !Open(cat') && forall v: Version :: Live(cat', v) == Live(cat, v)
    ensures Safe(split, cat', docs.records, ch.(tainted := false))
  {
    var r := docs.records;
    forall u: Version, d, c | !ch.misled && Needs(split, cat', r, u, d, c)
      ensures Held(cat', ch.(tainted := false), Visible(r, d, u).value, d, c)
    {
      assert Needs(split, cat, r, u, d, c);
      var v := Visible(r, d, u).value;
      if v == cat.tail {
        assert (d, v) in r;
        assert d in w.written && d in w.mapped;
        assert r[(d, v)] == TailMeta(cat).changes[d];
      }
    }
  }

  lemma CommitKeepsInv(s: State)
    requires Inv(s) && WriteEnabled(s, CommitVersion)
    ensures Inv(WriteApply(s, CommitVersion))
  {
    var cat, r := s.cat, s.docs.records;
    var cat' := cat.(metas := cat.metas[cat.tail := TailMeta(cat).(committed := true)]);
    assert cat'.tail in cat'.metas;
    assert forall v: Version :: Live(cat', v) == Live(cat, v);
    WrittenTailAgrees(cat, s.docs);
    DropsKept(cat, r, cat', r, s.drops);
    SnapshotsKept(cat, cat', s.snapshots);
    CommitKeepsSafe(s.split, cat, cat', s.docs, s.chunks, s.holder.work);
  }

  // ------------------------------------------------------------ the collector

  lemma TakeSnapshotKeepsInv(s: State, last: Version)
    requires Inv(s) && CollectEnabled(s, TakeSnapshot(last))
    ensures Inv(CollectApply(s, TakeSnapshot(last)))
  {
    assert SnapshotSound(s.cat, Snapshot(LiveSet(s.cat), last));
  }

  /** The snapshot still reaches every live version when the tail has not moved. */
  lemma ReadTailKeepsInv(s: State)
    requires Inv(s) && CollectEnabled(s, ReadTail)
    ensures Inv(CollectApply(s, ReadTail))
  {
    var snap := s.holder.judge.snapshot;
    if s.cat.tail == snap.last && !s.chunks.misled { assert Covers(s.cat, s.docs.records, snap.ids); }
  }

  lemma ReadChainKeepsInv(s: State)
    requires Inv(s) && CollectEnabled(s, ReadChain)
    ensures Inv(CollectApply(s, ReadChain))
  {
    assert forall u: Version :: Live(s.cat, u) ==> u in LiveSet(s.cat);
    assert Covers(s.cat, s.docs.records, LiveSet(s.cat));
  }

  lemma ListDocsKeepsInv(s: State, c: Chunk)
    requires Inv(s) && CollectEnabled(s, ListDocs(c))
    ensures Inv(CollectApply(s, ListDocs(c)))
  {
    assert forall d :: (c, d) in s.chunks.fwd ==> d in MappedDocs(s.chunks.fwd, c);
  }

  lemma CheckReadKeepsInv(s: State, d: Doc, u: Version)
    requires Inv(s) && CollectEnabled(s, CheckRead(d, u))
    ensures Inv(CollectApply(s, CheckRead(d, u)))
  {
  }

  lemma MissReadKeepsInv(s: State, d: Doc, u: Version)
    requires Inv(s) && CollectEnabled(s, MissRead(d, u))
    ensures Inv(CollectApply(s, MissRead(d, u)))
  {
  }

  /** Once every read came back empty, no live version reads any of the documents. */
  lemma ConfirmedUnread(cat: Catalog, docs: DocData, j: Judge, d: Doc)
    requires ChainSound(cat) && DataSound(cat, docs) && OpenTailSound(cat, docs)
    requires j.Checking? && JudgeSound(cat, docs.records, j) && d in j.docs
    requires forall e, u :: e in j.docs && u in j.live ==> (e, u) in j.checked
    ensures Unread(cat, docs.records, d)
  {
    var r := docs.records;
    forall u: Version | Live(cat, u) ensures !Readable(r, d, u) {
      if u !in j.live {
        assert Untouched(cat, r, u, j.live);
        var base := TailMeta(cat).base;
        VisibleGap(r, d, base, u);
        assert (d, base) in j.checked;
      } else {
        assert (d, u) in j.checked;
      }
    }
  }

  lemma ConfirmKeepsInv(s: State)
    requires Inv(s) && CollectEnabled(s, Confirm)
    ensures Inv(CollectApply(s, Confirm))
  {
    var j := s.holder.judge;
    forall d | d in j.docs && !s.chunks.misled ensures Unread(s.cat, s.docs.records, d) {
      ConfirmedUnread(s.cat, s.docs, j, d);
    }
  }

  lemma UnmapKeepsInv(s: State, d: Doc)
    requires Inv(s) && CollectEnabled(s, Unmap(d))
    ensures Inv(CollectApply(s, Unmap(d)))
  {
    var j, r := s.holder.judge, s.docs.records;
    var ch' := s.chunks.(fwd := s.chunks.fwd - {(j.chunk, d)}, rev := s.chunks.rev - {(d, j.chunk)});
    assert !s.chunks.misled ==> Unread(s.cat, r, d);
    forall u: Version, e, c | !s.chunks.misled && Needs(s.split, s.cat, r, u, e, c)
      ensures Held(s.cat, ch', Visible(r, e, u).value, e, c)
    {
      assert Held(s.cat, s.chunks, Visible(r, e, u).value, e, c);
    }
  }

  lemma EraseVectorKeepsInv(s: State)
    requires Inv(s) && CollectEnabled(s, EraseVector)
    ensures Inv(CollectApply(s, EraseVector))
  {
    var j, r := s.holder.judge, s.docs.records;
    var ch' := s.chunks.(vectors := s.chunks.vectors - {j.chunk}, durable := s.chunks.durable - {j.chunk});
    forall u: Version, e, c | !s.chunks.misled && Needs(s.split, s.cat, r, u, e, c)
      ensures Held(s.cat, ch', Visible(r, e, u).value, e, c)
    {
      assert Held(s.cat, s.chunks, Visible(r, e, u).value, e, c);
    }
  }

  lemma PowerLossKeepsInv(s: State, left: set<Chunk>)
    requires Inv(s) && Enabled(s, PowerLoss(left))
    ensures Inv(Apply(s, PowerLoss(left)))
  {
    var r := s.docs.records;
    var ch' := s.chunks.(vectors := left, durable := left, tainted := s.chunks.tainted || Open(s.cat));
    forall u: Version, e, c | !s.chunks.misled && Needs(s.split, s.cat, r, u, e, c)
      ensures Held(s.cat, ch', Visible(r, e, u).value, e, c)
    {
      assert Held(s.cat, s.chunks, Visible(r, e, u).value, e, c);
    }
  }

  // ------------------------------------------------------------ whole runs

  lemma ChainStepKeepsInv(s: State, a: ChainStep)
    requires Inv(s) && ChainEnabled(s, a)
    ensures Inv(ChainApply(s, a))
  {
    match a
    case Allocate(n, changes) => AllocateKeepsInv(s, n, changes);
    case MarkDeleting(v) => MarkDeletingKeepsInv(s, v);
    case RemoveMeta(v) => RemoveMetaKeepsInv(s, v);
    case DropList(v) => DropListKeepsInv(s, v);
    case DropStart(id, v, anchor) => DropStartKeepsInv(s, id, v, anchor);
    case DropJudge(id, d) => DropJudgeKeepsInv(s, id, d);
    case DropCommit(id) => DropCommitKeepsInv(s, id);
    case DropAbort(id) =>
  }

  lemma WriteStepKeepsInv(s: State, a: WriteStep)
    requires Inv(s) && WriteEnabled(s, a)
    ensures Inv(WriteApply(s, a))
  {
    match a
    case WriterLock =>
    case NotePresent(c) =>
    case PutVector(c) => PutVectorKeepsInv(s, c);
    case PutMappings(d) => PutMappingsKeepsInv(s, d);
    case PutRecord(d) => PutRecordKeepsInv(s, d);
    case PutList => PutListKeepsInv(s);
    case FlushVectors => FlushKeepsInv(s);
    case CommitVersion => CommitKeepsInv(s);
  }

  lemma CollectStepKeepsInv(s: State, a: CollectStep)
    requires Inv(s) && CollectEnabled(s, a)
    ensures Inv(CollectApply(s, a))
  {
    match a
    case TakeSnapshot(last) => TakeSnapshotKeepsInv(s, last);
    case SweepLock(snap) => assert SnapshotSound(s.cat, snap);
    case ReclaimLock(_) =>
    case ReadTail => ReadTailKeepsInv(s);
    case ReadChain => ReadChainKeepsInv(s);
    case ListDocs(c) => ListDocsKeepsInv(s, c);
    case CheckRead(d, u) => CheckReadKeepsInv(s, d, u);
    case MissRead(d, u) => MissReadKeepsInv(s, d, u);
    case Confirm => ConfirmKeepsInv(s);
    case Unmap(d) => UnmapKeepsInv(s, d);
    case EraseVector => EraseVectorKeepsInv(s);
  }

  lemma StepKeepsInv(s: State, a: Step)
    requires Inv(s) && Enabled(s, a)
    ensures Inv(Apply(s, a))
  {
    match a
    case OnChain(b) => ChainStepKeepsInv(s, b);
    case OnWrite(b) => WriteStepKeepsInv(s, b);
    case OnCollect(b) => CollectStepKeepsInv(s, b);
    case Unlock =>
    case Crash =>
    case PowerLoss(left) => PowerLossKeepsInv(s, left);
  }

  lemma {:induction false} RunKeepsInv(s: State, steps: seq<Step>)
    requires Inv(s) && IsRun(s, steps)
    ensures Inv(RunTo(s, steps))
    decreases |steps|
  {
    if steps != [] {
      StepKeepsInv(s, steps[0]);
      RunKeepsInv(Apply(s, steps[0]), steps[1..]);
    }
  }

  /** Along the run, no collector's read of a readable document fails while iterating. */
  ghost predicate NoneMissed(s: State, steps: seq<Step>)
    requires IsRun(s, steps)
    decreases |steps|
  {
    steps != [] ==>
      && (match steps[0]
          case OnCollect(MissRead(d, u)) => !Readable(s.docs.records, d, u)
          case _ => true)
      && NoneMissed(Apply(s, steps[0]), steps[1..])
  }

  /** Collectors are misled exactly by such reads. */
  lemma {:induction false} MisledIff(s: State, steps: seq<Step>)
    requires IsRun(s, steps)
    ensures RunTo(s, steps).chunks.misled <==> s.chunks.misled || !NoneMissed(s, steps)
    decreases |steps|
  {
    if steps != [] {
      MisledIff(Apply(s, steps[0]), steps[1..]);
    }
  }

  /** Where a run stands after its first `i` steps. */
  lemma {:induction false} RunSoFar(s: State, steps: seq<Step>, i: nat)
    requires IsRun(s, steps) && i <= |steps|
    ensures IsRun(s, steps[..i])
    decreases i
  {
    if i > 0 {
      RunSoFar(Apply(s, steps[0]), steps[1..], i - 1);
      assert steps[..i][1..] == steps[1..][..i - 1];
    }
  }

  /** Step `i` is a judging read that fails while iterating, on a document with text `x` at the version read. */
  ghost predicate MissesText(s: State, steps: seq<Step>, i: nat, d: Doc, u: Version, x: string)
    requires IsRun(s, steps) && i < |steps|
  {
    RunSoFar(s, steps, i);
    steps[i] == OnCollect(MissRead(d, u)) && ReadAt(RunTo(s, steps[..i]).docs.records, d, u) == Some(Content(x))
  }

  lemma {:induction false} MissesTextLater(s: State, steps: seq<Step>, i: nat, d: Doc, u: Version, x: string)
    requires IsRun(s, steps) && i < |steps|
    ensures i == 0 ==> (MissesText(s, steps, i, d, u, x) <==>
              steps[0] == OnCollect(MissRead(d, u)) && ReadAt(s.docs.records, d, u) == Some(Content(x)))
    ensures i > 0 ==> (MissesText(s, steps, i, d, u, x) <==> MissesText(Apply(s, steps[0]), steps[1..], i - 1, d, u, x))
  {
    RunSoFar(s, steps, i);
    if i > 0 {
      RunSoFar(Apply(s, steps[0]), steps[1..], i - 1);
      assert steps[..i][1..] == steps[1..][..i - 1];
    }
  }

  /** None was missed exactly when every such read was of an empty text. */
  lemma {:induction false} NoneMissedIff(s: State, steps: seq<Step>)
    requires IsRun(s, steps)
    ensures NoneMissed(s, steps) <==>
      forall i: nat, d, u, x :: i < |steps| && MissesText(s, steps, i, d, u, x) ==> x == ""
    decreases |steps|
  {
    if steps != [] {
      var s1, rest := Apply(s, steps[0]), steps[1..];
      NoneMissedIff(s1, rest);
      if steps[0].OnCollect? && steps[0].collect.MissRead? {
        ReadableIff(s.docs.records, steps[0].collect.doc, steps[0].collect.version);
      }
      if NoneMissed(s, steps) {
        forall i: nat, d, u, x | i < |steps| && MissesText(s, steps, i, d, u, x) ensures x == "" {
          MissesTextLater(s, steps, i, d, u, x);
        }
      } else if !NoneMissed(s1, rest) {
        var i: nat, d, u, x :| i < |rest| && MissesText(s1, rest, i, d, u, x) && x != "";
        MissesTextLater(s, steps, i + 1, d, u, x);
      } else {
        var d, u := steps[0].collect.doc, steps[0].collect.version;
        MissesTextLater(s, steps, 0, d, u, ReadAt(s.docs.records, d, u).value.text);
      }
    }
  }

  /**
    Chunk collection is safe over whole runs in which no judging read of a document with text
    fails while iterating. Whatever was written, deleted, swept against a stale snapshot,
    interrupted or lost to a power failure before: each chunk `c` of a text `x` that a live
    version `u` reads is mapped in both directions; once `u`, or the version that wrote `x`,
    has committed, its vector is there and survives a power loss; before that, it is there
    unless power was lost.
  */
  lemma ChunkCollectionIsSafe(s0: State, steps: seq<Step>, u: Version, d: Doc, x: string, c: Chunk)
    requires Init(s0) && IsRun(s0, steps) && NoneMissed(s0, steps)
    requires var s := RunTo(s0, steps);
      && u in s.cat.metas && !s.cat.metas[u].deleting
      && ReadAt(s.docs.records, d, u) == Some(Content(x)) && x != "" && c in s.split(x)
    ensures var s := RunTo(s0, steps);
      && (c, d) in s.chunks.fwd && (d, c) in s.chunks.rev
      && (s.cat.metas[u].committed || Visible(s.docs.records, d, u) != Some(s.cat.tail) ==>
            c in s.chunks.vectors && c in s.chunks.durable)
      && (!s.chunks.tainted ==> c in s.chunks.vectors)
  {
    InitSound(s0);
    RunKeepsInv(s0, steps);
    MisledIff(s0, steps);
    InvServes(RunTo(s0, steps), u, d, x, c);
  }

  lemma InvServes(s: State, u: Version, d: Doc, x: string, c: Chunk)
    requires Inv(s) && !s.chunks.misled
    requires u in s.cat.metas && !s.cat.metas[u].deleting
    requires ReadAt(s.docs.records, d, u) == Some(Content(x)) && x != "" && c in s.split(x)
    ensures (c, d) in s.chunks.fwd && (d, c) in s.chunks.rev
    ensures s.cat.metas[u].committed || Visible(s.docs.records, d, u) != Some(s.cat.tail) ==>
      c in s.chunks.vectors && c in s.chunks.durable
    ensures !s.chunks.tainted ==> c in s.chunks.vectors
  {
    assert Needs(s.split, s.cat, s.docs.records, u, d, c);
    assert Held(s.cat, s.chunks, Visible(s.docs.records, d, u).value, d, c);
  }

  lemma {:induction false} UntaintedWithoutPowerLoss(s: State, steps: seq<Step>)
    requires IsRun(s, steps) && !s.chunks.tainted && forall i :: 0 <= i < |steps| ==> !steps[i].PowerLoss?
    ensures !RunTo(s, steps).chunks.tainted
    decreases |steps|
  {
    if steps != [] {
      UntaintedWithoutPowerLoss(Apply(s, steps[0]), steps[1..]);
    }
  }

  /** While power is not lost, the vectors of an uncommitted version's documents are there as well. */
  lemma SafeUnderPower(s0: State, steps: seq<Step>, u: Version, d: Doc, x: string, c: Chunk)
    requires Init(s0) && IsRun(s0, steps) && NoneMissed(s0, steps)
    requires forall i :: 0 <= i < |steps| ==> !steps[i].PowerLoss?
    requires var s := RunTo(s0, steps);
      && u in s.cat.metas && !s.cat.metas[u].deleting
      && ReadAt(s.docs.records, d, u) == Some(Content(x)) && x != "" && c in s.split(x)
    ensures c in RunTo(s0, steps).chunks.vectors
  {
    ChunkCollectionIsSafe(s0, steps, u, d, x, c);
    UntaintedWithoutPowerLoss(s0, steps);
  }

  /** On every reachable chain, a committed live version lists a document exactly when a read at it finds a text. */
  lemma ViewsAgreeOnEveryRun(s0: State, steps: seq<Step>, v: Version, d: Doc)
    requires Init(s0) && IsRun(s0, steps)
    requires var s := RunTo(s0, steps); v in s.cat.metas && !s.cat.metas[v].deleting && s.cat.metas[v].committed
    ensures var s := RunTo(s0, steps);
      (v in s.docs.lists && d in s.docs.lists[v]) <==> exists x :: ReadAt(s.docs.records, d, v) == Some(Content(x))
  {
    InitSound(s0);
    RunKeepsInv(s0, steps);
    var s := RunTo(s0, steps);
    assert Live(s.cat, v) && Agree(s.docs, v);
    ReadableIff(s.docs.records, d, v);
    assert d in ListOf(s.docs.lists, v) <==> Alive(s.docs.records, d, v);
  }

  /** A sweep's snapshot reaches every live version as long as the tail is the one it saw. */
  lemma UnmovedTailMeansSnapshotCovers(s0: State, steps: seq<Step>, snap: Snapshot, u: Version)
    requires Init(s0) && IsRun(s0, steps)
    requires snap in RunTo(s0, steps).snapshots && snap.last == RunTo(s0, steps).cat.tail
    requires u in RunTo(s0, steps).cat.metas && !RunTo(s0, steps).cat.metas[u].deleting
    ensures u in snap.ids
  {
    InitSound(s0);
    RunKeepsInv(s0, steps);
    assert Live(RunTo(s0, steps).cat, u) && SnapshotSound(RunTo(s0, steps).cat, snap);
  }

  // ------------------------------------------------------------ versions are immutable

  /** Version `u` is committed in both states and reads `d` alike. */
  ghost predicate SameVersion(s: State, s': State, u: Version, d: Doc) {
    && Live(s.cat, u) && s.cat.metas[u].committed && Live(s'.cat, u) && s'.cat.metas[u].committed
    && ReadAt(s'.docs.records, d, u) == ReadAt(s.docs.records, d, u)
    && ListOf(s'.docs.lists, u) == ListOf(s.docs.lists, u)
  }

  lemma ChainStepKeepsCommitted(s: State, a: ChainStep, u: Version, d: Doc)
    requires DropsSound(s.cat, s.docs.records, s.drops) && ChainSound(s.cat) && ChainEnabled(s, a)
    requires Live(s.cat, u) && s.cat.metas[u].committed && Live(ChainApply(s, a).cat, u)
    ensures SameVersion(s, ChainApply(s, a), u, d)
  {
    if a.DropCommit? {
      var p := s.drops[a.id];
      assert DropSound(s.cat, s.docs.records, p);
      DoomedRemovalKeepsReads(s.cat, s.docs.records, p);
      KeptReadable(s.cat, s.docs.records, s.cat, WithoutDoomed(s.docs.records, p), d, u);
    }
  }

  lemma WriteStepKeepsCommitted(s: State, a: WriteStep, u: Version, d: Doc)
    requires ChainSound(s.cat) && WriteEnabled(s, a) && (s.holder.Writer? ==> Open(s.cat))
    requires Live(s.cat, u) && s.cat.metas[u].committed
    ensures SameVersion(s, WriteApply(s, a), u, d)
  {
    if a.PutRecord? {
      WriteBelow(s.docs.records, a.doc, s.cat.tail, TailMeta(s.cat).changes[a.doc], d, u);
    }
  }

  lemma StepKeepsCommitted(s: State, a: Step, u: Version, d: Doc)
    requires Inv(s) && Enabled(s, a)
    requires Live(s.cat, u) && s.cat.metas[u].committed && Live(Apply(s, a).cat, u)
    ensures SameVersion(s, Apply(s, a), u, d)
  {
    match a
    case OnChain(b) => ChainStepKeepsCommitted(s, b, u, d);
    case OnWrite(b) => WriteStepKeepsCommitted(s, b, u, d);
    case _ =>
  }

  lemma {:induction false} LiveWasLive(s: State, steps: seq<Step>, u: Version)
    requires IsRun(s, steps) && u < s.cat.next && Live(RunTo(s, steps).cat, u)
    ensures Live(s.cat, u)
    decreases |steps|
  {
    if steps != [] {
      LiveWasLive(Apply(s, steps[0]), steps[1..], u);
    }
  }

  lemma {:induction false} RunKeepsCommitted(s: State, steps: seq<Step>, u: Version, d: Doc)
    requires Inv(s) && IsRun(s, steps)
    requires Live(s.cat, u) && s.cat.metas[u].committed && Live(RunTo(s, steps).cat, u)
    ensures SameVersion(s, RunTo(s, steps), u, d)
    decreases |steps|
  {
    if steps != [] {
      var s1 := Apply(s, steps[0]);
      StepKeepsInv(s, steps[0]);
      LiveWasLive(s1, steps[1..], u);
      StepKeepsCommitted(s, steps[0], u, d);
      RunKeepsCommitted(s1, steps[1..], u, d);
    }
  }

  /**
    A committed version never changes for as long as it lives: from any point of any run on,
    every document reads the same and the document list is the same, after any number of
    writes to newer versions, drops of other versions, collections, crashes and power losses.
  */
  lemma CommittedVersionsAreImmutable(s0: State, before: seq<Step>, after: seq<Step>, u: Version, d: Doc)
    requires Init(s0) && IsRun(s0, before) && IsRun(RunTo(s0, before), after)
    requires var s := RunTo(s0, before); u in s.cat.metas && !s.cat.metas[u].deleting && s.cat.metas[u].committed
    requires var s' := RunTo(RunTo(s0, before), after); u in s'.cat.metas && !s'.cat.metas[u].deleting
    ensures var s, s' := RunTo(s0, before), RunTo(RunTo(s0, before), after);
      && s'.cat.metas[u].committed
      && ReadAt(s'.docs.records, d, u) == ReadAt(s.docs.records, d, u)
      && (u in s'.docs.lists && d in s'.docs.lists[u] <==> u in s.docs.lists && d in s.docs.lists[u])
  {
    InitSound(s0);
    RunKeepsInv(s0, before);
    RunKeepsCommitted(RunTo(s0, before), after, u, d);
    var s, s' := RunTo(s0, before), RunTo(RunTo(s0, before), after);
    assert d in ListOf(s'.docs.lists, u) <==> d in ListOf(s.docs.lists, u);
  }
}
