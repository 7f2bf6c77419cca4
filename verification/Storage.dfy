/**
  One knowledge base on one node, as a state machine whose steps are single store or
  metadata calls: version writes, version deletes, orphan-chunk collection, process
  crashes and power losses, in any order.

  Only the holder of the knowledge base's write lock may write documents or judge and
  erase chunks. Everything else (allocating versions, marking and removing them, dropping
  their records, taking sweep snapshots) runs without the lock and may fall between any
  two of the holder's calls.
*/
module Storage {
  import opened Basics
  import opened Mvcc

  type Doc = string
  type Chunk = string
  type Version = nat
  type Splitter = string -> set<Chunk>

  /** A stored record: a deletion mark, or a document's text (which may be empty). */
  datatype Value = Tombstone | Content(text: string)

  type Records = map<(Doc, Version), Value>

  /** Replicated metadata of a version, with the transaction input its write replays. */
  datatype Meta = Meta(base: Version, changes: map<Doc, Value>, committed: bool, deleting: bool)

  /** The replicated state: the version counter, LastVersionID (0 for none), the versions. */
  datatype Catalog = Catalog(next: Version, tail: Version, metas: map<Version, Meta>)

  /** The document store and the per-version document lists. */
  datatype DocData = DocData(records: Records, lists: map<Version, set<Doc>>)

  /**
    Both mapping directions and the chunk store: the vectors reads see and those a power loss
    is sure to leave. Two flags record history: `tainted`, that power was lost while the newest
    version was uncommitted, and `misled`, that a collector's read of a readable document
    failed while iterating and was taken for "no such document".
  */
  datatype ChunkData = ChunkData(
    fwd: set<(Chunk, Doc)>, rev: set<(Doc, Chunk)>, vectors: set<Chunk>, durable: set<Chunk>,
    tainted: bool, misled: bool)

  /** The live versions a sweep saw, with the newest of them. */
  datatype Snapshot = Snapshot(ids: set<Version>, last: Version)

  /** A drop in flight: the records of `version` found to be reclaimable so far. */
  datatype Drop = Drop(version: Version, anchor: Version, doomed: set<Doc>)

  /** How far the collector that holds the lock has come. */
  datatype Judge =
    | AwaitTail(snapshot: Snapshot)
    | AwaitChain
    | Judging(live: set<Version>)
    | Checking(live: set<Version>, chunk: Chunk, docs: set<Doc>, checked: set<(Doc, Version)>)
    | Erasing(live: set<Version>, chunk: Chunk, docs: set<Doc>)

  /**
    What a writer has behind it: the chunks it knows to be stored, the documents it has
    mapped and written, the document list and the vector flush.
  */
  datatype Work = Work(noted: set<Chunk>, mapped: set<Doc>, written: set<Doc>, listed: bool, flushed: bool)

  /** Who holds the write lock. */
  datatype Holder = Free | Writer(work: Work) | Collector(judge: Judge)

  datatype State = State(
    split: Splitter,
    cat: Catalog,
    docs: DocData,
    chunks: ChunkData,
    holder: Holder,
    drops: map<nat, Drop>,
    snapshots: set<Snapshot>)

  predicate Live(cat: Catalog, v: Version) {
    v in cat.metas && !cat.metas[v].deleting
  }

  function LiveSet(cat: Catalog): set<Version> {
    set v | v in cat.metas && !cat.metas[v].deleting
  }

  /** The newest version exists and its write has not committed yet. */
  predicate Open(cat: Catalog) {
    cat.tail in cat.metas && !cat.metas[cat.tail].committed
  }

  function TailMeta(cat: Catalog): Meta
    requires cat.tail in cat.metas
  {
    cat.metas[cat.tail]
  }

  /** VersionDocList.ListDocIDs: an absent list reads as the empty one. */
  function ListOf(lists: map<Version, set<Doc>>, v: Version): set<Doc> {
    if v in lists then lists[v] else {}
  }

  /** The child's document set: the parent's, plus what was put, minus what was removed. */
  function ApplyChanges(docs: set<Doc>, changes: map<Doc, Value>): set<Doc> {
    (set d | d in docs && d !in changes) + (set d | d in changes && changes[d].Content?)
  }

  predicate Alive(r: Records, d: Doc, v: Version) {
    var x := ReadAt(r, d, v);
    x.Some? && x.value.Content?
  }

  /** What the collector calls alive: a read that returns some text. */
  predicate Readable(r: Records, d: Doc, v: Version) {
    Alive(r, d, v) && ReadAt(r, d, v).value.text != ""
  }

  /** Alive is having a text to read, possibly an empty one; readable is having some. */
  lemma ReadableIff(r: Records, d: Doc, v: Version)
    ensures Alive(r, d, v) <==> exists t :: ReadAt(r, d, v) == Some(Content(t))
    ensures Readable(r, d, v) <==> exists t :: t != "" && ReadAt(r, d, v) == Some(Content(t))
  {
    if Alive(r, d, v) {
      assert ReadAt(r, d, v) == Some(Content(ReadAt(r, d, v).value.text));
    }
  }

  function ChunksOf(split: Splitter, x: Value): set<Chunk> {
    match x
    case Tombstone => {}
    case Content(text) => split(text)
  }

  function MappedDocs(fwd: set<(Chunk, Doc)>, c: Chunk): set<Doc> {
    set p | p in fwd && p.0 == c :: p.1
  }

  // ---------------------------------------------------------------- steps

  /** Metadata changes, applied from the replicated log, and the unlocked part of a drop. */
  datatype ChainStep =
    | Allocate(version: Version, changes: map<Doc, Value>)
    | MarkDeleting(version: Version)
    | RemoveMeta(version: Version)
    | DropList(version: Version)
    | DropStart(id: nat, version: Version, anchor: Version)
    | DropJudge(id: nat, doc: Doc)
    | DropCommit(id: nat)
    | DropAbort(id: nat)

  /** A version write, under the lock. */
  datatype WriteStep =
    | WriterLock
    | NotePresent(chunk: Chunk)
    | PutVector(chunk: Chunk)
    | PutMappings(doc: Doc)
    | PutRecord(doc: Doc)
    | PutList
    | FlushVectors
    | CommitVersion

  /** A collection: a snapshot without the lock, everything else under it. */
  datatype CollectStep =
    | TakeSnapshot(last: Version)
    | SweepLock(snapshot: Snapshot)
    | ReclaimLock(version: Version)
    | ReadTail
    | ReadChain
    | ListDocs(chunk: Chunk)
    | CheckRead(doc: Doc, version: Version)
    | MissRead(doc: Doc, version: Version)  // the iteration fails, which reads as "not found"
    | Confirm
    | Unmap(doc: Doc)
    | EraseVector

  datatype Step =
    | OnChain(chain: ChainStep)
    | OnWrite(write: WriteStep)
    | OnCollect(collect: CollectStep)
    // The holder gives up or finishes; the process dies; the machine loses power.
    | Unlock
    | Crash
    | PowerLoss(left: set<Chunk>)

  ghost predicate WriterHolds(s: State) {
    s.holder.Writer? && s.cat.tail in s.cat.metas
  }

  ghost predicate JudgeHolds(s: State) {
    s.holder.Collector?
  }

  function WithoutDoomed(r: Records, p: Drop): Records {
    map k | k in r && !(k.1 == p.version && k.0 in p.doomed) :: r[k]
  }

  function WithMappings(ch: ChunkData, d: Doc, cs: set<Chunk>): ChunkData {
    ch.(fwd := ch.fwd + (set c | c in cs :: (c, d)), rev := ch.rev + (set c | c in cs :: (d, c)))
  }

  ghost predicate ChainEnabled(s: State, a: ChainStep) {
    match a
    case Allocate(n, changes) =>
      n >= s.cat.next && changes != map[] &&
      (s.cat.tail == 0 || (s.cat.tail in s.cat.metas && TailMeta(s.cat).committed))
    case MarkDeleting(v) =>
      // Not the newest version; not one a still-uncommitted child derives from.
      v in s.cat.metas && v != s.cat.tail && !(Open(s.cat) && TailMeta(s.cat).base == v)
    case RemoveMeta(v) => v in s.cat.metas && s.cat.metas[v].deleting
    case DropList(v) => !Live(s.cat, v) && v < s.cat.tail
    case DropStart(id, v, anchor) =>
      id !in s.drops && !Live(s.cat, v) && v < s.cat.tail && IsAnchor(LiveSet(s.cat), v, anchor)
    case DropJudge(id, d) => id in s.drops && (d, s.drops[id].version) in s.docs.records
    case DropCommit(id) => id in s.drops
    case DropAbort(id) => id in s.drops
  }

  ghost function ChainApply(s: State, a: ChainStep): State
    requires ChainEnabled(s, a)
  {
    match a
    case Allocate(n, changes) =>
      s.(cat := Catalog(n + 1, n, s.cat.metas[n := Meta(s.cat.tail, changes, false, false)]))
    case MarkDeleting(v) =>
      s.(cat := s.cat.(metas := s.cat.metas[v := s.cat.metas[v].(deleting := true)]))
    case RemoveMeta(v) => s.(cat := s.cat.(metas := s.cat.metas - {v}))
    case DropList(v) => s.(docs := s.docs.(lists := s.docs.lists - {v}))
    case DropStart(id, v, anchor) => s.(drops := s.drops[id := Drop(v, anchor, {})])
    case DropJudge(id, d) =>
      var p := s.drops[id];
      if Visible(s.docs.records, d, p.anchor) == Some(p.version) then s
      else s.(drops := s.drops[id := p.(doomed := p.doomed + {d})])
    case DropCommit(id) =>
      s.(docs := s.docs.(records := WithoutDoomed(s.docs.records, s.drops[id])), drops := s.drops - {id})
    case DropAbort(id) => s.(drops := s.drops - {id})
  }

  ghost predicate WriteEnabled(s: State, a: WriteStep) {
    match a
    case WriterLock => s.holder.Free? && Open(s.cat)
    case NotePresent(c) => WriterHolds(s) && c in s.chunks.vectors
    case PutVector(c) => WriterHolds(s) && !s.holder.work.flushed
    case PutMappings(d) =>
      WriterHolds(s) && d in TailMeta(s.cat).changes && TailMeta(s.cat).changes[d].Content? &&
      ChunksOf(s.split, TailMeta(s.cat).changes[d]) <= s.holder.work.noted
    case PutRecord(d) =>
      WriterHolds(s) && d in TailMeta(s.cat).changes &&
      (TailMeta(s.cat).changes[d].Content? ==> d in s.holder.work.mapped)
    case PutList => WriterHolds(s) && s.holder.work.written == TailMeta(s.cat).changes.Keys
    case FlushVectors => WriterHolds(s) && s.holder.work.listed
    case CommitVersion => WriterHolds(s) && s.holder.work.flushed
  }

  ghost function WriteApply(s: State, a: WriteStep): State
    requires WriteEnabled(s, a)
  {
    match a
    case WriterLock => s.(holder := Writer(Work({}, {}, {}, false, false)))
    case NotePresent(c) => s.(holder := Writer(s.holder.work.(noted := s.holder.work.noted + {c})))
    case PutVector(c) =>
      s.(chunks := s.chunks.(vectors := s.chunks.vectors + {c}),
         holder := Writer(s.holder.work.(noted := s.holder.work.noted + {c})))
    case PutMappings(d) =>
      s.(chunks := WithMappings(s.chunks, d, ChunksOf(s.split, TailMeta(s.cat).changes[d])),
         holder := Writer(s.holder.work.(mapped := s.holder.work.mapped + {d})))
    case PutRecord(d) =>
      s.(docs := s.docs.(records := s.docs.records[(d, s.cat.tail) := TailMeta(s.cat).changes[d]]),
         holder := Writer(s.holder.work.(written := s.holder.work.written + {d})))
    case PutList =>
      // The list is only ever added to: a retry writes the same entries again.
      var m := TailMeta(s.cat);
      var old_ := ListOf(s.docs.lists, s.cat.tail);
      s.(docs := s.docs.(lists :=
           s.docs.lists[s.cat.tail := old_ + ApplyChanges(ListOf(s.docs.lists, m.base), m.changes)]),
         holder := Writer(s.holder.work.(listed := true)))
    case FlushVectors =>
      s.(chunks := s.chunks.(durable := s.chunks.vectors), holder := Writer(s.holder.work.(flushed := true)))
    case CommitVersion =>
      s.(cat := s.cat.(metas := s.cat.metas[s.cat.tail := TailMeta(s.cat).(committed := true)]),
         chunks := s.chunks.(tainted := false),
         holder := Free)
  }

  ghost predicate CollectEnabled(s: State, a: CollectStep) {
    match a
    case TakeSnapshot(last) => Live(s.cat, last) && forall v: Version :: Live(s.cat, v) ==> v <= last
    case SweepLock(snap) => s.holder.Free? && snap in s.snapshots
    case ReclaimLock(v) => s.holder.Free? && !Live(s.cat, v) && v < s.cat.tail
    case ReadTail => JudgeHolds(s) && s.holder.judge.AwaitTail?
    case ReadChain => JudgeHolds(s) && s.holder.judge.AwaitChain?
    case ListDocs(c) => JudgeHolds(s) && s.holder.judge.Judging?
    case CheckRead(d, u) =>
      JudgeHolds(s) && s.holder.judge.Checking? && d in s.holder.judge.docs && u in s.holder.judge.live
    case MissRead(d, u) =>
      JudgeHolds(s) && s.holder.judge.Checking? && d in s.holder.judge.docs && u in s.holder.judge.live
    case Confirm =>
      JudgeHolds(s) && s.holder.judge.Checking? &&
      forall d, u :: d in s.holder.judge.docs && u in s.holder.judge.live ==> (d, u) in s.holder.judge.checked
    case Unmap(d) => JudgeHolds(s) && s.holder.judge.Erasing? && d in s.holder.judge.docs
    case EraseVector =>
      JudgeHolds(s) && s.holder.judge.Erasing? &&
      forall d :: d in s.holder.judge.docs ==> (s.holder.judge.chunk, d) !in s.chunks.fwd
  }

  ghost function CollectApply(s: State, a: CollectStep): State
    requires CollectEnabled(s, a)
  {
    match a
    case TakeSnapshot(last) => s.(snapshots := s.snapshots + {Snapshot(LiveSet(s.cat), last)})
    case SweepLock(snap) => s.(holder := Collector(AwaitTail(snap)))
    case ReclaimLock(_) => s.(holder := Collector(AwaitChain))
    case ReadTail =>
      var snap := s.holder.judge.snapshot;
      s.(holder := Collector(if s.cat.tail == snap.last then Judging(snap.ids) else AwaitChain))
    case ReadChain => s.(holder := Collector(Judging(LiveSet(s.cat))))
    case ListDocs(c) =>
      var docs := MappedDocs(s.chunks.fwd, c);
      if docs == {} then s
      else s.(holder := Collector(Checking(s.holder.judge.live, c, docs, {})))
    case CheckRead(d, u) =>
      var j := s.holder.judge;
      if Readable(s.docs.records, d, u) then s.(holder := Collector(Judging(j.live)))
      else s.(holder := Collector(j.(checked := j.checked + {(d, u)})))
    case MissRead(d, u) =>
      var j := s.holder.judge;
      s.(chunks := s.chunks.(misled := s.chunks.misled || Readable(s.docs.records, d, u)),
         holder := Collector(j.(checked := j.checked + {(d, u)})))
    case Confirm =>
      var j := s.holder.judge;
      s.(holder := Collector(Erasing(j.live, j.chunk, j.docs)))
    case Unmap(d) =>
      var c := s.holder.judge.chunk;
      s.(chunks := s.chunks.(fwd := s.chunks.fwd - {(c, d)}, rev := s.chunks.rev - {(d, c)}))
    case EraseVector =>
      var j := s.holder.judge;
      s.(chunks := s.chunks.(vectors := s.chunks.vectors - {j.chunk}, durable := s.chunks.durable - {j.chunk}),
         holder := Collector(Judging(j.live)))
  }

  ghost predicate Enabled(s: State, a: Step) {
    match a
    case OnChain(b) => ChainEnabled(s, b)
    case OnWrite(b) => WriteEnabled(s, b)
    case OnCollect(b) => CollectEnabled(s, b)
    case Unlock => !s.holder.Free?
    case Crash => true
    case PowerLoss(left) => s.chunks.durable * s.chunks.vectors <= left
  }

  ghost function Apply(s: State, a: Step): State
    requires Enabled(s, a)
  {
    match a
    case OnChain(b) => ChainApply(s, b)
    case OnWrite(b) => WriteApply(s, b)
    case OnCollect(b) => CollectApply(s, b)
    case Unlock => s.(holder := Free)
    case Crash => s.(holder := Free, drops := map[], snapshots := {})
    case PowerLoss(left) =>
      s.(chunks := s.chunks.(vectors := left, durable := left, tainted := s.chunks.tainted || Open(s.cat)),
         holder := Free, drops := map[], snapshots := {})
  }

  /** An empty knowledge base. */
  ghost predicate Init(s: State) {
    && s.cat.next >= 1 && s.cat.tail == 0 && s.cat.metas == map[]
    && s.docs == DocData(map[], map[])
    && s.chunks == ChunkData({}, {}, {}, {}, false, false)
    && s.holder == Free && s.drops == map[] && s.snapshots == {}
  }

  ghost predicate IsRun(s: State, steps: seq<Step>)
    decreases |steps|
  {
    steps != [] ==> Enabled(s, steps[0]) && IsRun(Apply(s, steps[0]), steps[1..])
  }

  ghost function RunTo(s: State, steps: seq<Step>): State
    requires IsRun(s, steps)
    decreases |steps|
  {
    if steps == [] then s else RunTo(Apply(s, steps[0]), steps[1..])
  }

  // ---------------------------------------------------------------- invariant

  /** The chain only grows at its tail, the tail survives, and only the tail may be uncommitted. */
  ghost predicate ChainSound(cat: Catalog) {
    && cat.tail < cat.next
    && (cat.tail == 0 <==> cat.metas == map[])
    && (cat.tail != 0 ==> Live(cat, cat.tail))
    && (forall v :: v in cat.metas ==> 1 <= v <= cat.tail)
    && (forall v :: v in cat.metas && !cat.metas[v].committed ==> v == cat.tail)
  }

  /** Nothing is stored for a version that was never allocated. */
  ghost predicate DataSound(cat: Catalog, docs: DocData) {
    && (forall k :: k in docs.records ==> 1 <= k.1 <= cat.tail)
    && (forall v :: v in docs.lists ==> 1 <= v <= cat.tail)
  }

  /** What an uncommitted tail may have left behind, over any number of attempts. */
  ghost predicate OpenTailSound(cat: Catalog, docs: DocData) {
    Open(cat) ==>
      var n, m := cat.tail, TailMeta(cat);
      && m.base < n
      && (m.base != 0 ==> Live(cat, m.base))
      && (forall v :: v in cat.metas ==> v <= m.base || v == n)
      && (forall k :: k in docs.records ==> k.1 <= m.base || k.1 == n)
      && (forall k :: k in docs.records && k.1 == n ==> k.0 in m.changes && docs.records[k] == m.changes[k.0])
      && (n in docs.lists ==> docs.lists[n] == ApplyChanges(ListOf(docs.lists, m.base), m.changes))
  }

  /** The materialised list of a version and the incremental records describe one set. */
  ghost predicate Agree(docs: DocData, v: Version) {
    forall d :: d in ListOf(docs.lists, v) <==> Alive(docs.records, d, v)
  }

  ghost predicate ViewsAgree(cat: Catalog, docs: DocData) {
    forall v: Version :: Live(cat, v) && cat.metas[v].committed ==> Agree(docs, v)
  }

  /** A drop in flight, however stale its anchor, dooms nothing a live version reads. */
  ghost predicate DropSound(cat: Catalog, r: Records, p: Drop) {
    && p.version < p.anchor <= cat.tail
    && (forall u: Version :: Live(cat, u) ==> u < p.version || u >= p.anchor)
    && (forall d, u: Version :: d in p.doomed && Live(cat, u) ==> Visible(r, d, u) != Some(p.version))
  }

  ghost predicate DropsSound(cat: Catalog, r: Records, drops: map<nat, Drop>) {
    forall id :: id in drops ==> DropSound(cat, r, drops[id])
  }

  /** An old snapshot misses only versions newer than its newest. */
  ghost predicate SnapshotSound(cat: Catalog, snap: Snapshot) {
    && cat.tail != 0 && snap.last < cat.next
    && (forall u :: u in snap.ids ==> u < cat.next)
    && forall u: Version :: Live(cat, u) ==> u in snap.ids || u > snap.last
  }

  ghost predicate SnapshotsSound(cat: Catalog, snaps: set<Snapshot>) {
    forall snap :: snap in snaps ==> SnapshotSound(cat, snap)
  }

  /** Both mapping directions hold the same pairs. */
  ghost predicate Paired(ch: ChunkData) {
    forall c, d :: (c, d) in ch.fwd <==> (d, c) in ch.rev
  }

  /** Version `u` reads document `d`, and its text needs chunk `c`. */
  ghost predicate Needs(split: Splitter, cat: Catalog, r: Records, u: Version, d: Doc, c: Chunk) {
    Live(cat, u) && Readable(r, d, u) && c in split(ReadAt(r, d, u).value.text)
  }

  /**
    Chunk `c` of a record of `d` written at `v` is in place. Until `v` commits, its vector
    may be missing after a power loss; once it has committed the vector survives one.
  */
  ghost predicate Held(cat: Catalog, ch: ChunkData, v: Version, d: Doc, c: Chunk) {
    && (c, d) in ch.fwd
    && (if Open(cat) && v == cat.tail then ch.tainted || c in ch.vectors
        else c in ch.vectors && c in ch.durable)
  }

  /** Unless a collector was misled, every document text a live version reads keeps its mappings and its vectors. */
  ghost predicate Safe(split: Splitter, cat: Catalog, r: Records, ch: ChunkData) {
    !ch.misled ==> forall u: Version, d, c :: Needs(split, cat, r, u, d, c) ==> Held(cat, ch, Visible(r, d, u).value, d, c)
  }

  /** The versions a collector judges by reach every document any live version reads. */
  ghost predicate Covers(cat: Catalog, r: Records, live: set<Version>) {
    && (forall u :: u in live ==> u < cat.next)
    && forall u: Version :: Live(cat, u) ==> u in live || Untouched(cat, r, u, live)
  }

  /** The newest version, allocated after `live` was read, with nothing written for it yet. */
  ghost predicate Untouched(cat: Catalog, r: Records, u: Version, live: set<Version>) {
    && Open(cat) && u == cat.tail && TailMeta(cat).base in live && Live(cat, TailMeta(cat).base)
    && forall k :: k in r ==> k.1 != u
  }

  ghost predicate Unread(cat: Catalog, r: Records, d: Doc) {
    forall u: Version :: Live(cat, u) ==> !Readable(r, d, u)
  }

  /** The documents under judgement are all the chunk is mapped to. */
  ghost predicate JudgeComplete(fwd: set<(Chunk, Doc)>, j: Judge) {
    j.Checking? || j.Erasing? ==> forall d :: (j.chunk, d) in fwd ==> d in j.docs
  }

  ghost predicate JudgeSound(cat: Catalog, r: Records, j: Judge) {
    match j
    case AwaitTail(snap) => SnapshotSound(cat, snap)
    case AwaitChain => true
    case Judging(live) => Covers(cat, r, live)
    case Checking(live, _, docs, checked) =>
      && Covers(cat, r, live)
      && (forall d, u :: (d, u) in checked ==> u in live)
      && (forall d, u :: (d, u) in checked && Live(cat, u) ==> !Readable(r, d, u))
    case Erasing(live, _, docs) =>
      && Covers(cat, r, live)
      && (forall d :: d in docs ==> Unread(cat, r, d))
  }

  ghost predicate WriterSound(split: Splitter, cat: Catalog, docs: DocData, ch: ChunkData, w: Work) {
    && Open(cat)
    && w.noted <= ch.vectors
    && (w.flushed ==> w.listed && ch.vectors == ch.durable)
    && (forall d :: d in w.mapped ==>
          d in TailMeta(cat).changes && ChunksOf(split, TailMeta(cat).changes[d]) <= w.noted)
    && (forall d, c :: d in w.mapped && c in ChunksOf(split, TailMeta(cat).changes[d]) ==> (c, d) in ch.fwd)
    && (forall d :: d in w.written ==>
          d in TailMeta(cat).changes && (d, cat.tail) in docs.records &&
          (TailMeta(cat).changes[d].Content? ==> d in w.mapped))
    && (w.listed ==> w.written == TailMeta(cat).changes.Keys && cat.tail in docs.lists)
  }

  ghost predicate HolderSound(split: Splitter, cat: Catalog, docs: DocData, ch: ChunkData, h: Holder) {
    match h
    case Free => true
    case Writer(w) => WriterSound(split, cat, docs, ch, w)
    case Collector(j) => cat.tail != 0 && JudgeComplete(ch.fwd, j) && (!ch.misled ==> JudgeSound(cat, docs.records, j))
  }

  ghost predicate Inv(s: State) {
    && ChainSound(s.cat)
    && DataSound(s.cat, s.docs)
    && OpenTailSound(s.cat, s.docs)
    && ViewsAgree(s.cat, s.docs)
    && DropsSound(s.cat, s.docs.records, s.drops)
    && SnapshotsSound(s.cat, s.snapshots)
    && Paired(s.chunks)
    && HolderSound(s.split, s.cat, s.docs, s.chunks, s.holder)
    && Safe(s.split, s.cat, s.docs.records, s.chunks)
  }

  lemma InitSound(s: State)
    requires Init(s)
    ensures Inv(s)
  {
  }
}
