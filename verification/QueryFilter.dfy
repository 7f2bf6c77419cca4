/**
  Filtering search hits by a version's document set. The set comes from a small cache of sets
  that hashed to the committed digest, a bloom filter from a cache and a disk copy that carry
  the fingerprint of the set they were built from; either may be cold, stale or missing, and
  the answer must be the one plain membership in the committed set gives.
*/
module QueryFilter {
  import opened Basics
  import opened Lines
  import opened Sorting
  import Replicas

  type Doc = string
  type Chunk = string
  type Key = (string, int)
  type Filter = Doc -> bool
  type Digest = seq<Doc> -> string
  type Fingerprint = seq<Doc> -> nat

  function Elements(ids: seq<Doc>): set<Doc> {
    set d | d in ids
  }

  // ---------------------------------------------------------------- what the fingerprint hashes

  const NUL: char := '\0'

  /** Each string followed by a NUL. */
  function Terminated(list: seq<string>): string {
    if list == [] then "" else list[0] + [NUL] + Terminated(list[1..])
  }

  /** The bytes documentSetFingerprint feeds the hash: the sorted IDs, a NUL after each. */
  function FingerprintInput(ids: seq<Doc>): string {
    Terminated(Sort(ids, StringLe))
  }

  lemma FingerprintForgetsOrder(a: seq<Doc>, b: seq<Doc>)
    requires multiset(a) == multiset(b)
    ensures FingerprintInput(a) == FingerprintInput(b)
  {
    StringLeIsTotalOrder();
    SortForgetsOrder(a, b, StringLe);
  }

  /** Terminating each string is joining them with an empty string at the end. */
  lemma {:induction false} TerminatedIsJoin(list: seq<string>)
    ensures Terminated(list) == Join(list + [""], NUL)
  {
    if list != [] {
      TerminatedIsJoin(list[1..]);
      assert (list + [""])[1..] == list[1..] + [""];
    }
  }

  /** Exactly when two lists of IDs are hashed alike. */
  lemma FingerprintInputsAgreeIff(a: seq<Doc>, b: seq<Doc>)
    ensures FingerprintInput(a) == FingerprintInput(b) <==>
      Pieces(Sort(a, StringLe) + [""], NUL) == Pieces(Sort(b, StringLe) + [""], NUL)
  {
    TerminatedIsJoin(Sort(a, StringLe));
    TerminatedIsJoin(Sort(b, StringLe));
    JoinsAgreeIff(Sort(a, StringLe) + [""], Sort(b, StringLe) + [""], NUL);
  }

  lemma SortedPieces(a: seq<Doc>)
    requires forall d :: d in a ==> OnePiece(d, NUL)
    ensures Pieces(Sort(a, StringLe) + [""], NUL) == Sort(a, StringLe) + [""]
  {
    var x := Sort(a, StringLe) + [""];
    SortPermutes(a, StringLe);
    forall i | 0 <= i < |x| ensures OnePiece(x[i], NUL) {
      if i < |x| - 1 {
        assert x[i] in multiset(Sort(a, StringLe));
        assert x[i] in a;
      }
    }
    PiecesOfPieces(x, NUL);
  }

  /** IDs without NULs are told apart, the empty set included. */
  lemma FingerprintInputInjective(a: seq<Doc>, b: seq<Doc>)
    requires forall d :: d in a || d in b ==> OnePiece(d, NUL)
    ensures FingerprintInput(a) == FingerprintInput(b) <==> multiset(a) == multiset(b)
  {
    SortedPieces(a);
    SortedPieces(b);
    FingerprintInputsAgreeIff(a, b);
    var x, y := Sort(a, StringLe), Sort(b, StringLe);
    assert x + [""] == y + [""] ==> x == (x + [""])[..|x|] && y == (y + [""])[..|y|] && |x| == |y|;
    SortPermutes(a, StringLe);
    SortPermutes(b, StringLe);
    if multiset(a) == multiset(b) {
      FingerprintForgetsOrder(a, b);
    }
  }

  /** An ID with a NUL in it is hashed like the two IDs it is made of. */
  lemma NulCollides(x: Doc, y: Doc)
    requires StringLe(x, y)
    ensures FingerprintInput([x + [NUL] + y]) == FingerprintInput([x, y])
  {
    assert Sort([x + [NUL] + y], StringLe) == [x + [NUL] + y];
    assert Sort([y], StringLe) == [y];
    assert [x, y][1..] == [y];
    assert Sort([x, y], StringLe) == [x, y];
    assert Terminated([y]) == y + [NUL];
    assert Terminated([x, y]) == x + [NUL] + (y + [NUL]);
  }

  // ---------------------------------------------------------------- lists the two hashes tell apart

  /** IDs without newlines and NULs, and not the one empty ID alone: what the lists that occur look like. */
  ghost predicate Listed(ids: seq<Doc>) {
    (forall d :: d in ids ==> OnePiece(d, '\n') && OnePiece(d, NUL)) && ids != [""]
  }

  /** Such lists of different sets have different hashes. */
  ghost predicate TellsApart<T>(hash: seq<Doc> -> T) {
    forall a, b :: Listed(a) && Listed(b) && hash(a) == hash(b) ==> Elements(a) == Elements(b)
  }

  /** The digest the code computes, and the fingerprint: hashes without collisions of the joined IDs. */
  ghost predicate IsCodeDigest(digest: Digest) {
    exists h :: Replicas.GoodHash(h) && forall ids :: digest(ids) == h(Replicas.DigestInput(ids))
  }

  ghost predicate GoodFingerprint(g: string -> nat) {
    forall x, y :: g(x) == g(y) ==> x == y
  }

  ghost predicate IsCodeFingerprint(fingerprint: Fingerprint) {
    exists g :: GoodFingerprint(g) && forall ids :: fingerprint(ids) == g(FingerprintInput(ids))
  }

  lemma SameElements(a: seq<Doc>, b: seq<Doc>)
    requires multiset(a) == multiset(b)
    ensures Elements(a) == Elements(b)
  {
    forall d ensures d in Elements(a) <==> d in Elements(b) {
      assert d in a <==> d in multiset(a);
      assert d in b <==> d in multiset(b);
    }
  }

  /** Only the list of one empty ID is hashed like the empty list. */
  lemma HashedLikeEmpty(ids: seq<Doc>)
    requires forall d :: d in ids ==> OnePiece(d, '\n')
    requires Replicas.DigestInput(ids) == Replicas.DigestInput([])
    ensures ids in {[], [""]}
  {
    if ids != [] {
      var x := Sort(ids, StringLe);
      Replicas.SortKeepsElements(ids);
      forall i | 0 <= i < |x| ensures OnePiece(x[i], '\n') { assert x[i] in x; }
      PiecesOfPieces(x, '\n');
      Replicas.DigestInputsAgreeIff(ids, []);
      assert x == [""];
      assert |ids| == 1 && ids[0] in ids;
      assert ids == [""];
    }
  }

  lemma CodeDigestTellsApart(digest: Digest)
    requires IsCodeDigest(digest)
    ensures TellsApart(digest)
  {
    var h :| Replicas.GoodHash(h) && forall ids :: digest(ids) == h(Replicas.DigestInput(ids));
    forall a, b | Listed(a) && Listed(b) && digest(a) == digest(b) ensures Elements(a) == Elements(b) {
      assert Replicas.DigestInput(a) == Replicas.DigestInput(b);
      if a == [] {
        HashedLikeEmpty(b);
      } else if b == [] {
        HashedLikeEmpty(a);
      } else {
        Replicas.DigestInputInjective(a, b);
        SameElements(a, b);
      }
    }
  }

  lemma NoDigestIsEmpty(digest: Digest, ids: seq<Doc>)
    requires IsCodeDigest(digest)
    ensures digest(ids) != ""
  {
    var h :| Replicas.GoodHash(h) && forall l :: digest(l) == h(Replicas.DigestInput(l));
  }

  lemma CodeFingerprintTellsApart(fingerprint: Fingerprint)
    requires IsCodeFingerprint(fingerprint)
    ensures TellsApart(fingerprint)
  {
    var g :| GoodFingerprint(g) && forall ids :: fingerprint(ids) == g(FingerprintInput(ids));
    forall a, b | Listed(a) && Listed(b) && fingerprint(a) == fingerprint(b) ensures Elements(a) == Elements(b) {
      assert FingerprintInput(a) == FingerprintInput(b);
      FingerprintInputInjective(a, b);
      SameElements(a, b);
    }
  }

  // ---------------------------------------------------------------- the set cache

  datatype SetEntry = SetEntry(ids: seq<Doc>, docs: set<Doc>, digest: string)

  datatype Fault = NotReady | StoreFailed

  const CAP: nat := 4

  /** A cached set is whole, and hashed to the digest it is filed under. */
  ghost predicate Verified(digest: Digest, e: SetEntry) {
    e.docs == Elements(e.ids) && digest(e.ids) == e.digest && e.digest != "" && Listed(e.ids)
  }

  class DocSetCache {
    const digest: Digest
    var entries: map<Key, SetEntry>
    var order: seq<Key>

    ghost predicate Valid()
      reads this
    {
      && |order| <= CAP
      && (forall i, j :: 0 <= i < j < |order| ==> order[i] != order[j])
      && (forall k :: k in order <==> k in entries)
      && (forall k :: k in entries ==> Verified(digest, entries[k]))
    }

    constructor (digest: Digest)
      ensures Valid() && this.digest == digest && order == []
    {
      this.digest, entries, order := digest, map[], [];
    }

    /** A hit is a set that hashed to the digest asked for. */
    method Get(k: Key, d: string) returns (r: Option<SetEntry>)
      requires Valid()
      ensures r == if k in entries && entries[k].digest == d then Some(entries[k]) else None
      ensures r.Some? ==> digest(r.value.ids) == d
    {
      if k !in entries || entries[k].digest != d { return None; }
      r := Some(entries[k]);
    }

    /** Drops the oldest set when the cache is full. */
    method MakeRoom()
      requires Valid()
      modifies this
      ensures Valid() && |order| < CAP
      ensures order == if |old(order)| == CAP then old(order)[1..] else old(order)
      ensures forall j :: j in entries ==> j in old(entries) && entries[j] == old(entries)[j]
    {
      if |order| >= CAP {
        var oldest := order[0];
        order := order[1..];
        entries := entries - {oldest};
      }
    }

    /** First in, first out: a new key drops the oldest when the cache is full, a known key keeps its place. */
    method Put(k: Key, e: SetEntry)
      requires Valid() && Verified(digest, e)
      modifies this
      ensures Valid() && k in entries && entries[k] == e && |order| <= 4
      ensures order ==
        if k in old(order) then old(order) else (if |old(order)| == CAP then old(order)[1..] else old(order)) + [k]
      ensures forall j :: j in entries && j != k ==> j in old(entries) && entries[j] == old(entries)[j]
    {
      if k !in entries {
        MakeRoom();
        order := order + [k];
      }
      entries := entries[k := e];
    }

    /**
      The set of a version: a verified one from the cache, or what the store holds, verified if
      it can be. `down` says that the store cannot be read. A set that does not hash to the
      committed digest is refused, and nothing but a verified set is cached.
    */
    method Lookup(store: map<Key, seq<Doc>>, down: bool, k: Key, d: string) returns (r: Result<(seq<Doc>, set<Doc>), Fault>)
      requires Valid() && forall j :: j in store ==> Listed(store[j])
      modifies this
      ensures Valid()
      ensures Cached(old(entries), k, d) ==> r == Ok((old(entries)[k].ids, old(entries)[k].docs)) && entries == old(entries)
      ensures !Cached(old(entries), k, d) && down ==> r == Err(StoreFailed) && entries == old(entries)
      ensures !Cached(old(entries), k, d) && !down && d != "" && digest(Stored(store, k)) != d ==>
        r == Err(NotReady) && entries == old(entries)
      ensures !Cached(old(entries), k, d) && !down && (d == "" || digest(Stored(store, k)) == d) ==>
        r.Ok? && r.value.0 == Stored(store, k)
      ensures r.Ok? ==> r.value.1 == Elements(r.value.0) && Listed(r.value.0) && (d != "" ==> digest(r.value.0) == d)
      ensures forall j :: j in entries && !(j in old(entries) && entries[j] == old(entries)[j]) ==>
        j == k && d != "" && digest(entries[j].ids) == d && entries[j].digest == d
    {
      if d != "" {
        var hit := Get(k, d);
        if hit.Some? { return Ok((hit.value.ids, hit.value.docs)); }
      }
      if down { return Err(StoreFailed); }
      var ids := Stored(store, k);
      var docs := Elements(ids);
      if d != "" {
        if digest(ids) != d { return Err(NotReady); }
        Put(k, SetEntry(ids, docs, d));
      }
      r := Ok((ids, docs));
    }
  }

  /** A set filed under this very digest is in the cache. */
  ghost predicate Cached(entries: map<Key, SetEntry>, k: Key, d: string) {
    d != "" && k in entries && entries[k].digest == d
  }

  /** VersionDocList.ListDocIDs: a version this node has nothing for reads as empty. */
  function Stored(store: map<Key, seq<Doc>>, k: Key): seq<Doc> {
    if k in store then store[k] else []
  }

  // ---------------------------------------------------------------- the bloom store

  datatype BloomEntry = BloomEntry(filter: Filter, fingerprint: nat)

  /** No false negatives for a set. */
  ghost predicate Covers(f: Filter, ids: seq<Doc>) {
    forall d :: d in ids ==> f(d)
  }

  /** A filter may be used for every list that occurs with its fingerprint. */
  ghost predicate Usable(fingerprint: Fingerprint, e: BloomEntry) {
    forall ids :: Listed(ids) && fingerprint(ids) == e.fingerprint ==> Covers(e.filter, ids)
  }

  lemma BuiltIsUsable(fingerprint: Fingerprint, f: Filter, ids: seq<Doc>)
    requires TellsApart(fingerprint) && Covers(f, ids) && Listed(ids)
    ensures Usable(fingerprint, BloomEntry(f, fingerprint(ids)))
  {
    forall other | Listed(other) && fingerprint(other) == fingerprint(ids) ensures Covers(f, other) {
      assert Elements(other) == Elements(ids);
      forall d | d in other ensures f(d) {
        assert d in Elements(ids);
      }
    }
  }

  class VersionBloomStore {
    const fingerprint: Fingerprint
    const mayFail: bool                // whether a write to disk can fail at all
    var cache: map<Key, BloomEntry>
    var disk: map<Key, BloomEntry>

    ghost predicate Valid()
      reads this
    {
      && (forall k :: k in cache ==> Usable(fingerprint, cache[k]))
      && (forall k :: k in disk ==> Usable(fingerprint, disk[k]))
    }

    constructor (fingerprint: Fingerprint, mayFail: bool)
      ensures Valid() && this.fingerprint == fingerprint && this.mayFail == mayFail
    {
      this.fingerprint, this.mayFail, cache, disk := fingerprint, mayFail, map[], map[];
    }

    /** Whether the next write fails. */
    method Fails() returns (fails: bool)
      ensures fails ==> mayFail
    {
      fails := *;
      fails := fails && mayFail;
    }

    /** A fresh filter with every ID added: true for those, anything for the rest. */
    method Build(ids: seq<Doc>) returns (f: Filter)
      ensures Covers(f, ids)
    {
      var noise: set<Doc> :| true;
      f := d => d in ids || d in noise;
    }

    /** A write may fail, and then may have destroyed the copy that was there. */
    method Persist(k: Key, e: BloomEntry) returns (ok: bool)
      requires Valid() && Usable(fingerprint, e)
      modifies this`disk
      ensures Valid() && disk - {k} == old(disk) - {k}
      ensures if ok then k in disk && disk[k] == e else mayFail && (k in disk ==> k in old(disk) && disk[k] == old(disk)[k])
    {
      var fails := Fails();
      if fails {
        if * { disk := disk - {k}; }
        return false;
      }
      disk := disk[k := e];
      ok := true;
    }

    /** A missing, truncated or corrupt file is a miss. */
    method LoadFromDisk(k: Key) returns (r: Option<BloomEntry>)
      requires Valid()
      ensures r.Some? ==> Usable(fingerprint, r.value)
    {
      if k !in disk { return None; }
      if * { return None; }
      r := Some(disk[k]);
    }

    /** Whatever the cache and the disk hold, the filter returned misses none of the IDs. */
    method GetForDocuments(k: Key, ids: seq<Doc>) returns (f: Filter)
      requires Valid() && IsCodeFingerprint(fingerprint) && Listed(ids)
      modifies this
      ensures Valid() && Covers(f, ids)
    {
      var fp := fingerprint(ids);
      if k in cache && cache[k].fingerprint == fp { return cache[k].filter; }
      var copy := LoadFromDisk(k);
      if copy.Some? && copy.value.fingerprint == fp {
        cache := cache[k := copy.value];
        return copy.value.filter;
      }
      f := Build(ids);
      CodeFingerprintTellsApart(fingerprint);
      BuiltIsUsable(fingerprint, f, ids);
      var persisted := Persist(k, BloomEntry(f, fp));
      cache := cache[k := BloomEntry(f, fp)];
    }

    method BuildAndPersist(k: Key, ids: seq<Doc>) returns (r: Option<Filter>)
      requires Valid() && IsCodeFingerprint(fingerprint) && Listed(ids)
      modifies this
      ensures Valid() && (r.Some? ==> Covers(r.value, ids))
      ensures r.None? ==> cache == old(cache) && mayFail
      ensures r.Some? ==> k in cache && cache[k] == BloomEntry(r.value, fingerprint(ids)) && cache - {k} == old(cache) - {k}
      ensures r.Some? ==> k in disk && disk[k] == BloomEntry(r.value, fingerprint(ids))
    {
      var f := Build(ids);
      CodeFingerprintTellsApart(fingerprint);
      BuiltIsUsable(fingerprint, f, ids);
      var ok := Persist(k, BloomEntry(f, fingerprint(ids)));
      if !ok { return None; }
      cache := cache[k := BloomEntry(f, fingerprint(ids))];
      r := Some(f);
    }

    method DeleteByVersion(k: Key) returns (ok: bool)
      requires Valid()
      modifies this
      ensures Valid() && cache == old(cache) - {k} && disk == if ok then old(disk) - {k} else old(disk)
      ensures !ok ==> mayFail
    {
      cache := cache - {k};
      var fails := Fails();
      if fails { return false; }
      disk := disk - {k};
      ok := true;
    }

    method DeleteByKB(kb: string) returns (ok: bool)
      requires Valid()
      modifies this
      ensures Valid() && (forall k :: k in cache <==> k in old(cache) && k.0 != kb)
      ensures forall k :: k in cache ==> cache[k] == old(cache)[k]
      ensures if ok then forall k :: k in disk <==> k in old(disk) && k.0 != kb else disk == old(disk)
      ensures forall k :: k in disk ==> disk[k] == old(disk)[k]
      ensures !ok ==> mayFail
    {
      cache := map k | k in cache && k.0 != kb :: cache[k];
      var fails := Fails();
      if fails { return false; }
      disk := map k | k in disk && k.0 != kb :: disk[k];
      ok := true;
    }
  }

  // ---------------------------------------------------------------- the filter

  datatype Hit = Hit(chunk: Chunk, score: real)

  type Scores = map<Doc, seq<real>>

  function AddScore(m: Scores, d: Doc, score: real): Scores {
    m[d := (if d in m then m[d] else []) + [score]]
  }

  /** One hit's documents, those the filter keeps. */
  function AddDocs(m: Scores, docs: seq<Doc>, score: real, keep: Doc -> bool): Scores {
    if docs == [] then m
    else
      var front := AddDocs(m, docs[..|docs| - 1], score, keep);
      var d := docs[|docs| - 1];
      if keep(d) then AddScore(front, d, score) else front
  }

  /** Every hit at or above the threshold whose documents can be listed. */
  function Collect(hits: seq<Hit>, threshold: real, docsOf: Chunk -> Option<seq<Doc>>, keep: Doc -> bool): Scores {
    if hits == [] then map[]
    else
      var m := Collect(hits[..|hits| - 1], threshold, docsOf, keep);
      var h := hits[|hits| - 1];
      if h.score < threshold || docsOf(h.chunk).None? then m else AddDocs(m, docsOf(h.chunk).value, h.score, keep)
  }

  /** Only what a filter keeps matters to what it yields. */
  lemma {:induction false} AddDocsDependsOnKeep(m: Scores, docs: seq<Doc>, score: real, k: Doc -> bool, l: Doc -> bool)
    requires forall d :: k(d) == l(d)
    ensures AddDocs(m, docs, score, k) == AddDocs(m, docs, score, l)
  {
    if docs != [] { AddDocsDependsOnKeep(m, docs[..|docs| - 1], score, k, l); }
  }

  lemma {:induction false} CollectDependsOnKeep(
    hits: seq<Hit>, threshold: real, docsOf: Chunk -> Option<seq<Doc>>, k: Doc -> bool, l: Doc -> bool)
    requires forall d :: k(d) == l(d)
    ensures Collect(hits, threshold, docsOf, k) == Collect(hits, threshold, docsOf, l)
  {
    if hits != [] {
      CollectDependsOnKeep(hits[..|hits| - 1], threshold, docsOf, k, l);
      var h := hits[|hits| - 1];
      if docsOf(h.chunk).Some? {
        AddDocsDependsOnKeep(Collect(hits[..|hits| - 1], threshold, docsOf, k), docsOf(h.chunk).value, h.score, k, l);
      }
    }
  }

  /** The reference: plain membership in a set. */
  function Plain(hits: seq<Hit>, threshold: real, docsOf: Chunk -> Option<seq<Doc>>, ids: seq<Doc>): Scores {
    Collect(hits, threshold, docsOf, d => d in ids)
  }

  function Everything(hits: seq<Hit>, threshold: real, docsOf: Chunk -> Option<seq<Doc>>): Scores {
    Collect(hits, threshold, docsOf, d => true)
  }

  /** A bloom pre-test and a membership test keep what membership alone keeps. */
  lemma PreTestChangesNothing(
    hits: seq<Hit>, threshold: real, docsOf: Chunk -> Option<seq<Doc>>, f: Filter, ids: seq<Doc>, committed: seq<Doc>)
    requires Covers(f, ids) && Elements(ids) == Elements(committed)
    ensures Collect(hits, threshold, docsOf, d => f(d) && d in Elements(ids)) == Plain(hits, threshold, docsOf, committed)
  {
    forall d ensures (f(d) && d in Elements(ids)) == (d in committed) {
      assert d in Elements(ids) <==> d in Elements(committed);
    }
    CollectDependsOnKeep(hits, threshold, docsOf, d => f(d) && d in Elements(ids), d => d in committed);
  }

  /** The loop over the hits, with the version filter or without one. */
  method FilterHits(hits: seq<Hit>, threshold: real, docsOf: Chunk -> Option<seq<Doc>>, bloom: Filter, docs: set<Doc>, skip: bool)
    returns (m: Scores)
    ensures !skip ==> m == Collect(hits, threshold, docsOf, d => bloom(d) && d in docs)
    ensures skip ==> m == Everything(hits, threshold, docsOf)
  {
    m := map[];
    ghost var keep := d => skip || (bloom(d) && d in docs);
    for i := 0 to |hits|
      invariant m == Collect(hits[..i], threshold, docsOf, keep)
    {
      assert hits[..i + 1][..i] == hits[..i];
      var r := hits[i];
      if r.score < threshold { continue; }
      var listed := docsOf(r.chunk);
      if listed.None? { continue; }
      var ids := listed.value;
      ghost var before := m;
      for j := 0 to |ids|
        invariant m == AddDocs(before, ids[..j], r.score, keep)
      {
        assert ids[..j + 1][..j] == ids[..j];
        var d := ids[j];
        if !skip {
          if !bloom(d) { continue; }
          if d !in docs { continue; }
        }
        m := AddScore(m, d, r.score);
      }
      assert ids[..|ids|] == ids;
    }
    assert hits[..|hits|] == hits;
    if skip {
      CollectDependsOnKeep(hits, threshold, docsOf, keep, d => true);
    } else {
      CollectDependsOnKeep(hits, threshold, docsOf, keep, d => bloom(d) && d in docs);
    }
  }

  /** How a query's filter stage ended: a document-to-scores map, whether it was filtered at all, or a retryable refusal. */
  datatype Answer = Refused | Filtered(scores: Scores) | Unfiltered(scores: Scores)

  /** The bloom filter for a set, then the loop with both tests. */
  method FilterBySet(
    blooms: VersionBloomStore, k: Key, ids: seq<Doc>, hits: seq<Hit>, threshold: real, docsOf: Chunk -> Option<seq<Doc>>,
    ghost same: seq<Doc>)
    returns (m: Scores)
    requires blooms.Valid() && IsCodeFingerprint(blooms.fingerprint) && Listed(ids) && Elements(ids) == Elements(same)
    modifies blooms
    ensures blooms.Valid() && m == Plain(hits, threshold, docsOf, same)
  {
    var bloom := blooms.GetForDocuments(k, ids);
    m := FilterHits(hits, threshold, docsOf, bloom, Elements(ids), false);
    PreTestChangesNothing(hits, threshold, docsOf, bloom, ids, same);
  }

  /**
    The filter stage of a query; `down` says that the store cannot be read. With a digest
    committed for the version, of whatever set, the stage answers as plain membership in that
    set would, and never filters against another set, whatever the caches hold. It refuses
    exactly when the store can be read, no verified set is cached and the store's set does not
    match (or, with no digest to match, is empty), and it does not filter exactly when the
    store cannot be read and no verified set is cached.
  */
  method FilterStage(
    sets: DocSetCache, blooms: VersionBloomStore, store: map<Key, seq<Doc>>, down: bool, k: Key, committedDigest: string,
    hits: seq<Hit>, threshold: real, docsOf: Chunk -> Option<seq<Doc>>, ghost committed: seq<Doc>)
    returns (r: Answer)
    requires sets.Valid() && blooms.Valid()
    requires IsCodeDigest(sets.digest) && IsCodeFingerprint(blooms.fingerprint)
    requires Listed(committed) && forall j :: j in store ==> Listed(store[j])
    modifies sets, blooms
    ensures sets.Valid() && blooms.Valid()
    ensures r.Unfiltered? <==>
      down && !(committedDigest != "" && k in old(sets.entries) && old(sets.entries)[k].digest == committedDigest)
    ensures r.Refused? <==>
      && !down && !(committedDigest != "" && k in old(sets.entries) && old(sets.entries)[k].digest == committedDigest)
      && if committedDigest == "" then Stored(store, k) == [] else sets.digest(Stored(store, k)) != committedDigest
    ensures r.Filtered? && committedDigest != "" && committedDigest == sets.digest(committed) ==>
      r.scores == Plain(hits, threshold, docsOf, committed)
    ensures r.Filtered? && committedDigest == "" ==> r.scores == Plain(hits, threshold, docsOf, Stored(store, k))
    ensures r.Unfiltered? ==> r.scores == Everything(hits, threshold, docsOf)
  {
    CodeDigestTellsApart(sets.digest);
    NoDigestIsEmpty(sets.digest, []);
    var found := sets.Lookup(store, down, k, committedDigest);
    if found == Err(NotReady) { return Refused; }
    if found.Err? {
      var m := FilterHits(hits, threshold, docsOf, d => true, {}, true);
      return Unfiltered(m);
    }
    var ids := found.value.0;
    if |ids| == 0 && committedDigest != sets.digest([]) { return Refused; }
    ghost var same :=
      if committedDigest != "" && committedDigest == sets.digest(committed) then committed else ids;
    var m := FilterBySet(blooms, k, ids, hits, threshold, docsOf, same);
    r := Filtered(m);
  }

  // ---------------------------------------------------------------- what the scores are

  /** How many documents a chunk lists; none when they cannot be listed. */
  function Listing(docs: Option<seq<Doc>>): nat {
    if docs.None? then 0 else |docs.value|
  }

  /** The places where `d` is found with score `x`: a hit at or above the threshold, and a position in its documents. */
  ghost function Sources(hits: seq<Hit>, threshold: real, docsOf: Chunk -> Option<seq<Doc>>, d: Doc, x: real): set<(nat, nat)> {
    set i: nat, j: nat | 0 <= i < |hits| && 0 <= j < Listing(docsOf(hits[i].chunk)) &&
      hits[i].score >= threshold && hits[i].score == x && docsOf(hits[i].chunk).value[j] == d :: (i, j)
  }

  /** The number of scores `x` a document has. */
  function Tally(m: Scores, d: Doc, x: real): nat {
    if d in m then multiset(m[d])[x] else 0
  }

  ghost function Places(docs: seq<Doc>, d: Doc): set<nat> {
    set j: nat | 0 <= j < |docs| && docs[j] == d
  }

  lemma AddScoreTally(m: Scores, e: Doc, score: real, d: Doc, x: real)
    ensures Tally(AddScore(m, e, score), d, x) == Tally(m, d, x) + if e == d && x == score then 1 else 0
    ensures d in AddScore(m, e, score) <==> d in m || d == e
  {
  }

  lemma LastPlace(front: seq<Doc>, last: Doc, d: Doc)
    ensures |Places(front + [last], d)| == |Places(front, d)| + if last == d then 1 else 0
  {
    assert Places(front + [last], d) == Places(front, d) + if last == d then {|front|} else {};
  }

  lemma {:induction false} AddDocsTally(m: Scores, docs: seq<Doc>, score: real, keep: Doc -> bool, d: Doc, x: real)
    ensures Tally(AddDocs(m, docs, score, keep), d, x) == Tally(m, d, x) + if keep(d) && x == score then |Places(docs, d)| else 0
    ensures d in AddDocs(m, docs, score, keep) <==> d in m || (keep(d) && d in docs)
  {
    if docs == [] {
      assert Places(docs, d) == {};
    } else {
      var front, last := docs[..|docs| - 1], docs[|docs| - 1];
      AddDocsTally(m, front, score, keep, d, x);
      assert docs == front + [last];
      LastPlace(front, last, d);
      AddScoreTally(AddDocs(m, front, score, keep), last, score, d, x);
    }
  }

  /** The sources of the last hit: its documents' places of `d`, if the hit counts with score `x`. */
  ghost function LastSources(h: Hit, threshold: real, docs: Option<seq<Doc>>, d: Doc, x: real): set<nat> {
    if h.score >= threshold && h.score == x && docs.Some? then Places(docs.value, d) else {}
  }

  lemma SourcesOneMore(hits: seq<Hit>, threshold: real, docsOf: Chunk -> Option<seq<Doc>>, d: Doc, x: real, i: nat, j: nat)
    requires hits != []
    ensures var front, h := hits[..|hits| - 1], hits[|hits| - 1];
      (i, j) in Sources(hits, threshold, docsOf, d, x) <==>
      (i, j) in Sources(front, threshold, docsOf, d, x) || (i == |front| && j in LastSources(h, threshold, docsOf(h.chunk), d, x))
    ensures (i, j) in Sources(hits, threshold, docsOf, d, x) ==> i < |hits|
  {
  }

  lemma LastHitSources(hits: seq<Hit>, threshold: real, docsOf: Chunk -> Option<seq<Doc>>, d: Doc, x: real)
    requires hits != []
    ensures var front, h := hits[..|hits| - 1], hits[|hits| - 1];
      |Sources(hits, threshold, docsOf, d, x)| ==
      |Sources(front, threshold, docsOf, d, x)| + |LastSources(h, threshold, docsOf(h.chunk), d, x)|
  {
    var front, h := hits[..|hits| - 1], hits[|hits| - 1];
    var all, some, more := Sources(hits, threshold, docsOf, d, x), Sources(front, threshold, docsOf, d, x),
      LastSources(h, threshold, docsOf(h.chunk), d, x);
    forall i: nat, j: nat
      ensures (i, j) in all <==> (i, j) in some || (i == |front| && j in more)
      ensures (i, j) in some ==> i < |front|
    {
      SourcesOneMore(hits, threshold, docsOf, d, x, i, j);
    }
    JoinCount(|front|, some, more, all);
  }

  lemma JoinCount(n: nat, some: set<(nat, nat)>, more: set<nat>, all: set<(nat, nat)>)
    requires forall i: nat, j: nat :: (i, j) in all <==> (i, j) in some || (i == n && j in more)
    requires forall i: nat, j: nat :: (i, j) in some ==> i < n
    ensures |all| == |some| + |more|
  {
    var last := set p | p in all && p.0 == n;
    forall p ensures p in all <==> p in some + last {
      assert p == (p.0, p.1);
    }
    assert all == some + last && some !! last;
    PairsCount(n, more, last);
  }

  lemma {:induction false} PairsCount(n: nat, js: set<nat>, pairs: set<(nat, nat)>)
    requires forall j: nat :: j in js <==> (n, j) in pairs
    requires forall p :: p in pairs ==> p.0 == n
    ensures |pairs| == |js|
    decreases pairs
  {
    if pairs == {} {
      assert js == {};
    } else {
      var p :| p in pairs;
      assert p == (n, p.1);
      PairsCount(n, js - {p.1}, pairs - {p});
    }
  }

  /**
    What a query's scores are: a document has the score `x` once for every place in a counting
    hit's documents where it is found with it, and only documents the filter keeps have any.
  */
  lemma {:induction false} CollectTally(
    hits: seq<Hit>, threshold: real, docsOf: Chunk -> Option<seq<Doc>>, keep: Doc -> bool, d: Doc, x: real)
    ensures Tally(Collect(hits, threshold, docsOf, keep), d, x) ==
      if keep(d) then |Sources(hits, threshold, docsOf, d, x)| else 0
    ensures d in Collect(hits, threshold, docsOf, keep) <==>
      keep(d) && exists i :: 0 <= i < |hits| && hits[i].score >= threshold && docsOf(hits[i].chunk).Some? && d in docsOf(hits[i].chunk).value
  {
    if hits == [] {
      assert Sources(hits, threshold, docsOf, d, x) == {};
    } else {
      var front, h := hits[..|hits| - 1], hits[|hits| - 1];
      var m := Collect(front, threshold, docsOf, keep);
      CollectTally(front, threshold, docsOf, keep, d, x);
      LastHitSources(hits, threshold, docsOf, d, x);
      if docsOf(h.chunk).Some? {
        AddDocsTally(m, docsOf(h.chunk).value, h.score, keep, d, x);
      }
      assert hits == front + [h];
    }
  }

  /** The filtered answer, in those terms: exactly the members of the set that some counting hit finds, with all their scores. */
  lemma FilteredScores(hits: seq<Hit>, threshold: real, docsOf: Chunk -> Option<seq<Doc>>, ids: seq<Doc>, d: Doc, x: real)
    ensures d in Plain(hits, threshold, docsOf, ids) <==>
      d in ids && exists i :: 0 <= i < |hits| && hits[i].score >= threshold && docsOf(hits[i].chunk).Some? && d in docsOf(hits[i].chunk).value
    ensures d in Plain(hits, threshold, docsOf, ids) ==>
      multiset(Plain(hits, threshold, docsOf, ids)[d])[x] == |Sources(hits, threshold, docsOf, d, x)|
    ensures d in Everything(hits, threshold, docsOf) <==>
      exists i :: 0 <= i < |hits| && hits[i].score >= threshold && docsOf(hits[i].chunk).Some? && d in docsOf(hits[i].chunk).value
    ensures d in Everything(hits, threshold, docsOf) ==>
      multiset(Everything(hits, threshold, docsOf)[d])[x] == |Sources(hits, threshold, docsOf, d, x)|
  {
    CollectTally(hits, threshold, docsOf, e => e in ids, d, x);
    CollectTally(hits, threshold, docsOf, e => true, d, x);
  }
}
