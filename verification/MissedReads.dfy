/**
  A collector's read that fails while iterating comes back as "not found", like a read of a
  deleted document. This is what such reads do: any chunk of any reachable knowledge base can
  be erased by them, so collection is safe exactly when they do not happen.
*/
module MissedReads {
  import opened Basics
  import opened Mvcc
  import opened Storage
  import opened StorageProofs

  lemma {:induction false} OneMoreStep(s: State, steps: seq<Step>, a: Step)
    requires IsRun(s, steps) && Enabled(RunTo(s, steps), a)
    ensures IsRun(s, steps + [a]) && RunTo(s, steps + [a]) == Apply(RunTo(s, steps), a)
    decreases |steps|
  {
    if steps == [] {
      assert steps + [a] == [a] && [a][1..] == [];
      assert IsRun(Apply(s, a), []) && RunTo(Apply(s, a), []) == Apply(s, a);
    } else {
      OneMoreStep(Apply(s, steps[0]), steps[1..], a);
      assert (steps + [a])[1..] == steps[1..] + [a];
    }
  }

  lemma {:induction false} RunsJoin(s: State, x: seq<Step>, y: seq<Step>)
    requires IsRun(s, x) && IsRun(RunTo(s, x), y)
    ensures IsRun(s, x + y) && RunTo(s, x + y) == RunTo(RunTo(s, x), y)
    decreases |x|
  {
    if x == [] {
      assert x + y == y;
    } else {
      RunsJoin(Apply(s, x[0]), x[1..], y);
      assert (x + y)[1..] == x[1..] + y;
    }
  }

  /** A sweep up to the point where it has listed a chunk's documents. */
  lemma StartJudging(s: State, c: Chunk) returns (steps: seq<Step>)
    requires ChainSound(s.cat) && s.cat.tail != 0 && s.holder.Free? && MappedDocs(s.chunks.fwd, c) != {}
    ensures IsRun(s, steps)
    ensures RunTo(s, steps) == s.(
      snapshots := s.snapshots + {Snapshot(LiveSet(s.cat), s.cat.tail)},
      holder := Collector(Checking(LiveSet(s.cat), c, MappedDocs(s.chunks.fwd, c), {})))
  {
    var snap := Snapshot(LiveSet(s.cat), s.cat.tail);
    steps := [];
    OneMoreStep(s, steps, OnCollect(TakeSnapshot(s.cat.tail)));
    steps := steps + [OnCollect(TakeSnapshot(s.cat.tail))];
    OneMoreStep(s, steps, OnCollect(SweepLock(snap)));
    steps := steps + [OnCollect(SweepLock(snap))];
    OneMoreStep(s, steps, OnCollect(ReadTail));
    steps := steps + [OnCollect(ReadTail)];
    OneMoreStep(s, steps, OnCollect(ListDocs(c)));
    steps := steps + [OnCollect(ListDocs(c))];
  }

  /** Every judging read fails, and the chunk is confirmed as an orphan. */
  lemma MissEveryRead(s: State) returns (steps: seq<Step>)
    requires s.holder.Collector? && s.holder.judge.Checking?
    ensures IsRun(s, steps)
    ensures var s', j := RunTo(s, steps), s.holder.judge;
      s' == s.(chunks := s.chunks.(misled := s'.chunks.misled), holder := Collector(Erasing(j.live, j.chunk, j.docs)))
  {
    var j := s.holder.judge;
    steps := [];
    var todo := set d, u | d in j.docs && u in j.live :: (d, u);
    while todo != {}
      invariant IsRun(s, steps)
      invariant var s' := RunTo(s, steps);
        && s'.holder.Collector? && s'.holder.judge.Checking?
        && s' == s.(chunks := s.chunks.(misled := s'.chunks.misled),
                    holder := Collector(j.(checked := s'.holder.judge.checked)))
        && forall d, u :: d in j.docs && u in j.live ==> (d, u) in todo || (d, u) in s'.holder.judge.checked
      invariant forall p :: p in todo ==> p.0 in j.docs && p.1 in j.live
      decreases todo
    {
      var p :| p in todo;
      var a := OnCollect(MissRead(p.0, p.1));
      assert p == (p.0, p.1);
      OneMoreStep(s, steps, a);
      steps := steps + [a];
      todo := todo - {p};
    }
    OneMoreStep(s, steps, OnCollect(Confirm));
    steps := steps + [OnCollect(Confirm)];
  }

  /** The mappings go, then the vector. */
  lemma EraseIt(s: State) returns (steps: seq<Step>)
    requires s.holder.Collector? && s.holder.judge.Erasing?
    requires s.holder.judge.docs == MappedDocs(s.chunks.fwd, s.holder.judge.chunk)
    ensures IsRun(s, steps)
    ensures var s', c := RunTo(s, steps), s.holder.judge.chunk;
      && s'.split == s.split && s'.cat == s.cat && s'.docs == s.docs
      && c !in s'.chunks.vectors && forall d :: (c, d) !in s'.chunks.fwd
  {
    var j := s.holder.judge;
    var c, todo := j.chunk, j.docs;
    steps := [];
    assert forall d :: (c, d) in s.chunks.fwd ==> d in MappedDocs(s.chunks.fwd, c);
    while todo != {}
      invariant IsRun(s, steps)
      invariant var s' := RunTo(s, steps);
        && s'.split == s.split && s'.cat == s.cat && s'.docs == s.docs && s'.holder == s.holder
        && forall d :: (c, d) in s'.chunks.fwd ==> d in todo
      invariant todo <= j.docs
      decreases todo
    {
      var d :| d in todo;
      OneMoreStep(s, steps, OnCollect(Unmap(d)));
      steps := steps + [OnCollect(Unmap(d))];
      todo := todo - {d};
    }
    OneMoreStep(s, steps, OnCollect(EraseVector));
    steps := steps + [OnCollect(EraseVector)];
  }

  /**
    From every sound state with the lock free, whatever chunk is mapped at all, there is a
    sweep whose judging reads all fail while iterating and which erases that chunk, its
    mappings and its vector, with every version and document left as it was.
  */
  lemma MissedReadsEraseAnyChunk(s: State, c: Chunk) returns (steps: seq<Step>)
    requires ChainSound(s.cat) && s.cat.tail != 0 && s.holder.Free? && exists d :: (c, d) in s.chunks.fwd
    ensures IsRun(s, steps)
    ensures var s' := RunTo(s, steps);
      && s'.split == s.split && s'.cat == s.cat && s'.docs == s.docs
      && c !in s'.chunks.vectors && forall d :: (c, d) !in s'.chunks.fwd
  {
    var d :| (c, d) in s.chunks.fwd;
    assert (c, d).1 in MappedDocs(s.chunks.fwd, c);
    var x := StartJudging(s, c);
    var s1 := RunTo(s, x);
    var y := MissEveryRead(s1);
    var s2 := RunTo(s1, y);
    var z := EraseIt(s2);
    RunsJoin(s1, y, z);
    RunsJoin(s, x, y + z);
    steps := x + (y + z);
  }

  /** Nothing a live version reads has lost a mapping, nor, once the version has committed, a durable vector. */
  ghost predicate AllServed(s: State) {
    forall u, d, x, c ::
      u in s.cat.metas && !s.cat.metas[u].deleting && ReadAt(s.docs.records, d, u) == Some(Content(x)) && x != "" && c in s.split(x) ==>
        && (c, d) in s.chunks.fwd && (d, c) in s.chunks.rev
        && (s.cat.metas[u].committed ==> c in s.chunks.vectors && c in s.chunks.durable)
  }

  lemma InvServesAll(s: State)
    requires Inv(s) && !s.chunks.misled
    ensures AllServed(s)
  {
    forall u, d, x, c
      | u in s.cat.metas && !s.cat.metas[u].deleting && ReadAt(s.docs.records, d, u) == Some(Content(x)) && x != "" && c in s.split(x)
      ensures (c, d) in s.chunks.fwd && (d, c) in s.chunks.rev
      ensures s.cat.metas[u].committed ==> c in s.chunks.vectors && c in s.chunks.durable
    {
      InvServes(s, u, d, x, c);
    }
  }

  /** Missed reads, and nothing else, take a chunk from under a live version that reads it. */
  lemma MissedReadUnserves(s: State, u: Version, d: Doc, x: string, c: Chunk) returns (after: seq<Step>)
    requires Inv(s) && !s.chunks.misled && s.holder.Free? && u in s.cat.metas && !s.cat.metas[u].deleting
    requires ReadAt(s.docs.records, d, u) == Some(Content(x)) && x != "" && c in s.split(x)
    ensures IsRun(s, after) && !AllServed(RunTo(s, after))
  {
    InvServes(s, u, d, x, c);
    after := MissedReadsEraseAnyChunk(s, c);
    var s' := RunTo(s, after);
    assert u in s'.cat.metas && ReadAt(s'.docs.records, d, u) == Some(Content(x)) && c in s'.split(x);
  }

  /**
    In every reachable state with the lock free in which a live version reads some text that
    has a chunk, collection stays safe on every continuation if and only if no judging read of
    such a document fails while iterating.
  */
  lemma SafeFromHereIff(s0: State, before: seq<Step>, u: Version, d: Doc, x: string, c: Chunk, mayMiss: bool)
    requires Init(s0) && IsRun(s0, before) && NoneMissed(s0, before)
    requires var s := RunTo(s0, before);
      && s.holder.Free? && u in s.cat.metas && !s.cat.metas[u].deleting
      && ReadAt(s.docs.records, d, u) == Some(Content(x)) && x != "" && c in s.split(x)
    ensures var s := RunTo(s0, before);
      (forall after :: IsRun(s, after) && (mayMiss || NoneMissed(s, after)) ==> AllServed(RunTo(s, after))) <==> !mayMiss
  {
    InitSound(s0);
    RunKeepsInv(s0, before);
    MisledIff(s0, before);
    var s := RunTo(s0, before);
    if mayMiss {
      var after := MissedReadUnserves(s, u, d, x, c);
    } else {
      forall after | IsRun(s, after) && NoneMissed(s, after) ensures AllServed(RunTo(s, after)) {
        RunKeepsInv(s, after);
        MisledIff(s, after);
        InvServesAll(RunTo(s, after));
      }
    }
  }

  /** The steps of a write of one document with one chunk, from an empty knowledge base. */
  ghost function OneWrite(n: Version, d: Doc, x: string, c: Chunk): seq<Step> {
    [OnChain(Allocate(n, map[d := Content(x)])), OnWrite(WriterLock), OnWrite(PutVector(c)), OnWrite(PutMappings(d)),
     OnWrite(PutRecord(d)), OnWrite(PutList), OnWrite(FlushVectors), OnWrite(CommitVersion)]
  }

  /** The first `i` of the steps run from `s` to `x`. */
  ghost predicate Reaches(s: State, all: seq<Step>, i: nat, x: State) {
    i <= |all| && IsRun(s, all[..i]) && RunTo(s, all[..i]) == x
  }

  lemma OneMoreOf(s: State, all: seq<Step>, i: nat, x: State)
    requires Reaches(s, all, i, x) && i < |all| && Enabled(x, all[i])
    ensures Reaches(s, all, i + 1, Apply(x, all[i]))
  {
    OneMoreStep(s, all[..i], all[i]);
    assert all[..i] + [all[i]] == all[..i + 1];
  }

  /** The state with the version allocated and the lock taken. */
  ghost function Opened(s: State, d: Doc, x: string): State {
    var n := s.cat.next;
    s.(cat := Catalog(n + 1, n, map[n := Meta(0, map[d := Content(x)], false, false)]),
       holder := Writer(Work({}, {}, {}, false, false)))
  }

  /** The state with the chunk stored and mapped and the record written. */
  ghost function Recorded(s: State, d: Doc, x: string, c: Chunk): State {
    Opened(s, d, x).(
      docs := DocData(map[(d, s.cat.next) := Content(x)], map[]),
      chunks := ChunkData({(c, d)}, {(d, c)}, {c}, {}, false, false),
      holder := Writer(Work({c}, {d}, {d}, false, false)))
  }

  lemma OpensFirst(s: State, d: Doc, x: string, c: Chunk)
    requires Init(s)
    ensures Reaches(s, OneWrite(s.cat.next, d, x, c), 2, Opened(s, d, x))
  {
    var steps, changes := OneWrite(s.cat.next, d, x, c), map[d := Content(x)];
    assert d in changes;
    assert steps[..0] == [] && Reaches(s, steps, 0, s);
    OneMoreOf(s, steps, 0, s);
    var s1 := Apply(s, steps[0]);
    OneMoreOf(s, steps, 1, s1);
    assert Apply(s1, steps[1]) == Opened(s, d, x);
  }

  lemma RecordsNext(s: State, d: Doc, x: string, c: Chunk)
    requires Init(s) && s.split(x) == {c}
    ensures Reaches(s, OneWrite(s.cat.next, d, x, c), 5, Recorded(s, d, x, c))
  {
    var steps, s2 := OneWrite(s.cat.next, d, x, c), Opened(s, d, x);
    OpensFirst(s, d, x, c);
    OneMoreOf(s, steps, 2, s2);
    var s3 := Apply(s2, steps[2]);
    OneMoreOf(s, steps, 3, s3);
    var s4 := Apply(s3, steps[3]);
    assert s4.chunks == ChunkData({(c, d)}, {(d, c)}, {c}, {}, false, false);
    OneMoreOf(s, steps, 4, s4);
    var s5 := Apply(s4, steps[4]);
    assert s5.holder == Writer(Work({c}, {d}, {d}, false, false));
    assert s5.docs.records == map[(d, s.cat.next) := Content(x)];
    assert s5 == Recorded(s, d, x, c);
  }

  lemma OneDocumentWritten(s: State, d: Doc, x: string, c: Chunk)
    requires Init(s) && x != "" && s.split(x) == {c}
    ensures var steps := OneWrite(s.cat.next, d, x, c);
      && IsRun(s, steps)
      && var s' := RunTo(s, steps);
         && s'.holder.Free? && s'.split == s.split
         && s.cat.next in s'.cat.metas && !s'.cat.metas[s.cat.next].deleting && s'.cat.metas[s.cat.next].committed
         && ReadAt(s'.docs.records, d, s.cat.next) == Some(Content(x))
  {
    var n := s.cat.next;
    var steps, s5 := OneWrite(n, d, x, c), Recorded(s, d, x, c);
    RecordsNext(s, d, x, c);
    assert map[d := Content(x)].Keys == {d};
    OneMoreOf(s, steps, 5, s5);
    var s6 := Apply(s5, steps[5]);
    OneMoreOf(s, steps, 6, s6);
    var s7 := Apply(s6, steps[6]);
    OneMoreOf(s, steps, 7, s7);
    assert steps[..8] == steps;
    VisibleIs(s5.docs.records, d, n, n);
  }

  lemma {:induction false} WriteMissesNothing(s: State, steps: seq<Step>)
    requires IsRun(s, steps) && forall i :: 0 <= i < |steps| ==> !steps[i].OnCollect?
    ensures NoneMissed(s, steps)
    decreases |steps|
  {
    if steps != [] { WriteMissesNothing(Apply(s, steps[0]), steps[1..]); }
  }

  /**
    One document, one chunk, one committed version, then a sweep whose read of the document
    fails while iterating: the version still reads the document, and its chunk is gone.
  */
  lemma LiveChunkErased(s: State, d: Doc, x: string, c: Chunk) returns (steps: seq<Step>)
    requires Init(s) && x != "" && s.split(x) == {c}
    ensures IsRun(s, steps)
    ensures var s' := RunTo(s, steps);
      && s.cat.next in s'.cat.metas && !s'.cat.metas[s.cat.next].deleting && s'.cat.metas[s.cat.next].committed
      && ReadAt(s'.docs.records, d, s.cat.next) == Some(Content(x))
      && c !in s'.chunks.vectors && (c, d) !in s'.chunks.fwd
  {
    var write := OneWrite(s.cat.next, d, x, c);
    OneDocumentWritten(s, d, x, c);
    WriteMissesNothing(s, write);
    InitSound(s);
    RunKeepsInv(s, write);
    MisledIff(s, write);
    var s1 := RunTo(s, write);
    InvServes(s1, s.cat.next, d, x, c);
    var sweep := MissedReadsEraseAnyChunk(s1, c);
    RunsJoin(s, write, sweep);
    steps := write + sweep;
  }
}
