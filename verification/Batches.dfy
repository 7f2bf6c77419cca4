/**
  A version's batch of changes. The document records of a batch are written by concurrent
  workers, in any order; the version's document list applies the same changes in order.
*/
module Batches {
  import opened Basics
  import opened Mvcc
  import opened Storage

  datatype Op = Add | Update | Delete
  datatype Change = Change(op: Op, doc: Doc, text: string)

  function ValueOf(ch: Change): Value {
    if ch.op.Delete? then Tombstone else Content(ch.text)
  }

  function ApplyOne(docs: set<Doc>, ch: Change): set<Doc> {
    if ch.op.Delete? then docs - {ch.doc} else docs + {ch.doc}
  }

  /** The document list derived from the parent's, change by change. */
  function DocSet(parent: set<Doc>, batch: seq<Change>): set<Doc> {
    if batch == [] then parent
    else ApplyOne(DocSet(parent, batch[..|batch| - 1]), batch[|batch| - 1])
  }

  /** The records after the batch's workers ran in the given order. */
  function WriteInOrder(r: Records, n: Version, order: seq<Change>): Records {
    if order == [] then r
    else
      var ch := order[|order| - 1];
      WriteInOrder(r, n, order[..|order| - 1])[(ch.doc, n) := ValueOf(ch)]
  }

  /** The batch as one value per document, the last change winning. */
  function AsMap(batch: seq<Change>): map<Doc, Value> {
    if batch == [] then map[]
    else
      var ch := batch[|batch| - 1];
      AsMap(batch[..|batch| - 1])[ch.doc := ValueOf(ch)]
  }

  /** Applying a batch in order is applying its map at once. */
  lemma {:induction false} DocSetIsApplyChanges(parent: set<Doc>, batch: seq<Change>)
    ensures DocSet(parent, batch) == ApplyChanges(parent, AsMap(batch))
  {
    if batch != [] {
      DocSetIsApplyChanges(parent, batch[..|batch| - 1]);
    } else {
      assert ApplyChanges(parent, map[]) == parent;
    }
  }

  predicate Touches(batch: seq<Change>, d: Doc) {
    exists i :: 0 <= i < |batch| && batch[i].doc == d
  }

  /** `ch` is the last change of its document in the batch. */
  ghost predicate IsLast(batch: seq<Change>, i: nat) {
    i < |batch| && forall j :: i < j < |batch| ==> batch[j].doc != batch[i].doc
  }

  lemma {:induction false} LastChangeWins(parent: set<Doc>, r: Records, n: Version, batch: seq<Change>, i: nat)
    requires IsLast(batch, i)
    ensures batch[i].doc in DocSet(parent, batch) <==> !batch[i].op.Delete?
    ensures (batch[i].doc, n) in WriteInOrder(r, n, batch)
    ensures WriteInOrder(r, n, batch)[(batch[i].doc, n)] ==
      if batch[i].op.Delete? then Tombstone else Content(batch[i].text)
  {
    var front := batch[..|batch| - 1];
    if i < |front| {
      assert IsLast(front, i) && front[i] == batch[i];
      LastChangeWins(parent, r, n, front, i);
    }
  }

  lemma {:induction false} UntouchedKept(parent: set<Doc>, r: Records, n: Version, batch: seq<Change>, d: Doc, v: Version)
    requires !Touches(batch, d) || v != n
    ensures !Touches(batch, d) ==> (d in DocSet(parent, batch) <==> d in parent)
    ensures (d, v) in WriteInOrder(r, n, batch) <==> (d, v) in r
    ensures (d, v) in r ==> WriteInOrder(r, n, batch)[(d, v)] == r[(d, v)]
  {
    if batch != [] {
      var front := batch[..|batch| - 1];
      assert Touches(front, d) ==> Touches(batch, d);
      assert !Touches(batch, d) ==> batch[|batch| - 1].doc != d;
      UntouchedKept(parent, r, n, front, d, v);
    }
  }

  lemma {:induction false} LastIndex(batch: seq<Change>, d: Doc) returns (i: nat)
    requires Touches(batch, d)
    ensures IsLast(batch, i) && batch[i].doc == d
  {
    if batch[|batch| - 1].doc == d {
      i := |batch| - 1;
    } else {
      var front := batch[..|batch| - 1];
      var k :| 0 <= k < |batch| && batch[k].doc == d;
      assert front[k] == batch[k];
      i := LastIndex(front, d);
    }
  }

  lemma UntouchedReads(parent: set<Doc>, r: Records, n: Version, order: seq<Change>, d: Doc)
    requires !Touches(order, d)
    ensures ReadAt(WriteInOrder(r, n, order), d, n) == ReadAt(r, d, n)
  {
    var r' := WriteInOrder(r, n, order);
    forall v: Version
      ensures (d, v) in r' <==> (d, v) in r
      ensures (d, v) in r ==> r'[(d, v)] == r[(d, v)]
    {
      UntouchedKept(parent, r, n, order, d, v);
    }
    VisibleIsNewest(r, d, n);
    match Visible(r, d, n)
    case Some(v) => VisibleIs(r', d, n, v);
    case None => VisibleNone(r', d, n);
  }

  /** The version's list and its records, written in this order, describe one set. */
  ghost predicate OrderAgrees(parent: set<Doc>, r: Records, n: Version, batch: seq<Change>, order: seq<Change>) {
    forall d :: d in DocSet(parent, batch) <==> Alive(WriteInOrder(r, n, order), d, n)
  }

  /** Some document is both deleted and put by the batch. */
  ghost predicate Mixed(batch: seq<Change>) {
    exists i, j :: 0 <= i < |batch| && 0 <= j < |batch| && batch[i].doc == batch[j].doc &&
      batch[i].op.Delete? && !batch[j].op.Delete?
  }

  lemma SameTouches(batch: seq<Change>, order: seq<Change>, d: Doc)
    requires multiset(order) == multiset(batch)
    ensures Touches(batch, d) <==> Touches(order, d)
  {
    if Touches(batch, d) {
      var i :| 0 <= i < |batch| && batch[i].doc == d;
      assert batch[i] in multiset(order);
    }
    if Touches(order, d) {
      var i :| 0 <= i < |order| && order[i].doc == d;
      assert order[i] in multiset(batch);
    }
  }

  lemma PureBatchAgrees(parent: set<Doc>, r: Records, n: Version, batch: seq<Change>, order: seq<Change>)
    requires forall d :: d in parent <==> Alive(r, d, n)
    requires multiset(order) == multiset(batch) && !Mixed(batch)
    ensures OrderAgrees(parent, r, n, batch, order)
  {
    forall d ensures d in DocSet(parent, batch) <==> Alive(WriteInOrder(r, n, order), d, n) {
      SameTouches(batch, order, d);
      if Touches(batch, d) {
        var i := LastIndex(batch, d);
        var j := LastIndex(order, d);
        LastChangeWins(parent, r, n, batch, i);
        LastChangeWins(parent, r, n, order, j);
        VisibleIs(WriteInOrder(r, n, order), d, n, n);
        assert order[j] in multiset(batch);
        var k :| 0 <= k < |batch| && batch[k] == order[j];
        assert batch[i].op.Delete? == batch[k].op.Delete?;
      } else {
        UntouchedKept(parent, r, n, batch, d, n);
        UntouchedReads(parent, r, n, order, d);
      }
    }
  }

  /** Letting the worker of change `i` finish last. */
  function MovedLast(batch: seq<Change>, i: nat): seq<Change>
    requires i < |batch|
  {
    batch[..i] + batch[i + 1..] + [batch[i]]
  }

  lemma MovedLastIsReordering(batch: seq<Change>, i: nat)
    requires i < |batch|
    ensures multiset(MovedLast(batch, i)) == multiset(batch)
  {
    assert batch == batch[..i] + [batch[i]] + batch[i + 1..];
  }

  /** A batch that deletes and puts one document: some order of its workers leaves list and reads of it apart. */
  lemma MixedBatchDisagrees(parent: set<Doc>, r: Records, n: Version, batch: seq<Change>, i: nat, j: nat) returns (order: seq<Change>)
    requires i < |batch| && j < |batch| && batch[i].doc == batch[j].doc && batch[i].op.Delete? && !batch[j].op.Delete?
    ensures multiset(order) == multiset(batch)
    ensures batch[i].doc in DocSet(parent, batch) <==>
      !exists x :: ReadAt(WriteInOrder(r, n, order), batch[i].doc, n) == Some(Content(x))
    ensures !OrderAgrees(parent, r, n, batch, order)
  {
    var d := batch[i].doc;
    var last := LastIndex(batch, d);
    LastChangeWins(parent, r, n, batch, last);
    // Whichever kind the list saw last, a worker of the other kind may finish last.
    var k := if batch[last].op.Delete? then j else i;
    order := MovedLast(batch, k);
    MovedLastIsReordering(batch, k);
    LastChangeWins(parent, r, n, order, |order| - 1);
    VisibleIs(WriteInOrder(r, n, order), d, n, n);
    ReadableIff(WriteInOrder(r, n, order), d, n);
  }

  /**
    When the list and the records of a batch agree. On top of a parent whose views agree
    they do so for every order the workers may finish in if and only if no document is
    both deleted and put in the batch. Distinct document IDs are one way to ensure it.
  */
  lemma BatchAgreesIff(parent: set<Doc>, r: Records, n: Version, batch: seq<Change>)
    requires forall d :: d in parent <==> Alive(r, d, n)
    ensures (forall order :: multiset(order) == multiset(batch) ==> OrderAgrees(parent, r, n, batch, order))
       <==> !Mixed(batch)
  {
    if Mixed(batch) {
      var i, j :| 0 <= i < |batch| && 0 <= j < |batch| && batch[i].doc == batch[j].doc &&
        batch[i].op.Delete? && !batch[j].op.Delete?;
      var order := MixedBatchDisagrees(parent, r, n, batch, i, j);
    } else {
      forall order | multiset(order) == multiset(batch) ensures OrderAgrees(parent, r, n, batch, order) {
        PureBatchAgrees(parent, r, n, batch, order);
      }
    }
  }

  /** Agreeing is listing exactly the documents a read finds a text for. */
  lemma AgreeingReads(parent: set<Doc>, r: Records, n: Version, batch: seq<Change>, order: seq<Change>, d: Doc)
    requires OrderAgrees(parent, r, n, batch, order)
    ensures d in DocSet(parent, batch) <==> exists x :: ReadAt(WriteInOrder(r, n, order), d, n) == Some(Content(x))
  {
    ReadableIff(WriteInOrder(r, n, order), d, n);
  }

  ghost function WithBatch(r: Records, n: Version, changes: map<Doc, Value>): Records {
    r + map k | k in (set d | d in changes :: (d, n)) :: changes[k.0]
  }

  /**
    When a child agrees, whatever its parent: the child's views agree if and only if every
    document it does not change is alive at the child's ID exactly when it is alive at the
    parent. With the current tail as parent this always holds; with an older parent, or
    with 0 on a chain that already has versions, it is for the caller to check.
  */
  lemma ChildAgreesIff(r: Records, base: Version, n: Version, baseDocs: set<Doc>, changes: map<Doc, Value>)
    requires base < n && (forall d :: (d, n) !in r)
    requires forall d :: d in baseDocs <==> Alive(r, d, base)
    ensures (forall d :: d in ApplyChanges(baseDocs, changes) <==> Alive(WithBatch(r, n, changes), d, n))
       <==> (forall d :: d !in changes ==> (Alive(r, d, base) <==> Alive(r, d, n)))
  {
    var r' := WithBatch(r, n, changes);
    forall d
      ensures d in changes ==> (d in ApplyChanges(baseDocs, changes) <==> Alive(r', d, n))
      ensures d !in changes ==> (Alive(r', d, n) <==> Alive(r, d, n))
    {
      if d in changes {
        assert (d, n) in r' && r'[(d, n)] == changes[d];
        VisibleIs(r', d, n, n);
      } else {
        assert forall v: Version :: (d, v) in r' <==> (d, v) in r;
        VisibleIsNewest(r, d, n);
        match Visible(r, d, n)
        case Some(v) => VisibleIs(r', d, n, v);
        case None => VisibleNone(r', d, n);
      }
    }
  }

  /** On the newest version as parent the views always agree: nothing is stored between it and the child. */
  lemma TailChildAgrees(r: Records, tail: Version, n: Version, tailDocs: set<Doc>, changes: map<Doc, Value>)
    requires tail < n && (forall d, w: Version :: tail < w <= n ==> (d, w) !in r)
    requires forall d :: d in tailDocs <==> Alive(r, d, tail)
    ensures forall d :: d in ApplyChanges(tailDocs, changes) <==> Alive(WithBatch(r, n, changes), d, n)
  {
    forall d ensures Alive(r, d, tail) <==> Alive(r, d, n) {
      VisibleGap(r, d, tail, n);
    }
    ChildAgreesIff(r, tail, n, tailDocs, changes);
  }

  /** With parent 0 they agree exactly when the batch changes every document alive at the newest version. */
  lemma RootChildAgreesIff(r: Records, tail: Version, n: Version, changes: map<Doc, Value>)
    requires tail < n && (forall d, w: Version :: tail < w <= n ==> (d, w) !in r) && (forall d :: (d, 0) !in r)
    ensures (forall d :: d in ApplyChanges({}, changes) <==> Alive(WithBatch(r, n, changes), d, n))
       <==> (forall d :: Alive(r, d, tail) ==> d in changes)
  {
    forall d ensures (Alive(r, d, tail) <==> Alive(r, d, n)) && !Alive(r, d, 0) {
      VisibleGap(r, d, tail, n);
      VisibleNone(r, d, 0);
    }
    ChildAgreesIff(r, 0, n, {}, changes);
  }

  /** A second version created with parent 0 reads the first one's document but does not list it. */
  lemma SecondRootDisagrees(a: Doc, b: Doc, x: string, y: string)
    requires a != b
    ensures var r: Records := map[(a, 1) := Content(x)];
      var changes := map[b := Content(y)];
      && a !in ApplyChanges({}, changes)
      && Alive(WithBatch(r, 2, changes), a, 2)
  {
    var r: Records := map[(a, 1) := Content(x)];
    var r' := WithBatch(r, 2, map[b := Content(y)]);
    assert (a, 1) in r' && (a, 2) !in r';
    VisibleIs(r', a, 2, 1);
  }

  /** A drop anchored at a version created later keeps every record that version would read. */
  lemma LateAnchorKeepsRecord(r: Records, d: Doc, v: Version, n: Version)
    requires v < n && (d, v) in r && forall w: Version :: v < w <= n ==> (d, w) !in r
    ensures ReadAt(DropExceptVisible(r, v, n), d, n) == Some(r[(d, v)])
  {
    VisibleIs(r, d, n, v);
    VisibleIs(DropExceptVisible(r, v, n), d, n, v);
  }

  /**
    Why the tail must survive: version 2 was the tail, its drop was left to a retry, and
    version 3 has been created on version 1 since. The retry anchors on version 3, so the
    record stays and version 3 reads a document it never inherited.
  */
  lemma DroppedTailLeaks(x: Doc, y: Doc, t: string, u: string)
    requires x != y
    ensures var changes := map[y := Content(u)];
      var r3 := DropExceptVisible(WithBatch(map[(x, 2) := Content(t)], 3, changes), 2, 3);
      && IsAnchor({1, 3}, 2, 3)
      && Alive(r3, x, 3)
      && x !in ApplyChanges({}, changes)
  {
    var r' := WithBatch(map[(x, 2) := Content(t)], 3, map[y := Content(u)]);
    assert (x, 2) in r' && (x, 3) !in r' && r'[(x, 2)] == Content(t);
    LateAnchorKeepsRecord(r', x, 2, 3);
  }
}
