/**
  Multi-version reads: a record is written under (document, version), and a read
  at version `at` resolves to the newest record at or below `at`.

  The document type is a parameter: the byte-key store instantiates it with
  (knowledge base, document) and the storage machine with a document ID.
*/
module Mvcc {
  import opened Basics

  /** The version whose record a read of `d` at `at` resolves to. */
  function Visible<D(==), V>(r: map<(D, nat), V>, d: D, at: nat): (v: Option<nat>)
    ensures v.Some? ==> v.value <= at && (d, v.value) in r
  {
    if (d, at) in r then Some(at)
    else if at == 0 then None
    else Visible(r, d, at - 1)
  }

  /** It is the largest version at or below `at` that the document has a record of. */
  lemma {:induction false} VisibleIsNewest<D, V>(r: map<(D, nat), V>, d: D, at: nat)
    ensures Visible(r, d, at).Some? ==> forall w: nat :: Visible(r, d, at).value < w <= at ==> (d, w) !in r
    ensures Visible(r, d, at).None? ==> forall w: nat :: w <= at ==> (d, w) !in r
  {
    if (d, at) !in r && at > 0 {
      VisibleIsNewest(r, d, at - 1);
    }
  }

  /** The record a read of `d` at `at` returns, tombstones included. */
  function ReadAt<D(==), V>(r: map<(D, nat), V>, d: D, at: nat): (x: Option<V>) {
    match Visible(r, d, at)
    case None => None
    case Some(v) => Some(r[(d, v)])
  }

  /** A read returns a value exactly when that is the record of the newest version at or below `at`. */
  lemma ReadAtIff<D, V>(r: map<(D, nat), V>, d: D, at: nat, x: V)
    ensures ReadAt(r, d, at) == Some(x) <==>
      exists v: nat :: v <= at && (d, v) in r && r[(d, v)] == x && forall w: nat :: v < w <= at ==> (d, w) !in r
  {
    VisibleIsNewest(r, d, at);
    if v: nat :| v <= at && (d, v) in r && r[(d, v)] == x && forall w: nat :: v < w <= at ==> (d, w) !in r {
      VisibleIs(r, d, at, v);
    }
  }

  /**
    What is left of `r` after dropping version `v` against `anchor`: every record of
    another version, and those of `v` that a read at the anchor resolves to. A zero
    anchor means no later version survives, and everything of `v` goes.
  */
  function DropExceptVisible<D(==), V>(r: map<(D, nat), V>, v: nat, anchor: nat): (r': map<(D, nat), V>) {
    map k | k in r && (k.1 != v || (anchor != 0 && Visible(r, k.0, anchor) == Some(v))) :: r[k]
  }

  /** The visible version is pinned down by being present with nothing newer up to `at`. */
  lemma VisibleIs<D, V>(r: map<(D, nat), V>, d: D, at: nat, v: nat)
    requires v <= at && (d, v) in r
    requires forall w: nat :: v < w <= at ==> (d, w) !in r
    ensures Visible(r, d, at) == Some(v)
  {
    VisibleIsNewest(r, d, at);
  }

  lemma VisibleNone<D, V>(r: map<(D, nat), V>, d: D, at: nat)
    requires forall w: nat :: w <= at ==> (d, w) !in r
    ensures Visible(r, d, at) == None
  {
  }

  /** Reads at `lo` and `hi` agree when the document has no record strictly between. */
  lemma VisibleGap<D, V>(r: map<(D, nat), V>, d: D, lo: nat, hi: nat)
    requires lo <= hi
    requires forall w: nat :: lo < w <= hi ==> (d, w) !in r
    ensures Visible(r, d, hi) == Visible(r, d, lo)
  {
    VisibleIsNewest(r, d, lo);
    match Visible(r, d, lo)
    case Some(v) => VisibleIs(r, d, hi, v);
    case None => VisibleNone(r, d, hi);
  }

  /** Removing records that a read does not resolve to leaves the read alone. */
  lemma RemovalKeepsVisible<D, V>(r: map<(D, nat), V>, r': map<(D, nat), V>, d: D, at: nat)
    requires forall k :: k in r' ==> k in r && r'[k] == r[k]
    requires Visible(r, d, at).Some? ==> (d, Visible(r, d, at).value) in r'
    ensures Visible(r', d, at) == Visible(r, d, at)
    ensures ReadAt(r', d, at) == ReadAt(r, d, at)
  {
    VisibleIsNewest(r, d, at);
    match Visible(r, d, at)
    case Some(v) => VisibleIs(r', d, at, v);
    case None => VisibleNone(r', d, at);
  }

  /**
    Anchored drop preserves reads. Below the dropped version nothing changes, and at or
    above the anchor every read keeps its value, tombstone or absence: a record of `v`
    some such reader resolves to is visible at the anchor too.
  */
  lemma DropPreservesReads<D, V>(r: map<(D, nat), V>, v: nat, anchor: nat, d: D, at: nat)
    requires at < v || (anchor != 0 && v < anchor <= at)
    ensures Visible(DropExceptVisible(r, v, anchor), d, at) == Visible(r, d, at)
    ensures ReadAt(DropExceptVisible(r, v, anchor), d, at) == ReadAt(r, d, at)
  {
    var r' := DropExceptVisible(r, v, anchor);
    VisibleIsNewest(r, d, at);
    if Visible(r, d, at) == Some(v) {
      VisibleIs(r, d, anchor, v);
      assert (d, v) in r';
    }
    RemovalKeepsVisible(r, r', d, at);
  }

  /**
    The anchor rule is exact. A reader in the gap [v, anchor) that resolved to a record
    of `v` keeps it if and only if no newer record hides it from the anchor.
  */
  lemma DropInGap<D, V>(r: map<(D, nat), V>, v: nat, anchor: nat, d: D, at: nat)
    requires v <= at < anchor && Visible(r, d, at) == Some(v)
    ensures Visible(DropExceptVisible(r, v, anchor), d, at) == Some(v)
       <==> (forall w: nat :: at < w <= anchor ==> (d, w) !in r)
  {
    var r' := DropExceptVisible(r, v, anchor);
    VisibleIsNewest(r, d, at);
    VisibleIsNewest(r, d, anchor);
    if forall w: nat :: at < w <= anchor ==> (d, w) !in r {
      VisibleIs(r, d, anchor, v);
      VisibleIs(r', d, at, v);
    } else {
      var w: nat :| at < w <= anchor && (d, w) in r;
      assert Visible(r, d, anchor) != Some(v);
      assert (d, v) !in r';
    }
  }

  /** Nothing is retained needlessly: every surviving record of `v` is read at the anchor. */
  lemma DropRetainsOnlyAnchorReads<D, V>(r: map<(D, nat), V>, v: nat, anchor: nat, d: D)
    requires v < anchor
    ensures (d, v) in DropExceptVisible(r, v, anchor) <==> Visible(r, d, anchor) == Some(v)
    ensures (d, v) in DropExceptVisible(r, v, anchor) ==>
              Visible(map k | k in r && k != (d, v) :: r[k], d, anchor) != Visible(r, d, anchor)
  {
  }

  /** Records of other versions are left alone, and without an anchor nothing of `v` stays. */
  lemma DropTouchesOnlyItsVersion<D, V>(r: map<(D, nat), V>, v: nat, anchor: nat, d: D, w: nat)
    ensures w != v ==> ((d, w) in DropExceptVisible(r, v, anchor) <==> (d, w) in r)
    ensures (d, w) in DropExceptVisible(r, v, anchor) ==> (d, w) in r && DropExceptVisible(r, v, anchor)[(d, w)] == r[(d, w)]
    ensures anchor == 0 ==> (d, v) !in DropExceptVisible(r, v, anchor)
  {
  }

  /** One drop as the delete flow runs it, and a whole sequence of them. */
  function DropAll<D(==), V>(r: map<(D, nat), V>, drops: seq<(nat, nat)>): (r': map<(D, nat), V>) {
    if drops == [] then r
    else DropAll(DropExceptVisible(r, drops[0].0, drops[0].1), drops[1..])
  }

  /** Each drop works on what the drops before it left. */
  lemma {:induction false} DropAllOneMore<D, V>(r: map<(D, nat), V>, drops: seq<(nat, nat)>, v: nat, anchor: nat)
    ensures DropAll(r, []) == r
    ensures DropAll(r, drops + [(v, anchor)]) == DropExceptVisible(DropAll(r, drops), v, anchor)
    decreases |drops|
  {
    if drops == [] {
      assert drops + [(v, anchor)] == [(v, anchor)] && [(v, anchor)][1..] == [];
    } else {
      DropAllOneMore(DropExceptVisible(r, drops[0].0, drops[0].1), drops[1..], v, anchor);
      assert (drops + [(v, anchor)])[1..] == drops[1..] + [(v, anchor)];
    }
  }

  /** `anchor` is the smallest survivor above `v`, or 0 when there is none. */
  ghost predicate IsAnchor(survivors: set<nat>, v: nat, anchor: nat) {
    if anchor == 0 then forall u :: u in survivors ==> u <= v
    else anchor in survivors && anchor > v && forall u :: u in survivors && u > v ==> u >= anchor
  }

  /**
    Any sequence of drops, each anchored at the smallest survivor above it, leaves every
    read at every survivor exactly as it was. Survivors may still shrink between drops,
    so `survivors` is the set left at the end.
  */
  lemma {:induction false} DropSequencePreservesSurvivors<D, V>(
    r: map<(D, nat), V>, drops: seq<(nat, nat)>, survivors: set<nat>, d: D, u: nat)
    requires forall i :: 0 <= i < |drops| ==> drops[i].0 !in survivors
    requires forall i :: 0 <= i < |drops| ==>
      exists then_: set<nat> :: survivors <= then_ && IsAnchor(then_, drops[i].0, drops[i].1)
    requires u in survivors
    ensures ReadAt(DropAll(r, drops), d, u) == ReadAt(r, d, u)
    decreases |drops|
  {
    if drops != [] {
      var (v, anchor) := drops[0];
      var then_: set<nat> :| survivors <= then_ && IsAnchor(then_, v, anchor);
      DropPreservesReads(r, v, anchor, d, u);
      var rest := drops[1..];
      assert forall i :: 0 <= i < |rest| ==> rest[i] == drops[i + 1];
      DropSequencePreservesSurvivors(DropExceptVisible(r, v, anchor), rest, survivors, d, u);
    }
  }

  /** Writing a record of `d` at `n` changes no read below `n`. */
  lemma WriteBelow<D, V>(r: map<(D, nat), V>, d: D, n: nat, x: V, e: D, at: nat)
    requires at < n || e != d
    ensures Visible(r[(d, n) := x], e, at) == Visible(r, e, at)
    ensures ReadAt(r[(d, n) := x], e, at) == ReadAt(r, e, at)
  {
    VisibleIsNewest(r, e, at);
    match Visible(r, e, at)
    case Some(v) => VisibleIs(r[(d, n) := x], e, at, v);
    case None => VisibleNone(r[(d, n) := x], e, at);
  }
}
