/**
  The document store over an ordered keyspace of byte strings. A record of document `doc`
  of knowledge base `kb` at version `v` lives under the key enc(kb) enc(doc) be64(v), and
  its value carries a tag byte telling a deletion mark from content.
*/
module DocStore {
  import opened Basics
  import opened Bytes
  import opened Mvcc

  type Int64 = x: int | -0x8000_0000_0000_0000 <= x < 0x8000_0000_0000_0000

  /** A document is named by its knowledge base and its ID. */
  type DocName = (Bytes, Bytes)

  /** What the keyspace stands for; None is a deletion mark. */
  type Contents = map<(DocName, nat), Option<Bytes>>

  datatype StoreError = InvalidArgument | VersionNotFound | NoSuccessorKey | Undecodable | Corrupt | StoreFailed

  // ---------------------------------------------------------------- keys and values

  const VERSION_BYTES: nat := 8

  function DocPrefix(d: DocName): Bytes {
    EncodeString(d.0) + EncodeString(d.1)
  }

  function DocKey(d: DocName, v: nat): Bytes {
    DocPrefix(d) + BigEndian(v, VERSION_BYTES)
  }

  predicate Named(d: DocName) {
    Fits(d.0) && Fits(d.1)
  }

  const TAG_TOMBSTONE: Byte := 0
  const TAG_CONTENT: Byte := 1

  function EncodeValue(x: Option<Bytes>): Bytes {
    match x
    case None => [TAG_TOMBSTONE]
    case Some(content) => [TAG_CONTENT] + content
  }

  function DecodeValue(raw: Bytes): Result<Option<Bytes>, StoreError> {
    if raw == [] then Err(Corrupt)
    else if raw[0] == TAG_TOMBSTONE then Ok(None)
    else if raw[0] == TAG_CONTENT then Ok(Some(raw[1..]))
    else Err(Corrupt)
  }

  /** Values round-trip; empty content stays apart from a deletion mark. */
  lemma ValueRoundTrip(x: Option<Bytes>)
    ensures DecodeValue(EncodeValue(x)) == Ok(x)
    ensures EncodeValue(x) == if x.None? then [0] else [1] + x.value
  {
    match x
    case None =>
    case Some(content) => assert ([TAG_CONTENT] + content)[1..] == content;
  }

  lemma KbPrefixOfKey(kb: Bytes, e: DocName, v: nat)
    requires Fits(kb) && Named(e)
    ensures EncodeString(kb) <= DocKey(e, v) <==> kb == e.0
  {
    var rest := EncodeString(e.1) + BigEndian(v, VERSION_BYTES);
    assert DocKey(e, v) == EncodeString(e.0) + rest;
    assert EncodeString(kb) == EncodeString(kb) + [];
    Peel(kb, [], e.0, rest);
  }

  lemma DocPrefixOfKey(d: DocName, e: DocName, v: nat)
    requires Named(d) && Named(e)
    ensures DocPrefix(d) <= DocKey(e, v) <==> d == e
  {
    var tail := BigEndian(v, VERSION_BYTES);
    assert DocKey(e, v) == EncodeString(e.0) + (EncodeString(e.1) + tail);
    Peel(d.0, EncodeString(d.1), e.0, EncodeString(e.1) + tail);
    assert EncodeString(d.1) == EncodeString(d.1) + [];
    Peel(d.1, [], e.1, tail);
  }

  lemma KeyOrder(d: DocName, v: nat, w: nat)
    requires v < TWO_64 && w < TWO_64
    ensures Lt(DocKey(d, v), DocKey(d, w)) <==> v < w
  {
    Widths();
    BigEndianOrder(v, w, VERSION_BYTES);
    LtSamePrefix(DocPrefix(d), BigEndian(v, VERSION_BYTES), BigEndian(w, VERSION_BYTES));
  }

  lemma KeyInjective(d: DocName, v: nat, e: DocName, w: nat)
    requires Named(d) && Named(e) && v < TWO_64 && w < TWO_64
    ensures DocKey(d, v) == DocKey(e, w) <==> d == e && v == w
  {
    if DocKey(d, v) == DocKey(e, w) {
      DocPrefixOfKey(d, d, v);
      DocPrefixOfKey(d, e, w);
      KeyOrder(d, v, w);
      KeyOrder(d, w, v);
      LtIrreflexive(DocKey(d, v));
    }
  }

  lemma KeyTail(d: DocName, v: nat)
    requires v < TWO_64
    ensures var k := DocKey(d, v);
      |k| == 16 + |d.0| + |d.1| && FromBigEndian(k[|k| - VERSION_BYTES..]) == v
  {
    Widths();
    BigEndianRoundTrip(v, VERSION_BYTES);
    var k := DocKey(d, v);
    assert k[|k| - VERSION_BYTES..] == BigEndian(v, VERSION_BYTES);
  }

  /** The exclusive bound of a read at `max`; no finite bound means to the keyspace's end. */
  function BoundedUpperBound(prefix: Bytes, max: nat): Option<Bytes>
    requires max < TWO_63
  {
    if max == TWO_63 - 1 then Successor(prefix)
    else Some(prefix + BigEndian(max + 1, VERSION_BYTES))
  }

  /**
    The range a read at `max` scans holds exactly the keys of that document at versions up
    to `max`, at the largest version ID too.
  */
  lemma ReadRange(d: DocName, max: nat, e: DocName, v: nat)
    requires Named(d) && Named(e) && max < TWO_63 && v < TWO_63
    ensures InRange(DocKey(e, v), DocPrefix(d), BoundedUpperBound(DocPrefix(d), max)) <==> e == d && v <= max
  {
    var p, k := DocPrefix(d), DocKey(e, v);
    DocPrefixOfKey(d, e, v);
    if max == TWO_63 - 1 {
      SuccessorRange(p, k);
    } else {
      var bound := DocKey(d, max + 1);
      assert BoundedUpperBound(p, max) == Some(bound);
      if InRange(k, p, Some(bound)) {
        Sandwich(p, BigEndian(max + 1, VERSION_BYTES), k);
      }
      if e == d {
        PrefixIsBelow(p, k);
        KeyOrder(d, v, max + 1);
      }
    }
  }

  /** The range of a knowledge base holds its keys and no others, whatever the IDs are. */
  lemma KbRange(kb: Bytes, e: DocName, v: nat)
    requires Fits(kb) && Named(e)
    ensures InRange(DocKey(e, v), EncodeString(kb), Successor(EncodeString(kb))) <==> e.0 == kb
  {
    KbPrefixOfKey(kb, e, v);
    SuccessorRange(EncodeString(kb), DocKey(e, v));
  }

  // ---------------------------------------------------------------- what the keyspace stands for

  ghost predicate Storable(k: (DocName, nat)) {
    Named(k.0) && k.1 < TWO_63
  }

  ghost predicate Represents(db: map<Bytes, Bytes>, r: Contents) {
    && (forall k :: k in r ==> Storable(k))
    && (forall k :: k in r ==> DocKey(k.0, k.1) in db && db[DocKey(k.0, k.1)] == EncodeValue(r[k]))
    && (forall b :: b in db ==> exists k :: k in r && DocKey(k.0, k.1) == b)
  }

  lemma KeyOf(db: map<Bytes, Bytes>, r: Contents, b: Bytes) returns (k: (DocName, nat))
    requires Represents(db, r) && b in db
    ensures k in r && Storable(k) && DocKey(k.0, k.1) == b
  {
    k :| k in r && DocKey(k.0, k.1) == b;
  }

  /** Setting a record's key sets that record and no other. */
  lemma SetKey(db: map<Bytes, Bytes>, r: Contents, k: (DocName, nat), x: Option<Bytes>)
    requires Represents(db, r) && Storable(k)
    ensures Represents(db[DocKey(k.0, k.1) := EncodeValue(x)], r[k := x])
  {
    var key := DocKey(k.0, k.1);
    var db', r' := db[key := EncodeValue(x)], r[k := x];
    forall j | j in r' ensures Storable(j) && DocKey(j.0, j.1) in db' && db'[DocKey(j.0, j.1)] == EncodeValue(r'[j]) {
      KeyInjective(j.0, j.1, k.0, k.1);
    }
    forall b | b in db' ensures exists j :: j in r' && DocKey(j.0, j.1) == b {
      if b == key {
        assert k in r';
      } else {
        var j := KeyOf(db, r, b);
        assert j in r';
      }
    }
  }

  /** Removing keys removes the records they stand for. */
  lemma RemoveKeys(db: map<Bytes, Bytes>, r: Contents, gone: set<Bytes>, r': Contents)
    requires Represents(db, r)
    requires forall k :: k in r' <==> k in r && DocKey(k.0, k.1) !in gone
    requires forall k :: k in r' ==> r'[k] == r[k]
    ensures Represents(db - gone, r')
  {
    forall b | b in db - gone ensures exists k :: k in r' && DocKey(k.0, k.1) == b {
      var k := KeyOf(db, r, b);
      assert k in r';
    }
  }

  /**
    The last key of a read's range is the key of the visible record; an empty range means
    there is none.
  */
  lemma LastKeyIsVisible(db: map<Bytes, Bytes>, r: Contents, d: DocName, max: nat, keys: seq<Bytes>)
    requires Represents(db, r) && Named(d) && max < TWO_63 && Sorted(keys)
    requires forall b :: b in keys <==> b in db && InRange(b, DocPrefix(d), BoundedUpperBound(DocPrefix(d), max))
    ensures match Visible(r, d, max)
      case None => keys == []
      case Some(v) => v < TWO_63 && keys != [] && keys[|keys| - 1] == DocKey(d, v) && DocKey(d, v) in db
  {
    VisibleIsNewest(r, d, max);
    match Visible(r, d, max)
    case None =>
      if keys != [] {
        var w := LastKey(db, r, d, max, keys);
      }
    case Some(v) =>
      ReadRange(d, max, d, v);
      assert Storable((d, v)) && DocKey(d, v) in keys;
      var w := LastKey(db, r, d, max, keys);
      NewestKeyIsLast(db, r, d, max, keys, w, v);
  }

  lemma LastKey(db: map<Bytes, Bytes>, r: Contents, d: DocName, max: nat, keys: seq<Bytes>) returns (w: nat)
    requires Represents(db, r) && Named(d) && max < TWO_63 && keys != []
    requires forall b :: b in keys <==> b in db && InRange(b, DocPrefix(d), BoundedUpperBound(DocPrefix(d), max))
    ensures w <= max && (d, w) in r && keys[|keys| - 1] == DocKey(d, w)
  {
    assert keys[|keys| - 1] in keys;
    var k := KeyOf(db, r, keys[|keys| - 1]);
    ReadRange(d, max, k.0, k.1);
    w := k.1;
  }

  lemma NewestKeyIsLast(db: map<Bytes, Bytes>, r: Contents, d: DocName, max: nat, keys: seq<Bytes>, w: nat, v: nat)
    requires Represents(db, r) && Named(d) && max < TWO_63 && Sorted(keys)
    requires forall b :: b in keys <==> b in db && InRange(b, DocPrefix(d), BoundedUpperBound(DocPrefix(d), max))
    requires keys != [] && (d, w) in r && keys[|keys| - 1] == DocKey(d, w)
    requires (d, v) in r && w <= v <= max
    ensures w == v && v < TWO_63 && DocKey(d, v) in db
  {
    assert Storable((d, v)) && Storable((d, w));
    ReadRange(d, max, d, v);
    assert DocKey(d, v) in keys;
    KeyOrder(d, v, w);
    KeyOrder(d, w, v);
    if w < v {
      LtTransitive(DocKey(d, w), DocKey(d, v), DocKey(d, w));
      LtIrreflexive(DocKey(d, w));
    }
  }

  // ---------------------------------------------------------------- deletes, as the simple store does them

  function WithoutKb(r: Contents, kb: Bytes): Contents {
    map k | k in r && k.0.0 != kb :: r[k]
  }

  /** Drops a version of one knowledge base, keeping what a read at the anchor resolves to. */
  function DropIn(r: Contents, kb: Bytes, v: int, anchor: int): Contents {
    map k | k in r && !(k.0.0 == kb && k.1 == v && !(anchor > 0 && Visible(r, k.0, anchor) == Some(k.1))) :: r[k]
  }

  /** With no anchor everything of the version goes. */
  lemma NoAnchor(r: Contents, kb: Bytes, v: int, anchor: int)
    requires anchor <= 0
    ensures DropIn(r, kb, v, anchor) == DropIn(r, kb, v, 0)
    ensures forall k :: k in DropIn(r, kb, v, anchor) <==> k in r && !(k.0.0 == kb && k.1 == v)
  {
  }

  /** The records of one knowledge base, by document. */
  function Restrict(r: Contents, kb: Bytes): map<(Bytes, nat), Option<Bytes>> {
    map k | k in (set j | j in r && j.0.0 == kb :: (j.0.1, j.1)) :: r[((kb, k.0), k.1)]
  }

  lemma RestrictKeys(r: Contents, kb: Bytes, doc: Bytes, v: nat)
    ensures (doc, v) in Restrict(r, kb) <==> ((kb, doc), v) in r
    ensures ((kb, doc), v) in r ==> Restrict(r, kb)[(doc, v)] == r[((kb, doc), v)]
  {
    if ((kb, doc), v) in r {
      assert (((kb, doc), v).0.1, ((kb, doc), v).1) == (doc, v);
    }
  }

  /** A read of the store is a read of the knowledge base's own records. */
  lemma VisibleInRestriction(r: Contents, kb: Bytes, doc: Bytes, at: nat)
    ensures Visible(Restrict(r, kb), doc, at) == Visible(r, (kb, doc), at)
    ensures Mvcc.ReadAt(Restrict(r, kb), doc, at) == Mvcc.ReadAt(r, (kb, doc), at)
  {
    var own := Restrict(r, kb);
    forall v: nat
      ensures (doc, v) in own <==> ((kb, doc), v) in r
      ensures (doc, v) in own ==> own[(doc, v)] == r[((kb, doc), v)]
    {
      RestrictKeys(r, kb, doc, v);
    }
    VisibleIsNewest(r, (kb, doc), at);
    match Visible(r, (kb, doc), at)
    case Some(v) => VisibleIs(own, doc, at, v);
    case None => VisibleNone(own, doc, at);
  }

  /** A restriction is determined key by key. */
  lemma RestrictIs(r: Contents, kb: Bytes, own: map<(Bytes, nat), Option<Bytes>>)
    requires forall doc, w: nat :: (doc, w) in own <==> ((kb, doc), w) in r
    requires forall doc, w: nat :: (doc, w) in own ==> own[(doc, w)] == r[((kb, doc), w)]
    ensures Restrict(r, kb) == own
  {
    forall k: (Bytes, nat)
      ensures k in Restrict(r, kb) <==> k in own
      ensures k in own ==> Restrict(r, kb)[k] == own[k]
    {
      var (doc, w) := k;
      RestrictKeys(r, kb, doc, w);
      assert k == (doc, w);
    }
  }

  /** Dropping a version in the store is the anchored drop on that knowledge base. */
  lemma DropInIsAnchoredDrop(r: Contents, kb: Bytes, v: nat, anchor: nat)
    ensures Restrict(DropIn(r, kb, v, anchor), kb) == DropExceptVisible(Restrict(r, kb), v, anchor)
  {
    var own := DropExceptVisible(Restrict(r, kb), v, anchor);
    forall doc, w: nat
      ensures (doc, w) in own <==> ((kb, doc), w) in DropIn(r, kb, v, anchor)
      ensures (doc, w) in own ==> own[(doc, w)] == r[((kb, doc), w)]
    {
      RestrictKeys(r, kb, doc, w);
      VisibleInRestriction(r, kb, doc, anchor);
    }
    RestrictIs(DropIn(r, kb, v, anchor), kb, own);
  }

  /** It leaves every other knowledge base alone. */
  lemma DropInElsewhere(r: Contents, kb: Bytes, v: int, anchor: int, other: Bytes)
    requires other != kb
    ensures Restrict(DropIn(r, kb, v, anchor), other) == Restrict(r, other)
  {
    forall doc, w: nat
      ensures (doc, w) in Restrict(r, other) <==> ((other, doc), w) in DropIn(r, kb, v, anchor)
      ensures (doc, w) in Restrict(r, other) ==> Restrict(r, other)[(doc, w)] == r[((other, doc), w)]
    {
      RestrictKeys(r, other, doc, w);
    }
    RestrictIs(DropIn(r, kb, v, anchor), other, Restrict(r, other));
  }

  // ---------------------------------------------------------------- the store

  /** What a read that reaches the store answers; `missed` says that its iteration failed. */
  ghost function Answer(r: Contents, d: DocName, max: nat, missed: bool): Result<Bytes, StoreError> {
    if missed then Err(VersionNotFound)
    else
      var x: Option<Option<Bytes>> := Mvcc.ReadAt(r, d, max);
      if x.Some? && x.value.Some? then Ok(x.value.value) else Err(VersionNotFound)
  }

  /** Not found means absent or deleted, for every store, document and version, exactly when the iteration did not fail. */
  lemma NotFoundMeansGoneIff(missed: bool)
    ensures (forall r, d, max :: Answer(r, d, max, missed) == Err(VersionNotFound) ==> Mvcc.ReadAt(r, d, max) in {None, Some(None)})
       <==> !missed
  {
    if missed {
      var d: DocName := ([], []);
      var r: Contents := map[(d, 1) := Some([])];
      VisibleIs(r, d, 1, 1);
      assert Mvcc.ReadAt(r, d, 1) == Some(Some([]));
      assert Answer(r, d, 1, missed) == Err(VersionNotFound);
    }
  }

  /** uint64(v) of a signed version ID. */
  function Unsigned(v: Int64): nat {
    if v < 0 then v + TWO_64 else v
  }

  /** Whether a key ends in the version's eight bytes. */
  predicate EndsInVersion(b: Bytes, v: Int64) {
    |b| >= VERSION_BYTES && FromBigEndian(b[|b| - VERSION_BYTES..]) == Unsigned(v)
  }

  lemma EndsInVersionIff(k: (DocName, nat), v: Int64)
    requires Storable(k)
    ensures EndsInVersion(DocKey(k.0, k.1), v) <==> k.1 == v
  {
    KeyTail(k.0, k.1);
  }

  /** The document ID between the knowledge base's prefix and the version. */
  function DecodeDoc(b: Bytes, at: nat): Option<Bytes>
    requires at + 4 + VERSION_BYTES <= |b|
  {
    var seg := b[at..|b| - VERSION_BYTES];
    if FromBigEndian(seg[..4]) != |seg| - 4 then None else Some(seg[4..])
  }

  lemma DecodeDocRoundTrip(d: DocName, v: nat)
    requires Named(d)
    ensures |EncodeString(d.0)| + 4 + VERSION_BYTES <= |DocKey(d, v)|
    ensures DecodeDoc(DocKey(d, v), |EncodeString(d.0)|) == Some(d.1)
  {
    var k, at := DocKey(d, v), |EncodeString(d.0)|;
    assert k[at..|k| - VERSION_BYTES] == EncodeString(d.1);
    SmallRemainder(|d.1|);
    assert EncodeString(d.1)[..4] == BigEndian(|d.1|, LENGTH_BYTES) && EncodeString(d.1)[4..] == d.1;
    Widths();
    BigEndianRoundTrip(|d.1|, LENGTH_BYTES);
  }

  /** The keys collected for one knowledge base stand for exactly the records to drop. */
  lemma CollectedKeys(db: map<Bytes, Bytes>, r: Contents, kb: Bytes, v: Int64, anchor: Int64, keys: seq<Bytes>, gone: set<Bytes>)
    requires Represents(db, r) && Fits(kb)
    requires forall b :: b in keys <==> b in db && InRange(b, EncodeString(kb), Successor(EncodeString(kb)))
    requires forall b :: b in gone <==> b in keys && Doomed(r, kb, v, anchor, b)
    ensures Represents(db - gone, DropIn(r, kb, v, anchor))
  {
    forall k | k in r
      ensures DocKey(k.0, k.1) in gone <==>
        k.0.0 == kb && k.1 == v && !(anchor > 0 && Visible(r, k.0, anchor) == Some(k.1))
    {
      KbRange(kb, k.0, k.1);
      if k.0.0 == kb {
        DoomedIff(r, k, v, anchor);
      }
    }
    RemoveKeys(db, r, gone, DropIn(r, kb, v, anchor));
  }

  lemma DoomedIff(r: Contents, k: (DocName, nat), v: Int64, anchor: Int64)
    requires Storable(k)
    ensures Doomed(r, k.0.0, v, anchor, DocKey(k.0, k.1)) <==>
      k.1 == v && !(anchor > 0 && Visible(r, k.0, anchor) == Some(k.1))
  {
    EndsInVersionIff(k, v);
    DecodeDocRoundTrip(k.0, k.1);
  }

  /** A range delete of a knowledge base's prefix. */
  lemma RemoveRange(db: map<Bytes, Bytes>, r: Contents, kb: Bytes, gone: set<Bytes>)
    requires Represents(db, r) && Fits(kb)
    requires forall b :: b in gone <==> b in db && InRange(b, EncodeString(kb), Successor(EncodeString(kb)))
    ensures Represents(db - gone, WithoutKb(r, kb))
  {
    forall k | k in r ensures DocKey(k.0, k.1) in gone <==> k.0.0 == kb {
      KbRange(kb, k.0, k.1);
    }
    RemoveKeys(db, r, gone, WithoutKb(r, kb));
  }

  /** Whether a scanned key of `kb` is to go: its version, and not what the anchor reads. */
  ghost predicate Doomed(r: Contents, kb: Bytes, v: Int64, anchor: Int64, b: Bytes) {
    && EndsInVersion(b, v)
    && (anchor > 0 && |b| >= |EncodeString(kb)| + 4 + VERSION_BYTES ==>
          match DecodeDoc(b, |EncodeString(kb)|)
          case None => false
          case Some(doc) => !(Visible(r, (kb, doc), anchor).Some? && Visible(r, (kb, doc), anchor).value == v))
  }

  class PebbleDocStore {
    const mayFail: bool               // whether a call on the keyspace can fail at all
    var db: map<Bytes, Bytes>
    ghost var records: Contents

    ghost predicate Valid()
      reads this
    {
      Represents(db, records)
    }

    constructor (mayFail: bool)
      ensures Valid() && records == map[] && this.mayFail == mayFail
    {
      this.mayFail, db, records := mayFail, map[], map[];
    }

    /** Whether the next call on the keyspace fails. */
    method Fails() returns (fails: bool)
      ensures fails ==> mayFail
    {
      fails := *;
      fails := fails && mayFail;
    }

    method Write(kb: Bytes, doc: Bytes, version: Int64, value: Option<Bytes>) returns (r: Result<(), StoreError>)
      requires Valid() && Fits(kb) && Fits(doc) && version >= 0
      modifies this
      ensures Valid()
      ensures records == if r.Ok? then old(records)[((kb, doc), version) := value] else old(records)
      ensures r.Err? ==> mayFail
    {
      var fails := Fails();
      if fails { return Err(StoreFailed); }
      var key := DocKey((kb, doc), version);
      SetKey(db, records, ((kb, doc), version), value);
      db := db[key := EncodeValue(value)];
      records := records[((kb, doc), version) := value];
      r := Ok(());
    }

    /**
      The content visible at `max`; a deletion mark and an absent document read alike, and so
      does an iteration that fails (`miss`), because the iterator's error is not asked for.
    */
    method ReadAt(kb: Bytes, doc: Bytes, max: Int64, miss: bool) returns (r: Result<Bytes, StoreError>)
      requires Valid() && Fits(kb) && Fits(doc)
      ensures r == Err(InvalidArgument) <==> max < 0
      ensures r.Ok? ==> !miss && Mvcc.ReadAt(records, (kb, doc), max) == Some(Some(r.value))
      ensures max >= 0 && !miss && Mvcc.ReadAt(records, (kb, doc), max) in {None, Some(None)} ==> !r.Ok?
      ensures r == Err(VersionNotFound) ==> miss || Mvcc.ReadAt(records, (kb, doc), max) in {None, Some(None)}
      ensures r.Err? ==> r.error in {InvalidArgument, VersionNotFound, StoreFailed}
      ensures r == Err(StoreFailed) ==> mayFail
      ensures max >= 0 ==> r in {Err(StoreFailed), Answer(records, (kb, doc), max, miss)}
    {
      if max < 0 { return Err(InvalidArgument); }
      var fails := Fails();
      if fails { return Err(StoreFailed); }
      var prefix := DocPrefix((kb, doc));
      var keys := Scan(db.Keys, prefix, BoundedUpperBound(prefix, max));
      LastKeyIsVisible(db, records, (kb, doc), max, keys);
      if miss || keys == [] { return Err(VersionNotFound); }
      var raw := db[keys[|keys| - 1]];
      ValueRoundTrip(records[((kb, doc), Visible(records, (kb, doc), max).value)]);
      r := match DecodeValue(raw)
        case Err(e) => Err(e)
        case Ok(None) => Err(VersionNotFound)
        case Ok(Some(content)) => Ok(content);
    }

    method VisibleVersionOf(kb: Bytes, doc: Bytes, max: Int64) returns (r: Result<Option<nat>, StoreError>)
      requires Valid() && Fits(kb) && Fits(doc) && max >= 0
      ensures r.Ok? ==> r.value == Visible(records, (kb, doc), max)
      ensures r.Err? ==> mayFail
    {
      var fails := Fails();
      if fails { return Err(StoreFailed); }
      var prefix := DocPrefix((kb, doc));
      var keys := Scan(db.Keys, prefix, BoundedUpperBound(prefix, max));
      LastKeyIsVisible(db, records, (kb, doc), max, keys);
      if keys == [] { return Ok(None); }
      var k := keys[|keys| - 1];
      KeyTail((kb, doc), Visible(records, (kb, doc), max).value);
      r := Ok(Some(FromBigEndian(k[|k| - VERSION_BYTES..])));
    }

    /** Commits a batch of key deletes, leaving the records `left`. */
    method CommitDeletes(gone: set<Bytes>, ghost left: Contents) returns (r: Result<(), StoreError>)
      requires Valid() && Represents(db - gone, left)
      modifies this
      ensures Valid() && records == if r.Ok? then left else old(records)
      ensures r.Err? ==> mayFail
    {
      var fails := Fails();
      if fails { return Err(StoreFailed); }
      db, records := db - gone, left;
      r := Ok(());
    }

    /** One range delete takes the knowledge base's records and no others. */
    method DeleteByKB(kb: Bytes) returns (r: Result<(), StoreError>)
      requires Valid() && Fits(kb)
      modifies this
      ensures Valid()
      ensures r.Ok? ==> forall k :: k in records <==> k in old(records) && k.0.0 != kb
      ensures forall k :: k in records ==> k in old(records) && records[k] == old(records)[k]
      ensures r.Err? ==> records == old(records) && (mayFail || Successor(EncodeString(kb)).None?)
    {
      var prefix := EncodeString(kb);
      var upper := PrefixSuccessor(prefix);
      if upper.None? { return Err(NoSuccessorKey); }
      var gone := set b | b in db && InRange(b, prefix, upper);
      RemoveRange(db, records, kb, gone);
      r := CommitDeletes(gone, WithoutKb(records, kb));
    }

    method DeleteByVersion(kb: Bytes, version: Int64) returns (r: Result<(), StoreError>)
      requires Valid() && Fits(kb)
      modifies this
      ensures Valid()
      ensures r.Ok? ==> forall k :: k in records <==> k in old(records) && !(k.0.0 == kb && k.1 == version)
      ensures records == if r.Ok? then DropIn(old(records), kb, version, 0) else old(records)
      ensures r.Err? ==> mayFail || Successor(EncodeString(kb)).None?
    {
      var prefix := EncodeString(kb);
      var upper := PrefixSuccessor(prefix);
      if upper.None? { return Err(NoSuccessorKey); }
      var keys := Scan(db.Keys, prefix, upper);
      var gone: set<Bytes> := {};
      for i := 0 to |keys|
        invariant forall b :: b in gone <==> b in keys[..i] && Doomed(records, kb, version, 0, b)
      {
        if EndsInVersion(keys[i], version) {
          gone := gone + {keys[i]};
        }
      }
      assert keys[..|keys|] == keys;
      CollectedKeys(db, records, kb, version, 0, keys, gone);
      r := CommitDeletes(gone, DropIn(records, kb, version, 0));
    }

    /** Whether the record behind a scanned key is to be kept for the anchor. */
    method StillRead(kb: Bytes, version: Int64, anchor: Int64, k: Bytes) returns (r: Result<bool, StoreError>)
      requires Valid() && Fits(kb) && anchor > 0
      requires k in db && InRange(k, EncodeString(kb), Successor(EncodeString(kb))) && EndsInVersion(k, version)
      ensures r.Ok? ==> (r.value <==> !Doomed(records, kb, version, anchor, k))
      ensures r.Err? ==> mayFail
    {
      ghost var key := KeyOf(db, records, k);
      KbRange(kb, key.0, key.1);
      DecodeDocRoundTrip(key.0, key.1);
      var doc := DecodeDoc(k, |EncodeString(kb)|);
      if doc.None? { return Err(Undecodable); }
      var visible := VisibleVersionOf(kb, doc.value, anchor);
      if visible.Err? { return Err(visible.error); }
      r := Ok(visible.value.Some? && visible.value.value == version);
    }

    /** Whether a scanned key is to go. */
    method IsDoomed(kb: Bytes, version: Int64, anchor: Int64, k: Bytes) returns (r: Result<bool, StoreError>)
      requires Valid() && Fits(kb) && anchor > 0
      requires k in db && InRange(k, EncodeString(kb), Successor(EncodeString(kb)))
      ensures r.Ok? ==> (r.value <==> Doomed(records, kb, version, anchor, k))
      ensures r.Err? ==> mayFail
    {
      if !EndsInVersion(k, version) { return Ok(false); }
      var kept := StillRead(kb, version, anchor, k);
      if kept.Err? { return Err(kept.error); }
      r := Ok(!kept.value);
    }

    /** The scanned keys to delete: the version's, less those the anchor still reads. */
    method CollectUnread(kb: Bytes, version: Int64, anchor: Int64, keys: seq<Bytes>) returns (r: Result<set<Bytes>, StoreError>)
      requires Valid() && Fits(kb) && anchor > 0
      requires forall b :: b in keys ==> b in db && InRange(b, EncodeString(kb), Successor(EncodeString(kb)))
      ensures r.Ok? ==> forall b :: b in r.value <==> b in keys && Doomed(records, kb, version, anchor, b)
      ensures r.Err? ==> mayFail
    {
      var gone: set<Bytes> := {};
      for i := 0 to |keys|
        invariant forall b :: b in gone <==> b in keys[..i] && Doomed(records, kb, version, anchor, b)
      {
        assert keys[i] in keys && keys[..i + 1] == keys[..i] + [keys[i]];
        var doomed := IsDoomed(kb, version, anchor, keys[i]);
        if doomed.Err? { return Err(doomed.error); }
        if doomed.value {
          gone := gone + {keys[i]};
        }
      }
      assert keys[..|keys|] == keys;
      r := Ok(gone);
    }

    /** Reclaims a version's records except those a read at the anchor still resolves to. */
    method DeleteByVersionExceptVisibleFrom(kb: Bytes, version: Int64, anchor: Int64) returns (r: Result<(), StoreError>)
      requires Valid() && Fits(kb)
      modifies this
      ensures Valid()
      ensures r.Ok? ==> forall k :: k in records <==>
        k in old(records) && (k.0.0 != kb || k.1 != version || (anchor > 0 && Visible(old(records), k.0, anchor) == Some(k.1)))
      ensures records == if r.Ok? then DropIn(old(records), kb, version, anchor) else old(records)
      ensures r.Err? ==> mayFail || Successor(EncodeString(kb)).None?
    {
      if anchor <= 0 {
        NoAnchor(records, kb, version, anchor);
        r := DeleteByVersion(kb, version);
        return;
      }
      var prefix := EncodeString(kb);
      var upper := PrefixSuccessor(prefix);
      if upper.None? { return Err(NoSuccessorKey); }
      var keys := Scan(db.Keys, prefix, upper);
      var gone := CollectUnread(kb, version, anchor, keys);
      if gone.Err? { return Err(gone.error); }
      CollectedKeys(db, records, kb, version, anchor, keys, gone.value);
      r := CommitDeletes(gone.value, DropIn(records, kb, version, anchor));
    }
  }
}
