/**
  The chunk-document mapping over an ordered keyspace of byte strings. Every pair is stored
  twice, under 'F' enc(kb) enc(chunk) enc(doc) and under 'R' enc(kb) enc(doc) enc(chunk), so
  that both "documents of a chunk" and "chunks of a document" are prefix scans.
*/
module ChunkDoc {
  import opened Basics
  import opened Bytes

  /** A chunk of a knowledge base and a document that has it. */
  datatype Pair = Pair(kb: Bytes, chunk: Bytes, doc: Bytes)

  datatype MapperError = CorruptKey | NoSuccessorKey | StoreFailed

  const FORWARD: Byte := 0x46
  const REVERSE: Byte := 0x52

  ghost predicate Storable(t: Pair) {
    Fits(t.kb) && Fits(t.chunk) && Fits(t.doc)
  }

  // ---------------------------------------------------------------- keys

  function KbPrefix(dir: Byte, kb: Bytes): Bytes {
    [dir] + EncodeString(kb)
  }

  function PairPrefix(dir: Byte, kb: Bytes, first: Bytes): Bytes {
    KbPrefix(dir, kb) + EncodeString(first)
  }

  function PairKey(dir: Byte, kb: Bytes, first: Bytes, second: Bytes): Bytes {
    PairPrefix(dir, kb, first) + EncodeString(second)
  }

  function ForwardKey(t: Pair): Bytes {
    PairKey(FORWARD, t.kb, t.chunk, t.doc)
  }

  function ReverseKey(t: Pair): Bytes {
    PairKey(REVERSE, t.kb, t.doc, t.chunk)
  }

  lemma SameDirection(x: Byte, a: Bytes, y: Byte, b: Bytes)
    ensures [x] + a <= [y] + b <==> x == y && a <= b
  {
    PrefixOfSum([x], a, [y], b);
  }

  lemma KbPrefixOfKey(dir: Byte, kb: Bytes, dir': Byte, kb': Bytes, first: Bytes, second: Bytes)
    requires Fits(kb) && Fits(kb')
    ensures KbPrefix(dir, kb) <= PairKey(dir', kb', first, second) <==> dir == dir' && kb == kb'
  {
    var rest := EncodeString(first) + EncodeString(second);
    assert PairKey(dir', kb', first, second) == [dir'] + (EncodeString(kb') + rest);
    SameDirection(dir, EncodeString(kb), dir', EncodeString(kb') + rest);
    assert EncodeString(kb) == EncodeString(kb) + [];
    Peel(kb, [], kb', rest);
  }

  lemma PairPrefixOfKey(dir: Byte, kb: Bytes, first: Bytes, dir': Byte, kb': Bytes, first': Bytes, second: Bytes)
    requires Fits(kb) && Fits(kb') && Fits(first) && Fits(first')
    ensures PairPrefix(dir, kb, first) <= PairKey(dir', kb', first', second)
       <==> dir == dir' && kb == kb' && first == first'
  {
    var rest := EncodeString(first') + EncodeString(second);
    assert PairKey(dir', kb', first', second) == [dir'] + (EncodeString(kb') + rest);
    assert PairPrefix(dir, kb, first) == [dir] + (EncodeString(kb) + EncodeString(first));
    SameDirection(dir, EncodeString(kb) + EncodeString(first), dir', EncodeString(kb') + rest);
    Peel(kb, EncodeString(first), kb', rest);
    assert EncodeString(first) == EncodeString(first) + [];
    Peel(first, [], first', EncodeString(second));
  }

  lemma KeyInjective(dir: Byte, kb: Bytes, first: Bytes, second: Bytes, dir': Byte, kb': Bytes, first': Bytes, second': Bytes)
    requires Fits(kb) && Fits(kb') && Fits(first) && Fits(first') && Fits(second) && Fits(second')
    ensures PairKey(dir, kb, first, second) == PairKey(dir', kb', first', second')
       <==> dir == dir' && kb == kb' && first == first' && second == second'
  {
    if PairKey(dir, kb, first, second) == PairKey(dir', kb', first', second') {
      PairPrefixOfKey(dir, kb, first, dir, kb, first, second);
      PairPrefixOfKey(dir, kb, first, dir', kb', first', second');
      var p := PairPrefix(dir, kb, first);
      assert (p + EncodeString(second))[|p|..] == EncodeString(second);
      assert (p + EncodeString(second'))[|p|..] == EncodeString(second');
      assert EncodeString(second) == EncodeString(second) + [] && EncodeString(second') == EncodeString(second') + [];
      PeelEqual(second, [], second', []);
    }
  }

  /** Decodes the length-prefixed string that follows `prefix` in `key`. */
  function DecodeSuffix(key: Bytes, prefix: Bytes): Result<Bytes, MapperError> {
    if |key| < |prefix| + LENGTH_BYTES then Err(CorruptKey)
    else
      var suffix := key[|prefix|..];
      var n := FromBigEndian(suffix[..LENGTH_BYTES]);
      if |suffix| < LENGTH_BYTES + n then Err(CorruptKey)
      else Ok(suffix[LENGTH_BYTES..LENGTH_BYTES + n])
  }

  /** Whatever precedes and follows it, the string comes back. */
  lemma DecodeSuffixRoundTrip(prefix: Bytes, s: Bytes, rest: Bytes)
    requires Fits(s)
    ensures DecodeSuffix(prefix + EncodeString(s) + rest, prefix) == Ok(s)
  {
    SmallRemainder(|s|);
    var header := BigEndian(|s|, LENGTH_BYTES);
    var key := prefix + EncodeString(s) + rest;
    assert key[|prefix|..] == header + s + rest;
    assert (header + s + rest)[..LENGTH_BYTES] == header;
    Widths();
    BigEndianRoundTrip(|s|, LENGTH_BYTES);
    assert (header + s + rest)[LENGTH_BYTES..LENGTH_BYTES + |s|] == s;
  }

  lemma DecodeFirst(dir: Byte, kb: Bytes, first: Bytes, second: Bytes)
    requires Fits(first)
    ensures DecodeSuffix(PairKey(dir, kb, first, second), KbPrefix(dir, kb)) == Ok(first)
  {
    DecodeSuffixRoundTrip(KbPrefix(dir, kb), first, EncodeString(second));
  }

  lemma DecodeSecond(dir: Byte, kb: Bytes, first: Bytes, second: Bytes)
    requires Fits(second)
    ensures DecodeSuffix(PairKey(dir, kb, first, second), PairPrefix(dir, kb, first)) == Ok(second)
  {
    var p := PairPrefix(dir, kb, first);
    assert p + EncodeString(second) + [] == PairKey(dir, kb, first, second);
    DecodeSuffixRoundTrip(p, second, []);
  }

  // ---------------------------------------------------------------- what the keyspace stands for

  function ForwardKeys(s: set<Pair>): set<Bytes> {
    set t | t in s :: ForwardKey(t)
  }

  function ReverseKeys(s: set<Pair>): set<Bytes> {
    set t | t in s :: ReverseKey(t)
  }

  /** The keyspace holds the forward rows of `fwd`, the reverse rows of `rev`, and nothing else. */
  ghost predicate Represents(db: set<Bytes>, fwd: set<Pair>, rev: set<Pair>) {
    && (forall t :: t in fwd ==> Storable(t))
    && (forall t :: t in rev ==> Storable(t))
    && db == ForwardKeys(fwd) + ReverseKeys(rev)
  }

  /** A pair can be looked up by either key, and only by its own. */
  lemma RowIff(db: set<Bytes>, fwd: set<Pair>, rev: set<Pair>, t: Pair)
    requires Represents(db, fwd, rev) && Storable(t)
    ensures ForwardKey(t) in db <==> t in fwd
    ensures ReverseKey(t) in db <==> t in rev
  {
    if ForwardKey(t) in db {
      if u :| u in fwd && ForwardKey(u) == ForwardKey(t) {
        KeyInjective(FORWARD, t.kb, t.chunk, t.doc, FORWARD, u.kb, u.chunk, u.doc);
      } else {
        var u :| u in rev && ReverseKey(u) == ForwardKey(t);
        KeyInjective(FORWARD, t.kb, t.chunk, t.doc, REVERSE, u.kb, u.doc, u.chunk);
      }
    }
    if ReverseKey(t) in db {
      if u :| u in rev && ReverseKey(u) == ReverseKey(t) {
        KeyInjective(REVERSE, t.kb, t.doc, t.chunk, REVERSE, u.kb, u.doc, u.chunk);
      } else {
        var u :| u in fwd && ForwardKey(u) == ReverseKey(t);
        KeyInjective(REVERSE, t.kb, t.doc, t.chunk, FORWARD, u.kb, u.chunk, u.doc);
      }
    }
  }

  /** Removing keys removes the rows they stand for. */
  lemma RemoveKeys(db: set<Bytes>, fwd: set<Pair>, rev: set<Pair>, gone: set<Bytes>, fwd': set<Pair>, rev': set<Pair>)
    requires Represents(db, fwd, rev) && fwd' <= fwd && rev' <= rev
    requires forall t :: t in fwd ==> (ForwardKey(t) in gone <==> t !in fwd')
    requires forall t :: t in rev ==> (ReverseKey(t) in gone <==> t !in rev')
    ensures Represents(db - gone, fwd', rev')
  {
    assert forall b :: b in db - gone ==> b in ForwardKeys(fwd') + ReverseKeys(rev');
    assert forall b :: b in ForwardKeys(fwd') + ReverseKeys(rev') ==> b in db - gone;
  }

  /** A scan of a forward prefix finds forward rows only. */
  lemma ForwardRow(db: set<Bytes>, fwd: set<Pair>, rev: set<Pair>, kb: Bytes, b: Bytes) returns (t: Pair)
    requires Represents(db, fwd, rev) && Fits(kb) && b in db && KbPrefix(FORWARD, kb) <= b
    ensures t in fwd && t.kb == kb && b == ForwardKey(t)
  {
    if u :| u in fwd && b == ForwardKey(u) {
      t := u;
      KbPrefixOfKey(FORWARD, kb, FORWARD, t.kb, t.chunk, t.doc);
    } else {
      var u :| u in rev && b == ReverseKey(u);
      KbPrefixOfKey(FORWARD, kb, REVERSE, u.kb, u.doc, u.chunk);
    }
  }

  lemma ReverseRow(db: set<Bytes>, fwd: set<Pair>, rev: set<Pair>, kb: Bytes, doc: Bytes, b: Bytes) returns (t: Pair)
    requires Represents(db, fwd, rev) && Fits(kb) && Fits(doc) && b in db && PairPrefix(REVERSE, kb, doc) <= b
    ensures t in rev && t.kb == kb && t.doc == doc && b == ReverseKey(t)
  {
    if u :| u in rev && b == ReverseKey(u) {
      t := u;
      PairPrefixOfKey(REVERSE, kb, doc, REVERSE, t.kb, t.doc, t.chunk);
    } else {
      var u :| u in fwd && b == ForwardKey(u);
      PairPrefixOfKey(REVERSE, kb, doc, FORWARD, u.kb, u.chunk, u.doc);
    }
  }

  // ---------------------------------------------------------------- listing each chunk once

  /** Equal names stand next to each other. */
  ghost predicate Grouped(names: seq<Bytes>) {
    forall i, j, k :: 0 <= i < j < k < |names| && names[i] == names[k] ==> names[j] == names[i]
  }

  /** Comparing with the previous name only yields every name exactly once. */
  lemma GroupedNewName(names: seq<Bytes>, i: nat, out: seq<Bytes>)
    requires Grouped(names) && 0 < i < |names| && names[i] != names[i - 1]
    requires forall c :: c in out ==> c in names[..i]
    ensures names[i] !in out
  {
    forall c | c in out ensures c != names[i] {
      var j :| 0 <= j < i && names[..i][j] == c;
      assert names[j] == c;
    }
  }

  /** In key order the rows of one chunk are contiguous, so the decoded chunk IDs are grouped. */
  lemma MiddleRow(a: Pair, b: Pair, c: Pair)
    requires Storable(a) && Storable(b) && Storable(c) && a.kb == b.kb == c.kb && a.chunk == c.chunk
    requires Lt(ForwardKey(a), ForwardKey(b)) && Lt(ForwardKey(b), ForwardKey(c))
    ensures b.chunk == a.chunk
  {
    PairPrefixOfKey(FORWARD, a.kb, a.chunk, FORWARD, a.kb, a.chunk, a.doc);
    PairPrefixOfKey(FORWARD, a.kb, a.chunk, FORWARD, c.kb, c.chunk, c.doc);
    Contiguous(PairPrefix(FORWARD, a.kb, a.chunk), ForwardKey(a), ForwardKey(b), ForwardKey(c));
    PairPrefixOfKey(FORWARD, a.kb, a.chunk, FORWARD, b.kb, b.chunk, b.doc);
  }

  /** The rows behind the keys of a scan of a knowledge base's forward prefix. */
  lemma ScannedRows(db: set<Bytes>, fwd: set<Pair>, rev: set<Pair>, kb: Bytes, keys: seq<Bytes>) returns (rows: seq<Pair>)
    requires Represents(db, fwd, rev) && Fits(kb)
    requires forall b :: b in keys ==> b in db && KbPrefix(FORWARD, kb) <= b
    ensures |rows| == |keys|
    ensures forall i :: 0 <= i < |keys| ==> rows[i] in fwd && rows[i].kb == kb && keys[i] == ForwardKey(rows[i])
  {
    rows := [];
    for n := 0 to |keys|
      invariant |rows| == n
      invariant forall i :: 0 <= i < n ==> rows[i] in fwd && rows[i].kb == kb && keys[i] == ForwardKey(rows[i])
    {
      assert keys[n] in keys;
      var t := ForwardRow(db, fwd, rev, kb, keys[n]);
      rows := rows + [t];
    }
  }

  lemma RowsAreGrouped(rows: seq<Pair>, keys: seq<Bytes>, names: seq<Bytes>)
    requires Sorted(keys) && |rows| == |keys| == |names|
    requires forall i :: 0 <= i < |keys| ==> Storable(rows[i]) && keys[i] == ForwardKey(rows[i]) && names[i] == rows[i].chunk
    requires forall i, j :: 0 <= i < j < |keys| ==> rows[i].kb == rows[j].kb
    ensures Grouped(names)
  {
    forall i, j, k | 0 <= i < j < k < |names| && names[i] == names[k] ensures names[j] == names[i] {
      MiddleRow(rows[i], rows[j], rows[k]);
    }
  }

  /** What decoding the chunk IDs of a sorted forward scan yields. */
  lemma ScannedNames(db: set<Bytes>, fwd: set<Pair>, rev: set<Pair>, kb: Bytes, keys: seq<Bytes>) returns (names: seq<Bytes>)
    requires Represents(db, fwd, rev) && Fits(kb) && Sorted(keys)
    requires forall b :: b in keys <==> b in db && KbPrefix(FORWARD, kb) <= b
    ensures |names| == |keys| && Grouped(names)
    ensures forall i :: 0 <= i < |keys| ==> DecodeSuffix(keys[i], KbPrefix(FORWARD, kb)) == Ok(names[i])
    ensures forall c :: c in names <==> HasRow(fwd, kb, c)
  {
    var rows := ScannedRows(db, fwd, rev, kb, keys);
    names := seq(|rows|, i requires 0 <= i < |rows| => rows[i].chunk);
    RowsAreGrouped(rows, keys, names);
    forall i | 0 <= i < |keys| ensures DecodeSuffix(keys[i], KbPrefix(FORWARD, kb)) == Ok(names[i]) {
      DecodeFirst(FORWARD, kb, rows[i].chunk, rows[i].doc);
    }
    forall c | HasRow(fwd, kb, c) ensures c in names {
      var t :| t in fwd && t.kb == kb && t.chunk == c;
      KbPrefixOfKey(FORWARD, kb, FORWARD, kb, t.chunk, t.doc);
      assert ForwardKey(t) in keys;
      var i :| 0 <= i < |keys| && keys[i] == ForwardKey(t);
      DecodeFirst(FORWARD, kb, t.chunk, t.doc);
      assert names[i] == c;
    }
  }

  ghost predicate HasRow(fwd: set<Pair>, kb: Bytes, c: Bytes) {
    exists t :: t in fwd && t.kb == kb && t.chunk == c
  }

  predicate Distinct(s: seq<Bytes>) {
    forall i, j :: 0 <= i < j < |s| ==> s[i] != s[j]
  }

  /** Past the first key without the prefix, no key has it. */
  lemma PrefixEnds(p: Bytes, keys: seq<Bytes>, i: nat)
    requires Sorted(keys) && i < |keys| && !(p <= keys[i]) && !Lt(keys[i], p)
    ensures forall j :: i <= j < |keys| ==> !(p <= keys[j])
  {
    forall j | i <= j < |keys| ensures !(p <= keys[j]) {
      if i < j && p <= keys[j] {
        assert keys[j] == p + keys[j][|p|..];
        Sandwich(p, keys[j][|p|..], keys[i]);
      }
    }
  }

  // ---------------------------------------------------------------- the mapper

  function Without(s: set<Pair>, kb: Bytes): set<Pair> {
    set t | t in s && t.kb != kb
  }

  function WithoutDoc(s: set<Pair>, kb: Bytes, doc: Bytes): set<Pair> {
    set t | t in s && !(t.kb == kb && t.doc == doc)
  }

  function RowsFor(kb: Bytes, doc: Bytes, chunks: seq<Bytes>): set<Pair> {
    set c | c in chunks :: Pair(kb, c, doc)
  }

  /** The keys rows are stored under, both directions. */
  function KeysOf(rows: set<Pair>): set<Bytes> {
    ForwardKeys(rows) + ReverseKeys(rows)
  }

  lemma AddRows(db: set<Bytes>, fwd: set<Pair>, rev: set<Pair>, rows: set<Pair>)
    requires Represents(db, fwd, rev) && forall t :: t in rows ==> Storable(t)
    ensures Represents(db + KeysOf(rows), fwd + rows, rev + rows)
  {
    assert ForwardKeys(fwd + rows) == ForwardKeys(fwd) + ForwardKeys(rows);
    assert ReverseKeys(rev + rows) == ReverseKeys(rev) + ReverseKeys(rows);
  }

  lemma OneMoreRow(kb: Bytes, doc: Bytes, chunks: seq<Bytes>, i: nat)
    requires i < |chunks|
    ensures RowsFor(kb, doc, chunks[..i + 1]) == RowsFor(kb, doc, chunks[..i]) + {Pair(kb, chunks[i], doc)}
  {
    assert chunks[..i + 1] == chunks[..i] + [chunks[i]];
  }

  lemma OneMoreKey(rows: set<Pair>, t: Pair)
    ensures KeysOf(rows + {t}) == KeysOf(rows) + {ForwardKey(t), ReverseKey(t)}
  {
    assert ForwardKeys(rows + {t}) == ForwardKeys(rows) + {ForwardKey(t)};
    assert ReverseKeys(rows + {t}) == ReverseKeys(rows) + {ReverseKey(t)};
  }

  /** The keys one document's rows are written under. */
  method BatchFor(kb: Bytes, doc: Bytes, chunks: seq<Bytes>) returns (batch: set<Bytes>)
    ensures batch == KeysOf(RowsFor(kb, doc, chunks))
  {
    batch := {};
    assert KeysOf({}) == {} && RowsFor(kb, doc, chunks[..0]) == {};
    for i := 0 to |chunks|
      invariant batch == KeysOf(RowsFor(kb, doc, chunks[..i]))
    {
      var t := Pair(kb, chunks[i], doc);
      OneMoreRow(kb, doc, chunks, i);
      OneMoreKey(RowsFor(kb, doc, chunks[..i]), t);
      batch := batch + {ForwardKey(t), ReverseKey(t)};
    }
    assert chunks[..|chunks|] == chunks;
  }

  lemma DocRow(kb: Bytes, doc: Bytes, t: Pair)
    requires Storable(t) && Fits(kb) && Fits(doc)
    ensures PairPrefix(REVERSE, kb, doc) <= ReverseKey(t) <==> t.kb == kb && t.doc == doc
    ensures t.kb == kb && t.doc == doc ==> DecodeSuffix(ReverseKey(t), PairPrefix(REVERSE, kb, doc)) == Ok(t.chunk)
  {
    PairPrefixOfKey(REVERSE, kb, doc, REVERSE, t.kb, t.doc, t.chunk);
    DecodeSecond(REVERSE, kb, doc, t.chunk);
  }

  /** A key with a document's reverse prefix names one of its chunks. */
  lemma DocKeyNames(db: set<Bytes>, fwd: set<Pair>, rev: set<Pair>, kb: Bytes, doc: Bytes, b: Bytes) returns (c: Bytes)
    requires Represents(db, fwd, rev) && Fits(kb) && Fits(doc) && b in db && PairPrefix(REVERSE, kb, doc) <= b
    ensures Pair(kb, c, doc) in rev && b == ReverseKey(Pair(kb, c, doc))
    ensures DecodeSuffix(b, PairPrefix(REVERSE, kb, doc)) == Ok(c)
  {
    var t := ReverseRow(db, fwd, rev, kb, doc, b);
    DocRow(kb, doc, t);
    c := t.chunk;
    assert t == Pair(kb, c, doc);
  }

  /** Every chunk of a document is behind one of the keys. */
  lemma DocRowScanned(db: set<Bytes>, fwd: set<Pair>, rev: set<Pair>, kb: Bytes, doc: Bytes, c: Bytes)
    requires Represents(db, fwd, rev) && Fits(kb) && Fits(doc) && Pair(kb, c, doc) in rev
    ensures var b := ReverseKey(Pair(kb, c, doc));
      && b in db && PairPrefix(REVERSE, kb, doc) <= b
      && DecodeSuffix(b, PairPrefix(REVERSE, kb, doc)) == Ok(c)
  {
    var t := Pair(kb, c, doc);
    RowIff(db, fwd, rev, t);
    DocRow(kb, doc, t);
  }

  /** A scan from a document's prefix that stops where the prefix ends has passed all its chunks. */
  lemma FoundBeforeTheEnd(db: set<Bytes>, fwd: set<Pair>, rev: set<Pair>, kb: Bytes, doc: Bytes, keys: seq<Bytes>, i: nat, c: Bytes)
    returns (j: nat)
    requires Represents(db, fwd, rev) && Fits(kb) && Fits(doc) && Pair(kb, c, doc) in rev && Sorted(keys) && i <= |keys|
    requires forall b :: b in keys <==> b in db && InRange(b, PairPrefix(REVERSE, kb, doc), None)
    requires i < |keys| ==> !(PairPrefix(REVERSE, kb, doc) <= keys[i])
    ensures j < i && DecodeSuffix(keys[j], PairPrefix(REVERSE, kb, doc)) == Ok(c)
  {
    var prefix := PairPrefix(REVERSE, kb, doc);
    DocRowScanned(db, fwd, rev, kb, doc, c);
    var key := ReverseKey(Pair(kb, c, doc));
    PrefixIsBelow(prefix, key);
    assert key in keys;
    j :| 0 <= j < |keys| && keys[j] == key;
    if i < |keys| {
      assert keys[i] in keys;
      PrefixEnds(prefix, keys, i);
    }
  }

  /** Decodes keys in order, keeping a name only when it differs from the one before. */
  method CompactNames(keys: seq<Bytes>, prefix: Bytes, ghost names: seq<Bytes>) returns (r: Result<seq<Bytes>, MapperError>)
    requires |names| == |keys| && Grouped(names)
    requires forall i :: 0 <= i < |keys| ==> DecodeSuffix(keys[i], prefix) == Ok(names[i])
    ensures r.Ok? && Distinct(r.value) && forall c :: c in r.value <==> c in names
  {
    var out: seq<Bytes> := [];
    for i := 0 to |keys|
      invariant Distinct(out) && forall c :: c in out <==> c in names[..i]
      invariant i == 0 ==> out == []
      invariant i > 0 ==> out != [] && out[|out| - 1] == names[i - 1]
    {
      var c := DecodeSuffix(keys[i], prefix);
      if c.Err? { return Err(CorruptKey); }
      if i > 0 && names[i] != names[i - 1] {
        GroupedNewName(names, i, out);
      }
      if |out| == 0 || out[|out| - 1] != c.value {
        out := out + [c.value];
      }
      assert names[..i + 1] == names[..i] + [names[i]];
    }
    assert names[..|keys|] == names;
    r := Ok(out);
  }

  /** A range delete of a knowledge base's rows in one direction. */
  lemma RemoveDirection(db: set<Bytes>, fwd: set<Pair>, rev: set<Pair>, dir: Byte, kb: Bytes)
    requires Represents(db, fwd, rev) && Fits(kb) && dir in {FORWARD, REVERSE}
    ensures Represents(set b | b in db && !InRange(b, KbPrefix(dir, kb), Successor(KbPrefix(dir, kb))),
      if dir == FORWARD then Without(fwd, kb) else fwd, if dir == REVERSE then Without(rev, kb) else rev)
  {
    var p := KbPrefix(dir, kb);
    var gone := set b | b in db && InRange(b, p, Successor(p));
    forall t | t in fwd ensures ForwardKey(t) in gone <==> dir == FORWARD && t.kb == kb {
      KbPrefixOfKey(dir, kb, FORWARD, t.kb, t.chunk, t.doc);
      SuccessorRange(p, ForwardKey(t));
    }
    forall t | t in rev ensures ReverseKey(t) in gone <==> dir == REVERSE && t.kb == kb {
      KbPrefixOfKey(dir, kb, REVERSE, t.kb, t.doc, t.chunk);
      SuccessorRange(p, ReverseKey(t));
    }
    RemoveKeys(db, fwd, rev, gone, if dir == FORWARD then Without(fwd, kb) else fwd, if dir == REVERSE then Without(rev, kb) else rev);
    assert db - gone == set b | b in db && !InRange(b, p, Successor(p));
  }

  /** Deleting a document's reverse range and the forward rows found through it. */
  lemma RemoveDoc(db: set<Bytes>, fwd: set<Pair>, rev: set<Pair>, kb: Bytes, doc: Bytes, keys: seq<Bytes>, gone: set<Bytes>)
    requires Represents(db, fwd, rev) && Fits(kb) && Fits(doc)
    requires forall b :: b in keys <==> b in db && PairPrefix(REVERSE, kb, doc) <= b
    requires forall b :: b in gone <==>
      (b in keys ||
       exists c :: Pair(kb, c, doc) in rev && ReverseKey(Pair(kb, c, doc)) in keys && b == ForwardKey(Pair(kb, c, doc)))
    ensures Represents(db - gone, fwd - (set t | t in rev && t.kb == kb && t.doc == doc), WithoutDoc(rev, kb, doc))
  {
    var rows := set t | t in rev && t.kb == kb && t.doc == doc;
    forall t | t in rev ensures ReverseKey(t) in gone <==> t in rows {
      DocRow(kb, doc, t);
      forall c | Pair(kb, c, doc) in rev ensures ReverseKey(t) != ForwardKey(Pair(kb, c, doc)) {
        KeyInjective(REVERSE, t.kb, t.doc, t.chunk, FORWARD, kb, c, doc);
      }
    }
    forall t | t in fwd ensures ForwardKey(t) in gone <==> t in rows {
      PairPrefixOfKey(REVERSE, kb, doc, FORWARD, t.kb, t.chunk, t.doc);
      forall c | Pair(kb, c, doc) in rev ensures ForwardKey(t) == ForwardKey(Pair(kb, c, doc)) <==> t == Pair(kb, c, doc) {
        KeyInjective(FORWARD, t.kb, t.chunk, t.doc, FORWARD, kb, c, doc);
      }
      if t in rows {
        DocRow(kb, doc, t);
        assert t == Pair(kb, t.chunk, doc) && ReverseKey(t) in keys;
      }
    }
    RemoveKeys(db, fwd, rev, gone, fwd - rows, WithoutDoc(rev, kb, doc));
  }

  class PebbleChunkDocMapper {
    const mayFail: bool               // whether a call on the keyspace can fail at all
    var db: set<Bytes>
    ghost var fwd: set<Pair>
    ghost var rev: set<Pair>

    ghost predicate Valid()
      reads this
    {
      Represents(db, fwd, rev)
    }

    /** Both directions hold the same pairs. */
    ghost predicate InSync()
      reads this
    {
      fwd == rev
    }

    constructor (mayFail: bool)
      ensures Valid() && InSync() && fwd == {} && this.mayFail == mayFail
    {
      this.mayFail, db, fwd, rev := mayFail, {}, {}, {};
    }

    /** Whether the next call on the keyspace fails. */
    method Fails() returns (fails: bool)
      ensures fails ==> mayFail
    {
      fails := *;
      fails := fails && mayFail;
    }

    method Write(kb: Bytes, chunk: Bytes, doc: Bytes) returns (r: Result<(), MapperError>)
      requires Valid() && Fits(kb) && Fits(chunk) && Fits(doc)
      modifies this
      ensures Valid() && (old(InSync()) ==> InSync())
      ensures fwd == old(fwd) + if r.Ok? then {Pair(kb, chunk, doc)} else {}
      ensures rev == old(rev) + if r.Ok? then {Pair(kb, chunk, doc)} else {}
      ensures r.Err? ==> mayFail
    {
      var fails := Fails();
      if fails { return Err(StoreFailed); }
      var t := Pair(kb, chunk, doc);
      AddRows(db, fwd, rev, {t});
      assert KeysOf({t}) == {ForwardKey(t), ReverseKey(t)};
      db := db + {ForwardKey(t), ReverseKey(t)};
      fwd, rev := fwd + {t}, rev + {t};
      r := Ok(());
    }

    /** All rows of one document in one commit. */
    method WriteMany(kb: Bytes, doc: Bytes, chunks: seq<Bytes>) returns (r: Result<(), MapperError>)
      requires Valid() && Fits(kb) && Fits(doc) && forall c :: c in chunks ==> Fits(c)
      modifies this
      ensures Valid() && (old(InSync()) ==> InSync())
      ensures forall t :: t in fwd <==> t in old(fwd) || (r.Ok? && t.kb == kb && t.doc == doc && t.chunk in chunks)
      ensures forall t :: t in rev <==> t in old(rev) || (r.Ok? && t.kb == kb && t.doc == doc && t.chunk in chunks)
      ensures r.Err? ==> mayFail
    {
      if |chunks| == 0 { return Ok(()); }
      var batch := BatchFor(kb, doc, chunks);
      var fails := Fails();
      if fails { return Err(StoreFailed); }
      ghost var rows := RowsFor(kb, doc, chunks);
      AddRows(db, fwd, rev, rows);
      db := db + batch;
      fwd, rev := fwd + rows, rev + rows;
      r := Ok(());
    }

    /** One pair, both directions, one commit: no other pair is affected. */
    method DeleteMapping(kb: Bytes, chunk: Bytes, doc: Bytes) returns (r: Result<(), MapperError>)
      requires Valid() && Fits(kb) && Fits(chunk) && Fits(doc)
      modifies this
      ensures Valid() && (old(InSync()) ==> InSync())
      ensures fwd == old(fwd) - if r.Ok? then {Pair(kb, chunk, doc)} else {}
      ensures rev == old(rev) - if r.Ok? then {Pair(kb, chunk, doc)} else {}
      ensures r.Err? ==> mayFail
    {
      var fails := Fails();
      if fails { return Err(StoreFailed); }
      var t := Pair(kb, chunk, doc);
      var gone := {ForwardKey(t), ReverseKey(t)};
      forall u | Storable(u)
        ensures ForwardKey(u) in gone <==> u == t
        ensures ReverseKey(u) in gone <==> u == t
      {
        KeyInjective(FORWARD, u.kb, u.chunk, u.doc, FORWARD, kb, chunk, doc);
        KeyInjective(FORWARD, u.kb, u.chunk, u.doc, REVERSE, kb, doc, chunk);
        KeyInjective(REVERSE, u.kb, u.doc, u.chunk, FORWARD, kb, chunk, doc);
        KeyInjective(REVERSE, u.kb, u.doc, u.chunk, REVERSE, kb, doc, chunk);
      }
      RemoveKeys(db, fwd, rev, gone, fwd - {t}, rev - {t});
      db, fwd, rev := db - gone, fwd - {t}, rev - {t};
      r := Ok(());
    }

    /** Every chunk of a knowledge base, each exactly once. */
    method ListChunkIDs(kb: Bytes) returns (r: Result<seq<Bytes>, MapperError>)
      requires Valid() && Fits(kb)
      ensures r.Ok? ==> forall c :: c in r.value <==> exists d :: Pair(kb, c, d) in fwd
      ensures r.Ok? ==> forall i, j :: 0 <= i < j < |r.value| ==> r.value[i] != r.value[j]
      ensures r.Err? ==> r.error.StoreFailed? && mayFail
    {
      var fails := Fails();
      if fails { return Err(StoreFailed); }
      var prefix := KbPrefix(FORWARD, kb);
      var keys := ScanPrefix(db, prefix);
      ghost var names := ScannedNames(db, fwd, rev, kb, keys);
      r := CompactNames(keys, prefix, names);
    }

    /** The documents of a chunk, in key order. */
    method ListDocIDs(kb: Bytes, chunk: Bytes) returns (r: Result<seq<Bytes>, MapperError>)
      requires Valid() && Fits(kb) && Fits(chunk)
      ensures r.Ok? ==> forall d :: d in r.value <==> Pair(kb, chunk, d) in fwd
      ensures r.Err? ==> r.error.StoreFailed? && mayFail
    {
      var fails := Fails();
      if fails { return Err(StoreFailed); }
      var prefix := PairPrefix(FORWARD, kb, chunk);
      var keys := ScanPrefix(db, prefix);
      ghost var rows := ChunkRows(db, fwd, rev, kb, chunk, keys);
      var out: seq<Bytes> := [];
      for i := 0 to |keys|
        invariant |out| == i && forall j :: 0 <= j < i ==> out[j] == rows[j].doc
      {
        var d := DecodeSuffix(keys[i], prefix);
        if d.Err? { return Err(CorruptKey); }
        out := out + [d.value];
      }
      DocsOfRows(fwd, kb, chunk, rows, out);
      r := Ok(out);
    }

    /** Seeks to a document's first row and reads on until the prefix ends, keeping new chunks. */
    method AppendChunksOf(kb: Bytes, doc: Bytes, so_far: seq<Bytes>) returns (r: Result<seq<Bytes>, MapperError>)
      requires Valid() && Fits(kb) && Fits(doc) && Distinct(so_far)
      ensures r.Ok? ==> Distinct(r.value)
      ensures r.Ok? ==> forall c :: c in r.value <==> c in so_far || Pair(kb, c, doc) in rev
      ensures r.Err? ==> r.error.StoreFailed? && mayFail
    {
      var fails := Fails();
      if fails { return Err(StoreFailed); }
      var prefix := PairPrefix(REVERSE, kb, doc);
      var keys := Scan(db, prefix, None);
      var out := so_far;
      var i := 0;
      while i < |keys| && prefix <= keys[i]
        invariant 0 <= i <= |keys| && Distinct(out) && so_far <= out
        invariant forall c :: c in out ==> c in so_far || Pair(kb, c, doc) in rev
        invariant forall j :: 0 <= j < i ==> DecodeSuffix(keys[j], prefix).Ok? && DecodeSuffix(keys[j], prefix).value in out
      {
        assert keys[i] in keys;
        ghost var name := DocKeyNames(db, fwd, rev, kb, doc, keys[i]);
        var c := DecodeSuffix(keys[i], prefix);
        if c.Err? { return Err(CorruptKey); }
        if c.value !in out {
          out := out + [c.value];
        }
        i := i + 1;
      }
      forall c | Pair(kb, c, doc) in rev ensures c in out {
        var j := FoundBeforeTheEnd(db, fwd, rev, kb, doc, keys, i, c);
      }
      r := Ok(out);
    }

    /** The chunks of any of the documents, each exactly once. */
    method ListChunkIDsByDocs(kb: Bytes, docs: seq<Bytes>) returns (r: Result<seq<Bytes>, MapperError>)
      requires Valid() && Fits(kb) && forall d :: d in docs ==> Fits(d)
      ensures r.Ok? ==> Distinct(r.value)
      ensures r.Ok? ==> forall c :: c in r.value <==> exists d :: d in docs && Pair(kb, c, d) in rev
      ensures r.Err? ==> r.error.StoreFailed? && mayFail
    {
      var out: seq<Bytes> := [];
      for i := 0 to |docs|
        invariant Distinct(out)
        invariant forall c :: c in out <==> exists d :: d in docs[..i] && Pair(kb, c, d) in rev
      {
        r := AppendChunksOf(kb, docs[i], out);
        if r.Err? { return; }
        out := r.value;
        assert docs[..i + 1] == docs[..i] + [docs[i]];
      }
      assert docs[..|docs|] == docs;
      r := Ok(out);
    }

    /** Outside one knowledge base both directions hold the same pairs. */
    ghost predicate InSyncOutside(kb: Bytes)
      reads this
    {
      Without(fwd, kb) == Without(rev, kb)
    }

    /**
      One range delete per direction. Stopping between the two leaves this knowledge base,
      and only it, out of sync; completing it, then or on a retry, restores the balance.
    */
    method DeleteByKB(kb: Bytes) returns (r: Result<(), MapperError>)
      requires Valid() && Fits(kb)
      modifies this
      ensures Valid()
      ensures r.Ok? ==> forall t :: (t in fwd <==> t in old(fwd) && t.kb != kb) && (t in rev <==> t in old(rev) && t.kb != kb)
      ensures r.Err? ==> rev == old(rev) && (fwd == old(fwd) || forall t :: t in fwd <==> t in old(fwd) && t.kb != kb)
      ensures r.Err? ==> mayFail || Successor(KbPrefix(FORWARD, kb)).None? || Successor(KbPrefix(REVERSE, kb)).None?
      ensures old(InSyncOutside(kb)) ==> InSyncOutside(kb) && (r.Ok? ==> InSync())
    {
      var prefix := KbPrefix(FORWARD, kb);
      var upper := PrefixSuccessor(prefix);
      if upper.None? { return Err(NoSuccessorKey); }
      var fails := Fails();
      if fails { return Err(StoreFailed); }
      RemoveDirection(db, fwd, rev, FORWARD, kb);
      db := set b | b in db && !InRange(b, prefix, upper);
      fwd := Without(fwd, kb);
      prefix := KbPrefix(REVERSE, kb);
      upper := PrefixSuccessor(prefix);
      if upper.None? { return Err(NoSuccessorKey); }
      fails := Fails();
      if fails { return Err(StoreFailed); }
      RemoveDirection(db, fwd, rev, REVERSE, kb);
      db := set b | b in db && !InRange(b, prefix, upper);
      rev := Without(rev, kb);
      r := Ok(());
    }

    /**
      Finds a document's chunks by its reverse rows, then deletes their forward rows and the
      whole reverse range in one commit.
    */
    method DeleteByDoc(kb: Bytes, doc: Bytes) returns (r: Result<(), MapperError>)
      requires Valid() && Fits(kb) && Fits(doc)
      modifies this
      ensures Valid() && (old(InSync()) ==> InSync())
      ensures r.Ok? ==> forall t :: t in rev <==> t in old(rev) && !(t.kb == kb && t.doc == doc)
      ensures r.Err? ==> mayFail && rev == old(rev)
      ensures fwd == if r.Ok? then old(fwd) - (old(rev) - rev) else old(fwd)
    {
      var prefix := PairPrefix(REVERSE, kb, doc);
      var keys := ScanPrefix(db, prefix);
      var gone := ForwardKeysOf(kb, doc, keys);
      if gone.Err? { return Err(CorruptKey); }
      var fails := Fails();
      if fails { return Err(StoreFailed); }
      var range := set b | b in keys;
      ghost var rows := set t | t in rev && t.kb == kb && t.doc == doc;
      RemoveDoc(db, fwd, rev, kb, doc, keys, gone.value + range);
      db := db - (gone.value + range);
      fwd, rev := fwd - rows, WithoutDoc(rev, kb, doc);
      assert old(rev) - rev == rows;
      r := Ok(());
    }

    /** The forward keys of the pairs behind a document's reverse keys. */
    method ForwardKeysOf(kb: Bytes, doc: Bytes, keys: seq<Bytes>) returns (r: Result<set<Bytes>, MapperError>)
      requires Valid() && Fits(kb) && Fits(doc)
      requires forall b :: b in keys ==> b in db && PairPrefix(REVERSE, kb, doc) <= b
      ensures r.Ok? ==> forall b :: b in r.value <==>
        exists c :: Pair(kb, c, doc) in rev && ReverseKey(Pair(kb, c, doc)) in keys && b == ForwardKey(Pair(kb, c, doc))
      ensures r.Ok?
    {
      var prefix := PairPrefix(REVERSE, kb, doc);
      var gone: set<Bytes> := {};
      for i := 0 to |keys|
        invariant forall b :: b in gone <==>
          exists c :: Pair(kb, c, doc) in rev && ReverseKey(Pair(kb, c, doc)) in keys[..i] && b == ForwardKey(Pair(kb, c, doc))
      {
        assert keys[i] in keys;
        ghost var name := DocKeyNames(db, fwd, rev, kb, doc, keys[i]);
        var c := DecodeSuffix(keys[i], prefix);
        if c.Err? { return Err(CorruptKey); }
        gone := gone + {ForwardKey(Pair(kb, c.value, doc))};
        assert keys[..i + 1] == keys[..i] + [keys[i]];
      }
      assert keys[..|keys|] == keys;
      r := Ok(gone);
    }
  }

  /** The rows of one chunk name its documents. */
  lemma DocsOfRows(fwd: set<Pair>, kb: Bytes, chunk: Bytes, rows: seq<Pair>, docs: seq<Bytes>)
    requires |docs| == |rows| && forall i :: 0 <= i < |rows| ==> docs[i] == rows[i].doc
    requires forall i :: 0 <= i < |rows| ==> rows[i] in fwd && rows[i].kb == kb && rows[i].chunk == chunk
    requires forall t :: t in fwd && t.kb == kb && t.chunk == chunk ==> t in rows
    ensures forall d :: d in docs <==> Pair(kb, chunk, d) in fwd
  {
    forall d | Pair(kb, chunk, d) in fwd ensures d in docs {
      var j :| 0 <= j < |rows| && rows[j] == Pair(kb, chunk, d);
      assert docs[j] == d;
    }
    forall d | d in docs ensures Pair(kb, chunk, d) in fwd {
      var j :| 0 <= j < |docs| && docs[j] == d;
      assert rows[j] == Pair(kb, chunk, d);
    }
  }

  lemma ChunkRow(kb: Bytes, chunk: Bytes, t: Pair)
    requires Storable(t) && t.kb == kb && Fits(chunk) && PairPrefix(FORWARD, kb, chunk) <= ForwardKey(t)
    ensures t.chunk == chunk && DecodeSuffix(ForwardKey(t), PairPrefix(FORWARD, kb, chunk)) == Ok(t.doc)
  {
    PairPrefixOfKey(FORWARD, kb, chunk, FORWARD, kb, t.chunk, t.doc);
    DecodeSecond(FORWARD, kb, chunk, t.doc);
  }

  /** The rows behind the keys of a scan of a chunk's forward prefix. */
  lemma ChunkRows(db: set<Bytes>, fwd: set<Pair>, rev: set<Pair>, kb: Bytes, chunk: Bytes, keys: seq<Bytes>) returns (rows: seq<Pair>)
    requires Represents(db, fwd, rev) && Fits(kb) && Fits(chunk)
    requires forall b :: b in keys <==> b in db && PairPrefix(FORWARD, kb, chunk) <= b
    ensures |rows| == |keys|
    ensures forall i :: 0 <= i < |keys| ==> rows[i] in fwd && rows[i].kb == kb && rows[i].chunk == chunk
    ensures forall i :: 0 <= i < |keys| ==> DecodeSuffix(keys[i], PairPrefix(FORWARD, kb, chunk)) == Ok(rows[i].doc)
    ensures forall t :: t in fwd && t.kb == kb && t.chunk == chunk ==> t in rows
  {
    var prefix := PairPrefix(FORWARD, kb, chunk);
    assert KbPrefix(FORWARD, kb) <= prefix;
    rows := ScannedRows(db, fwd, rev, kb, keys);
    forall i | 0 <= i < |keys|
      ensures rows[i].chunk == chunk && DecodeSuffix(keys[i], prefix) == Ok(rows[i].doc)
    {
      assert keys[i] in keys;
      ChunkRow(kb, chunk, rows[i]);
    }
    forall t | t in fwd && t.kb == kb && t.chunk == chunk ensures t in rows {
      PairPrefixOfKey(FORWARD, kb, chunk, FORWARD, kb, chunk, t.doc);
      RowIff(db, fwd, rev, t);
      var i :| 0 <= i < |keys| && keys[i] == ForwardKey(t);
      KeyInjective(FORWARD, kb, chunk, t.doc, FORWARD, kb, chunk, rows[i].doc);
      assert rows[i] == t;
    }
  }
}
