/**
  Deriving a version's document set on any replica. The set is the parent's set as this node
  holds it, with the version's changes applied; before it is used, the parent's set is
  compared with the digest committed for the parent, because a node that holds nothing for
  the parent reads an empty set too.
*/
module Replicas {
  import opened Storage
  import opened Batches
  import opened Lines
  import opened Sorting

  type Digest = set<Doc> -> string

  // ---------------------------------------------------------------- what the digest hashes

  /** The string whose hash is the digest: the sorted IDs, a newline between each two. */
  function DigestInput(ids: seq<Doc>): string {
    Join(Sort(ids, StringLe), '\n')
  }

  /** Listing the same IDs in another order gives the same digest. */
  lemma DigestForgetsOrder(a: seq<Doc>, b: seq<Doc>)
    requires multiset(a) == multiset(b)
    ensures DigestInput(a) == DigestInput(b)
  {
    StringLeIsTotalOrder();
    SortForgetsOrder(a, b, StringLe);
  }

  /** Exactly when two lists of IDs are hashed alike: when their newline-free pieces agree. */
  lemma DigestInputsAgreeIff(a: seq<Doc>, b: seq<Doc>)
    ensures DigestInput(a) == DigestInput(b) <==> Pieces(Sort(a, StringLe), '\n') == Pieces(Sort(b, StringLe), '\n')
  {
    JoinsAgreeIff(Sort(a, StringLe), Sort(b, StringLe), '\n');
  }

  lemma SortKeepsElements(a: seq<Doc>)
    ensures |Sort(a, StringLe)| == |a| && forall d :: d in Sort(a, StringLe) <==> d in a
  {
    SortPermutes(a, StringLe);
    assert |multiset(Sort(a, StringLe))| == |multiset(a)|;
    forall d ensures d in Sort(a, StringLe) <==> d in a {
      assert d in Sort(a, StringLe) <==> d in multiset(Sort(a, StringLe));
      assert d in a <==> d in multiset(a);
    }
  }

  /** IDs without newlines, and not the empty list, are told apart. */
  lemma DigestInputInjective(a: seq<Doc>, b: seq<Doc>)
    requires a != [] && b != []
    requires forall d :: d in a || d in b ==> OnePiece(d, '\n')
    ensures DigestInput(a) == DigestInput(b) <==> multiset(a) == multiset(b)
  {
    var x, y := Sort(a, StringLe), Sort(b, StringLe);
    SortKeepsElements(a);
    SortKeepsElements(b);
    forall i | 0 <= i < |x| ensures OnePiece(x[i], '\n') { assert x[i] in x; }
    forall i | 0 <= i < |y| ensures OnePiece(y[i], '\n') { assert y[i] in y; }
    PiecesOfPieces(x, '\n');
    PiecesOfPieces(y, '\n');
    DigestInputsAgreeIff(a, b);
    SortPermutes(a, StringLe);
    SortPermutes(b, StringLe);
    if multiset(a) == multiset(b) {
      DigestForgetsOrder(a, b);
    }
  }

  /** An ID with a newline in it is hashed like the two IDs it is made of. */
  lemma NewlineCollides(x: Doc, y: Doc)
    requires StringLe(x, y)
    ensures DigestInput([x + "\n" + y]) == DigestInput([x, y])
  {
    assert Sort([x + "\n" + y], StringLe) == [x + "\n" + y];
    assert Sort([y], StringLe) == [y];
    assert [x, y][1..] == [y];
    assert Sort([x, y], StringLe) == [x, y];
    assert Join([x, y], '\n') == x + ['\n'] + Join([y], '\n');
  }

  /** The empty set is hashed like the set of one empty ID. */
  lemma EmptySetCollides()
    ensures DigestInput([]) == DigestInput([""])
  {
    assert Sort([""], StringLe) == [""];
  }

  /** A set listed in some order, each ID once. */
  ghost function IdsOf(s: set<Doc>): (ids: seq<Doc>)
    ensures multiset(ids) == multiset(s)
  {
    if s == {} then []
    else
      var d :| d in s;
      assert multiset(s) == multiset(s - {d}) + multiset{d};
      [d] + IdsOf(s - {d})
  }

  /** The string hashed for a set, whatever order its IDs come in. */
  ghost function SetInput(s: set<Doc>): string {
    DigestInput(IdsOf(s))
  }

  ghost predicate NewlineFree(s: set<Doc>) {
    forall d :: d in s ==> OnePiece(d, '\n')
  }

  /** The sets the digest tells apart: no newlines, and not the one empty ID. */
  ghost predicate Clean(s: set<Doc>) {
    NewlineFree(s) && s != {""}
  }

  lemma SetListing(s: set<Doc>)
    ensures forall d :: d in IdsOf(s) <==> d in s
    ensures IdsOf(s) == [] <==> s == {}
  {
    forall d ensures d in IdsOf(s) <==> d in s {
      assert d in multiset(IdsOf(s)) <==> d in multiset(s);
    }
    if s != {} {
      var d :| d in s;
      assert d in IdsOf(s);
    }
  }

  /** Only the set of one empty ID is hashed like the empty set. */
  lemma HashedLikeEmptyIff(s: set<Doc>)
    requires NewlineFree(s)
    ensures SetInput(s) == SetInput({}) <==> s in {{}, {""}}
  {
    SetListing(s);
    SetListing({});
    if s != {} {
      var x := Sort(IdsOf(s), StringLe);
      SortKeepsElements(IdsOf(s));
      forall i | 0 <= i < |x| ensures OnePiece(x[i], '\n') { assert x[i] in x; }
      PiecesOfPieces(x, '\n');
      DigestInputsAgreeIff(IdsOf(s), []);
      if x == [""] {
        assert forall d :: d in s <==> d in x;
        assert s == {""};
      }
      if s == {""} {
        assert forall d :: d in x <==> d == "";
        assert multiset(IdsOf(s)) == multiset{""};
        assert |multiset(IdsOf(s))| == |IdsOf(s)|;
        assert x == [""];
      }
    }
  }

  lemma SameMultisetSameSet(a: set<Doc>, b: set<Doc>)
    requires multiset(a) == multiset(b)
    ensures a == b
  {
    assert forall d :: d in a <==> d in multiset(a);
    assert forall d :: d in b <==> d in multiset(b);
  }

  lemma NonEmptyHashedAlikeIff(a: set<Doc>, b: set<Doc>)
    requires NewlineFree(a) && NewlineFree(b) && a != {} && b != {}
    ensures SetInput(a) == SetInput(b) <==> a == b
  {
    SetListing(a);
    SetListing(b);
    DigestInputInjective(IdsOf(a), IdsOf(b));
    if SetInput(a) == SetInput(b) {
      SameMultisetSameSet(a, b);
    }
  }

  /** Exactly when two sets of IDs without newlines are hashed alike. */
  lemma SetsHashedAlikeIff(a: set<Doc>, b: set<Doc>)
    requires NewlineFree(a) && NewlineFree(b)
    ensures SetInput(a) == SetInput(b) <==> a == b || (a in {{}, {""}} && b in {{}, {""}})
  {
    HashedLikeEmptyIff(a);
    HashedLikeEmptyIff(b);
    if a != {} && b != {} {
      NonEmptyHashedAlikeIff(a, b);
    }
  }

  /**
    With newlines allowed nothing is safe: every set is hashed like the set of one ID, its own
    hashed text, which is another set unless it had one ID to begin with.
  */
  lemma EverySetHasATwin(a: set<Doc>)
    ensures SetInput({SetInput(a)}) == SetInput(a)
    ensures |a| != 1 ==> a != {SetInput(a)}
  {
    var x := SetInput(a);
    var ids := IdsOf({x});
    SetListing({x});
    assert |multiset(ids)| == |multiset({x})| == 1;
    assert ids == [x] by { assert ids[0] in ids; }
    assert Sort([x], StringLe) == [x];
  }

  /** A hash without collisions, and never empty. */
  ghost predicate GoodHash(h: string -> string) {
    (forall x, y :: h(x) == h(y) ==> x == y) && forall x :: h(x) != ""
  }

  /** The digest the code computes: such a hash of the joined IDs. */
  ghost predicate IsCodeDigest(digest: Digest) {
    exists h :: GoodHash(h) && forall s :: digest(s) == h(SetInput(s))
  }

  lemma DigestsAgreeIff(digest: Digest, a: set<Doc>, b: set<Doc>)
    requires IsCodeDigest(digest)
    ensures digest(a) != ""
    ensures digest(a) == digest(b) <==> SetInput(a) == SetInput(b)
  {
    var h :| GoodHash(h) && forall s :: digest(s) == h(SetInput(s));
  }

  /** A version of the chain: its parent (0 for none) and its changes. */
  datatype Link = Link(parent: Version, batch: seq<Change>)

  type Chain = map<Version, Link>

  ghost predicate WellFounded(chain: Chain) {
    forall v :: v in chain ==> chain[v].parent < v && (chain[v].parent != 0 ==> chain[v].parent in chain)
  }

  /** The document set all changes from the root add up to. */
  ghost function Fold(chain: Chain, v: Version): set<Doc>
    requires WellFounded(chain)
    decreases v
  {
    if v !in chain then {} else DocSet(Fold(chain, chain[v].parent), chain[v].batch)
  }

  /** The digest committed for a version; the empty string while there is none. */
  function CommittedDigest(digests: map<Version, string>, v: Version): string {
    if v in digests then digests[v] else ""
  }

  /** Whether a node that holds `local` for the parent is let through. */
  predicate Passes(digest: Digest, digests: map<Version, string>, parent: Version, local: set<Doc>) {
    parent == 0 || CommittedDigest(digests, parent) in {"", digest(local)}
  }

  /** The set a node derives; without a parent nothing is read. */
  function Derive(link: Link, local: set<Doc>): set<Doc> {
    DocSet(if link.parent == 0 then {} else local, link.batch)
  }

  // ---------------------------------------------------------------- runs

  /** Some node writes version `v`, holding `local` for its parent, and its digest is committed. */
  datatype Write = Write(version: Version, local: set<Doc>)

  /** The write passes the check, holding a clean set, and the parent's digest is there to be checked against. */
  ghost predicate Enabled(chain: Chain, digest: Digest, digests: map<Version, string>, w: Write) {
    && w.version in chain && Clean(w.local)
    && Passes(digest, digests, chain[w.version].parent, w.local)
    && (chain[w.version].parent != 0 ==> CommittedDigest(digests, chain[w.version].parent) != "")
  }

  ghost function Commit(chain: Chain, digest: Digest, digests: map<Version, string>, w: Write): map<Version, string>
    requires w.version in chain
  {
    digests[w.version := digest(Derive(chain[w.version], w.local))]
  }

  ghost predicate IsRun(chain: Chain, digest: Digest, digests: map<Version, string>, writes: seq<Write>)
    decreases |writes|
  {
    writes != [] ==>
      Enabled(chain, digest, digests, writes[0]) && IsRun(chain, digest, Commit(chain, digest, digests, writes[0]), writes[1..])
  }

  ghost function RunTo(chain: Chain, digest: Digest, digests: map<Version, string>, writes: seq<Write>): map<Version, string>
    requires IsRun(chain, digest, digests, writes)
    decreases |writes|
  {
    if writes == [] then digests
    else RunTo(chain, digest, Commit(chain, digest, digests, writes[0]), writes[1..])
  }

  /** Every version's set is one the digest tells apart. */
  ghost predicate CleanChain(chain: Chain)
    requires WellFounded(chain)
  {
    forall v :: v in chain ==> Clean(Fold(chain, v))
  }

  /** Every committed digest is the digest of the fold. */
  ghost predicate DigestsTrue(chain: Chain, digest: Digest, digests: map<Version, string>)
    requires WellFounded(chain)
  {
    forall v :: v in digests ==> v in chain && digests[v] == digest(Fold(chain, v))
  }

  /** A node that passes against a true digest derives the fold, whatever it holds besides. */
  lemma PassingDerivesFold(chain: Chain, digest: Digest, digests: map<Version, string>, w: Write)
    requires WellFounded(chain) && CleanChain(chain) && IsCodeDigest(digest) && DigestsTrue(chain, digest, digests)
    requires Enabled(chain, digest, digests, w)
    ensures Derive(chain[w.version], w.local) == Fold(chain, w.version)
  {
    var p := chain[w.version].parent;
    if p != 0 {
      DigestsAgreeIff(digest, w.local, Fold(chain, p));
      SetsHashedAlikeIff(w.local, Fold(chain, p));
    } else {
      assert p !in chain;
    }
  }

  /**
    Replica independence. Whatever nodes write, in whatever order, with whatever local data,
    once each write passes the check against its parent's committed digest, every committed
    digest is that of the fold of all changes from the root.
  */
  lemma {:induction false} CommittedDigestsAreFolds(chain: Chain, digest: Digest, digests: map<Version, string>, writes: seq<Write>)
    requires WellFounded(chain) && CleanChain(chain) && IsCodeDigest(digest) && DigestsTrue(chain, digest, digests)
    requires IsRun(chain, digest, digests, writes)
    ensures DigestsTrue(chain, digest, RunTo(chain, digest, digests, writes))
    decreases |writes|
  {
    if writes != [] {
      PassingDerivesFold(chain, digest, digests, writes[0]);
      CommittedDigestsAreFolds(chain, digest, Commit(chain, digest, digests, writes[0]), writes[1..]);
    }
  }

  /** Two replicas that pass derive one and the same set. */
  lemma ReplicasAgree(chain: Chain, digest: Digest, digests: map<Version, string>, writes: seq<Write>, v: Version, x: set<Doc>, y: set<Doc>)
    requires WellFounded(chain) && CleanChain(chain) && IsCodeDigest(digest) && IsRun(chain, digest, map[], writes)
    requires digests == RunTo(chain, digest, map[], writes)
    requires Enabled(chain, digest, digests, Write(v, x)) && Enabled(chain, digest, digests, Write(v, y))
    ensures Derive(chain[v], x) == Derive(chain[v], y)
  {
    CommittedDigestsAreFolds(chain, digest, map[], writes);
    PassingDerivesFold(chain, digest, digests, Write(v, x));
    PassingDerivesFold(chain, digest, digests, Write(v, y));
  }

  // ---------------------------------------------------------------- when the check decides

  ghost function Longest(batch: seq<Change>): nat {
    if batch == [] then 0
    else
      var n := Longest(batch[1..]);
      if |batch[0].doc| > n then |batch[0].doc| else n
  }

  lemma {:induction false} LongestBounds(batch: seq<Change>, i: nat)
    requires i < |batch|
    ensures |batch[i].doc| <= Longest(batch)
  {
    if i > 0 { LongestBounds(batch[1..], i - 1); }
  }

  /** There is always a document the batch does not touch. */
  lemma UntouchedDoc(batch: seq<Change>) returns (d: Doc)
    ensures !Touches(batch, d) && OnePiece(d, '\n')
  {
    d := seq(Longest(batch) + 1, i => 'x');
    forall i | 0 <= i < |batch| ensures batch[i].doc != d {
      LongestBounds(batch, i);
    }
  }

  /** A node that holds one untouched document more or less derives a different child. */
  lemma OneDocumentOff(parent: set<Doc>, batch: seq<Change>) returns (local: set<Doc>)
    requires NewlineFree(parent)
    ensures NewlineFree(local)
    ensures DocSet(local, batch) != DocSet(parent, batch)
  {
    var d := UntouchedDoc(batch);
    local := if d in parent then parent - {d} else parent + {d};
    UntouchedKept(parent, map[], 0, batch, d, 0);
    UntouchedKept(local, map[], 0, batch, d, 0);
  }

  /** The empty set and the set of one empty ID derive one child exactly if the batch touches the empty ID. */
  lemma EmptyTwinsDeriveAlikeIff(batch: seq<Change>)
    ensures DocSet({}, batch) == DocSet({""}, batch) <==> Touches(batch, "")
  {
    if Touches(batch, "") {
      forall d ensures d in DocSet({}, batch) <==> d in DocSet({""}, batch) {
        if Touches(batch, d) {
          var i := LastIndex(batch, d);
          LastChangeWins({}, map[], 0, batch, i);
          LastChangeWins({""}, map[], 0, batch, i);
        } else {
          UntouchedKept({}, map[], 0, batch, d, 0);
          UntouchedKept({""}, map[], 0, batch, d, 0);
        }
      }
    } else {
      UntouchedKept({}, map[], 0, batch, "", 0);
      UntouchedKept({""}, map[], 0, batch, "", 0);
    }
  }

  /** When the check decides: no parent, or a committed digest that only the parent's set can have where it matters. */
  ghost predicate Decided(chain: Chain, digests: map<Version, string>, v: Version)
    requires WellFounded(chain) && v in chain
  {
    var p := chain[v].parent;
    p == 0 || (CommittedDigest(digests, p) != "" && (Fold(chain, p) !in {{}, {""}} || Touches(chain[v].batch, "")))
  }

  lemma DecidedDerivesFold(chain: Chain, digest: Digest, digests: map<Version, string>, v: Version, local: set<Doc>)
    requires WellFounded(chain) && IsCodeDigest(digest) && DigestsTrue(chain, digest, digests) && v in chain
    requires NewlineFree(Fold(chain, chain[v].parent)) && NewlineFree(local)
    requires Decided(chain, digests, v) && Passes(digest, digests, chain[v].parent, local)
    ensures Derive(chain[v], local) == Fold(chain, v)
  {
    var p := chain[v].parent;
    if p == 0 {
      assert p !in chain;
    } else {
      DigestsAgreeIff(digest, local, Fold(chain, p));
      SetsHashedAlikeIff(local, Fold(chain, p));
      EmptyTwinsDeriveAlikeIff(chain[v].batch);
    }
  }

  /** Where it does not decide, some node that passes derives something else. */
  lemma UndecidedMisleads(chain: Chain, digest: Digest, digests: map<Version, string>, v: Version) returns (local: set<Doc>)
    requires WellFounded(chain) && IsCodeDigest(digest) && DigestsTrue(chain, digest, digests) && v in chain
    requires NewlineFree(Fold(chain, chain[v].parent)) && !Decided(chain, digests, v)
    ensures NewlineFree(local) && Passes(digest, digests, chain[v].parent, local)
    ensures Derive(chain[v], local) != Fold(chain, v)
  {
    var p := chain[v].parent;
    if CommittedDigest(digests, p) == "" {
      local := OneDocumentOff(Fold(chain, p), chain[v].batch);
    } else {
      local := if Fold(chain, p) == {} then {""} else {};
      DigestsAgreeIff(digest, local, Fold(chain, p));
      SetsHashedAlikeIff(local, Fold(chain, p));
      EmptyTwinsDeriveAlikeIff(chain[v].batch);
    }
  }

  /**
    Exactly when the check makes every node that passes, whatever set of IDs without newlines
    it holds, derive the right child: when there is no parent, or the parent's digest has been
    committed and the parent's set is not one of the two that are hashed alike, or the batch
    says what becomes of the one ID they differ in.
  */
  lemma CheckDecidesIff(chain: Chain, digest: Digest, digests: map<Version, string>, v: Version)
    requires WellFounded(chain) && IsCodeDigest(digest) && DigestsTrue(chain, digest, digests) && v in chain
    requires NewlineFree(Fold(chain, chain[v].parent))
    ensures (forall local :: NewlineFree(local) && Passes(digest, digests, chain[v].parent, local) ==>
               Derive(chain[v], local) == Fold(chain, v))
       <==> Decided(chain, digests, v)
  {
    if Decided(chain, digests, v) {
      forall local | NewlineFree(local) && Passes(digest, digests, chain[v].parent, local)
        ensures Derive(chain[v], local) == Fold(chain, v)
      {
        DecidedDerivesFold(chain, digest, digests, v, local);
      }
    } else {
      var local := UndecidedMisleads(chain, digest, digests, v);
    }
  }
}
