/**
  From per-chunk scores to the answer: aggregate each document's scores, rank the documents,
  then read contents from the top until enough of them could be read.
*/
module RankRead {
  import opened Basics
  import opened Sorting

  type Doc = string

  datatype Method = Max | Mean | Median

  predicate RealLe(a: real, b: real) {
    a <= b
  }

  lemma RealLeIsTotalOrder()
    ensures TotalOrder(RealLe)
  {
  }

  function Sum(s: seq<real>): real {
    if s == [] then 0.0 else s[0] + Sum(s[1..])
  }

  /** One score per document: a function of its chunk scores in ascending order. */
  function OfSorted(t: seq<real>, how: Method): real
    requires |t| >= 1
  {
    match how
    case Max => t[|t| - 1]
    case Mean => Sum(t) / (|t| as real)
    case Median => if |t| % 2 == 0 then (t[|t| / 2 - 1] + t[|t| / 2]) / 2.0 else t[|t| / 2]
  }

  function AggregateOf(scores: seq<real>, how: Method): real {
    if |scores| == 0 then 0.0 else OfSorted(Sort(scores, RealLe), how)
  }

  /** Only which scores there are matters, not the order they were found in. */
  lemma AggregateForgetsOrder(a: seq<real>, b: seq<real>, how: Method)
    requires multiset(a) == multiset(b)
    ensures AggregateOf(a, how) == AggregateOf(b, how)
  {
    assert |multiset(a)| == |a| && |multiset(b)| == |b|;
    RealLeIsTotalOrder();
    SortForgetsOrder(a, b, RealLe);
  }

  lemma {:induction false} SumBounds(s: seq<real>, lo: real, hi: real)
    requires forall i :: 0 <= i < |s| ==> lo <= s[i] <= hi
    ensures (|s| as real) * lo <= Sum(s) <= (|s| as real) * hi
  {
    if s != [] {
      SumBounds(s[1..], lo, hi);
      assert |s| as real == 1.0 + (|s[1..]| as real);
    }
  }

  lemma MeanBounds(sum: real, n: real, lo: real, hi: real)
    requires n >= 1.0 && n * lo <= sum <= n * hi
    ensures lo <= sum / n <= hi
  {
    assert (sum / n) * n == sum;
  }

  lemma OfSortedBetween(t: seq<real>, how: Method, lo: real, hi: real)
    requires t != [] && forall i :: 0 <= i < |t| ==> lo <= t[i] <= hi
    ensures lo <= OfSorted(t, how) <= hi
  {
    if how.Mean? {
      SumBounds(t, lo, hi);
      MeanBounds(Sum(t), |t| as real, lo, hi);
    }
  }

  /** Every aggregate lies between any bounds of the scores, its least and greatest among them. */
  lemma AggregateBetween(scores: seq<real>, how: Method, lo: real, hi: real)
    requires scores != [] && forall x :: x in scores ==> lo <= x <= hi
    ensures lo <= AggregateOf(scores, how) <= hi
  {
    var t := Sort(scores, RealLe);
    SortPermutes(scores, RealLe);
    assert |multiset(t)| == |multiset(scores)|;
    forall i | 0 <= i < |t| ensures lo <= t[i] <= hi {
      assert t[i] in multiset(t);
      assert t[i] in scores;
    }
    OfSortedBetween(t, how, lo, hi);
  }

  /** The maximum is one of the scores and above all of them. */
  lemma MaxIsGreatest(scores: seq<real>)
    requires scores != []
    ensures AggregateOf(scores, Max) in scores && forall x :: x in scores ==> x <= AggregateOf(scores, Max)
  {
    var t := Sort(scores, RealLe);
    SortPermutes(scores, RealLe);
    RealLeIsTotalOrder();
    SortOrders(scores, RealLe);
    assert |multiset(t)| == |multiset(scores)|;
    assert t[|t| - 1] in multiset(t);
    forall x | x in scores ensures x <= t[|t| - 1] {
      assert x in multiset(scores);
      assert x in t;
      var i :| 0 <= i < |t| && t[i] == x;
      assert i < |t| - 1 ==> RealLe(t[i], t[|t| - 1]);
    }
  }

  lemma {:induction false} SumOfConcat(a: seq<real>, b: seq<real>)
    ensures Sum(a + b) == Sum(a) + Sum(b)
    ensures Sum([]) == 0.0 && forall x :: Sum([x]) == x
  {
    forall x ensures Sum([x]) == x {
      assert [x][1..] == [];
    }
    if a == [] {
      assert a + b == b;
    } else {
      SumOfConcat(a[1..], b);
      assert (a + b)[1..] == a[1..] + b;
    }
  }

  lemma {:induction false} SumOfInsert(x: real, s: seq<real>)
    ensures Sum(Insert(x, s, RealLe)) == x + Sum(s)
  {
    if s != [] && !RealLe(x, s[0]) {
      SumOfInsert(x, s[1..]);
    }
  }

  lemma {:induction false} SumOfSort(s: seq<real>)
    ensures Sum(Sort(s, RealLe)) == Sum(s)
  {
    if s != [] {
      SumOfSort(s[1..]);
      SumOfInsert(s[0], Sort(s[1..], RealLe));
    }
  }

  lemma SortedLength(s: seq<real>)
    ensures |Sort(s, RealLe)| == |s|
  {
    SortPermutes(s, RealLe);
    assert |multiset(Sort(s, RealLe))| == |multiset(s)|;
  }

  /** The mean is the sum, in whatever order the scores are added, over their number. */
  lemma MeanIsAverage(scores: seq<real>)
    requires scores != []
    ensures AggregateOf(scores, Mean) == Sum(scores) / (|scores| as real)
  {
    SumOfSort(scores);
    SortedLength(scores);
  }

  /** The median of the scores in any order is the middle one in ascending order, or halfway between the middle two. */
  lemma MedianIsMiddle(scores: seq<real>, t: seq<real>)
    requires scores != [] && multiset(t) == multiset(scores) && forall i, j :: 0 <= i < j < |t| ==> t[i] <= t[j]
    ensures |t| == |scores|
    ensures |t| % 2 == 1 ==> AggregateOf(scores, Median) == t[|t| / 2]
    ensures |t| % 2 == 0 ==> 2.0 * AggregateOf(scores, Median) == t[|t| / 2 - 1] + t[|t| / 2]
  {
    assert |multiset(t)| == |multiset(scores)|;
    RealLeIsTotalOrder();
    SortIs(scores, t, RealLe);
  }

  /** Of the scores in order, the lower half is at or below the median and the upper half at or above it. */
  lemma MedianSplits(t: seq<real>, i: nat)
    requires i < |t| && Ordered(t, RealLe)
    ensures 2 * i + 1 <= |t| ==> t[i] <= OfSorted(t, Median)
    ensures 2 * i + 1 >= |t| ==> t[i] >= OfSorted(t, Median)
  {
    var mid := |t| / 2;
    assert i < mid ==> RealLe(t[i], t[mid]);
    assert mid < i ==> RealLe(t[mid], t[i]);
    if |t| % 2 == 0 {
      assert RealLe(t[mid - 1], t[mid]);
      assert i < mid - 1 ==> RealLe(t[i], t[mid - 1]);
    }
  }

  /** Sorts the scores in place, ascending. */
  method SortInPlace(a: array<real>)
    modifies a
    ensures a[..] == Sort(old(a[..]), RealLe)
  {
    ghost var was := a[..];
    var sorted: seq<real> := [];
    RealLeIsTotalOrder();
    for i := 0 to a.Length
      invariant a[..] == was && Ordered(sorted, RealLe) && multiset(sorted) == multiset(was[..i])
    {
      InsertOrders(a[i], sorted, RealLe);
      InsertPermutes(a[i], sorted, RealLe);
      assert was[..i + 1] == was[..i] + [was[i]];
      sorted := Insert(a[i], sorted, RealLe);
    }
    assert was[..a.Length] == was;
    SortIs(was, sorted, RealLe);
    assert |multiset(sorted)| == |multiset(was)|;
    forall i | 0 <= i < a.Length {
      a[i] := sorted[i];
    }
  }

  /** Combines a document's chunk scores; more than one are sorted in place first. */
  method Aggregate(scores: array<real>, how: Method) returns (r: real)
    modifies scores
    ensures r == AggregateOf(old(scores[..]), how) && (scores.Length == 0 ==> r == 0.0)
    ensures scores[..] == if scores.Length > 1 then Sort(old(scores[..]), RealLe) else old(scores[..])
  {
    if scores.Length == 0 { return 0.0; }
    if scores.Length == 1 {
      assert Sort(scores[..], RealLe) == [scores[0]];
      assert Sum([scores[0]]) == scores[0];
      return scores[0];
    }
    SortInPlace(scores);
    var n := scores.Length;
    match how
    case Max => return scores[n - 1];
    case Mean =>
      var sum := 0.0;
      assert scores[0..] == scores[..];
      for i := 0 to n
        invariant sum + Sum(scores[i..]) == Sum(scores[..])
        invariant scores[..] == Sort(old(scores[..]), RealLe)
      {
        assert scores[i..][1..] == scores[i + 1..];
        sum := sum + scores[i];
      }
      return sum / (n as real);
    case Median =>
      var mid := n / 2;
      if n % 2 == 0 { return (scores[mid - 1] + scores[mid]) / 2.0; }
      return scores[mid];
  }

  // ---------------------------------------------------------------- ranking and reading

  datatype Scored = Scored(doc: Doc, score: real)
  datatype Found = Found(doc: Doc, score: real, content: string)

  predicate Above(a: Scored, b: Scored) {
    a.score >= b.score
  }

  /** A ranking: the candidates, best first, ties in any order. */
  ghost predicate Ranking(candidates: seq<Scored>, ranked: seq<Scored>) {
    multiset(ranked) == multiset(candidates) && Ordered(ranked, Above)
  }

  method Rank(candidates: seq<Scored>) returns (ranked: seq<Scored>)
    ensures multiset(ranked) == multiset(candidates)
    ensures forall i, j :: 0 <= i < j < |ranked| ==> ranked[i].score >= ranked[j].score
  {
    SortPermutes(candidates, Above);
    SortOrders(candidates, Above);
    ranked := Sort(candidates, Above);
  }

  /** Reading every candidate and dropping those that cannot be read. */
  function Readable(ranked: seq<Scored>, read: Doc -> Option<string>): seq<Found> {
    if ranked == [] then []
    else
      (match read(ranked[0].doc) case None => [] case Some(text) => [Found(ranked[0].doc, ranked[0].score, text)])
      + Readable(ranked[1..], read)
  }

  function Take<T>(s: seq<T>, n: nat): seq<T> {
    if |s| <= n then s else s[..n]
  }

  lemma {:induction false} ReadableAppend(a: seq<Scored>, b: seq<Scored>, read: Doc -> Option<string>)
    ensures Readable(a + b, read) == Readable(a, read) + Readable(b, read)
  {
    if a == [] {
      assert a + b == b;
    } else {
      assert (a + b)[1..] == a[1..] + b;
      ReadableAppend(a[1..], b, read);
    }
  }

  lemma ReadableOneMore(ranked: seq<Scored>, i: nat, read: Doc -> Option<string>)
    requires i < |ranked|
    ensures Readable(ranked[..i + 1], read) == Readable(ranked[..i], read) +
      match read(ranked[i].doc) case None => [] case Some(text) => [Found(ranked[i].doc, ranked[i].score, text)]
  {
    ReadableAppend(ranked[..i], [ranked[i]], read);
    assert ranked[..i + 1] == ranked[..i] + [ranked[i]];
    assert [ranked[i]][1..] == [];
  }

  lemma CutIsEnough(ranked: seq<Scored>, i: nat, top: nat, read: Doc -> Option<string>)
    requires i <= |ranked| && |Readable(ranked[..i], read)| <= top && (i == |ranked| || |Readable(ranked[..i], read)| == top)
    ensures Readable(ranked[..i], read) == Take(Readable(ranked, read), top)
  {
    assert ranked == ranked[..i] + ranked[i..];
    ReadableAppend(ranked[..i], ranked[i..], read);
    assert i == |ranked| ==> ranked[i..] == [];
  }

  /** Reads from the top and stops at `top` readable documents: what reading them all and cutting gives. */
  method ReadTop(ranked: seq<Scored>, top: nat, read: Doc -> Option<string>) returns (results: seq<Found>)
    ensures results == Take(Readable(ranked, read), top)
  {
    results := [];
    var i := 0;
    while i < |ranked| && |results| < top
      invariant 0 <= i <= |ranked| && |results| <= top
      invariant results == Readable(ranked[..i], read)
    {
      var text := read(ranked[i].doc);
      ReadableOneMore(ranked, i, read);
      if text.Some? {
        results := results + [Found(ranked[i].doc, ranked[i].score, text.value)];
      }
      i := i + 1;
    }
    CutIsEnough(ranked, i, top, read);
  }

  /** `found` has, in order, the readable candidates at the places in `from`, each with the text read for it. */
  ghost predicate FoundAt(ranked: seq<Scored>, read: Doc -> Option<string>, found: seq<Found>, from: seq<nat>) {
    && |from| == |found|
    && (forall j :: 0 <= j < |from| ==>
          && from[j] < |ranked| && read(ranked[from[j]].doc).Some?
          && found[j] == Found(ranked[from[j]].doc, ranked[from[j]].score, read(ranked[from[j]].doc).value))
    && (forall j, k :: 0 <= j < k < |from| ==> from[j] < from[k])
  }

  /** A readable candidate that is not among them comes after all of them, and there are `top`. */
  ghost predicate NoneSkipped(ranked: seq<Scored>, read: Doc -> Option<string>, from: seq<nat>, top: nat) {
    forall i :: 0 <= i < |ranked| && read(ranked[i].doc).Some? && i !in from ==>
      |from| == top && forall j :: 0 <= j < |from| ==> from[j] < i
  }

  ghost function Shifted(from: seq<nat>): seq<nat> {
    seq(|from|, j requires 0 <= j < |from| => from[j] + 1)
  }

  lemma ShiftFound(ranked: seq<Scored>, read: Doc -> Option<string>, found: seq<Found>, from: seq<nat>, first: bool)
    requires ranked != [] && FoundAt(ranked[1..], read, found, from) && first == read(ranked[0].doc).Some?
    ensures FoundAt(ranked, read,
      (if first then [Found(ranked[0].doc, ranked[0].score, read(ranked[0].doc).value)] else []) + found,
      (if first then [0] else []) + Shifted(from))
  {
  }

  lemma ShiftedHas(head: seq<nat>, from: seq<nat>, i: nat)
    requires i in from
    ensures i + 1 in head + Shifted(from)
  {
    var j :| 0 <= j < |from| && from[j] == i;
    assert (head + Shifted(from))[|head| + j] == i + 1;
  }

  lemma ShiftOneSkipped(ranked: seq<Scored>, read: Doc -> Option<string>, from: seq<nat>, top: nat, head: seq<nat>, i: nat)
    requires ranked != [] && NoneSkipped(ranked[1..], read, from, top) && head in {[], [0]}
    requires 0 < i < |ranked| && read(ranked[i].doc).Some? && i - 1 !in from
    ensures |from| == top && forall j :: 0 <= j < |head + Shifted(from)| ==> (head + Shifted(from))[j] < i
  {
    assert ranked[1..][i - 1] == ranked[i];
  }

  lemma ShiftNoneSkipped(ranked: seq<Scored>, read: Doc -> Option<string>, from: seq<nat>, top: nat, first: bool)
    requires ranked != [] && NoneSkipped(ranked[1..], read, from, top) && first == read(ranked[0].doc).Some?
    ensures NoneSkipped(ranked, read, (if first then [0] else []) + Shifted(from), top + if first then 1 else 0)
  {
    var head: seq<nat> := if first then [0] else [];
    var all := head + Shifted(from);
    assert first ==> all[0] == 0;
    forall k: nat | k in from ensures k + 1 in all {
      ShiftedHas(head, from, k);
    }
    forall i | 0 < i < |ranked| && read(ranked[i].doc).Some? && i !in all
      ensures |from| == top && forall j :: 0 <= j < |all| ==> all[j] < i
    {
      assert i - 1 in from ==> (i - 1) + 1 in all;
      ShiftOneSkipped(ranked, read, from, top, head, i);
    }
  }

  /**
    What the answer is: the candidates at some places of the ranking, best first, each with its
    own score and the text read for it; at most `top` of them; and a readable candidate is left
    out only when there are `top` from better places.
  */
  lemma {:induction false} TopIs(ranked: seq<Scored>, top: nat, read: Doc -> Option<string>) returns (from: seq<nat>)
    ensures var found := Take(Readable(ranked, read), top);
      && |from| == |found| <= top
      && (forall j :: 0 <= j < |from| ==>
            && from[j] < |ranked| && read(ranked[from[j]].doc).Some?
            && found[j] == Found(ranked[from[j]].doc, ranked[from[j]].score, read(ranked[from[j]].doc).value))
      && (forall j, k :: 0 <= j < k < |from| ==> from[j] < from[k])
    ensures forall i :: 0 <= i < |ranked| && read(ranked[i].doc).Some? && i !in from ==>
      |from| == top && forall j :: 0 <= j < |from| ==> from[j] < i
  {
    from := TopFrom(ranked, top, read);
    assert FoundAt(ranked, read, Take(Readable(ranked, read), top), from) && NoneSkipped(ranked, read, from, top);
  }

  lemma {:induction false} TopFrom(ranked: seq<Scored>, top: nat, read: Doc -> Option<string>) returns (from: seq<nat>)
    ensures FoundAt(ranked, read, Take(Readable(ranked, read), top), from) && |from| <= top
    ensures NoneSkipped(ranked, read, from, top)
  {
    if ranked == [] || top == 0 {
      from := [];
    } else {
      var first := read(ranked[0].doc).Some?;
      var less := if first then top - 1 else top;
      var rest := TopFrom(ranked[1..], less, read);
      ShiftFound(ranked, read, Take(Readable(ranked[1..], read), less), rest, first);
      ShiftNoneSkipped(ranked, read, rest, less, first);
      from := (if first then [0] else []) + Shifted(rest);
    }
  }

  // ---------------------------------------------------------------- ties

  function ScoresOf(found: seq<Found>): (scores: seq<real>)
    ensures |scores| == |found| && forall i :: 0 <= i < |found| ==> scores[i] == found[i].score
  {
    if found == [] then [] else [found[0].score] + ScoresOf(found[1..])
  }

  predicate Descending(a: real, b: real) {
    a >= b
  }

  /** Taking one occurrence out of a sequence. */
  lemma Pull<T>(x: T, b: seq<T>) returns (l: seq<T>, r: seq<T>)
    requires x in multiset(b)
    ensures b == l + ([x] + r) && multiset(l + r) == multiset(b) - multiset{x}
  {
    var k :| 0 <= k < |b| && b[k] == x;
    l, r := b[..k], b[k + 1..];
  }

  lemma TailsMatch<T>(a: seq<T>, b: seq<T>, l: seq<T>, r: seq<T>)
    requires a != [] && multiset(a) == multiset(b) && multiset(l + r) == multiset(b) - multiset{a[0]}
    ensures multiset(a[1..]) == multiset(l + r)
  {
    assert a == [a[0]] + a[1..];
  }

  lemma NothingElse<T>(b: seq<T>)
    requires multiset(b) == multiset{}
    ensures b == []
  {
    assert |multiset(b)| == |b|;
  }

  /** One candidate's outcome is counted wherever it stands. */
  lemma PulledReadable(l: seq<Scored>, x: Scored, r: seq<Scored>, read: Doc -> Option<string>)
    ensures multiset(Readable(l + ([x] + r), read)) == multiset(Readable(l + r, read)) + multiset(Readable([x], read))
  {
    ReadableAppend(l, [x] + r, read);
    ReadableAppend([x], r, read);
    ReadableAppend(l, r, read);
  }

  lemma FirstReadable(x: Scored, rest: seq<Scored>, read: Doc -> Option<string>)
    ensures multiset(Readable([x] + rest, read)) == multiset(Readable(rest, read)) + multiset(Readable([x], read))
  {
    ReadableAppend([x], rest, read);
  }

  /** How often a readable candidate with this outcome occurs does not depend on the order. */
  lemma {:induction false} ReadablePermutes(a: seq<Scored>, b: seq<Scored>, read: Doc -> Option<string>)
    requires multiset(a) == multiset(b)
    ensures multiset(Readable(a, read)) == multiset(Readable(b, read))
    decreases |a|
  {
    if a == [] {
      NothingElse(b);
    } else {
      var l, r := PullFirst(a, b);
      ReadablePermutes(a[1..], l + r, read);
      SameOutcomes(a[0], a[1..], l, r, read);
      assert a == [a[0]] + a[1..];
    }
  }

  lemma PullFirst<T>(a: seq<T>, b: seq<T>) returns (l: seq<T>, r: seq<T>)
    requires a != [] && multiset(a) == multiset(b)
    ensures b == l + ([a[0]] + r) && multiset(a[1..]) == multiset(l + r)
  {
    assert a[0] in multiset(b);
    l, r := Pull(a[0], b);
    TailsMatch(a, b, l, r);
  }

  lemma SameOutcomes(x: Scored, rest: seq<Scored>, l: seq<Scored>, r: seq<Scored>, read: Doc -> Option<string>)
    requires multiset(Readable(rest, read)) == multiset(Readable(l + r, read))
    ensures multiset(Readable([x] + rest, read)) == multiset(Readable(l + ([x] + r), read))
  {
    FirstReadable(x, rest, read);
    PulledReadable(l, x, r, read);
  }

  lemma {:induction false} ReadableKeepsOrder(ranked: seq<Scored>, read: Doc -> Option<string>)
    requires Ordered(ranked, Above)
    ensures ranked != [] ==> forall i :: 0 <= i < |Readable(ranked, read)| ==> ranked[0].score >= Readable(ranked, read)[i].score
    ensures forall i, j :: 0 <= i < j < |Readable(ranked, read)| ==>
      Readable(ranked, read)[i].score >= Readable(ranked, read)[j].score
  {
    if ranked != [] {
      ReadableKeepsOrder(ranked[1..], read);
      assert |ranked| > 1 ==> Above(ranked[0], ranked[1]);
    }
  }

  lemma {:induction false} ScoresAppend(a: seq<Found>, b: seq<Found>)
    ensures ScoresOf(a + b) == ScoresOf(a) + ScoresOf(b)
  {
  }

  lemma {:induction false} ScoresPermute(a: seq<Found>, b: seq<Found>)
    requires multiset(a) == multiset(b)
    ensures multiset(ScoresOf(a)) == multiset(ScoresOf(b))
    decreases |a|
  {
    if a != [] {
      assert a[0] in multiset(b);
      var l, r := Pull(a[0], b);
      TailsMatch(a, b, l, r);
      ScoresPermute(a[1..], l + r);
      ScoresAppend(l, r);
      ScoresAppend(l, [a[0]] + r);
      ScoresAppend([a[0]], r);
    } else {
      NothingElse(b);
    }
  }

  /** The scores of the readable candidates, in order, are the same for every ranking. */
  lemma SameScores(candidates: seq<Scored>, x: seq<Scored>, y: seq<Scored>, read: Doc -> Option<string>)
    requires Ranking(candidates, x) && Ranking(candidates, y)
    ensures ScoresOf(Readable(x, read)) == ScoresOf(Readable(y, read))
  {
    var a, b := Readable(x, read), Readable(y, read);
    ReadablePermutes(x, y, read);
    ScoresPermute(a, b);
    ReadableKeepsOrder(x, read);
    ReadableKeepsOrder(y, read);
    OrderedIsUnique(ScoresOf(a), ScoresOf(b), Descending);
  }

  /** However ties are broken, the answer has the same scores in the same places. */
  lemma TiesDoNotMatter(candidates: seq<Scored>, x: seq<Scored>, y: seq<Scored>, top: nat, read: Doc -> Option<string>)
    requires Ranking(candidates, x) && Ranking(candidates, y)
    ensures ScoresOf(Take(Readable(x, read), top)) == ScoresOf(Take(Readable(y, read), top))
  {
    var a, b := Readable(x, read), Readable(y, read);
    SameScores(candidates, x, y, read);
    assert |a| == |ScoresOf(a)| == |ScoresOf(b)| == |b|;
    forall i | 0 <= i < |a| ensures a[i].score == b[i].score {
      assert a[i].score == ScoresOf(a)[i];
    }
  }
}
