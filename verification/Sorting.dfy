/** Sorting by a total order, and why the result depends on the elements only. */
module Sorting {

  /** Any two elements compare, and comparisons chain; different elements may tie. */
  ghost predicate TotalPreorder<T(!new)>(le: (T, T) -> bool) {
    && (forall a, b :: le(a, b) || le(b, a))
    && (forall a, b, c :: le(a, b) && le(b, c) ==> le(a, c))
  }

  ghost predicate TotalOrder<T(!new)>(le: (T, T) -> bool) {
    TotalPreorder(le) && forall a, b :: le(a, b) && le(b, a) ==> a == b
  }

  ghost predicate Ordered<T>(s: seq<T>, le: (T, T) -> bool) {
    forall i, j :: 0 <= i < j < |s| ==> le(s[i], s[j])
  }

  function Insert<T>(x: T, s: seq<T>, le: (T, T) -> bool): seq<T> {
    if s == [] || le(x, s[0]) then [x] + s else [s[0]] + Insert(x, s[1..], le)
  }

  function Sort<T>(s: seq<T>, le: (T, T) -> bool): seq<T> {
    if s == [] then [] else Insert(s[0], Sort(s[1..], le), le)
  }

  lemma {:induction false} InsertPermutes<T>(x: T, s: seq<T>, le: (T, T) -> bool)
    ensures multiset(Insert(x, s, le)) == multiset(s) + multiset{x}
  {
    if s != [] && !le(x, s[0]) {
      InsertPermutes(x, s[1..], le);
      assert s == [s[0]] + s[1..];
    }
  }

  lemma {:induction false} SortPermutes<T>(s: seq<T>, le: (T, T) -> bool)
    ensures multiset(Sort(s, le)) == multiset(s)
  {
    if s != [] {
      SortPermutes(s[1..], le);
      InsertPermutes(s[0], Sort(s[1..], le), le);
      assert s == [s[0]] + s[1..];
    }
  }

  lemma {:induction false} InsertOrders<T(!new)>(x: T, s: seq<T>, le: (T, T) -> bool)
    requires TotalPreorder(le) && Ordered(s, le)
    ensures Ordered(Insert(x, s, le), le)
  {
    if s != [] && !le(x, s[0]) {
      var rest := Insert(x, s[1..], le);
      InsertOrders(x, s[1..], le);
      InsertPermutes(x, s[1..], le);
      forall i | 0 <= i < |rest| ensures le(s[0], rest[i]) {
        assert rest[i] in multiset(rest);
        assert rest[i] == x || rest[i] in s[1..];
      }
    }
  }

  lemma {:induction false} SortOrders<T(!new)>(s: seq<T>, le: (T, T) -> bool)
    requires TotalPreorder(le)
    ensures Ordered(Sort(s, le), le)
  {
    if s != [] {
      SortOrders(s[1..], le);
      InsertOrders(s[0], Sort(s[1..], le), le);
    }
  }

  /** The head of an ordered sequence is below everything with the same elements. */
  lemma HeadIsLeast<T(!new)>(a: seq<T>, b: seq<T>, le: (T, T) -> bool)
    requires TotalOrder(le) && Ordered(a, le) && a != [] && multiset(a) == multiset(b)
    ensures b != [] && le(a[0], b[0])
  {
    assert |multiset(a)| == |a| && |multiset(b)| == |b|;
    assert b[0] in multiset(b);
    assert b[0] in a;
  }

  /** Two ordered sequences of the same elements are the same. */
  lemma {:induction false} OrderedIsUnique<T(!new)>(a: seq<T>, b: seq<T>, le: (T, T) -> bool)
    requires TotalOrder(le) && Ordered(a, le) && Ordered(b, le) && multiset(a) == multiset(b)
    ensures a == b
  {
    if a != [] {
      HeadIsLeast(a, b, le);
      HeadIsLeast(b, a, le);
      assert a == [a[0]] + a[1..] && b == [b[0]] + b[1..];
      assert multiset(a[1..]) == multiset(a) - multiset{a[0]};
      assert multiset(b[1..]) == multiset(b) - multiset{b[0]};
      OrderedIsUnique(a[1..], b[1..], le);
    } else {
      assert |multiset(b)| == 0;
    }
  }

  /** Sorting forgets the order its input came in. */
  lemma SortForgetsOrder<T(!new)>(a: seq<T>, b: seq<T>, le: (T, T) -> bool)
    requires TotalOrder(le) && multiset(a) == multiset(b)
    ensures Sort(a, le) == Sort(b, le)
  {
    SortPermutes(a, le);
    SortPermutes(b, le);
    SortOrders(a, le);
    SortOrders(b, le);
    OrderedIsUnique(Sort(a, le), Sort(b, le), le);
  }

  /** It is the one ordered arrangement. */
  lemma SortIs<T(!new)>(s: seq<T>, sorted: seq<T>, le: (T, T) -> bool)
    requires TotalOrder(le) && multiset(s) == multiset(sorted) && Ordered(sorted, le)
    ensures Sort(s, le) == sorted
  {
    SortPermutes(s, le);
    SortOrders(s, le);
    OrderedIsUnique(Sort(s, le), sorted, le);
  }

  // ---------------------------------------------------------------- strings

  /** The byte order sort.Strings uses. */
  predicate StringLe(a: string, b: string)
    decreases |a|
  {
    a == "" || (b != "" && (a[0] < b[0] || (a[0] == b[0] && StringLe(a[1..], b[1..]))))
  }

  lemma SameFirst(c: char, a: string, b: string)
    ensures StringLe([c] + a, [c] + b) <==> StringLe(a, b)
  {
    assert ([c] + a)[1..] == a && ([c] + b)[1..] == b;
  }

  lemma FirstApart(p: string, a: string)
    requires p != ""
    ensures p + a == [p[0]] + (p[1..] + a)
  {
  }

  lemma {:induction false} StringLeSamePrefix(p: string, a: string, b: string)
    ensures StringLe(p + a, p + b) == StringLe(a, b)
  {
    if p == "" {
      assert p + a == a && p + b == b;
    } else {
      FirstApart(p, a);
      FirstApart(p, b);
      var x, y := p[1..] + a, p[1..] + b;
      calc {
        StringLe(p + a, p + b);
        StringLe([p[0]] + x, [p[0]] + y);
        { SameFirst(p[0], x, y); }
        StringLe(x, y);
        { StringLeSamePrefix(p[1..], a, b); }
        StringLe(a, b);
      }
    }
  }

  /** Behind a common prefix, the first character that differs decides. */
  lemma FirstDifferenceDecides(p: string, a: char, x: string, b: char, y: string)
    requires a != b
    ensures StringLe(p + ([a] + x), p + ([b] + y)) <==> a < b
  {
    StringLeSamePrefix(p, [a] + x, [b] + y);
  }

  lemma {:induction false} StringLeTotal(a: string, b: string)
    ensures StringLe(a, b) || StringLe(b, a)
    ensures StringLe(a, b) && StringLe(b, a) ==> a == b
    decreases |a|
  {
    if a != "" && b != "" {
      StringLeTotal(a[1..], b[1..]);
      assert a == [a[0]] + a[1..] && b == [b[0]] + b[1..];
    }
  }

  lemma {:induction false} StringLeTransitive(a: string, b: string, c: string)
    requires StringLe(a, b) && StringLe(b, c)
    ensures StringLe(a, c)
    decreases |a|
  {
    if a != "" && a[0] == b[0] == c[0] {
      StringLeTransitive(a[1..], b[1..], c[1..]);
    }
  }

  lemma StringLeIsTotalOrder()
    ensures TotalOrder(StringLe)
  {
    forall a, b
      ensures StringLe(a, b) || StringLe(b, a)
      ensures StringLe(a, b) && StringLe(b, a) ==> a == b
    {
      StringLeTotal(a, b);
    }
    forall a, b, c | StringLe(a, b) && StringLe(b, c) ensures StringLe(a, c) {
      StringLeTransitive(a, b, c);
    }
  }
}
