/** Strings as pieces with a separator character between them. */
module Lines {

  /** The first piece, one character longer. */
  function Prepend(c: char, pieces: seq<string>): seq<string>
    requires pieces != []
  {
    [[c] + pieces[0]] + pieces[1..]
  }

  /** Two lists of pieces put together: the pieces at the seam become one. */
  function Seam(x: seq<string>, y: seq<string>): seq<string>
    requires x != [] && y != []
  {
    x[..|x| - 1] + [x[|x| - 1] + y[0]] + y[1..]
  }

  /** The pieces between separators: one more than there are separators. */
  function Split(s: string, sep: char): (pieces: seq<string>)
    ensures |pieces| >= 1
  {
    if s == "" then [""]
    else
      var rest := Split(s[1..], sep);
      if s[0] == sep then [""] + rest else Prepend(s[0], rest)
  }

  /** The pieces with a separator between each two. */
  function Join(pieces: seq<string>, sep: char): string {
    if |pieces| == 0 then ""
    else if |pieces| == 1 then pieces[0]
    else pieces[0] + [sep] + Join(pieces[1..], sep)
  }

  /** How many separators there are. */
  function Count(s: string, sep: char): nat {
    if s == "" then 0 else Count(s[1..], sep) + if s[0] == sep then 1 else 0
  }

  predicate OnePiece(s: string, sep: char) {
    sep !in s
  }

  lemma {:induction false} PieceCount(s: string, sep: char)
    ensures |Split(s, sep)| == Count(s, sep) + 1
  {
    if s != "" { PieceCount(s[1..], sep); }
  }

  lemma SeamAfterSeparator(z: seq<string>, y: seq<string>)
    requires z != [] && y != []
    ensures Seam([""] + z, y) == [""] + Seam(z, y)
  {
    assert ([""] + z)[..|z|] == [""] + z[..|z| - 1];
  }

  lemma SeamAfterChar(c: char, z: seq<string>, y: seq<string>)
    requires z != [] && y != []
    ensures Seam(Prepend(c, z), y) == Prepend(c, Seam(z, y))
  {
    var l, r := Seam(Prepend(c, z), y), Prepend(c, Seam(z, y));
    if |z| == 1 {
      assert [c] + (z[0] + y[0]) == [c] + z[0] + y[0];
    }
    assert |l| == |r|;
    assert forall i :: 0 <= i < |l| ==> l[i] == r[i];
  }

  lemma SeamWithEmpty(y: seq<string>)
    requires y != []
    ensures Seam([""], y) == y
  {
    assert "" + y[0] == y[0];
  }

  /** What follows the seam is untouched. */
  lemma SeamTail(x: seq<string>, y: seq<string>, n: nat)
    requires x != [] && n < |y|
    ensures |Seam(x, y)| >= |y| && Seam(x, y)[|Seam(x, y)| - n..] == y[|y| - n..]
  {
  }

  /** Splitting a concatenation. */
  lemma {:induction false} SplitConcat(a: string, b: string, sep: char)
    ensures Split(a + b, sep) == Seam(Split(a, sep), Split(b, sep))
  {
    if a == "" {
      assert a + b == b;
      SeamWithEmpty(Split(b, sep));
    } else {
      SplitConcat(a[1..], b, sep);
      assert (a + b)[1..] == a[1..] + b;
      SeamAfterSeparator(Split(a[1..], sep), Split(b, sep));
      SeamAfterChar(a[0], Split(a[1..], sep), Split(b, sep));
    }
  }

  lemma {:induction false} SplitOnePiece(s: string, sep: char)
    requires OnePiece(s, sep)
    ensures Split(s, sep) == [s]
  {
    if s != "" {
      SplitOnePiece(s[1..], sep);
      assert s == [s[0]] + s[1..];
    }
  }

  /** Joining undoes splitting. */
  lemma {:induction false} JoinSplit(s: string, sep: char)
    ensures Join(Split(s, sep), sep) == s
  {
    if s != "" {
      JoinSplit(s[1..], sep);
      var rest := Split(s[1..], sep);
      if s[0] == sep {
        assert ([""] + rest)[1..] == rest;
        assert s == [s[0]] + s[1..];
      } else if |rest| > 1 {
        assert Prepend(s[0], rest)[1..] == rest[1..];
        assert s == [s[0]] + s[1..];
      } else {
        assert s == [s[0]] + s[1..];
      }
    }
  }

  /** The separator-free pieces of a list whose elements may have separators of their own. */
  function Pieces(list: seq<string>, sep: char): (pieces: seq<string>)
    ensures |pieces| >= 1
  {
    if |list| == 0 then [""]
    else if |list| == 1 then Split(list[0], sep)
    else Split(list[0], sep) + Pieces(list[1..], sep)
  }

  lemma {:induction false} SplitOfJoin(list: seq<string>, sep: char)
    ensures Split(Join(list, sep), sep) == Pieces(list, sep)
  {
    if |list| > 1 {
      var tail := [sep] + Join(list[1..], sep);
      SplitOfJoin(list[1..], sep);
      assert tail[1..] == Join(list[1..], sep);
      assert Split(tail, sep) == [""] + Pieces(list[1..], sep);
      SplitConcat(list[0], tail, sep);
      assert Join(list, sep) == list[0] + tail;
      SeamWithSeparator(Split(list[0], sep), Pieces(list[1..], sep));
    }
  }

  lemma SeamWithSeparator(x: seq<string>, y: seq<string>)
    requires x != []
    ensures Seam(x, [""] + y) == x + y
  {
    assert x[|x| - 1] + "" == x[|x| - 1];
    assert x == x[..|x| - 1] + [x[|x| - 1]];
  }

  /** Two lists join to the same string exactly when their pieces agree. */
  lemma JoinsAgreeIff(a: seq<string>, b: seq<string>, sep: char)
    ensures Join(a, sep) == Join(b, sep) <==> Pieces(a, sep) == Pieces(b, sep)
  {
    SplitOfJoin(a, sep);
    SplitOfJoin(b, sep);
    JoinSplit(Join(a, sep), sep);
    JoinSplit(Join(b, sep), sep);
  }

  /** A list of separator-free strings is its own list of pieces, unless it is empty. */
  lemma {:induction false} PiecesOfPieces(list: seq<string>, sep: char)
    requires list != [] && forall i :: 0 <= i < |list| ==> OnePiece(list[i], sep)
    ensures Pieces(list, sep) == list
  {
    SplitOnePiece(list[0], sep);
    if |list| > 1 {
      PiecesOfPieces(list[1..], sep);
      assert list == [list[0]] + list[1..];
    }
  }
}
