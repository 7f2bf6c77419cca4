/** The gateway's log tail: reads a file backwards in fixed chunks until it has enough lines. */
module TailFile {
  import opened Basics
  import opened Lines

  /** A trailing newline ends the last line; it does not start another. */
  function SplitLines(s: string): seq<string> {
    if s == "" then []
    else Split(TrimSuffix(s), '\n')
  }

  function Last(lines: seq<string>, n: nat): seq<string> {
    if |lines| > n then lines[|lines| - n..] else lines
  }

  lemma {:induction false} CountIs(b: string, c: char)
    ensures Count(b, c) == multiset(b)[c]
  {
    if b != "" {
      CountIs(b[1..], c);
      assert b == [b[0]] + b[1..];
    }
  }

  method BytesCount(b: string, c: char) returns (n: nat)
    ensures n == multiset(b)[c]
  {
    CountIs(b, c);
    n := 0;
    assert b[0..] == b;
    for i := 0 to |b|
      invariant n + Count(b[i..], c) == Count(b, c)
    {
      assert b[i..][1..] == b[i + 1..];
      if b[i] == c { n := n + 1; }
    }
  }

  function TrimSuffix(s: string): string {
    if s != "" && s[|s| - 1] == '\n' then s[..|s| - 1] else s
  }

  lemma {:induction false} PiecesHaveNoSeparator(s: string, sep: char)
    ensures forall i :: 0 <= i < |Split(s, sep)| ==> OnePiece(Split(s, sep)[i], sep)
  {
    if s != "" {
      PiecesHaveNoSeparator(s[1..], sep);
    }
  }

  /**
    What the lines are: none has a newline in it, and with a newline between each two of them
    they give the text back, up to a final newline, which ends the last line.
  */
  lemma LinesAre(s: string)
    ensures s == "" <==> SplitLines(s) == []
    ensures forall i :: 0 <= i < |SplitLines(s)| ==> '\n' !in SplitLines(s)[i]
    ensures s != "" && s[|s| - 1] == '\n' ==> s == Join(SplitLines(s), '\n') + "\n"
    ensures s != "" && s[|s| - 1] != '\n' ==> s == Join(SplitLines(s), '\n')
  {
    if s != "" {
      PiecesHaveNoSeparator(TrimSuffix(s), '\n');
      JoinSplit(TrimSuffix(s), '\n');
    }
  }

  lemma TrimOfConcat(a: string, b: string)
    requires b != ""
    ensures TrimSuffix(a + b) == a + TrimSuffix(b)
  {
    if b[|b| - 1] == '\n' {
      assert (a + b)[..|a + b| - 1] == a + b[..|b| - 1];
    }
  }

  lemma LastOfSeam(x: seq<string>, y: seq<string>, n: nat)
    requires x != [] && n < |y|
    ensures Last(Seam(x, y), n) == Last(y, n) && |Seam(x, y)| > n
  {
    SeamTail(x, y, n);
  }

  lemma LinesOfConcat(a: string, b: string)
    requires b != ""
    ensures SplitLines(a + b) == Seam(Split(a, '\n'), SplitLines(b))
  {
    TrimOfConcat(a, b);
    SplitConcat(a, TrimSuffix(b), '\n');
  }

  /** A suffix with more newlines than `n` has the file's last `n` lines whole. */
  lemma SuffixHasLastLines(a: string, b: string, n: nat)
    requires b != "" && (a == "" || Count(b, '\n') > n)
    ensures Last(SplitLines(b), n) == Last(SplitLines(a + b), n)
    ensures |SplitLines(b)| > n <==> |SplitLines(a + b)| > n
  {
    if a == "" {
      assert a + b == b;
    } else {
      LinesOfConcat(a, b);
      TrimmedNewlines(b);
      PieceCount(TrimSuffix(b), '\n');
      LastOfSeam(Split(a, '\n'), SplitLines(b), n);
    }
  }

  lemma {:induction false} NewlinesAppend(a: string, c: char)
    ensures Count(a + [c], '\n') == Count(a, '\n') + if c == '\n' then 1 else 0
  {
    if a == "" {
      assert a + [c] == [c];
    } else {
      NewlinesAppend(a[1..], c);
      assert (a + [c])[1..] == a[1..] + [c];
    }
  }

  /** Dropping a final newline leaves as many lines as there were newlines, or more. */
  lemma TrimmedNewlines(b: string)
    ensures Count(TrimSuffix(b), '\n') + 1 >= Count(b, '\n')
  {
    if b != "" && b[|b| - 1] == '\n' {
      assert b == TrimSuffix(b) + ['\n'];
      NewlinesAppend(TrimSuffix(b), '\n');
    }
  }

  const CHUNK: nat := 4096

  /** ReadAt: the bytes of the file from `start` up to `end`. */
  method ReadAt(file: string, start: nat, end: nat, mayFail: bool) returns (r: Result<string, ()>)
    requires start <= end <= |file|
    ensures r.Ok? ==> r.value == file[start..end]
    ensures r.Err? ==> mayFail
  {
    var fails: bool := *;
    if fails && mayFail { return Err(()); }
    r := Ok(file[start..end]);
  }

  /** Reads chunks from the end until they hold more than `n` newlines or the file is at its start. */
  method ReadBack(file: string, n: nat, mayFail: bool) returns (r: Result<nat, ()>, buf: string)
    requires file != ""
    ensures r.Ok? ==> r.value < |file| && buf == file[r.value..] && (r.value == 0 || Count(buf, '\n') > n)
    ensures r.Err? ==> mayFail
  {
    buf := "";
    var pos := |file|;
    while true
      invariant 0 < pos <= |file| && buf == file[pos..]
      decreases pos
    {
      var start := if pos < CHUNK then 0 else pos - CHUNK;
      var seg := ReadAt(file, start, pos, mayFail);
      if seg.Err? { return Err(()), buf; }
      buf := seg.value + buf;
      assert buf == file[start..];
      var count := BytesCount(buf, '\n');
      CountIs(buf, '\n');
      if count > n || start == 0 { return Ok(start), buf; }
      pos := start;
    }
  }

  lemma ReadSuffix(file: string, start: nat, n: nat)
    requires start < |file| && (start == 0 || Count(file[start..], '\n') > n)
    ensures Last(SplitLines(file[start..]), n) == Last(SplitLines(file), n)
    ensures |SplitLines(file[start..])| > n <==> |SplitLines(file)| > n
  {
    assert file == file[..start] + file[start..];
    SuffixHasLastLines(file[..start], file[start..], n);
  }

  /**
    The last `n` lines of the file and whether it has more: exactly what splitting the whole
    file would give, though only the chunks needed are read.
  */
  method Tail(file: string, n: nat, mayFail: bool) returns (r: Result<(seq<string>, bool), ()>)
    ensures r.Ok? ==> (r.value.1 <==> |SplitLines(file)| > n)
    ensures r.Ok? && !r.value.1 ==> r.value.0 == SplitLines(file)
    ensures r.Ok? && r.value.1 ==> r.value.0 == SplitLines(file)[|SplitLines(file)| - n..]
    ensures r.Err? ==> mayFail
  {
    if |file| == 0 { return Ok(([], false)); }
    var start, buf := ReadBack(file, n, mayFail);
    if start.Err? { return Err(()); }
    ReadSuffix(file, start.value, n);
    var parts := SplitLines(buf);
    if |parts| > n {
      return Ok((parts[|parts| - n..], true));
    }
    r := Ok((parts, false));
  }
}
