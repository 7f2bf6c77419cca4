/**
  Which sealed index artifacts are worth collecting. The scan estimates an artifact's dead
  share from two counts (chunk IDs recorded in the sidecar, distinct chunks the version's
  documents justify); the collection then drops the real set difference.
*/
module DeadShare {
  import opened Basics

  type Chunk = string

  // ---------------------------------------------------------------- the sidecar

  const CHUNK_ID_LENGTH: nat := 64

  predicate HexDigit(c: char) {
    '0' <= c <= '9' || 'a' <= c <= 'f'
  }

  predicate IsChunkId(line: string) {
    |line| == CHUNK_ID_LENGTH && forall i :: 0 <= i < |line| ==> HexDigit(line[i])
  }

  method LooksLikeChunkId(line: string) returns (yes: bool)
    ensures yes <==> |line| == 64 && forall i :: 0 <= i < |line| ==> '0' <= line[i] <= '9' || 'a' <= line[i] <= 'f'
    ensures yes <==> IsChunkId(line)
  {
    if |line| != CHUNK_ID_LENGTH { return false; }
    for i := 0 to |line|
      invariant forall j :: 0 <= j < i ==> HexDigit(line[j])
    {
      var c := line[i];
      if (c < '0' || c > '9') && (c < 'a' || c > 'f') { return false; }
    }
    yes := true;
  }

  /** The lines that are chunk IDs, in order. */
  function Recognised(lines: seq<string>): seq<Chunk> {
    if lines == [] then []
    else
      var last := lines[|lines| - 1];
      Recognised(lines[..|lines| - 1]) + if IsChunkId(last) then [last] else []
  }

  /** Their order is the file's. */
  lemma {:induction false} RecognisedOfConcat(a: seq<string>, b: seq<string>)
    ensures Recognised(a + b) == Recognised(a) + Recognised(b)
    decreases |b|
  {
    if b == [] {
      assert a + b == a;
    } else {
      RecognisedOfConcat(a, b[..|b| - 1]);
      assert (a + b)[..|a + b| - 1] == a + b[..|b| - 1];
    }
  }

  /** A chunk ID is among them as often as it is among the lines, and nothing else is. */
  lemma {:induction false} RecognisedCount(lines: seq<string>, c: string)
    ensures multiset(Recognised(lines))[c] == if IsChunkId(c) then multiset(lines)[c] else 0
  {
    if lines != [] {
      var front, last := lines[..|lines| - 1], lines[|lines| - 1];
      RecognisedCount(front, c);
      assert multiset(lines)[c] == multiset(front)[c] + if last == c then 1 else 0 by {
        assert lines == front + [last];
      }
    }
  }

  method ArtifactChunkIds(lines: seq<string>) returns (ids: seq<Chunk>)
    ensures ids == Recognised(lines)
  {
    ids := [];
    for i := 0 to |lines|
      invariant ids == Recognised(lines[..i])
    {
      assert lines[..i + 1][..i] == lines[..i];
      var yes := LooksLikeChunkId(lines[i]);
      if yes { ids := ids + [lines[i]]; }
    }
    assert lines[..|lines|] == lines;
  }

  // ---------------------------------------------------------------- counts and sets

  function Elements(s: seq<Chunk>): set<Chunk> {
    set c | c in s
  }

  /** What the artifact holds and the documents no longer justify. */
  function Dead(ids: seq<Chunk>, live: seq<Chunk>): set<Chunk> {
    Elements(ids) - Elements(live)
  }

  /** The count the estimate is made from. */
  function Estimate(ids: seq<Chunk>, live: seq<Chunk>): int {
    |ids| - |Elements(live)|
  }

  /** IDs recorded more than once, counted once for every repetition. */
  function Repeats(ids: seq<Chunk>): int {
    |ids| - |Elements(ids)|
  }

  /** Live chunks the artifact does not hold. */
  function Missing(ids: seq<Chunk>, live: seq<Chunk>): set<Chunk> {
    Elements(live) - Elements(ids)
  }

  predicate Distinct(s: seq<Chunk>) {
    forall i, j :: 0 <= i < j < |s| ==> s[i] != s[j]
  }

  lemma {:induction false} DistinctHasNoRepeats(s: seq<Chunk>)
    requires Distinct(s)
    ensures Repeats(s) == 0
  {
    if s != [] {
      DistinctHasNoRepeats(s[1..]);
      assert Elements(s) == Elements(s[1..]) + {s[0]};
      assert s[0] !in s[1..];
    }
  }

  lemma SplitSizes(a: set<Chunk>, b: set<Chunk>)
    ensures |a| == |a - b| + |a * b|
  {
    assert a == (a - b) + (a * b);
    assert (a - b) * (a * b) == {};
  }

  /** The estimate against the real difference, on every sidecar: repeats push it up, missing live chunks push it down. */
  lemma EstimateIdentity(ids: seq<Chunk>, live: seq<Chunk>)
    ensures Estimate(ids, live) == |Dead(ids, live)| + Repeats(ids) - |Missing(ids, live)|
  {
    var a, l := Elements(ids), Elements(live);
    SplitSizes(a, l);
    SplitSizes(l, a);
    assert a * l == l * a;
  }

  /**
    With distinct IDs the estimate never exceeds the dead set, and meets it exactly when the
    artifact holds every live chunk.
  */
  lemma EstimateIsSound(ids: seq<Chunk>, live: seq<Chunk>)
    requires Distinct(ids)
    ensures Estimate(ids, live) <= |Dead(ids, live)|
    ensures Estimate(ids, live) == |Dead(ids, live)| <==> Elements(live) <= Elements(ids)
  {
    DistinctHasNoRepeats(ids);
    EstimateIdentity(ids, live);
    var missing := Missing(ids, live);
    assert |missing| == 0 <==> missing == {};
    if missing == {} {
      forall c | c in Elements(live) ensures c in Elements(ids) {
        assert c !in missing;
      }
    }
  }

  /** On any sidecar the bound holds exactly when there are no more repeats than missing live chunks. */
  lemma EstimateBoundIff(ids: seq<Chunk>, live: seq<Chunk>)
    ensures Estimate(ids, live) <= |Dead(ids, live)| <==> Repeats(ids) <= |Missing(ids, live)|
  {
    EstimateIdentity(ids, live);
  }

  /** A sidecar that records one live chunk twice: the estimate reports dead weight, and there is none. */
  lemma RepeatedIdMisleads(c: Chunk)
    ensures Estimate([c, c], [c]) == 1 && Dead([c, c], [c]) == {}
  {
    assert Elements([c]) == {c} && Elements([c, c]) == {c};
  }

  // ---------------------------------------------------------------- the scan

  /** A version the scan examines: whether its artifact is sealed, its sidecar's lines, the chunks its documents have. */
  datatype Target = Target(kb: string, version: int, sealed: bool, sidecar: Option<seq<string>>, live: Option<seq<Chunk>>)

  datatype Candidate = Candidate(kb: string, version: int, share: real)

  /** The share the scan works with; none when it cannot tell. */
  function ShareOf(ids: seq<Chunk>, live: seq<Chunk>): Option<real> {
    if |ids| == 0 || Estimate(ids, live) < 0 then None
    else Some((Estimate(ids, live) as real) / (|ids| as real))
  }

  /** Above the threshold, so reported. */
  predicate Reported(ids: seq<Chunk>, live: seq<Chunk>, threshold: real) {
    ShareOf(ids, live).Some? && ShareOf(ids, live).value > threshold
  }

  method DeadShareOf(lines: Option<seq<string>>, live: Option<seq<Chunk>>) returns (r: Option<real>)
    ensures r == if lines.None? || live.None? then None else ShareOf(Recognised(lines.value), live.value)
    ensures r.Some? <==>
      && lines.Some? && live.Some? && |Recognised(lines.value)| > 0
      && |set c | c in live.value| <= |Recognised(lines.value)|
    ensures r.Some? ==>
      r.value == ((|Recognised(lines.value)| - |set c | c in live.value|) as real) / (|Recognised(lines.value)| as real)
  {
    if lines.None? { return None; }
    var ids := ArtifactChunkIds(lines.value);
    if |ids| == 0 { return None; }
    if live.None? { return None; }
    var distinct: set<Chunk> := {};
    for i := 0 to |live.value|
      invariant distinct == Elements(live.value[..i])
    {
      distinct := distinct + {live.value[i]};
      assert live.value[..i + 1] == live.value[..i] + [live.value[i]];
    }
    assert live.value[..|live.value|] == live.value;
    assert distinct == set c | c in live.value;
    var dead := |ids| - |distinct|;
    if dead < 0 { return None; }
    r := Some((dead as real) / (|ids| as real));
  }

  /** The candidates among the targets, in order. */
  function Candidates(targets: seq<Target>, threshold: real): seq<Candidate> {
    if targets == [] then []
    else
      var t := targets[|targets| - 1];
      Candidates(targets[..|targets| - 1], threshold) +
      if t.sealed && t.sidecar.Some? && t.live.Some? && Reported(Recognised(t.sidecar.value), t.live.value, threshold)
      then [Candidate(t.kb, t.version, ShareOf(Recognised(t.sidecar.value), t.live.value).value)]
      else []
  }

  /** One target is a candidate exactly when it is sealed and its share is known and above the threshold. */
  lemma OneCandidate(t: Target, threshold: real)
    ensures Candidates([t], threshold) ==
      if t.sealed && t.sidecar.Some? && t.live.Some? && |Recognised(t.sidecar.value)| > 0 &&
         |set c | c in t.live.value| <= |Recognised(t.sidecar.value)| &&
         ((|Recognised(t.sidecar.value)| - |set c | c in t.live.value|) as real) / (|Recognised(t.sidecar.value)| as real) > threshold
      then [Candidate(t.kb, t.version,
              ((|Recognised(t.sidecar.value)| - |set c | c in t.live.value|) as real) / (|Recognised(t.sidecar.value)| as real))]
      else []
  {
    assert [t][..0] == [];
    if t.live.Some? {
      assert Elements(t.live.value) == set c | c in t.live.value;
    }
  }

  /** And a scan takes its targets one after the other. */
  lemma {:induction false} CandidatesOfConcat(a: seq<Target>, b: seq<Target>, threshold: real)
    ensures Candidates(a + b, threshold) == Candidates(a, threshold) + Candidates(b, threshold)
    decreases |b|
  {
    if b == [] {
      assert a + b == a;
    } else {
      CandidatesOfConcat(a, b[..|b| - 1], threshold);
      assert (a + b)[..|a + b| - 1] == a + b[..|b| - 1];
    }
  }

  method ScanGCCandidates(targets: seq<Target>, threshold: real) returns (candidates: seq<Candidate>)
    ensures candidates == Candidates(targets, threshold)
  {
    candidates := [];
    for i := 0 to |targets|
      invariant candidates == Candidates(targets[..i], threshold)
    {
      assert targets[..i + 1][..i] == targets[..i];
      var t := targets[i];
      if !t.sealed { continue; }
      if t.sidecar.None? { continue; }
      var share := DeadShareOf(t.sidecar, t.live);
      if share.None? { continue; }
      if share.value <= threshold { continue; }
      candidates := candidates + [Candidate(t.kb, t.version, share.value)];
    }
    assert targets[..|targets|] == targets;
  }

  /** The artifact's IDs the documents do not justify, in order. */
  function DeadList(ids: seq<Chunk>, live: seq<Chunk>): seq<Chunk> {
    if ids == [] then []
    else DeadList(ids[..|ids| - 1], live) + if ids[|ids| - 1] !in live then [ids[|ids| - 1]] else []
  }

  /** What a collection that drops the dead list leaves. */
  function Kept(ids: seq<Chunk>, live: seq<Chunk>): seq<Chunk> {
    if ids == [] then []
    else Kept(ids[..|ids| - 1], live) + if ids[|ids| - 1] in live then [ids[|ids| - 1]] else []
  }

  method DeadChunksOf(lines: seq<string>, live: seq<Chunk>) returns (dead: seq<Chunk>)
    ensures dead == DeadList(Recognised(lines), live)
    ensures forall c :: c in dead <==> c in Recognised(lines) && c !in live
    ensures multiset(Recognised(lines)) == multiset(dead) + multiset(Kept(Recognised(lines), live))
  {
    var artifact := ArtifactChunkIds(lines);
    var alive := Elements(live);
    dead := [];
    for i := 0 to |artifact|
      invariant dead == DeadList(artifact[..i], live)
    {
      assert artifact[..i + 1][..i] == artifact[..i];
      if artifact[i] !in alive { dead := dead + [artifact[i]]; }
    }
    assert artifact[..|artifact|] == artifact;
    NothingElseGoes(artifact, live);
    DeadListIs(artifact, live);
  }

  /** The order of the dead and of the kept IDs is the artifact's. */
  lemma {:induction false} DeadListOfConcat(a: seq<Chunk>, b: seq<Chunk>, live: seq<Chunk>)
    ensures DeadList(a + b, live) == DeadList(a, live) + DeadList(b, live)
    ensures Kept(a + b, live) == Kept(a, live) + Kept(b, live)
    decreases |b|
  {
    if b == [] {
      assert a + b == a;
    } else {
      DeadListOfConcat(a, b[..|b| - 1], live);
      assert (a + b)[..|a + b| - 1] == a + b[..|b| - 1];
    }
  }

  lemma {:induction false} DeadListIs(ids: seq<Chunk>, live: seq<Chunk>)
    ensures forall c :: c in DeadList(ids, live) <==> c in ids && c !in live
  {
    if ids != [] {
      var front := ids[..|ids| - 1];
      DeadListIs(front, live);
      assert ids == front + [ids[|ids| - 1]];
    }
  }

  lemma {:induction false} KeptIs(ids: seq<Chunk>, live: seq<Chunk>)
    ensures forall c :: c in Kept(ids, live) <==> c in ids && c in live
    ensures Distinct(ids) ==> Distinct(Kept(ids, live))
  {
    if ids != [] {
      var front := ids[..|ids| - 1];
      KeptIs(front, live);
      assert ids == front + [ids[|ids| - 1]];
      assert Distinct(ids) ==> ids[|ids| - 1] !in front;
    }
  }

  lemma OneMoreId(front: seq<Chunk>, last: Chunk, dead: seq<Chunk>, kept: seq<Chunk>, isDead: bool)
    requires multiset(front) == multiset(dead) + multiset(kept)
    ensures multiset(front + [last]) ==
      multiset(dead + if isDead then [last] else []) + multiset(kept + if isDead then [] else [last])
  {
    assert multiset(front + [last]) == multiset(front) + multiset{last};
    if isDead {
      assert kept + [] == kept && multiset(dead + [last]) == multiset(dead) + multiset{last};
    } else {
      assert dead + [] == dead && multiset(kept + [last]) == multiset(kept) + multiset{last};
    }
  }

  /** Dropping the dead list keeps the rest: every recorded ID is in exactly one of the two. */
  lemma {:induction false} NothingElseGoes(ids: seq<Chunk>, live: seq<Chunk>)
    ensures multiset(ids) == multiset(DeadList(ids, live)) + multiset(Kept(ids, live))
  {
    if ids != [] {
      var front, last := ids[..|ids| - 1], ids[|ids| - 1];
      NothingElseGoes(front, live);
      OneMoreId(front, last, DeadList(front, live), Kept(front, live), last !in live);
      assert ids == front + [last];
    }
  }

  /** Of distinct IDs no more are kept than there are live chunks. */
  lemma KeptCount(ids: seq<Chunk>, live: seq<Chunk>)
    requires Distinct(ids)
    ensures |Kept(ids, live)| <= |Elements(live)|
  {
    KeptIs(ids, live);
    var kept := Kept(ids, live);
    DistinctHasNoRepeats(kept);
    assert Elements(kept) <= Elements(live);
    Subset(Elements(kept), Elements(live));
  }

  lemma Subset(a: set<Chunk>, b: set<Chunk>)
    requires a <= b
    ensures |a| <= |b|
  {
    assert b == a + (b - a);
  }

  lemma PositiveShare(dead: int, size: int, threshold: real)
    requires size > 0 && threshold >= 0.0 && (dead as real) / (size as real) > threshold
    ensures dead > 0
  {
    var share := (dead as real) / (size as real);
    assert share * (size as real) == dead as real;
  }

  /** A reported version has something to drop. */
  lemma ReportedHasDead(ids: seq<Chunk>, live: seq<Chunk>, threshold: real)
    requires Distinct(ids) && threshold >= 0.0 && Reported(ids, live, threshold)
    ensures DeadList(ids, live) != []
  {
    EstimateIsSound(ids, live);
    PositiveShare(Estimate(ids, live), |ids|, threshold);
    DeadListIs(ids, live);
    assert Dead(ids, live) != {};
    var c :| c in Dead(ids, live);
    assert c in DeadList(ids, live);
  }

  /** Once the dead list is dropped the version is not reported again while its documents stay the same. */
  lemma CollectedIsNotReported(ids: seq<Chunk>, live: seq<Chunk>, threshold: real)
    requires Distinct(ids) && threshold >= 0.0
    ensures !Reported(Kept(ids, live), live, threshold)
  {
    KeptCount(ids, live);
    if Reported(Kept(ids, live), live, threshold) {
      PositiveShare(Estimate(Kept(ids, live), live), |Kept(ids, live)|, threshold);
    }
  }
}
