/**
  Deleting versions across crashes. A delete writes a mark to the write-ahead log, reclaims
  the version's bytes, removes its metadata and writes a completion; a crash may stop it
  after any of these, and on restart every mark without a completion is resumed by name.
*/
module DeleteResume {
  import opened Basics

  type Kb = string
  type Version = nat

  datatype Meta = Meta(kb: Kb, deleting: bool)

  /** The stores that hold something of a version, in the order a reclaim goes through them. */
  datatype Layer = Chunks | Index | List | Records | Bloom

  /**
    What survives a crash: the replicated metadata, version counter and deletion log, and
    this node's log records, stored bytes and tombstones (true while a reclaim is owed).
  */
  datatype Durable = Durable(
    next: Version, metas: map<Version, Meta>, deletions: set<Version>,
    marked: map<Version, Kb>, done: set<Version>, bytes: set<(Version, Layer)>, tombstones: map<Version, bool>)

  function NextLayer(l: Layer): Option<Layer> {
    match l
    case Chunks => Some(Index)
    case Index => Some(List)
    case List => Some(Records)
    case Records => Some(Bloom)
    case Bloom => None
  }

  function Position(l: Layer): nat {
    match l
    case Chunks => 0
    case Index => 1
    case List => 2
    case Records => 3
    case Bloom => 4
  }

  function LayersOf(v: Version): set<(Version, Layer)> {
    {(v, Chunks), (v, Index), (v, List), (v, Records), (v, Bloom)}
  }

  lemma EveryLayer(p: (Version, Layer))
    ensures p in LayersOf(p.0)
  {
    match p.1
    case Chunks =>
    case Index =>
    case List =>
    case Records =>
    case Bloom =>
  }

  /** Some store still holds something of the version. */
  ghost predicate HasBytes(d: Durable, v: Version) {
    exists l :: (v, l) in d.bytes
  }

  // ---------------------------------------------------------------- single effects

  function PutMark(d: Durable, kb: Kb, v: Version): Durable {
    if v in d.marked then d else d.(marked := d.marked[v := kb])
  }

  function PutComplete(d: Durable, v: Version): Durable {
    d.(done := d.done + {v})
  }

  function NoteTombstone(d: Durable, v: Version): Durable {
    if v in d.tombstones then d else d.(tombstones := d.tombstones[v := true])
  }

  function MarkTombstoneDone(d: Durable, v: Version): Durable {
    if v in d.tombstones then d.(tombstones := d.tombstones[v := false]) else d
  }

  function Reclaim(d: Durable, v: Version, l: Layer): Durable {
    d.(bytes := d.bytes - {(v, l)})
  }

  /** Removing the metadata records the deletion; an absent version succeeds and records nothing. */
  function RemoveMeta(d: Durable, kb: Kb, v: Version): Result<Durable, ()> {
    if v !in d.metas then Ok(d)
    else if d.metas[v].kb != kb then Err(())
    else Ok(d.(metas := d.metas - {v}, deletions := d.deletions + {v}))
  }

  // ---------------------------------------------------------------- the protocol

  /** Where a delete of `version` stands, and whether its reclaim succeeded. */
  datatype Stage = AtMark | AtNote | AtReclaim(layer: Layer) | AtRemove(reclaimed: bool) | AtComplete(reclaimed: bool) | AtSettle

  /** A running deleteOne, or a running ResumeVersionDelete. */
  datatype Task = Task(kb: Kb, version: Version, resuming: bool, stage: Stage)

  datatype State = State(durable: Durable, tasks: map<nat, Task>)

  datatype Step =
    | Create(version: Version, kb: Kb)
    | MarkDeleting(version: Version)
    | Start(id: nat, kb: Kb, version: Version)   // deleteOne, for a version listed as Deleting
    | Resume(id: nat, kb: Kb, version: Version)  // ResumeVersionDelete, for an open mark
    | Go(id: nat, ok: bool)                      // the task's next call, which may fail
    | Crash

  ghost predicate Pending(d: Durable, v: Version) {
    v in d.marked && v !in d.done
  }

  ghost predicate Enabled(s: State, a: Step) {
    match a
    case Create(v, _) => v >= s.durable.next
    case MarkDeleting(v) => v in s.durable.metas
    case Start(id, kb, v) => id !in s.tasks && v in s.durable.metas && s.durable.metas[v] == Meta(kb, true)
    case Resume(id, kb, v) => id !in s.tasks && Pending(s.durable, v) && s.durable.marked[v] == kb
    case Go(id, _) => id in s.tasks
    case Crash => true
  }

  /** What a task's call does to the durable state. */
  ghost function Effect(d: Durable, t: Task, ok: bool): Durable {
    if !ok then d
    else
      match t.stage
      case AtMark => PutMark(d, t.kb, t.version)
      case AtNote => NoteTombstone(d, t.version)
      case AtReclaim(l) => Reclaim(d, t.version, l)
      case AtRemove(_) => if RemoveMeta(d, t.kb, t.version).Ok? then RemoveMeta(d, t.kb, t.version).value else d
      case AtComplete(_) => PutComplete(d, t.version)
      case AtSettle => MarkTombstoneDone(d, t.version)
  }

  /** Where the task goes on: a failed mark, removal or completion ends it, a failed note or reclaim does not. */
  ghost function After(d: Durable, t: Task, ok: bool): Option<Stage> {
    match t.stage
    case AtMark => if !ok then None else Some(if t.resuming then AtNote else AtReclaim(Chunks))
    case AtNote => Some(AtReclaim(Chunks))
    case AtReclaim(l) =>
      if !ok then Some(AtRemove(false))
      else Some(if NextLayer(l).None? then AtRemove(true) else AtReclaim(NextLayer(l).value))
    case AtRemove(reclaimed) => if ok && RemoveMeta(d, t.kb, t.version).Ok? then Some(AtComplete(reclaimed)) else None
    case AtComplete(reclaimed) => if ok && t.resuming && reclaimed then Some(AtSettle) else None
    case AtSettle => None
  }

  ghost function GoApply(s: State, id: nat, ok: bool): State
    requires id in s.tasks
  {
    var t := s.tasks[id];
    State(Effect(s.durable, t, ok),
          match After(s.durable, t, ok)
          case None => s.tasks - {id}
          case Some(stage) => s.tasks[id := t.(stage := stage)])
  }

  ghost function Apply(s: State, a: Step): State
    requires Enabled(s, a)
  {
    match a
    case Create(v, kb) =>
      s.(durable := s.durable.(next := v + 1, metas := s.durable.metas[v := Meta(kb, false)],
                               bytes := s.durable.bytes + LayersOf(v)))
    case MarkDeleting(v) =>
      s.(durable := s.durable.(metas := s.durable.metas[v := s.durable.metas[v].(deleting := true)]))
    case Start(id, kb, v) => s.(tasks := s.tasks[id := Task(kb, v, false, AtMark)])
    case Resume(id, kb, v) => s.(tasks := s.tasks[id := Task(kb, v, true, AtMark)])
    case Go(id, ok) => GoApply(s, id, ok)
    case Crash => s.(tasks := map[])
  }

  // ---------------------------------------------------------------- invariant

  ghost predicate Allocated(d: Durable) {
    && (forall v :: v in d.metas ==> v < d.next)
    && (forall v :: v in d.marked ==> v < d.next)
    && (forall v :: v in d.deletions ==> v < d.next)
    && (forall p :: p in d.bytes ==> p.0 < d.next)
  }

  /** A completion means the metadata is gone. */
  ghost predicate CompleteMeansGone(d: Durable) {
    forall v :: v in d.done ==> v in d.marked && v !in d.metas
  }

  /** Bytes that are left are named by the metadata or by the deletion log. */
  ghost predicate BytesAreNamed(d: Durable) {
    forall p :: p in d.bytes ==> p.0 in d.metas || p.0 in d.deletions
  }

  /** A marked version that still has metadata is marked Deleting there, under the same knowledge base. */
  ghost predicate MarksAgree(d: Durable) {
    forall v :: v in d.marked && v in d.metas ==> d.metas[v] == Meta(d.marked[v], true)
  }

  ghost predicate DeletedIsGone(d: Durable) {
    forall v :: v in d.deletions ==> v !in d.metas
  }

  ghost predicate Sound(d: Durable) {
    Allocated(d) && CompleteMeansGone(d) && BytesAreNamed(d) && MarksAgree(d) && DeletedIsGone(d)
  }

  /** The layers a task's reclaim has behind it are empty. */
  ghost predicate Cleared(d: Durable, t: Task) {
    match t.stage
    case AtReclaim(l) => forall m :: Position(m) < Position(l) ==> (t.version, m) !in d.bytes
    case AtRemove(reclaimed) => reclaimed ==> !HasBytes(d, t.version)
    case AtComplete(reclaimed) => reclaimed ==> !HasBytes(d, t.version)
    case AtSettle => !HasBytes(d, t.version)
    case _ => true
  }

  ghost predicate TaskSound(d: Durable, t: Task) {
    && Cleared(d, t)
    && t.version < d.next && (t.version in d.metas || t.version in d.marked)
    && (t.version in d.metas ==> d.metas[t.version] == Meta(t.kb, true))
    && (t.version in d.marked ==> d.marked[t.version] == t.kb)
    && (!t.stage.AtMark? ==> t.version in d.marked)
    && (t.stage.AtComplete? || t.stage.AtSettle? ==> t.version !in d.metas)
  }

  ghost predicate TasksSound(d: Durable, tasks: map<nat, Task>) {
    forall id :: id in tasks ==> TaskSound(d, tasks[id])
  }

  ghost predicate Inv(s: State) {
    Sound(s.durable) && TasksSound(s.durable, s.tasks)
  }

  lemma EffectKeepsSound(d: Durable, t: Task, ok: bool)
    requires Sound(d) && TaskSound(d, t)
    ensures Sound(Effect(d, t, ok))
    ensures After(d, t, ok).Some? ==> TaskSound(Effect(d, t, ok), t.(stage := After(d, t, ok).value))
  {
  }

  /** A task's call disturbs no other task, not even one on the same version. */
  lemma EffectKeepsOthers(d: Durable, t: Task, ok: bool, u: Task)
    requires TaskSound(d, t) && TaskSound(d, u)
    ensures TaskSound(Effect(d, t, ok), u)
  {
  }

  lemma GoKeepsInv(s: State, id: nat, ok: bool)
    requires Inv(s) && id in s.tasks
    ensures Inv(GoApply(s, id, ok))
  {
    var s' := GoApply(s, id, ok);
    var t := s.tasks[id];
    EffectKeepsSound(s.durable, t, ok);
    forall other | other in s'.tasks && other != id ensures TaskSound(s'.durable, s'.tasks[other]) {
      EffectKeepsOthers(s.durable, t, ok, s.tasks[other]);
    }
  }

  lemma StepKeepsInv(s: State, a: Step)
    requires Inv(s) && Enabled(s, a)
    ensures Inv(Apply(s, a))
  {
    match a
    case Create(v, kb) =>
    case MarkDeleting(v) =>
    case Start(id, kb, v) =>
    case Resume(id, kb, v) =>
    case Go(id, ok) => GoKeepsInv(s, id, ok);
    case Crash =>
  }

  ghost predicate Init(s: State) {
    s.durable == Durable(s.durable.next, map[], {}, map[], {}, {}, map[]) && s.tasks == map[]
  }

  ghost predicate IsRun(s: State, steps: seq<Step>)
    decreases |steps|
  {
    steps != [] ==> Enabled(s, steps[0]) && IsRun(Apply(s, steps[0]), steps[1..])
  }

  ghost function RunTo(s: State, steps: seq<Step>): State
    requires IsRun(s, steps)
    decreases |steps|
  {
    if steps == [] then s else RunTo(Apply(s, steps[0]), steps[1..])
  }

  lemma {:induction false} RunKeepsInv(s: State, steps: seq<Step>)
    requires Inv(s) && IsRun(s, steps)
    ensures Inv(RunTo(s, steps))
    decreases |steps|
  {
    if steps != [] {
      StepKeepsInv(s, steps[0]);
      RunKeepsInv(Apply(s, steps[0]), steps[1..]);
    }
  }

  /**
    Over every run, with crashes and failures anywhere and any number of restarts: a
    completion means the metadata is gone, and bytes that are left are still named by the
    metadata or by the deletion log.
  */
  lemma CompletionsAreTrue(s: State, steps: seq<Step>, v: Version)
    requires Init(s) && IsRun(s, steps)
    ensures var d := RunTo(s, steps).durable;
      (v in d.done ==> v !in d.metas) && (HasBytes(d, v) ==> v in d.metas || v in d.deletions)
  {
    RunKeepsInv(s, steps);
    var d := RunTo(s, steps).durable;
    if HasBytes(d, v) {
      var l :| (v, l) in d.bytes;
      assert (v, l).0 == v;
    }
  }

  /** Of each version, what a reclaim comes to later is still there as long as what it comes to earlier is. */
  ghost predicate LaterLayersStay(d: Durable) {
    forall v, l, m :: (v, l) in d.bytes && Position(l) < Position(m) ==> (v, m) in d.bytes
  }

  lemma StepKeepsLayers(s: State, a: Step)
    requires Inv(s) && Enabled(s, a) && LaterLayersStay(s.durable)
    ensures LaterLayersStay(Apply(s, a).durable)
  {
    match a
    case Create(v, kb) =>
      forall w, l, m | (w, l) in Apply(s, a).durable.bytes && Position(l) < Position(m)
        ensures (w, m) in Apply(s, a).durable.bytes
      {
        EveryLayer((w, m));
      }
    case Go(id, ok) => assert TaskSound(s.durable, s.tasks[id]);
    case _ =>
  }

  lemma {:induction false} RunKeepsLayers(s: State, steps: seq<Step>)
    requires Inv(s) && IsRun(s, steps) && LaterLayersStay(s.durable)
    ensures LaterLayersStay(RunTo(s, steps).durable)
    decreases |steps|
  {
    if steps != [] {
      StepKeepsLayers(s, steps[0]);
      StepKeepsInv(s, steps[0]);
      RunKeepsLayers(Apply(s, steps[0]), steps[1..]);
    }
  }

  /**
    Over every run: while a version's chunks are not reclaimed, neither are its document list,
    which names them, nor its records and its bloom filter, so a retry knows what to judge.
  */
  lemma ListOutlivesChunks(s: State, steps: seq<Step>, v: Version)
    requires Init(s) && IsRun(s, steps)
    ensures var d := RunTo(s, steps).durable;
      && ((v, Chunks) in d.bytes ==> (v, Index) in d.bytes && (v, List) in d.bytes)
      && ((v, List) in d.bytes ==> (v, Records) in d.bytes && (v, Bloom) in d.bytes)
  {
    RunKeepsLayers(s, steps);
    assert Position(Chunks) < Position(Index) < Position(List) < Position(Records) < Position(Bloom);
  }

  /** A tombstone that says done is of a version without bytes. */
  ghost predicate TombstonesTrue(d: Durable) {
    forall v :: v in d.tombstones && !d.tombstones[v] ==> v < d.next && !HasBytes(d, v)
  }

  lemma StepKeepsTombstones(s: State, a: Step)
    requires Inv(s) && Enabled(s, a) && TombstonesTrue(s.durable)
    ensures TombstonesTrue(Apply(s, a).durable)
  {
    if a.Go? { assert TaskSound(s.durable, s.tasks[a.id]); }
  }

  lemma {:induction false} RunKeepsTombstones(s: State, steps: seq<Step>)
    requires Inv(s) && IsRun(s, steps) && TombstonesTrue(s.durable)
    ensures TombstonesTrue(RunTo(s, steps).durable)
    decreases |steps|
  {
    if steps != [] {
      StepKeepsTombstones(s, steps[0]);
      StepKeepsInv(s, steps[0]);
      RunKeepsTombstones(Apply(s, steps[0]), steps[1..]);
    }
  }

  /** Over every run: a reclaim recorded as paid has left nothing of the version in any store. */
  lemma SettledMeansReclaimed(s: State, steps: seq<Step>, v: Version, l: Layer)
    requires Init(s) && IsRun(s, steps)
    ensures var d := RunTo(s, steps).durable;
      v in d.tombstones && d.tombstones[v] == false ==> (v, l) !in d.bytes
  {
    RunKeepsTombstones(s, steps);
  }

  // ---------------------------------------------------------------- resuming reaches the same end

  /** What deleting `v` leaves when nothing interrupts it. */
  ghost function Uninterrupted(d: Durable, kb: Kb, v: Version): Durable {
    d.(metas := d.metas - {v}, deletions := d.deletions + {v}, marked := d.marked[v := kb], done := d.done + {v},
       bytes := d.bytes - LayersOf(v))
  }

  /** Everything the durable state says about one version (its tombstone, which only a resume writes, apart). */
  datatype Slice = Slice(meta: Option<Meta>, deleted: bool, mark: Option<Kb>, done: bool, layers: set<Layer>)

  ghost function SliceOf(d: Durable, v: Version): Slice {
    Slice(if v in d.metas then Some(d.metas[v]) else None, v in d.deletions,
          if v in d.marked then Some(d.marked[v]) else None, v in d.done, set p | p in d.bytes && p.0 == v :: p.1)
  }

  /** The history of `v` so far: its knowledge base is `kb` wherever it is named, and its metadata is there or logged as deleted. */
  ghost predicate Traced(s: State, kb: Kb, v: Version) {
    && v < s.durable.next
    && (v in s.durable.metas ==> s.durable.metas[v].kb == kb)
    && (v in s.durable.marked ==> s.durable.marked[v] == kb)
    && (v in s.durable.metas || v in s.durable.deletions)
    && (forall id :: id in s.tasks && s.tasks[id].version == v ==> s.tasks[id].kb == kb)
  }

  lemma StepKeepsTraced(s: State, a: Step, kb: Kb, v: Version)
    requires Inv(s) && Enabled(s, a) && Traced(s, kb, v)
    ensures Traced(Apply(s, a), kb, v)
  {
  }

  lemma {:induction false} RunKeepsTraced(s: State, steps: seq<Step>, kb: Kb, v: Version)
    requires Inv(s) && IsRun(s, steps) && Traced(s, kb, v)
    ensures Traced(RunTo(s, steps), kb, v) && Inv(RunTo(s, steps))
    decreases |steps|
  {
    if steps != [] {
      StepKeepsTraced(s, steps[0], kb, v);
      StepKeepsInv(s, steps[0]);
      RunKeepsTraced(Apply(s, steps[0]), steps[1..], kb, v);
    }
  }

  /**
    From any sound state, on any run, with other versions created, marked, deleted, resumed
    and crashed in between: once the mark of `v` is closed and its bytes are reclaimed, all
    that is left of it is what an uninterrupted delete of `v` alone leaves.
  */
  lemma InterruptedEqualsUninterrupted(s: State, steps: seq<Step>, kb: Kb, v: Version)
    requires Inv(s) && IsRun(s, steps) && v in s.durable.metas && s.durable.metas[v].kb == kb
    ensures var d := RunTo(s, steps).durable;
      v in d.done && !HasBytes(d, v) ==>
        && SliceOf(d, v) == SliceOf(Uninterrupted(s.durable, kb, v), v)
        && v !in d.metas && v in d.deletions && v in d.marked && d.marked[v] == kb
  {
    forall id | id in s.tasks && s.tasks[id].version == v ensures s.tasks[id].kb == kb {
      assert TaskSound(s.durable, s.tasks[id]);
    }
    RunKeepsTraced(s, steps, kb, v);
    var d, u := RunTo(s, steps).durable, Uninterrupted(s.durable, kb, v);
    if v in d.done && !HasBytes(d, v) {
      forall p | p in d.bytes ensures p.0 != v {
        assert p == (p.0, p.1);
      }
      forall p | p in u.bytes ensures p.0 != v {
        EveryLayer(p);
      }
    }
  }

  // ---------------------------------------------------------------- runs of one task

  /** A task's calls, with how each of them goes. */
  ghost function Calls(id: nat, oks: seq<bool>): seq<Step> {
    if oks == [] then [] else [Go(id, oks[0])] + Calls(id, oks[1..])
  }

  lemma RunOfCons(s: State, a: Step, rest: seq<Step>)
    requires Enabled(s, a) && IsRun(Apply(s, a), rest)
    ensures IsRun(s, [a] + rest) && RunTo(s, [a] + rest) == RunTo(Apply(s, a), rest)
  {
    assert ([a] + rest)[1..] == rest;
  }

  /** Nothing but `v` is different. */
  ghost predicate OnlyOf(d: Durable, d': Durable, v: Version) {
    && d'.next == d.next
    && d'.metas - {v} == d.metas - {v} && d'.marked - {v} == d.marked - {v}
    && d'.done - {v} == d.done - {v} && d'.bytes - LayersOf(v) == d.bytes - LayersOf(v)
    && d'.deletions - {v} == d.deletions - {v} && d'.tombstones - {v} == d.tombstones - {v}
  }

  lemma EffectTouchesOnly(d: Durable, t: Task, ok: bool)
    ensures OnlyOf(d, Effect(d, t, ok), t.version)
    ensures !t.resuming && !t.stage.AtNote? && !t.stage.AtSettle? ==> Effect(d, t, ok).tombstones == d.tombstones
  {
    if t.stage.AtReclaim? { EveryLayer((t.version, t.stage.layer)); }
  }

  /** The calls, going as given, close the task's mark and touch no other version; `reclaimed` says its bytes are gone too. */
  ghost predicate Closes(s: State, id: nat, oks: seq<bool>, reclaimed: bool)
    requires id in s.tasks
  {
    && IsRun(s, Calls(id, oks))
    && var v, d := s.tasks[id].version, RunTo(s, Calls(id, oks)).durable;
       && v in d.done && v !in d.metas && (reclaimed ==> !HasBytes(d, v)) && OnlyOf(s.durable, d, v)
       && (!s.tasks[id].resuming && !s.tasks[id].stage.AtNote? && !s.tasks[id].stage.AtSettle? ==>
             d.tombstones == s.durable.tombstones)
  }

  lemma OneCall(s: State, id: nat, ok: bool, oks: seq<bool>, reclaimed: bool)
    requires id in s.tasks && After(s.durable, s.tasks[id], ok).Some? && Closes(GoApply(s, id, ok), id, oks, reclaimed)
    requires !s.tasks[id].resuming ==> !After(s.durable, s.tasks[id], ok).value.AtNote? && !After(s.durable, s.tasks[id], ok).value.AtSettle?
    ensures Closes(s, id, [ok] + oks, reclaimed)
  {
    assert ([ok] + oks)[1..] == oks;
    RunOfCons(s, Go(id, ok), Calls(id, oks));
    EffectTouchesOnly(s.durable, s.tasks[id], ok);
  }

  lemma CompletionCloses(s: State, id: nat)
    requires Inv(s) && id in s.tasks && s.tasks[id].stage.AtComplete?
    ensures Closes(s, id, [true], s.tasks[id].stage.reclaimed)
  {
    var t := s.tasks[id];
    assert TaskSound(s.durable, t);
    var s1 := GoApply(s, id, true);
    assert IsRun(s1, []) && RunTo(s1, []) == s1;
    assert [true][1..] == [] && Calls(id, [true]) == [Go(id, true)] + [];
    RunOfCons(s, Go(id, true), []);
    EffectTouchesOnly(s.durable, t, true);
  }

  lemma RemovalCloses(s: State, id: nat)
    requires Inv(s) && id in s.tasks && s.tasks[id].stage.AtRemove?
    ensures Closes(s, id, [true, true], s.tasks[id].stage.reclaimed)
  {
    assert TaskSound(s.durable, s.tasks[id]);
    GoKeepsInv(s, id, true);
    CompletionCloses(GoApply(s, id, true), id);
    OneCall(s, id, true, [true], s.tasks[id].stage.reclaimed);
    assert [true] + [true] == [true, true];
  }

  /** How the calls of a reclaim from layer `l` on may go: it stops at the first that fails. */
  ghost predicate Answers(l: Layer, oks: seq<bool>)
    decreases 5 - Position(l)
  {
    oks != [] &&
    if !oks[0] || NextLayer(l).None? then |oks| == 1 else Answers(NextLayer(l).value, oks[1..])
  }

  lemma {:induction false} ReclaimCloses(s: State, id: nat, oks: seq<bool>)
    requires Inv(s) && id in s.tasks && s.tasks[id].stage.AtReclaim? && Answers(s.tasks[id].stage.layer, oks)
    ensures Closes(s, id, oks + [true, true], oks[|oks| - 1])
    decreases |oks|
  {
    var l, ok, rest := s.tasks[id].stage.layer, oks[0], oks[1..];
    var s1 := GoApply(s, id, ok);
    GoKeepsInv(s, id, ok);
    if |oks| == 1 {
      RemovalCloses(s1, id);
      OneCall(s, id, ok, [true, true], ok);
      assert [ok] + [true, true] == oks + [true, true];
    } else {
      ReclaimCloses(s1, id, rest);
      OneCall(s, id, ok, rest + [true, true], oks[|oks| - 1]);
      assert [ok] + (rest + [true, true]) == oks + [true, true];
    }
  }

  lemma ResumeCloses(s: State, id: nat, kb: Kb, v: Version, noted: bool, oks: seq<bool>)
    requires Inv(s) && Enabled(s, Resume(id, kb, v)) && Answers(Chunks, oks)
    ensures Closes(Apply(s, Resume(id, kb, v)), id, [true, noted] + oks + [true, true], oks[|oks| - 1])
    ensures Apply(s, Resume(id, kb, v)).tasks[id].version == v
  {
    var s1 := Apply(s, Resume(id, kb, v));
    StepKeepsInv(s, Resume(id, kb, v));
    var s2 := GoApply(s1, id, true);
    GoKeepsInv(s1, id, true);
    var s3 := GoApply(s2, id, noted);
    GoKeepsInv(s2, id, noted);
    ReclaimCloses(s3, id, oks);
    OneCall(s2, id, noted, oks + [true, true], oks[|oks| - 1]);
    OneCall(s1, id, true, [noted] + (oks + [true, true]), oks[|oks| - 1]);
    assert [true] + ([noted] + (oks + [true, true])) == [true, noted] + oks + [true, true];
  }

  /**
    Resuming an open mark closes it, even when the metadata was removed before the crash and
    whether or not the tombstone and the reclaim succeed, wherever the reclaim stops; if it
    does not stop, nothing of the version is left in any store.
  */
  lemma ResumeClosesMark(s: State, id: nat, kb: Kb, v: Version, noted: bool, oks: seq<bool>)
    requires Inv(s) && Enabled(s, Resume(id, kb, v)) && Answers(Chunks, oks)
    ensures var s1, calls := Apply(s, Resume(id, kb, v)), Calls(id, [true, noted] + oks + [true, true]);
      && IsRun(s1, calls)
      && var d := RunTo(s1, calls).durable;
         && v in d.done && v !in d.metas && (oks[|oks| - 1] ==> forall l :: (v, l) !in d.bytes)
         && forall w :: w != v ==> (w in d.metas <==> w in s.durable.metas) && (w in d.done <==> w in s.durable.done)
  {
    ResumeCloses(s, id, kb, v, noted, oks);
    var d := RunTo(Apply(s, Resume(id, kb, v)), Calls(id, [true, noted] + oks + [true, true])).durable;
    forall w | w != v ensures (w in d.metas <==> w in s.durable.metas) && (w in d.done <==> w in s.durable.done) {
      assert w in d.metas - {v} <==> w in s.durable.metas - {v};
      assert w in d.done - {v} <==> w in s.durable.done - {v};
    }
  }

  const EVERY_LAYER: seq<bool> := [true, true, true, true, true]

  lemma EveryLayerAnswers()
    ensures Answers(Chunks, EVERY_LAYER)
  {
    assert EVERY_LAYER[1..] == [true, true, true, true];
    assert Answers(Bloom, [true]);
    assert [true, true][1..] == [true] && Answers(Records, [true, true]);
    assert [true, true, true][1..] == [true, true] && Answers(List, [true, true, true]);
    assert [true, true, true, true][1..] == [true, true, true] && Answers(Index, [true, true, true, true]);
  }

  /** A version gone from every layer, completed and without metadata, in a state where nothing else moved. */
  lemma ClosedIsUninterrupted(d: Durable, d': Durable, kb: Kb, v: Version)
    requires OnlyOf(d, d', v) && d'.tombstones == d.tombstones && v in d'.done && v !in d'.metas && !HasBytes(d', v)
    requires v in d'.marked && d'.marked[v] == kb && v in d'.deletions
    ensures d' == Uninterrupted(d, kb, v)
  {
    assert d'.metas == d'.metas - {v};
    assert d'.done == (d'.done - {v}) + {v} && d.done + {v} == (d.done - {v}) + {v};
    assert d'.deletions == (d'.deletions - {v}) + {v} && d.deletions + {v} == (d.deletions - {v}) + {v};
    assert d'.bytes - LayersOf(v) == d'.bytes;
    assert d'.marked == (d'.marked - {v})[v := kb] && d.marked[v := kb] == (d.marked - {v})[v := kb];
  }

  /** A delete nobody interrupts does what Uninterrupted says. */
  lemma DeleteRuns(s: State, id: nat, kb: Kb, v: Version)
    requires Inv(s) && Enabled(s, Start(id, kb, v))
    ensures var s1, oks := Apply(s, Start(id, kb, v)), [true] + (EVERY_LAYER + [true, true]);
      && IsRun(s1, Calls(id, oks))
      && var d, d' := s.durable, RunTo(s1, Calls(id, oks)).durable;
         && d' == Uninterrupted(d, kb, v)
         && d'.metas == d.metas - {v} && d'.deletions == d.deletions + {v}
         && d'.marked == d.marked[v := kb] && d'.done == d.done + {v}
         && (forall w, l :: (w, l) in d'.bytes <==> (w, l) in d.bytes && w != v)
         && d'.next == d.next && d'.tombstones == d.tombstones
  {
    var s1, oks := Apply(s, Start(id, kb, v)), [true] + (EVERY_LAYER + [true, true]);
    StepKeepsInv(s, Start(id, kb, v));
    var s2 := GoApply(s1, id, true);
    GoKeepsInv(s1, id, true);
    EveryLayerAnswers();
    ReclaimCloses(s2, id, EVERY_LAYER);
    OneCall(s1, id, true, EVERY_LAYER + [true, true], true);
    assert TaskSound(s1.durable, s1.tasks[id]);
    forall i | i in s1.tasks && s1.tasks[i].version == v ensures s1.tasks[i].kb == kb {
      assert TaskSound(s1.durable, s1.tasks[i]);
    }
    RunKeepsTraced(s1, Calls(id, oks), kb, v);
    ClosedIsUninterrupted(s.durable, RunTo(s1, Calls(id, oks)).durable, kb, v);
    forall w, l ensures (w, l) in LayersOf(v) <==> w == v {
      EveryLayer((w, l));
    }
  }

  /** A reclaim that goes through the layers from `l` on. */
  ghost function ReclaimFrom(d: Durable, v: Version, l: Layer): Durable
    decreases 5 - Position(l)
  {
    var d' := Reclaim(d, v, l);
    if NextLayer(l).None? then d' else ReclaimFrom(d', v, NextLayer(l).value)
  }

  /** One that stops before layer `stop`. */
  ghost function ReclaimUntil(d: Durable, v: Version, l: Layer, stop: Layer): Durable
    decreases 5 - Position(l)
  {
    if Position(l) >= Position(stop) || NextLayer(l).None? then d
    else ReclaimUntil(Reclaim(d, v, l), v, NextLayer(l).value, stop)
  }

  lemma {:induction false} ReclaimFromRemoves(d: Durable, v: Version, l: Layer)
    ensures ReclaimFrom(d, v, l) == d.(bytes := set p | p in d.bytes && (p.0 != v || Position(p.1) < Position(l)))
    decreases 5 - Position(l)
  {
    var d' := Reclaim(d, v, l);
    if NextLayer(l).Some? {
      ReclaimFromRemoves(d', v, NextLayer(l).value);
    }
    assert ReclaimFrom(d, v, l).bytes == set p | p in d.bytes && (p.0 != v || Position(p.1) < Position(l)) by {
      forall p | p in d.bytes && p.0 == v && Position(p.1) == Position(l) ensures p == (v, l) {
      }
    }
  }

  lemma {:induction false} ReclaimUntilRemoves(d: Durable, v: Version, l: Layer, stop: Layer)
    ensures ReclaimUntil(d, v, l, stop) ==
      d.(bytes := set p | p in d.bytes && (p.0 != v || Position(p.1) < Position(l) || Position(p.1) >= Position(stop)))
    decreases 5 - Position(l)
  {
    if Position(l) < Position(stop) && NextLayer(l).Some? {
      ReclaimUntilRemoves(Reclaim(d, v, l), v, NextLayer(l).value, stop);
      assert forall p :: p in d.bytes && p.0 == v && Position(p.1) == Position(l) ==> p == (v, l);
    }
    assert ReclaimUntil(d, v, l, stop).bytes ==
      set p | p in d.bytes && (p.0 != v || Position(p.1) < Position(l) || Position(p.1) >= Position(stop));
  }

  /** A reclaim stopped between any two stores and run again from the start leaves what one reclaim leaves. */
  lemma StoppedAndRerunEqualsOne(d: Durable, v: Version, stop: Layer)
    ensures ReclaimFrom(ReclaimUntil(d, v, Chunks, stop), v, Chunks) == ReclaimFrom(d, v, Chunks)
    ensures ReclaimUntil(d, v, Chunks, stop) == d.(bytes := set p | p in d.bytes && (p.0 != v || Position(p.1) >= Position(stop)))
    ensures ReclaimFrom(d, v, Chunks) == d.(bytes := set p | p in d.bytes && p.0 != v)
  {
    var d' := ReclaimUntil(d, v, Chunks, stop);
    ReclaimUntilRemoves(d, v, Chunks, stop);
    ReclaimFromRemoves(d, v, Chunks);
    ReclaimFromRemoves(d', v, Chunks);
    assert (set p | p in d'.bytes && (p.0 != v || Position(p.1) < 0)) == set p | p in d.bytes && (p.0 != v || Position(p.1) < 0);
  }

  // ---------------------------------------------------------------- the coordinator

  datatype Fault = InvalidVersion | LogFailed | MetadataFailed | ListFailed | Unreclaimed | TombstoneFailed

  /** `v` is deleted and nothing about it is owed to the log. */
  ghost predicate Closed(d: Durable, v: Version) {
    v in d.done && v !in d.metas
  }

  /** What was marked or closed about `v` still is, and its metadata is gone or as it was. */
  ghost predicate Kept(d: Durable, d': Durable, v: Version) {
    && (v in d'.metas ==> v in d.metas && d'.metas[v] == d.metas[v])
    && (v in d.marked ==> v in d'.marked && d'.marked[v] == d.marked[v])
    && (Closed(d, v) ==> Closed(d', v))
  }

  /** Once closed, always closed: no later call brings the metadata or the debt back. */
  lemma ClosedStays(d: Durable, d': Durable, v: Version, w: Version)
    requires Closed(d, w) && OnlyOf(d, d', v) && (w == v ==> Closed(d', w))
    ensures Closed(d', w)
  {
    assert w != v ==> w in d'.done - {v} && w !in d'.metas - {v};
  }

  class DeleteVersionCoordinator {
    const mayFail: bool   // whether a call on the log, the stores or the metadata can fail at all
    var d: Durable

    constructor (d: Durable, mayFail: bool)
      requires Sound(d)
      ensures this.d == d && Sound(this.d) && this.mayFail == mayFail
    {
      this.d, this.mayFail := d, mayFail;
    }

    method Fails() returns (fails: bool)
      ensures fails ==> mayFail
    {
      fails := *;
      fails := fails && mayFail;
    }

    /** One call on the log, the stores or the metadata, which may fail and then does nothing. */
    method Call(t: Task) returns (ok: bool)
      modifies this
      ensures ok && t.stage.AtRemove? ==> RemoveMeta(old(d), t.kb, t.version).Ok?
      ensures !ok ==> mayFail || (t.stage.AtRemove? && RemoveMeta(old(d), t.kb, t.version).Err?)
      ensures d == Effect(old(d), t, ok)
    {
      var fails := Fails();
      if fails { return false; }
      match t.stage {
        case AtMark => d := PutMark(d, t.kb, t.version);
        case AtNote => d := NoteTombstone(d, t.version);
        case AtReclaim(l) => d := Reclaim(d, t.version, l);
        case AtRemove(_) =>
          var r := RemoveMeta(d, t.kb, t.version);
          if r.Err? { return false; }
          d := r.value;
        case AtComplete(_) => d := PutComplete(d, t.version);
        case AtSettle => d := MarkTombstoneDone(d, t.version);
      }
      ok := true;
    }

    /** Drops the version store by store, in order; stops at the first that fails. */
    method ReclaimLayers(kb: Kb, v: Version, resuming: bool) returns (reclaimed: bool)
      requires Sound(d) && TaskSound(d, Task(kb, v, resuming, AtReclaim(Chunks)))
      modifies this
      ensures Sound(d) && TaskSound(d, Task(kb, v, resuming, AtRemove(reclaimed)))
      ensures d == old(d).(bytes := d.bytes) && OnlyOf(old(d), d, v)
      ensures if reclaimed then forall l :: (v, l) !in d.bytes else mayFail
    {
      var l := Chunks;
      while true
        invariant Sound(d) && TaskSound(d, Task(kb, v, resuming, AtReclaim(l)))
        invariant d == old(d).(bytes := d.bytes) && d.bytes - LayersOf(v) == old(d).bytes - LayersOf(v)
        decreases 5 - Position(l)
      {
        var t := Task(kb, v, resuming, AtReclaim(l));
        EffectKeepsSound(d, t, true);
        EffectKeepsSound(d, t, false);
        EffectTouchesOnly(d, t, true);
        var ok := Call(t);
        if !ok { return false; }
        if NextLayer(l).None? { return true; }
        l := NextLayer(l).value;
      }
    }

    /** The steps both flows end with: remove the metadata, then write the completion. */
    method RemoveAndComplete(kb: Kb, v: Version, resuming: bool, reclaimed: bool) returns (r: Result<(), Fault>)
      requires Sound(d) && TaskSound(d, Task(kb, v, resuming, AtRemove(reclaimed)))
      modifies this
      ensures Sound(d) && d.bytes == old(d.bytes) && OnlyOf(old(d), d, v) && Kept(old(d), d, v)
      ensures d.marked == old(d.marked) && d.tombstones == old(d.tombstones) && (v in d.metas ==> v in old(d.metas))
      ensures r.Ok? ==> Closed(d, v) && (v in old(d.metas) ==> v in d.deletions)
      ensures r.Err? ==> r.error in {LogFailed, MetadataFailed} && mayFail
    {
      var t := Task(kb, v, resuming, AtRemove(reclaimed));
      EffectKeepsSound(d, t, true);
      var ok := Call(t);
      if !ok { return Err(MetadataFailed); }
      t := t.(stage := AtComplete(reclaimed));
      EffectKeepsSound(d, t, true);
      ok := Call(t);
      if !ok { return Err(LogFailed); }
      r := Ok(());
    }

    /**
      Cleans up one version marked Deleting; a failed reclaim is reported, and the version is
      deleted all the same. Success leaves the mark, the deletion and the completion on record
      and nothing in any store.
    */
    method DeleteOne(kb: Kb, v: Version) returns (r: Result<(), Fault>)
      requires Sound(d) && TaskSound(d, Task(kb, v, false, AtMark))
      modifies this
      ensures Sound(d) && OnlyOf(old(d), d, v) && Kept(old(d), d, v) && d.tombstones == old(d.tombstones)
      ensures r.Ok? || r == Err(Unreclaimed) ==>
        && v in d.done && v !in d.metas && v in d.marked && d.marked[v] == kb
        && (v in old(d.metas) ==> v in d.deletions)
      ensures r.Ok? ==> forall l :: (v, l) !in d.bytes
      ensures r.Err? ==> mayFail
    {
      var t := Task(kb, v, false, AtMark);
      EffectKeepsSound(d, t, true);
      var ok := Call(t);
      if !ok { return Err(LogFailed); }
      var reclaimed := ReclaimLayers(kb, v, false);
      r := RemoveAndComplete(kb, v, false, reclaimed);
      if r.Ok? && !reclaimed { r := Err(Unreclaimed); }
    }

    /**
      Finishes the delete a log record names, tombstone first; it does not need the metadata to
      find its work. Success leaves nothing in any store and the tombstone paid; a reclaim that
      does not finish is never recorded as paid.
    */
    method ResumeVersionDelete(kb: Kb, v: int) returns (r: Result<(), Fault>)
      requires Sound(d) && (v > 0 ==> TaskSound(d, Task(kb, v, true, AtMark)))
      modifies this
      ensures r == Err(InvalidVersion) <==> v <= 0
      ensures v <= 0 ==> d == old(d)
      ensures v > 0 ==> Sound(d) && OnlyOf(old(d), d, v) && Kept(old(d), d, v)
      ensures v > 0 && (r.Ok? || r.error in {Unreclaimed, TombstoneFailed}) ==> v in d.done && v !in d.metas
      ensures v > 0 && (r.Ok? || r.error == TombstoneFailed) ==> forall l :: (v, l) !in d.bytes
      ensures r.Ok? ==> v in d.tombstones && d.tombstones[v] == false
      ensures v > 0 && r.Err? && r.error != TombstoneFailed && v in d.tombstones && d.tombstones[v] == false ==>
        v in old(d.tombstones) && old(d.tombstones)[v] == false
      ensures v > 0 && r.Err? ==> mayFail
    {
      if v <= 0 { return Err(InvalidVersion); }
      var marked, noted := MarkAndNote(kb, v);
      if !marked { return Err(LogFailed); }
      var reclaimed;
      reclaimed, r := ReclaimAndFinish(kb, v);
      if r.Err? { return; }
      if !reclaimed { return Err(Unreclaimed); }
      var t := Task(kb, v, true, AtSettle);
      EffectKeepsSound(d, t, true);
      var settled := Call(t);
      r := if noted && settled then Ok(()) else Err(TombstoneFailed);
    }

    /** The mark, and then the tombstone, whose failure stops nothing. */
    method MarkAndNote(kb: Kb, v: Version) returns (marked: bool, noted: bool)
      requires Sound(d) && TaskSound(d, Task(kb, v, true, AtMark))
      modifies this
      ensures Sound(d) && OnlyOf(old(d), d, v) && Kept(old(d), d, v)
      ensures marked ==> TaskSound(d, Task(kb, v, true, AtReclaim(Chunks)))
      ensures noted ==> v in d.tombstones
      ensures v in d.tombstones && d.tombstones[v] == false ==> v in old(d.tombstones) && old(d.tombstones)[v] == false
      ensures !marked || !noted ==> mayFail
    {
      var t := Task(kb, v, true, AtMark);
      EffectKeepsSound(d, t, true);
      marked := Call(t);
      if !marked { return false, false; }
      t := t.(stage := AtNote);
      EffectKeepsSound(d, t, true);
      EffectKeepsSound(d, t, false);
      noted := Call(t);
    }

    /** The reclaim, which may fail, and what follows it. */
    method ReclaimAndFinish(kb: Kb, v: Version) returns (reclaimed: bool, r: Result<(), Fault>)
      requires Sound(d) && TaskSound(d, Task(kb, v, true, AtReclaim(Chunks)))
      modifies this
      ensures Sound(d) && OnlyOf(old(d), d, v) && Kept(old(d), d, v) && d.tombstones == old(d.tombstones)
      ensures v in d.marked && d.marked[v] == kb && v < d.next
      ensures r.Ok? ==> Closed(d, v)
      ensures r.Err? ==> r.error in {LogFailed, MetadataFailed} && mayFail
      ensures r.Ok? && reclaimed ==> !HasBytes(d, v)
      ensures !reclaimed ==> mayFail
    {
      reclaimed := ReclaimLayers(kb, v, true);
      r := RemoveAndComplete(kb, v, true, reclaimed);
    }

    /** Cleans up every version of a knowledge base that is marked Deleting, stopping at the first failure. */
    method Execute(kb: Kb) returns (r: Result<(), Fault>)
      requires Sound(d)
      modifies this
      ensures Sound(d) && Progressed(old(d), d)
      ensures r.Ok? ==> forall v :: v in old(d.metas) && old(d.metas)[v] == Meta(kb, true) ==> v in d.done && v !in d.metas
      ensures forall v :: v in old(d.metas) && old(d.metas)[v] != Meta(kb, true) ==> v in d.metas && d.metas[v] == old(d.metas)[v]
      ensures forall v :: v in d.metas ==> v in old(d.metas) && d.metas[v] == old(d.metas)[v]
      ensures r.Err? ==> mayFail
    {
      var fails := Fails();
      if fails { return Err(ListFailed); }
      var rest := set v | v in d.metas && d.metas[v].kb == kb && d.metas[v].deleting;
      while rest != {}
        invariant Sound(d) && Progressed(old(d), d)
        invariant forall v :: v in rest ==> v in d.metas && d.metas[v] == Meta(kb, true)
        invariant forall v :: v in old(d.metas) && old(d.metas)[v] == Meta(kb, true) ==> v in rest || Closed(d, v)
        invariant forall v :: v in old(d.metas) && old(d.metas)[v] != Meta(kb, true) ==> v in d.metas && d.metas[v] == old(d.metas)[v]
        invariant forall v :: v in d.metas ==> v in old(d.metas) && d.metas[v] == old(d.metas)[v]
        decreases rest
      {
        var v :| v in rest;
        ghost var before := d;
        r := DeleteOne(kb, v);
        OneMoreProgressed(old(d), before, d, v);
        ClosedElsewhere(before, d, v);
        if r.Err? { return; }
        rest := rest - {v};
      }
      r := Ok(());
    }

    /**
      Startup: resumes every open mark by name, then sweeps its siblings; what fails is counted
      and left for the next start. When nothing fails, every recovered record is closed, and so
      is every version marked Deleting in the knowledge bases they name.
    */
    method RunCrashRecovery(records: seq<(Kb, Version)>) returns (unpaid: set<(Kb, Version)>)
      requires Sound(d)
      requires forall rec :: rec in records ==> rec.1 in d.marked && d.marked[rec.1] == rec.0
      modifies this
      ensures Sound(d) && Progressed(old(d), d)
      ensures forall rec :: rec in unpaid ==> rec in records && (mayFail || rec.1 == 0)
      ensures forall rec :: rec in records && rec !in unpaid ==> rec.1 in d.done && rec.1 !in d.metas
      ensures !mayFail ==> forall rec, v :: rec in records && rec.1 > 0 && v in old(d.metas) && old(d.metas)[v] == Meta(rec.0, true) ==>
        v in d.done && v !in d.metas
    {
      unpaid := {};
      for i := 0 to |records|
        invariant Sound(d) && Progressed(old(d), d) && MetasSettled(old(d), d, mayFail)
        invariant forall rec :: rec in unpaid ==> rec in records && (mayFail || rec.1 == 0)
        invariant forall rec :: rec in records[..i] && rec !in unpaid ==> Closed(d, rec.1)
        invariant !mayFail ==> forall rec, v ::
          rec in records[..i] && rec.1 > 0 && v in old(d.metas) && old(d.metas)[v] == Meta(rec.0, true) ==> Closed(d, v)
      {
        assert records[i] in records && records[..i + 1] == records[..i] + [records[i]];
        var paid := RecoverOne(records[i].0, records[i].1, old(d));
        if !paid {
          unpaid := unpaid + {records[i]};
        }
      }
      assert records[..|records|] == records;
    }

    /** One record: resume it, and if that went well clean up its siblings, whose failure is not the record's. */
    method RecoverOne(kb: Kb, v: Version, ghost start: Durable) returns (paid: bool)
      requires Sound(d) && v in d.marked && d.marked[v] == kb && Progressed(start, d) && MetasSettled(start, d, mayFail)
      modifies this
      ensures Sound(d) && Progressed(old(d), d) && Progressed(start, d) && MetasSettled(start, d, mayFail)
      ensures if paid then Closed(d, v) else mayFail || v == 0
      ensures !mayFail && v > 0 ==> forall w :: w in start.metas && start.metas[w] == Meta(kb, true) ==> Closed(d, w)
    {
      ghost var before := d;
      var r := ResumeVersionDelete(kb, v);
      OneMoreProgressed(before, before, d, v);
      ClosedElsewhere(before, d, v);
      SettledAfter(start, before, d, v, mayFail, r.Ok?);
      if r.Err? { return false; }
      ghost var resumed := d;
      var swept := Execute(kb);
      forall w | w in start.metas ensures if w in d.metas then d.metas[w] == start.metas[w] else mayFail || w in d.done {
        assert w in resumed.metas || mayFail || Closed(resumed, w);
      }
      paid := true;
    }
  }

  /** Every version known at the start is unchanged in the metadata or gone, and completed unless something can fail. */
  ghost predicate MetasSettled(start: Durable, d: Durable, mayFail: bool) {
    forall v :: v in start.metas ==> if v in d.metas then d.metas[v] == start.metas[v] else mayFail || v in d.done
  }

  lemma SettledAfter(start: Durable, d: Durable, d': Durable, v: Version, mayFail: bool, closed: bool)
    requires Sound(d) && Sound(d') && MetasSettled(start, d, mayFail) && OnlyOf(d, d', v) && Kept(d, d', v)
    requires v in d.marked && (closed ==> Closed(d', v)) && (!closed ==> mayFail || d' == d)
    ensures MetasSettled(start, d', mayFail)
  {
    forall w | w in start.metas ensures if w in d'.metas then d'.metas[w] == start.metas[w] else mayFail || w in d'.done {
      if w != v {
        assert w in d.metas - {v} <==> w in d'.metas - {v};
        assert w in d.metas ==> (d.metas - {v})[w] == (d'.metas - {v})[w];
        assert w in d.done - {v} <==> w in d'.done - {v};
      }
    }
  }

  /** What no call takes back: marks, and closed deletes. */
  ghost predicate Progressed(d: Durable, d': Durable) {
    && (forall v :: v in d.marked ==> v in d'.marked && d'.marked[v] == d.marked[v])
    && (forall v :: Closed(d, v) ==> Closed(d', v))
  }

  lemma OneMoreProgressed(d0: Durable, d: Durable, d': Durable, v: Version)
    requires Progressed(d0, d) && OnlyOf(d, d', v) && Sound(d) && Sound(d')
    requires Kept(d, d', v)
    ensures Progressed(d0, d')
  {
    forall w | w in d.marked ensures w in d'.marked && d'.marked[w] == d.marked[w] {
      assert w != v ==> w in d.marked - {v} && w in d'.marked - {v};
    }
    forall w | Closed(d, w) ensures Closed(d', w) {
      ClosedStays(d, d', v, w);
    }
  }

  lemma ClosedElsewhere(d: Durable, d': Durable, v: Version)
    requires OnlyOf(d, d', v)
    ensures forall w :: w != v ==> (Closed(d, w) <==> Closed(d', w))
    ensures forall w :: w != v && w in d.metas ==> w in d'.metas && d'.metas[w] == d.metas[w]
    ensures forall w :: w != v && w in d'.metas ==> w in d.metas
  {
    forall w | w != v ensures Closed(d, w) <==> Closed(d', w) {
      assert w in d.done - {v} <==> w in d'.done - {v};
      assert w in d.metas - {v} <==> w in d'.metas - {v};
    }
    forall w | w != v && w in d'.metas ensures w in d.metas {
      assert w in d'.metas - {v};
    }
    forall w | w != v && w in d.metas ensures w in d'.metas && d'.metas[w] == d.metas[w] {
      assert w in d.metas - {v} && w in d'.metas - {v};
      assert (d.metas - {v})[w] == (d'.metas - {v})[w];
    }
  }
}
