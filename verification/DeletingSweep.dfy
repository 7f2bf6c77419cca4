/**
  The sweep that picks up version deletes nobody finished. Knowledge bases with a new
  Deleting version are put in a dirty set by the apply path; a pass takes the whole set and
  works through it, putting back whatever it could not finish with.
*/
module DeletingSweep {
  type Kb = string
  type Version = nat

  /** What the pass under way is doing with the knowledge base it is at. */
  datatype Current =
    | Between
    | Reading(kb: Kb)                        // about to ask for its Deleting versions
    | Cleaning(kb: Kb)                       // about to list its versions
    | Removing(kb: Kb, todo: set<Version>)   // cleaning up the Deleting versions it listed

  datatype Pass = NoPass | Pass(rest: set<Kb>, current: Current)

  /**
    The versions marked Deleting in the metadata, the marks applied there whose knowledge
    base is not in the dirty set yet, the dirty set, the pass, and whether the process is
    shutting down.
  */
  datatype State = State(deleting: set<(Kb, Version)>, applying: set<Kb>, dirty: set<Kb>, pass: Pass, stopped: bool)

  datatype Step =
    | Mark(kb: Kb, version: Version)      // the mark is applied to the metadata...
    | NoteDirty(kb: Kb)                   // ...and then the apply path marks it dirty
    | RemoveMeta(kb: Kb, version: Version)
    | RemoveKb(kb: Kb)
    | Install(deleting: set<(Kb, Version)>)  // a snapshot replaces the metadata...
    | NoteAll(kbs: set<Kb>)               // ...and then every knowledge base is marked dirty
    | Take
    | Next(kb: Kb)
    | ReadFails
    | ReadNothing
    | ReadSome
    | ListFails
    | List
    | RemoveOne(version: Version)
    | CleanupFails
    | CleanupDone
    | EndPass
    | Cancel
    | Restart(kbs: set<Kb>)

  function OfKb(deleting: set<(Kb, Version)>, kb: Kb): set<Version> {
    set p | p in deleting && p.0 == kb :: p.1
  }

  /** MarkDeletingDirty, which ignores an empty ID. */
  function MarkDirty(dirty: set<Kb>, kb: Kb): set<Kb> {
    if kb == "" then dirty else dirty + {kb}
  }

  ghost predicate At(s: State) {
    !s.stopped && s.pass.Pass?
  }

  ghost predicate Enabled(s: State, a: Step) {
    match a
    case Mark(_, _) => !s.stopped
    case NoteDirty(kb) => !s.stopped && kb in s.applying
    case RemoveMeta(_, _) => true
    case RemoveKb(_) => true
    case Install(_) => !s.stopped
    case NoteAll(kbs) => !s.stopped && s.applying <= kbs
    case Take => !s.stopped && s.pass.NoPass?
    case Next(kb) => At(s) && s.pass.current.Between? && kb in s.pass.rest
    case ReadFails => At(s) && s.pass.current.Reading?
    case ReadNothing => At(s) && s.pass.current.Reading? && OfKb(s.deleting, s.pass.current.kb) == {}
    case ReadSome => At(s) && s.pass.current.Reading? && OfKb(s.deleting, s.pass.current.kb) != {}
    case ListFails => At(s) && s.pass.current.Cleaning?
    case List => At(s) && s.pass.current.Cleaning?
    case RemoveOne(v) => At(s) && s.pass.current.Removing? && v in s.pass.current.todo
    case CleanupFails => At(s) && s.pass.current.Removing?
    case CleanupDone => At(s) && s.pass.current.Removing? && s.pass.current.todo == {}
    case EndPass => At(s) && s.pass.current.Between? && s.pass.rest == {}
    case Cancel => !s.stopped
    case Restart(kbs) => s.stopped && forall p :: p in s.deleting ==> p.0 in kbs
  }

  ghost function GiveBack(s: State): State
    requires s.pass.Pass? && !s.pass.current.Between?
  {
    s.(dirty := MarkDirty(s.dirty, s.pass.current.kb), pass := s.pass.(current := Between))
  }

  ghost function Apply(s: State, a: Step): State
    requires Enabled(s, a)
  {
    match a
    case Mark(kb, v) => s.(deleting := s.deleting + {(kb, v)}, applying := s.applying + {kb})
    case NoteDirty(kb) => s.(applying := s.applying - {kb}, dirty := MarkDirty(s.dirty, kb))
    case RemoveMeta(kb, v) => s.(deleting := s.deleting - {(kb, v)})
    case RemoveKb(kb) => s.(deleting := set p | p in s.deleting && p.0 != kb)
    case Install(d) => s.(deleting := d, applying := s.applying + set p | p in d :: p.0)
    case NoteAll(kbs) => s.(applying := {}, dirty := s.dirty + kbs)
    case Take => s.(dirty := {}, pass := Pass(s.dirty, Between))
    case Next(kb) => s.(pass := Pass(s.pass.rest - {kb}, Reading(kb)))
    case ReadFails => GiveBack(s)
    case ReadNothing => s.(pass := s.pass.(current := Between))
    case ReadSome => s.(pass := s.pass.(current := Cleaning(s.pass.current.kb)))
    case ListFails => GiveBack(s)
    case List => s.(pass := s.pass.(current := Removing(s.pass.current.kb, OfKb(s.deleting, s.pass.current.kb))))
    case RemoveOne(v) =>
      var c := s.pass.current;
      s.(deleting := s.deleting - {(c.kb, v)}, pass := s.pass.(current := Removing(c.kb, c.todo - {v})))
    case CleanupFails => GiveBack(s)
    case CleanupDone => s.(pass := s.pass.(current := Between))
    case EndPass => s.(pass := NoPass)
    case Cancel => s.(stopped := true)
    case Restart(kbs) => State(s.deleting, {}, kbs, NoPass, false)
  }

  /** Somebody will still come to version `v` of `kb`. */
  ghost predicate Covered(s: State, kb: Kb, v: Version) {
    || kb in s.dirty || kb in s.applying
    || (s.pass.Pass? &&
        (|| kb in s.pass.rest
         || (s.pass.current.Reading? && s.pass.current.kb == kb)
         || (s.pass.current.Cleaning? && s.pass.current.kb == kb)
         || (s.pass.current.Removing? && s.pass.current.kb == kb && v in s.pass.current.todo)))
  }

  ghost predicate Inv(s: State) {
    !s.stopped ==> forall kb, v :: (kb, v) in s.deleting && kb != "" ==> Covered(s, kb, v)
  }

  /** A process that has started and marked everything dirty. */
  ghost predicate Init(s: State) {
    s == State(s.deleting, {}, s.dirty, NoPass, false) && forall p :: p in s.deleting ==> p.0 in s.dirty
  }

  lemma StepKeepsInv(s: State, a: Step)
    requires Inv(s) && Enabled(s, a)
    ensures Inv(Apply(s, a))
  {
    var s' := Apply(s, a);
    if !s'.stopped {
      forall kb, v | (kb, v) in s'.deleting && kb != "" ensures Covered(s', kb, v) {
        if !s.stopped && (kb, v) in s.deleting {
          assert Covered(s, kb, v);
          assert v in OfKb(s.deleting, kb);
        } else if s.stopped {
          assert (kb, v).0 in a.kbs;
        }
      }
    }
  }

  ghost predicate IsRun(s: State, steps: seq<Step>)
    decreases |steps|
  {
    steps != [] ==> Enabled(s, steps[0]) && IsRun(Apply(s, steps[0]), steps[1..])
  }

  ghost function RunTo(s: State, steps: seq<Step>): State
    requires IsRun(s, steps)
    decreases |steps|
  {
    if steps == [] then s else RunTo(Apply(s, steps[0]), steps[1..])
  }

  lemma {:induction false} RunKeepsInv(s: State, steps: seq<Step>)
    requires Inv(s) && IsRun(s, steps)
    ensures Inv(RunTo(s, steps))
    decreases |steps|
  {
    if steps != [] {
      StepKeepsInv(s, steps[0]);
      RunKeepsInv(Apply(s, steps[0]), steps[1..]);
    }
  }

  /** The knowledge bases the pass under way has not finished with. */
  ghost function Unfinished(p: Pass): set<Kb> {
    if p.NoPass? then {} else p.rest + if p.current.Between? then {} else {p.current.kb}
  }

  /**
    No lost delete: at every point of every run that is not shutting down, whatever reads,
    listings and cleanups failed, a knowledge base with a Deleting version is in the dirty
    set, among the pass's unfinished ones, or about to be marked dirty by the apply that
    marked the version.
  */
  lemma NoLostDelete(s: State, steps: seq<Step>, kb: Kb, v: Version)
    requires Init(s) && IsRun(s, steps) && !RunTo(s, steps).stopped
    requires kb != "" && (kb, v) in RunTo(s, steps).deleting
    ensures var s' := RunTo(s, steps); kb in s'.dirty + Unfinished(s'.pass) + s'.applying
  {
    assert forall k, w :: (k, w) in s.deleting ==> (k, w).0 in s.dirty;
    RunKeepsInv(s, steps);
    assert Covered(RunTo(s, steps), kb, v);
  }

  /**
    MarkDeletingDirty ignores an empty ID, which the service never mints. Had a knowledge base
    one, it would come to a pass only after a restart or a snapshot marked everything dirty.
  */
  lemma {:induction false} EmptyIdWaitsForMarkAll(s: State, steps: seq<Step>)
    requires IsRun(s, steps) && "" !in s.dirty + Unfinished(s.pass)
    requires forall i :: 0 <= i < |steps| ==> !steps[i].Restart? && !steps[i].NoteAll?
    ensures "" !in RunTo(s, steps).dirty + Unfinished(RunTo(s, steps).pass)
    decreases |steps|
  {
    if steps != [] {
      EmptyIdWaitsForMarkAll(Apply(s, steps[0]), steps[1..]);
    }
  }

  /** At every point of every run, each Deleting version of the knowledge base is covered. */
  ghost predicate AlwaysCovered(kb: Kb) {
    forall s, steps, v: Version ::
      Init(s) && IsRun(s, steps) && !RunTo(s, steps).stopped && (kb, v) in RunTo(s, steps).deleting ==>
        kb in RunTo(s, steps).dirty + Unfinished(RunTo(s, steps).pass) + RunTo(s, steps).applying
  }

  /** Exactly the knowledge bases with an ID are. */
  lemma AlwaysCoveredIff(kb: Kb)
    ensures AlwaysCovered(kb) <==> kb != ""
  {
    if kb != "" {
      forall s, steps, v: Version
        | Init(s) && IsRun(s, steps) && !RunTo(s, steps).stopped && (kb, v) in RunTo(s, steps).deleting
        ensures kb in RunTo(s, steps).dirty + Unfinished(RunTo(s, steps).pass) + RunTo(s, steps).applying
      {
        NoLostDelete(s, steps, kb, v);
      }
    } else {
      var s := State({}, {}, {}, NoPass, false);
      var s1 := Apply(s, Mark("", 1));
      var s2 := Apply(s1, NoteDirty(""));
      var steps := [Mark("", 1), NoteDirty("")];
      assert steps[1..] == [NoteDirty("")] && steps[1..][1..] == [];
      assert IsRun(s2, []) && RunTo(s2, []) == s2;
      assert IsRun(s1, steps[1..]) && RunTo(s1, steps[1..]) == s2;
      assert Init(s) && IsRun(s, steps) && RunTo(s, steps) == s2;
      assert ("", 1) in s2.deleting;
    }
  }

  // ---------------------------------------------------------------- one pass

  /** Each Deleting version's knowledge base is dirty, about to be, in `extra`, or the version is in `todo` of `at`. */
  ghost predicate AllCovered(
    deleting: set<(Kb, Version)>, applying: set<Kb>, dirty: set<Kb>, extra: set<Kb>, at: Kb, todo: set<Version>)
  {
    forall kb, v :: (kb, v) in deleting && kb != "" ==>
      kb in dirty || kb in applying || kb in extra || (kb == at && v in todo)
  }

  class DeletingVersionSweeper {
    const mayFail: bool               // whether a metadata read, a listing or a cleanup can fail at all
    const mayCancel: bool             // whether the pass can be cancelled
    var deleting: set<(Kb, Version)>
    var dirty: set<Kb>
    var removed: set<(Kb, Version)>   // versions whose metadata is gone; IDs are never used again
    ghost var applying: set<Kb>

    ghost predicate Safe(extra: set<Kb>, at: Kb, todo: set<Version>)
      reads this
    {
      AllCovered(deleting, applying, dirty, extra, at, todo) && deleting !! removed
    }

    constructor (deleting: set<(Kb, Version)>, mayFail: bool, mayCancel: bool)
      ensures this.deleting == deleting && removed == {} && Safe({}, "", {})
      ensures this.mayFail == mayFail && this.mayCancel == mayCancel
    {
      this.mayFail, this.mayCancel := mayFail, mayCancel;
      this.deleting, removed, dirty, applying := deleting, {}, set p | p in deleting :: p.0, {};
      new;
      forall kb, v | (kb, v) in deleting ensures kb in dirty {
        assert (kb, v).0 == kb;
      }
    }

    method Fails() returns (fails: bool)
      ensures fails ==> mayFail
    {
      fails := *;
      fails := fails && mayFail;
    }

    method Cancelled() returns (cancelled: bool)
      ensures cancelled ==> mayCancel
    {
      cancelled := *;
      cancelled := cancelled && mayCancel;
    }

    /** What the rest of the node may do between two calls of a pass: marks, notes and removals, any number of them. */
    method Others(ghost extra: set<Kb>, ghost at: Kb, ghost todo: set<Version>)
      requires Safe(extra, at, todo)
      modifies this
      ensures Safe(extra, at, todo) && old(dirty) <= dirty && old(removed) <= removed && old(deleting) <= deleting + removed
    {
      var n: nat :| n >= 0;
      for i := 0 to n
        invariant Safe(extra, at, todo) && old(dirty) <= dirty && old(removed) <= removed && old(deleting) <= deleting + removed
      {
        var kb: Kb, v: Version := *, *;
        var mark: bool := *;
        if mark && (kb, v) !in removed {
          deleting := deleting + {(kb, v)};
          applying := applying + {kb};
        } else if * {
          dirty := MarkDirty(dirty, kb);
          applying := applying - {kb};
        } else {
          deleting, removed := deleting - {(kb, v)}, removed + {(kb, v)};
        }
      }
    }

    /** Cleans up the Deleting versions listed at the start; stops at the first failure. */
    method Execute(kb: Kb, ghost extra: set<Kb>) returns (ok: bool)
      requires Safe(extra + {kb}, "", {})
      modifies this
      ensures Safe(if ok then extra else extra + {kb}, "", {}) && old(dirty) <= dirty
      ensures old(removed) <= removed && old(deleting) <= deleting + removed
      ensures ok ==> forall v :: (kb, v) in old(deleting) ==> (kb, v) in removed && (kb, v) !in deleting
      ensures !ok ==> mayFail
    {
      var fails := Fails();
      if fails { return false; }
      var todo := OfKb(deleting, kb);
      OfKbIs(deleting, kb);
      while todo != {}
        invariant Safe(extra, kb, todo) && old(dirty) <= dirty
        invariant old(removed) <= removed && old(deleting) <= deleting + removed
        invariant forall v :: (kb, v) in old(deleting) ==> v in todo || (kb, v) in removed
        decreases todo
      {
        Others(extra, kb, todo);
        fails := Fails();
        if fails { return false; }
        var v :| v in todo;
        deleting, removed := deleting - {(kb, v)}, removed + {(kb, v)};
        todo := todo - {v};
      }
      ok := true;
    }

    /** One knowledge base of a pass: whether it had Deleting versions and they were cleaned up, and whether something failed. */
    method SweepOne(kb: Kb, ghost others: set<Kb>) returns (resumed: bool, failed: bool)
      requires Safe(others + {kb}, "", {})
      modifies this
      ensures Safe(others, "", {})
      ensures old(removed) <= removed && old(deleting) <= deleting + removed
      ensures !failed ==> forall v :: (kb, v) in old(deleting) ==> (kb, v) in removed
      ensures resumed ==> !failed && exists v :: (kb, v) in removed
      ensures failed ==> mayFail && (kb != "" ==> kb in dirty)
    {
      Others(others + {kb}, "", {});
      var fails := Fails();
      if fails {
        dirty := MarkDirty(dirty, kb);
        return false, true;
      }
      var ids := OfKb(deleting, kb);
      OfKbIs(deleting, kb);
      if ids == {} { return false, false; }
      ghost var v :| v in ids;
      Others(others + {kb}, "", {});
      var ok := Execute(kb, others);
      if !ok {
        dirty := MarkDirty(dirty, kb);
        return false, true;
      }
      assert (kb, v) in removed;
      return true, false;
    }

    /**
      One pass over the dirty set. Unless it is cancelled, every knowledge base that still has
      a Deleting version when it returns is dirty again (or about to be): nothing is lost,
      whatever failed and whatever was marked meanwhile. If nothing failed either, every
      version that was Deleting in a dirty knowledge base at the start has been removed. Only
      knowledge bases whose Deleting versions were removed are counted: those in `cleaned`.
    */
    method SweepOnce() returns (resumed: nat, failed: bool, cancelled: bool, ghost cleaned: set<Kb>)
      requires Safe({}, "", {})
      modifies this
      ensures !cancelled ==> Safe({}, "", {})
      ensures !failed && !cancelled ==>
        forall kb, v :: kb in old(dirty) && (kb, v) in old(deleting) ==> (kb, v) in removed
      ensures resumed == |cleaned| && cleaned <= old(dirty)
      ensures forall kb :: kb in cleaned ==> exists v :: (kb, v) in removed
      ensures forall kb, v :: kb in cleaned && (kb, v) in old(deleting) ==> (kb, v) in removed
      ensures failed && !cancelled ==> mayFail
      ensures cancelled ==> mayCancel
    {
      var rest := dirty;
      dirty, resumed, failed, cleaned := {}, 0, false, {};
      while rest != {}
        invariant Safe(rest, "", {}) && rest <= old(dirty)
        invariant old(removed) <= removed && old(deleting) <= deleting + removed
        invariant resumed == |cleaned| && cleaned <= old(dirty) - rest
        invariant forall kb :: kb in cleaned ==> exists v :: (kb, v) in removed
        invariant forall kb, v :: kb in cleaned && (kb, v) in old(deleting) ==> (kb, v) in removed
        invariant !failed ==> forall kb, v :: kb in old(dirty) - rest && (kb, v) in old(deleting) ==> (kb, v) in removed
        invariant failed ==> mayFail
        decreases rest
      {
        var stop := Cancelled();
        if stop { return resumed, true, true, cleaned; }
        var kb :| kb in rest;
        assert (rest - {kb}) + {kb} == rest;
        rest := rest - {kb};
        var done, fault := SweepOne(kb, rest);
        if fault { failed := true; }
        if done {
          resumed, cleaned := resumed + 1, cleaned + {kb};
        }
      }
      cancelled := false;
    }
  }

  /** The versions of one knowledge base in a set of them. */
  lemma OfKbIs(deleting: set<(Kb, Version)>, kb: Kb)
    ensures forall v :: v in OfKb(deleting, kb) <==> (kb, v) in deleting
  {
    forall v | (kb, v) in deleting ensures v in OfKb(deleting, kb) {
      assert (kb, v).0 == kb && (kb, v).1 == v;
    }
  }
}
