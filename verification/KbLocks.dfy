/**
  The reference-counted set of per-knowledge-base locks. A call of Lock and its release
  closure run in four critical sections (count in, acquire the mutex, release the mutex,
  count out), and the sections of different callers interleave in any order.
*/
module KbLocks {
  type Kb = string
  type Caller = nat

  /** A kbLock object, told apart from every other by its identity. */
  type Entry = nat

  /** Where a caller stands between counting in and counting out. */
  datatype Place = Waiting(kb: Kb, entry: Entry) | Holding(kb: Kb, entry: Entry) | Releasing(kb: Kb, entry: Entry)

  /**
    The set's map, each entry's reference count, the callers whose entry's mutex is locked,
    the next object identity, and the callers between counting in and counting out.
  */
  datatype LockState = LockState(
    locks: map<Kb, Entry>, refs: map<Entry, int>, owner: map<Entry, Caller>, next: Entry, callers: map<Caller, Place>)

  datatype Section = CountIn(caller: Caller, kb: Kb) | Acquire(caller: Caller) | Unlock(caller: Caller) | CountOut(caller: Caller)

  ghost predicate Enabled(s: LockState, a: Section) {
    match a
    case CountIn(t, _) => t !in s.callers
    case Acquire(t) => t in s.callers && s.callers[t].Waiting? && s.callers[t].entry !in s.owner
    case Unlock(t) => t in s.callers && s.callers[t].Holding?
    case CountOut(t) => t in s.callers && s.callers[t].Releasing? && s.callers[t].entry in s.refs
  }

  ghost function Apply(s: LockState, a: Section): LockState
    requires Enabled(s, a)
  {
    match a
    case CountIn(t, kb) =>
      if kb in s.locks then
        var e := s.locks[kb];
        var n := if e in s.refs then s.refs[e] else 0;
        s.(refs := s.refs[e := n + 1], callers := s.callers[t := Waiting(kb, e)])
      else
        s.(locks := s.locks[kb := s.next], refs := s.refs[s.next := 1], next := s.next + 1,
           callers := s.callers[t := Waiting(kb, s.next)])
    case Acquire(t) =>
      var p := s.callers[t];
      s.(owner := s.owner[p.entry := t], callers := s.callers[t := Holding(p.kb, p.entry)])
    case Unlock(t) =>
      var p := s.callers[t];
      s.(owner := s.owner - {p.entry}, callers := s.callers[t := Releasing(p.kb, p.entry)])
    case CountOut(t) =>
      var p := s.callers[t];
      var n := s.refs[p.entry] - 1;
      s.(refs := s.refs[p.entry := n], locks := if n == 0 then s.locks - {p.kb} else s.locks, callers := s.callers - {t})
  }

  /** The callers counted in on an entry. */
  ghost function Users(callers: map<Caller, Place>, e: Entry): set<Caller> {
    set t | t in callers && callers[t].entry == e
  }

  /** Everyone between counting in and counting out is on the entry the map holds. */
  ghost predicate OnCurrentEntry(locks: map<Kb, Entry>, callers: map<Caller, Place>) {
    forall t :: t in callers ==> callers[t].kb in locks && locks[callers[t].kb] == callers[t].entry
  }

  /** An entry is one knowledge base's. */
  ghost predicate Injective(locks: map<Kb, Entry>, next: Entry) {
    && (forall kb :: kb in locks ==> locks[kb] < next)
    && (forall kb, kb' :: kb in locks && kb' in locks && locks[kb] == locks[kb'] ==> kb == kb')
  }

  /** An entry of the map counts its users, and is there because it has some. */
  ghost predicate Counted(locks: map<Kb, Entry>, refs: map<Entry, int>, callers: map<Caller, Place>) {
    forall kb :: kb in locks ==> CountedEntry(locks[kb], refs, callers)
  }

  ghost predicate CountedEntry(e: Entry, refs: map<Entry, int>, callers: map<Caller, Place>) {
    e in refs && refs[e] == |Users(callers, e)| && refs[e] > 0
  }

  /** A mutex is locked exactly while one caller holds it. */
  ghost predicate Owned(owner: map<Entry, Caller>, callers: map<Caller, Place>) {
    && (forall e :: e in owner ==> HoldsEntry(callers, owner[e], e))
    && (forall t, e :: HoldsEntry(callers, t, e) ==> e in owner && owner[e] == t)
  }

  ghost predicate HoldsEntry(callers: map<Caller, Place>, t: Caller, e: Entry) {
    t in callers && callers[t].Holding? && callers[t].entry == e
  }

  ghost predicate Inv(s: LockState) {
    && OnCurrentEntry(s.locks, s.callers)
    && Injective(s.locks, s.next)
    && Counted(s.locks, s.refs, s.callers)
    && Owned(s.owner, s.callers)
  }

  ghost predicate Init(s: LockState) {
    s.locks == map[] && s.callers == map[] && s.owner == map[]
  }

  /** Counting in on entry `e` leaves every other entry's count right. */
  lemma CountInCounts(locks: map<Kb, Entry>, refs: map<Entry, int>, callers: map<Caller, Place>, t: Caller, p: Place)
    requires t !in callers && Counted(locks, refs, callers)
    requires p.kb in locks ==> locks[p.kb] == p.entry
    requires p.kb !in locks ==> Users(callers, p.entry) == {}
    ensures Counted(locks[p.kb := p.entry], refs[p.entry := |Users(callers, p.entry)| + 1], callers[t := p])
  {
    var callers' := callers[t := p];
    assert Users(callers', p.entry) == Users(callers, p.entry) + {t};
    forall e | e != p.entry ensures Users(callers', e) == Users(callers, e) {
    }
  }

  lemma CountInOwns(owner: map<Entry, Caller>, callers: map<Caller, Place>, t: Caller, p: Place)
    requires Owned(owner, callers) && t !in callers && p.Waiting?
    ensures Owned(owner, callers[t := p])
  {
    forall e | e in owner ensures HoldsEntry(callers[t := p], owner[e], e) {
      assert HoldsEntry(callers, owner[e], e);
    }
    var callers' := callers[t := p];
    forall u, e | HoldsEntry(callers', u, e) ensures e in owner && owner[e] == u {
      assert HoldsEntry(callers, u, e);
    }
  }

  lemma CountInOnExisting(s: LockState, t: Caller, kb: Kb)
    requires Inv(s) && t !in s.callers && kb in s.locks
    ensures Inv(Apply(s, CountIn(t, kb)))
  {
    var p := Waiting(kb, s.locks[kb]);
    assert CountedEntry(p.entry, s.refs, s.callers);
    assert s.locks[kb := p.entry] == s.locks;
    CountInCounts(s.locks, s.refs, s.callers, t, p);
    CountInOwns(s.owner, s.callers, t, p);
  }

  lemma CountInOnNew(s: LockState, t: Caller, kb: Kb)
    requires Inv(s) && t !in s.callers && kb !in s.locks
    ensures Inv(Apply(s, CountIn(t, kb)))
  {
    var p := Waiting(kb, s.next);
    NewEntryUnused(s.locks, s.next, s.callers);
    CountInCounts(s.locks, s.refs, s.callers, t, p);
    CountInOwns(s.owner, s.callers, t, p);
  }

  lemma CountInKeepsInv(s: LockState, t: Caller, kb: Kb)
    requires Inv(s) && t !in s.callers
    ensures Inv(Apply(s, CountIn(t, kb)))
  {
    if kb in s.locks {
      CountInOnExisting(s, t, kb);
    } else {
      CountInOnNew(s, t, kb);
    }
  }

  lemma NewEntryUnused(locks: map<Kb, Entry>, next: Entry, callers: map<Caller, Place>)
    requires OnCurrentEntry(locks, callers) && Injective(locks, next)
    ensures Users(callers, next) == {}
  {
  }

  lemma MovedCounts(locks: map<Kb, Entry>, refs: map<Entry, int>, callers: map<Caller, Place>, t: Caller, p: Place)
    requires Counted(locks, refs, callers) && t in callers && p.entry == callers[t].entry
    ensures Counted(locks, refs, callers[t := p])
  {
    forall e ensures Users(callers[t := p], e) == Users(callers, e) {
    }
  }

  lemma AcquireOwns(owner: map<Entry, Caller>, callers: map<Caller, Place>, t: Caller, p: Place)
    requires Owned(owner, callers) && t in callers && callers[t].Waiting?
    requires p.Holding? && p.entry == callers[t].entry && p.entry !in owner
    ensures Owned(owner[p.entry := t], callers[t := p])
  {
    var owner', callers' := owner[p.entry := t], callers[t := p];
    forall u, e | HoldsEntry(callers', u, e) ensures e in owner' && owner'[e] == u {
      assert u != t ==> HoldsEntry(callers, u, e);
    }
    forall e | e in owner' ensures HoldsEntry(callers', owner'[e], e) {
      assert e != p.entry ==> HoldsEntry(callers, owner[e], e);
    }
  }

  lemma UnlockOwns(owner: map<Entry, Caller>, callers: map<Caller, Place>, t: Caller, p: Place)
    requires Owned(owner, callers) && t in callers && callers[t].Holding?
    requires p.Releasing? && p.entry == callers[t].entry
    ensures Owned(owner - {p.entry}, callers[t := p])
  {
    assert HoldsEntry(callers, t, p.entry);
    var owner', callers' := owner - {p.entry}, callers[t := p];
    forall u, e | HoldsEntry(callers', u, e) ensures e in owner' && owner'[e] == u {
      assert HoldsEntry(callers, u, e);
    }
    forall e | e in owner' ensures HoldsEntry(callers', owner'[e], e) {
      assert HoldsEntry(callers, owner[e], e);
    }
  }

  lemma AcquireKeepsInv(s: LockState, t: Caller)
    requires Inv(s) && Enabled(s, Acquire(t))
    ensures Inv(Apply(s, Acquire(t)))
  {
    var p := Holding(s.callers[t].kb, s.callers[t].entry);
    MovedCounts(s.locks, s.refs, s.callers, t, p);
    AcquireOwns(s.owner, s.callers, t, p);
  }

  lemma UnlockKeepsInv(s: LockState, t: Caller)
    requires Inv(s) && Enabled(s, Unlock(t))
    ensures Inv(Apply(s, Unlock(t)))
  {
    var p := Releasing(s.callers[t].kb, s.callers[t].entry);
    MovedCounts(s.locks, s.refs, s.callers, t, p);
    UnlockOwns(s.owner, s.callers, t, p);
  }

  lemma CountOutCounts(locks: map<Kb, Entry>, refs: map<Entry, int>, callers: map<Caller, Place>, t: Caller)
    requires Counted(locks, refs, callers) && t in callers && callers[t].entry in refs
    requires forall kb :: kb in locks && locks[kb] == callers[t].entry ==> kb == callers[t].kb
    ensures var n := refs[callers[t].entry] - 1;
      Counted(if n == 0 then locks - {callers[t].kb} else locks, refs[callers[t].entry := n], callers - {t})
  {
    var e := callers[t].entry;
    assert t in Users(callers, e);
    assert Users(callers - {t}, e) == Users(callers, e) - {t};
    forall f | f != e ensures Users(callers - {t}, f) == Users(callers, f) {
    }
  }

  /** The last user leaves: nobody is left on the entry that goes away. */
  lemma LastOneOut(callers: map<Caller, Place>, t: Caller, u: Caller)
    requires t in callers && u in callers && callers[u].entry == callers[t].entry
    requires |Users(callers, callers[t].entry)| == 1
    ensures t == u
  {
    var users := Users(callers, callers[t].entry);
    assert u in users;
    assert |users - {t}| == 0;
  }

  lemma CountOutOwns(owner: map<Entry, Caller>, callers: map<Caller, Place>, t: Caller)
    requires Owned(owner, callers) && t in callers && callers[t].Releasing?
    ensures Owned(owner, callers - {t})
  {
    forall e | e in owner ensures HoldsEntry(callers - {t}, owner[e], e) {
      assert HoldsEntry(callers, owner[e], e);
    }
    forall u, e | HoldsEntry(callers - {t}, u, e) ensures e in owner && owner[e] == u {
      assert HoldsEntry(callers, u, e);
    }
  }

  lemma CountOutLeavesCurrent(locks: map<Kb, Entry>, refs: map<Entry, int>, callers: map<Caller, Place>, t: Caller)
    requires OnCurrentEntry(locks, callers) && t in callers && CountedEntry(callers[t].entry, refs, callers)
    ensures OnCurrentEntry(if refs[callers[t].entry] - 1 == 0 then locks - {callers[t].kb} else locks, callers - {t})
  {
    if refs[callers[t].entry] == 1 {
      forall u | u in callers && callers[u].kb == callers[t].kb ensures u == t {
        LastOneOut(callers, t, u);
      }
    }
  }

  lemma CountOutKeepsInv(s: LockState, t: Caller)
    requires Inv(s) && Enabled(s, CountOut(t))
    ensures Inv(Apply(s, CountOut(t)))
  {
    assert s.locks[s.callers[t].kb] == s.callers[t].entry;
    CountOutCounts(s.locks, s.refs, s.callers, t);
    CountOutLeavesCurrent(s.locks, s.refs, s.callers, t);
    CountOutOwns(s.owner, s.callers, t);
  }

  lemma SectionKeepsInv(s: LockState, a: Section)
    requires Inv(s) && Enabled(s, a)
    ensures Inv(Apply(s, a))
  {
    match a
    case CountIn(t, kb) => CountInKeepsInv(s, t, kb);
    case Acquire(t) => AcquireKeepsInv(s, t);
    case Unlock(t) => UnlockKeepsInv(s, t);
    case CountOut(t) => CountOutKeepsInv(s, t);
  }

  ghost predicate IsRun(s: LockState, sections: seq<Section>)
    decreases |sections|
  {
    sections != [] ==> Enabled(s, sections[0]) && IsRun(Apply(s, sections[0]), sections[1..])
  }

  ghost function RunTo(s: LockState, sections: seq<Section>): LockState
    requires IsRun(s, sections)
    decreases |sections|
  {
    if sections == [] then s else RunTo(Apply(s, sections[0]), sections[1..])
  }

  lemma {:induction false} RunKeepsInv(s: LockState, sections: seq<Section>)
    requires Inv(s) && IsRun(s, sections)
    ensures Inv(RunTo(s, sections))
    decreases |sections|
  {
    if sections != [] {
      SectionKeepsInv(s, sections[0]);
      RunKeepsInv(Apply(s, sections[0]), sections[1..]);
    }
  }

  /** The callers of one knowledge base. */
  ghost function UsersOf(s: LockState, kb: Kb): set<Caller> {
    set t | t in s.callers && s.callers[t].kb == kb
  }

  /** Users of one knowledge base are on one mutex, and at most one of them holds it. */
  lemma OneMutex(s: LockState, kb: Kb, t: Caller, u: Caller)
    requires Inv(s) && t in UsersOf(s, kb) && u in UsersOf(s, kb)
    ensures s.callers[t].entry == s.callers[u].entry
    ensures s.callers[t].Holding? && s.callers[u].Holding? ==> t == u
  {
    var e := s.callers[t].entry;
    if s.callers[t].Holding? && s.callers[u].Holding? {
      assert HoldsEntry(s.callers, t, e) && HoldsEntry(s.callers, u, e);
    }
  }

  /**
    Mutual exclusion, over every interleaving of the critical sections: two holders of one
    knowledge base's lock are one caller, all its users are on one and the same mutex, the
    entry's count is their number, and the map has an entry exactly for the knowledge bases
    somebody uses.
  */
  lemma LockSetIsExclusive(s: LockState, sections: seq<Section>, kb: Kb)
    requires Init(s) && IsRun(s, sections)
    ensures var s' := RunTo(s, sections);
      && (forall t, u :: t in s'.callers && u in s'.callers && s'.callers[t].kb == kb == s'.callers[u].kb ==>
            && s'.callers[t].entry == s'.callers[u].entry
            && (s'.callers[t].Holding? && s'.callers[u].Holding? ==> t == u))
      && (kb in s'.locks <==> exists t :: t in s'.callers && s'.callers[t].kb == kb)
      && (kb in s'.locks ==>
            s'.locks[kb] in s'.refs && s'.refs[s'.locks[kb]] == |set t | t in s'.callers && s'.callers[t].kb == kb|)
  {
    RunKeepsInv(s, sections);
    var s' := RunTo(s, sections);
    forall t, u | t in s'.callers && u in s'.callers && s'.callers[t].kb == kb == s'.callers[u].kb
      ensures s'.callers[t].entry == s'.callers[u].entry
      ensures s'.callers[t].Holding? && s'.callers[u].Holding? ==> t == u
    {
      OneMutex(s', kb, t, u);
    }
    assert UsersOf(s', kb) == set t | t in s'.callers && s'.callers[t].kb == kb;
    if kb in s'.locks {
      UsersAreUsersOf(s', kb);
      assert UsersOf(s', kb) != {};
      var t :| t in UsersOf(s', kb);
    }
  }

  lemma UsersAreUsersOf(s: LockState, kb: Kb)
    requires Inv(s) && kb in s.locks
    ensures Users(s.callers, s.locks[kb]) == UsersOf(s, kb)
  {
    forall t | t in s.callers ensures s.callers[t].entry == s.locks[kb] <==> s.callers[t].kb == kb {
      assert s.locks[s.callers[t].kb] == s.callers[t].entry;
    }
  }

  /** A caller waiting for a knowledge base nobody holds can always take its lock. */
  lemma FreeLockCanBeTaken(s: LockState, sections: seq<Section>, t: Caller)
    requires Init(s) && IsRun(s, sections)
    requires t in RunTo(s, sections).callers && RunTo(s, sections).callers[t].Waiting?
    ensures var s' := RunTo(s, sections);
      Enabled(s', Acquire(t)) <==>
      forall u :: u in s'.callers && s'.callers[u].kb == s'.callers[t].kb ==> !s'.callers[u].Holding?
  {
    RunKeepsInv(s, sections);
    var s' := RunTo(s, sections);
    var p := s'.callers[t];
    if p.entry in s'.owner {
      var u := s'.owner[p.entry];
      assert s'.locks[s'.callers[u].kb] == s'.locks[p.kb];
      assert u in UsersOf(s', p.kb) && s'.callers[u].Holding?;
    }
    forall u | u in UsersOf(s', p.kb) && s'.callers[u].Holding? ensures p.entry in s'.owner {
      OneMutex(s', p.kb, t, u);
      assert HoldsEntry(s'.callers, u, p.entry);
    }
  }

  /** No deadlock: while anyone is counted in, some caller can go on. */
  lemma SomeoneCanGoOn(s: LockState, sections: seq<Section>)
    requires Init(s) && IsRun(s, sections) && RunTo(s, sections).callers != map[]
    ensures exists a :: Enabled(RunTo(s, sections), a) && !a.CountIn?
  {
    RunKeepsInv(s, sections);
    var s' := RunTo(s, sections);
    var t :| t in s'.callers;
    match s'.callers[t]
    case Waiting(kb, e) =>
      if e in s'.owner {
        assert Enabled(s', Unlock(s'.owner[e]));
      } else {
        assert Enabled(s', Acquire(t));
      }
    case Holding(_, _) => assert Enabled(s', Unlock(t));
    case Releasing(_, _) => assert Enabled(s', CountOut(t));
  }

  /**
    The lock set itself; the callers' places are ghost. Each method is one critical section,
    so whatever order callers run them in, SectionKeepsInv carries the invariant along.
  */
  class KBLockSet {
    var locks: map<Kb, Entry>
    var refs: map<Entry, int>
    var owner: map<Entry, Caller>
    var next: Entry
    ghost var callers: map<Caller, Place>

    ghost function S(): LockState
      reads this
    {
      LockState(locks, refs, owner, next, callers)
    }

    constructor ()
      ensures Init(S()) && Inv(S())
    {
      locks, refs, owner, next, callers := map[], map[], map[], 0, map[];
    }

    /** Lock, first half: find or make the entry and count in, under the set's mutex. */
    method Enter(ghost t: Caller, kb: Kb) returns (entry: Entry)
      requires Enabled(S(), CountIn(t, kb)) && (kb in locks ==> locks[kb] in refs)
      modifies this
      ensures S() == Apply(old(S()), CountIn(t, kb)) && callers[t] == Waiting(kb, entry)
    {
      if kb !in locks {
        locks := locks[kb := next];
        refs := refs[next := 0];
        next := next + 1;
      }
      entry := locks[kb];
      refs := refs[entry := refs[entry] + 1];
      callers := callers[t := Waiting(kb, entry)];
      assert kb !in old(locks) ==> refs == old(refs)[entry := 1];
    }

    /** Lock, second half: the entry's own mutex, when it is free. */
    method TakeMutex(t: Caller, entry: Entry)
      requires Enabled(S(), Acquire(t)) && callers[t].entry == entry
      modifies this
      ensures S() == Apply(old(S()), Acquire(t))
    {
      owner := owner[entry := t];
      callers := callers[t := Holding(callers[t].kb, entry)];
    }

    /** The release closure, first half. */
    method ReleaseMutex(ghost t: Caller, entry: Entry)
      requires Enabled(S(), Unlock(t)) && callers[t].entry == entry
      modifies this
      ensures S() == Apply(old(S()), Unlock(t))
    {
      owner := owner - {entry};
      callers := callers[t := Releasing(callers[t].kb, entry)];
    }

    /** The release closure, second half: count out, and drop an idle entry, under the set's mutex. */
    method Leave(ghost t: Caller, kb: Kb, entry: Entry)
      requires Enabled(S(), CountOut(t)) && callers[t] == Releasing(kb, entry)
      modifies this
      ensures S() == Apply(old(S()), CountOut(t))
    {
      refs := refs[entry := refs[entry] - 1];
      if refs[entry] == 0 {
        locks := locks - {kb};
      }
      callers := callers - {t};
    }

    /** How many knowledge bases somebody holds or waits for. */
    method Len() returns (n: nat)
      requires Inv(S())
      ensures n == |set t | t in callers :: callers[t].kb|
    {
      ghost var used := set t | t in callers :: callers[t].kb;
      forall kb ensures kb in locks <==> kb in used {
        if kb in locks {
          UsersAreUsersOf(S(), kb);
          var t :| t in UsersOf(S(), kb);
        }
      }
      assert locks.Keys == used;
      n := |locks|;
    }
  }
}
