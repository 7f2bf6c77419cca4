/**
  Handing a new version's changes to the node that will write them. The changes never enter
  the replicated log: Execute registers them before it proposes, and both its own background
  dispatch and the hook that runs when the command is applied try to take the registration.
  Execute holds the knowledge base's write lock throughout; the hook holds nothing and may
  run at any time, also long after Execute has returned.
*/
module Dispatch {
  import opened Basics

  type Kb = string
  type RequestId = string
  type Version = nat
  type Changes = seq<string>
  type Exec = nat
  type Key = (Kb, RequestId)

  /** A registration; `exec` says whose it is. */
  datatype Entry = Entry(exec: Exec, parent: Version, changes: Changes)

  /** A dispatch: whose changes were handed over, for which version. */
  datatype Hand = Hand(exec: Exec, version: Version, parent: Version, changes: Changes)

  /** Where an Execute stands; the first four hold the lock. */
  datatype Phase = Locked | Registered | Committed(version: Version) | Failing | Succeeded(version: Version) | Failed

  datatype Call = Call(kb: Kb, request: RequestId, parent: Version, changes: Changes, phase: Phase)

  /** A hook still to run for an applied command. */
  datatype Hook = Hook(key: Key, version: Version, parent: Version)

  datatype State = State(
    wired: bool,                    // whether a dispatcher is configured
    pending: map<Key, Entry>,
    calls: map<Exec, Call>,
    locks: map<Kb, Exec>,
    versions: map<Key, Version>,    // the version a request's command created, however often it is applied
    hooks: set<Hook>,
    handed: seq<Hand>)

  datatype Step =
    | Begin(exec: Exec, kb: Kb, request: RequestId, parent: Version, changes: Changes)
    | Register(exec: Exec)
    | ApplyCommand(key: Key, version: Version, parent: Version)
    | ProposeOk(exec: Exec)
    | ProposeErr(exec: Exec)
    | Forget(exec: Exec)
    | Background(exec: Exec)        // a dispatcher is wired: take and dispatch, then return
    | Inline(exec: Exec)            // none is wired: write here, then return
    | RunHook(hook: Hook)

  function KeyOf(c: Call): Key {
    (c.kb, c.request)
  }

  ghost predicate InPhase(s: State, e: Exec, p: Phase) {
    e in s.calls && s.calls[e].phase == p
  }

  ghost predicate Enabled(s: State, a: Step) {
    match a
    case Begin(e, kb, _, _, changes) => e !in s.calls && kb !in s.locks && changes != []
    case Register(e) => InPhase(s, e, Locked)
    case ApplyCommand(k, v, _) => k in s.versions ==> s.versions[k] == v
    case ProposeOk(e) => InPhase(s, e, Registered) && KeyOf(s.calls[e]) in s.versions
    case ProposeErr(e) => InPhase(s, e, Registered)
    case Forget(e) => InPhase(s, e, Failing)
    case Background(e) => s.wired && e in s.calls && s.calls[e].phase.Committed?
    case Inline(e) => !s.wired && e in s.calls && s.calls[e].phase.Committed?
    case RunHook(h) => h in s.hooks
  }

  ghost function MoveTo(s: State, e: Exec, p: Phase): State
    requires e in s.calls
  {
    s.(calls := s.calls[e := s.calls[e].(phase := p)])
  }

  /** Execute returns, and its deferred unlock runs. */
  ghost function ReturnWith(s: State, e: Exec, p: Phase): State
    requires e in s.calls
  {
    MoveTo(s, e, p).(locks := s.locks - {s.calls[e].kb})
  }

  /** Takes a registration, if it is there, and hands its changes over. */
  ghost function TakeAndHand(s: State, k: Key, v: Version, parent: Version): State {
    if k !in s.pending then s
    else
      var x := s.pending[k];
      s.(pending := s.pending - {k},
         handed := s.handed + [Hand(x.exec, v, if x.parent != 0 then x.parent else parent, x.changes)])
  }

  ghost function Apply(s: State, a: Step): State
    requires Enabled(s, a)
  {
    match a
    case Begin(e, kb, request, parent, changes) =>
      s.(calls := s.calls[e := Call(kb, request, parent, changes, Locked)], locks := s.locks[kb := e])
    case Register(e) =>
      var c := s.calls[e];
      MoveTo(s, e, Registered).(pending := s.pending[KeyOf(c) := Entry(e, c.parent, c.changes)])
    case ApplyCommand(k, v, parent) => s.(versions := s.versions[k := v], hooks := s.hooks + {Hook(k, v, parent)})
    case ProposeOk(e) => MoveTo(s, e, Committed(s.versions[KeyOf(s.calls[e])]))
    case ProposeErr(e) => MoveTo(s, e, Failing)
    case Forget(e) => ReturnWith(s.(pending := s.pending - {KeyOf(s.calls[e])}), e, Failed)
    case Background(e) =>
      var c := s.calls[e];
      ReturnWith(TakeAndHand(s, KeyOf(c), c.phase.version, 0), e, Succeeded(c.phase.version))
    case Inline(e) => ReturnWith(s, e, Succeeded(s.calls[e].phase.version))
    case RunHook(h) => TakeAndHand(s, h.key, h.version, h.parent).(hooks := s.hooks - {h})
  }

  ghost predicate Init(s: State) {
    && s.pending == map[] && s.calls == map[] && s.locks == map[] && s.handed == []
    && s.versions == map[] && s.hooks == {}
  }

  // ---------------------------------------------------------------- invariant

  /** How often an Execute's changes were handed over. */
  ghost function Times(handed: seq<Hand>, e: Exec): nat {
    if handed == [] then 0
    else Times(handed[..|handed| - 1], e) + if handed[|handed| - 1].exec == e then 1 else 0
  }

  lemma TimesOneMore(handed: seq<Hand>, h: Hand, e: Exec)
    ensures Times(handed + [h], e) == Times(handed, e) + if h.exec == e then 1 else 0
  {
    assert (handed + [h])[..|handed|] == handed;
  }

  predicate HoldsLock(p: Phase) {
    p.Locked? || p.Registered? || p.Committed? || p.Failing?
  }

  /** The lock of a knowledge base is held by the one Execute under way on it. */
  ghost predicate LocksSound(calls: map<Exec, Call>, locks: map<Kb, Exec>) {
    && (forall kb :: kb in locks ==> Holds(calls, locks[kb], kb))
    && (forall e, kb :: Holds(calls, e, kb) ==> kb in locks && locks[kb] == e)
  }

  ghost predicate Holds(calls: map<Exec, Call>, e: Exec, kb: Kb) {
    e in calls && calls[e].kb == kb && HoldsLock(calls[e].phase)
  }

  /** Whether an Execute in this phase may have a registration: while it holds the lock, and after an inline write. */
  predicate MayBeRegistered(wired: bool, p: Phase) {
    (HoldsLock(p) && !p.Locked?) || (!wired && p.Succeeded?)
  }

  /** A registration is its Execute's, with what that was called with. */
  ghost predicate EntrySound(wired: bool, calls: map<Exec, Call>, k: Key, x: Entry) {
    && x.exec in calls && KeyOf(calls[x.exec]) == k
    && calls[x.exec].parent == x.parent && calls[x.exec].changes == x.changes
    && MayBeRegistered(wired, calls[x.exec].phase)
  }

  ghost predicate PendingSound(wired: bool, calls: map<Exec, Call>, pending: map<Key, Entry>) {
    forall k :: k in pending ==> EntrySound(wired, calls, k, pending[k])
  }

  /** Past its own registration, the holder of the lock finds nobody else's under its key. */
  ghost predicate OwnKey(c: Call, pending: map<Key, Entry>, e: Exec) {
    HoldsLock(c.phase) && !c.phase.Locked? && KeyOf(c) in pending ==> pending[KeyOf(c)].exec == e
  }

  ghost predicate OwnKeys(calls: map<Exec, Call>, pending: map<Key, Entry>) {
    forall e :: e in calls ==> OwnKey(calls[e], pending, e)
  }

  /** One while the registration of `e` is there. */
  ghost function Left(c: Call, pending: map<Key, Entry>, e: Exec): nat {
    if KeyOf(c) in pending && pending[KeyOf(c)].exec == e then 1 else 0
  }

  /** No other Execute was given the same knowledge base and request ID. */
  ghost predicate SoleUser(calls: map<Exec, Call>, e: Exec)
    requires e in calls
  {
    forall f :: f in calls && f != e ==> KeyOf(calls[f]) != KeyOf(calls[e])
  }

  /** How often `e` has been handed over, by where it stands; `kept` says that nothing can have replaced its registration. */
  ghost predicate CountSound(c: Call, pending: map<Key, Entry>, e: Exec, times: nat, kept: bool) {
    match c.phase
    case Locked => times == 0
    case Succeeded(_) => times + Left(c, pending, e) <= 1 && (kept ==> times + Left(c, pending, e) == 1)
    case Failed => times <= 1
    case _ => times + Left(c, pending, e) == 1
  }

  ghost predicate CountsSound(wired: bool, calls: map<Exec, Call>, pending: map<Key, Entry>, handed: seq<Hand>) {
    && (forall e :: e in calls ==> CountSound(calls[e], pending, e, Times(handed, e), wired || SoleUser(calls, e)))
    && (forall e :: e !in calls ==> Times(handed, e) == 0)
  }

  /** What was handed over is what the Execute was called with, for the version its request created. */
  ghost predicate HandSound(calls: map<Exec, Call>, versions: map<Key, Version>, h: Hand) {
    && h.exec in calls && h.changes == calls[h.exec].changes
    && (calls[h.exec].parent != 0 ==> h.parent == calls[h.exec].parent)
    && KeyOf(calls[h.exec]) in versions && h.version == versions[KeyOf(calls[h.exec])]
  }

  ghost predicate HandsSound(calls: map<Exec, Call>, versions: map<Key, Version>, handed: seq<Hand>) {
    forall h :: h in handed ==> HandSound(calls, versions, h)
  }

  ghost predicate VersionsSound(calls: map<Exec, Call>, versions: map<Key, Version>, hooks: set<Hook>) {
    && (forall h :: h in hooks ==> h.key in versions && versions[h.key] == h.version)
    && (forall e :: e in calls && (calls[e].phase.Committed? || calls[e].phase.Succeeded?) ==>
          KeyOf(calls[e]) in versions && versions[KeyOf(calls[e])] == calls[e].phase.version)
  }

  ghost predicate Inv(s: State) {
    && LocksSound(s.calls, s.locks)
    && PendingSound(s.wired, s.calls, s.pending)
    && OwnKeys(s.calls, s.pending)
    && CountsSound(s.wired, s.calls, s.pending, s.handed)
    && HandsSound(s.calls, s.versions, s.handed)
    && VersionsSound(s.calls, s.versions, s.hooks)
  }

  lemma InitSound(s: State)
    requires Init(s)
    ensures Inv(s)
  {
  }

  lemma TakeKeepsCount(c: Call, pending: map<Key, Entry>, k: Key, e: Exec, times: nat, kept: bool)
    requires k in pending && CountSound(c, pending, e, times, kept)
    requires pending[k].exec == e ==> KeyOf(c) == k && !c.phase.Locked? && !c.phase.Failed?
    ensures CountSound(c, pending - {k}, e, times + (if pending[k].exec == e then 1 else 0), kept)
  {
  }

  /** Taking hands the owner over once more, from never to once. */
  lemma TakeKeepsCounts(wired: bool, calls: map<Exec, Call>, pending: map<Key, Entry>, handed: seq<Hand>, k: Key, h: Hand)
    requires PendingSound(wired, calls, pending) && CountsSound(wired, calls, pending, handed)
    requires k in pending && h.exec == pending[k].exec
    ensures CountsSound(wired, calls, pending - {k}, handed + [h])
  {
    assert EntrySound(wired, calls, k, pending[k]);
    forall e
      ensures e in calls ==> CountSound(calls[e], pending - {k}, e, Times(handed + [h], e), wired || SoleUser(calls, e))
      ensures e !in calls ==> Times(handed + [h], e) == 0
    {
      TimesOneMore(handed, h, e);
      if e in calls {
        TakeKeepsCount(calls[e], pending, k, e, Times(handed, e), wired || SoleUser(calls, e));
      }
    }
  }

  lemma TakeKeepsPending(wired: bool, calls: map<Exec, Call>, pending: map<Key, Entry>, k: Key)
    requires PendingSound(wired, calls, pending) && OwnKeys(calls, pending)
    ensures PendingSound(wired, calls, pending - {k}) && OwnKeys(calls, pending - {k})
  {
    forall e | e in calls ensures OwnKey(calls[e], pending - {k}, e) {
      assert OwnKey(calls[e], pending, e);
    }
  }

  lemma TakeKeepsInv(s: State, k: Key, v: Version, parent: Version)
    requires Inv(s) && (k in s.pending ==> k in s.versions && s.versions[k] == v)
    ensures Inv(TakeAndHand(s, k, v, parent))
  {
    if k in s.pending {
      var x := s.pending[k];
      assert EntrySound(s.wired, s.calls, k, x);
      TakeKeepsPending(s.wired, s.calls, s.pending, k);
      TakeKeepsCounts(s.wired, s.calls, s.pending, s.handed, k, Hand(x.exec, v, if x.parent != 0 then x.parent else parent, x.changes));
    }
  }

  ghost function Moved(calls: map<Exec, Call>, e: Exec, p: Phase): map<Exec, Call>
    requires e in calls
  {
    calls[e := calls[e].(phase := p)]
  }

  lemma MoveKeepsLocks(calls: map<Exec, Call>, locks: map<Kb, Exec>, e: Exec, p: Phase)
    requires e in calls && LocksSound(calls, locks) && HoldsLock(calls[e].phase)
    ensures LocksSound(Moved(calls, e, p), if HoldsLock(p) then locks else locks - {calls[e].kb})
  {
    var calls' := Moved(calls, e, p);
    var locks' := if HoldsLock(p) then locks else locks - {calls[e].kb};
    assert Holds(calls, e, calls[e].kb);
    forall kb | kb in locks' ensures Holds(calls', locks'[kb], kb) {
      assert Holds(calls, locks[kb], kb);
    }
    forall f, kb | Holds(calls', f, kb) ensures kb in locks' && locks'[kb] == f {
      assert Holds(calls, f, kb);
    }
  }

  /** An Execute may move on with its registration, or return once it has none. */
  lemma MoveKeepsPending(wired: bool, calls: map<Exec, Call>, pending: map<Key, Entry>, e: Exec, p: Phase)
    requires e in calls && PendingSound(wired, calls, pending) && OwnKeys(calls, pending)
    requires HoldsLock(calls[e].phase) && !calls[e].phase.Locked? && !p.Locked?
    requires MayBeRegistered(wired, p) || KeyOf(calls[e]) !in pending
    ensures PendingSound(wired, Moved(calls, e, p), pending) && OwnKeys(Moved(calls, e, p), pending)
  {
    forall k | k in pending ensures EntrySound(wired, Moved(calls, e, p), k, pending[k]) {
      assert EntrySound(wired, calls, k, pending[k]);
    }
    forall f | f in calls ensures OwnKey(Moved(calls, e, p)[f], pending, f) {
      assert OwnKey(calls[f], pending, f);
    }
  }

  lemma MoveKeepsSole(calls: map<Exec, Call>, e: Exec, p: Phase, f: Exec)
    requires e in calls && f in calls
    ensures SoleUser(Moved(calls, e, p), f) <==> SoleUser(calls, f)
  {
    var calls' := Moved(calls, e, p);
    forall g | g in calls ensures KeyOf(calls'[g]) == KeyOf(calls[g]) {
    }
  }

  lemma MoveKeepsCounts(wired: bool, calls: map<Exec, Call>, pending: map<Key, Entry>, handed: seq<Hand>, e: Exec, p: Phase)
    requires e in calls && CountsSound(wired, calls, pending, handed)
    requires CountSound(calls[e].(phase := p), pending, e, Times(handed, e), wired || SoleUser(calls, e))
    ensures CountsSound(wired, Moved(calls, e, p), pending, handed)
  {
    var calls' := Moved(calls, e, p);
    forall f | f in calls ensures CountSound(calls'[f], pending, f, Times(handed, f), wired || SoleUser(calls', f)) {
      MoveKeepsSole(calls, e, p, f);
      if f != e { assert CountSound(calls[f], pending, f, Times(handed, f), wired || SoleUser(calls, f)); }
    }
  }

  lemma MoveKeepsHands(calls: map<Exec, Call>, versions: map<Key, Version>, hooks: set<Hook>, handed: seq<Hand>, e: Exec, p: Phase)
    requires e in calls && HandsSound(calls, versions, handed) && VersionsSound(calls, versions, hooks)
    requires p.Committed? || p.Succeeded? ==> KeyOf(calls[e]) in versions && versions[KeyOf(calls[e])] == p.version
    ensures HandsSound(Moved(calls, e, p), versions, handed) && VersionsSound(Moved(calls, e, p), versions, hooks)
  {
    forall h | h in handed ensures HandSound(Moved(calls, e, p), versions, h) {
      assert HandSound(calls, versions, h);
    }
  }

  lemma BeginKeepsLocks(calls: map<Exec, Call>, locks: map<Kb, Exec>, e: Exec, c: Call)
    requires e !in calls && c.kb !in locks && c.phase.Locked? && LocksSound(calls, locks)
    ensures LocksSound(calls[e := c], locks[c.kb := e])
  {
    var calls', locks' := calls[e := c], locks[c.kb := e];
    forall kb | kb in locks' ensures Holds(calls', locks'[kb], kb) {
      assert kb != c.kb ==> Holds(calls, locks[kb], kb);
    }
    forall f, kb | Holds(calls', f, kb) ensures kb in locks' && locks'[kb] == f {
      assert f != e ==> Holds(calls, f, kb);
    }
  }

  lemma BeginKeepsCounts(s: State, e: Exec, c: Call)
    requires e !in s.calls && c.phase.Locked? && CountsSound(s.wired, s.calls, s.pending, s.handed)
    ensures CountsSound(s.wired, s.calls[e := c], s.pending, s.handed)
  {
    var calls' := s.calls[e := c];
    forall f | f in s.calls
      ensures CountSound(calls'[f], s.pending, f, Times(s.handed, f), s.wired || SoleUser(calls', f))
    {
      assert SoleUser(calls', f) ==> SoleUser(s.calls, f);
      assert CountSound(s.calls[f], s.pending, f, Times(s.handed, f), s.wired || SoleUser(s.calls, f));
    }
  }

  lemma BeginKeepsRest(s: State, e: Exec, c: Call)
    requires e !in s.calls && c.phase.Locked?
    requires PendingSound(s.wired, s.calls, s.pending) && OwnKeys(s.calls, s.pending)
    requires HandsSound(s.calls, s.versions, s.handed) && VersionsSound(s.calls, s.versions, s.hooks)
    ensures PendingSound(s.wired, s.calls[e := c], s.pending) && OwnKeys(s.calls[e := c], s.pending)
    ensures HandsSound(s.calls[e := c], s.versions, s.handed) && VersionsSound(s.calls[e := c], s.versions, s.hooks)
  {
    forall k | k in s.pending ensures EntrySound(s.wired, s.calls[e := c], k, s.pending[k]) {
      assert EntrySound(s.wired, s.calls, k, s.pending[k]);
    }
    forall h | h in s.handed ensures HandSound(s.calls[e := c], s.versions, h) {
      assert HandSound(s.calls, s.versions, h);
    }
    forall f | f in s.calls ensures OwnKey(s.calls[e := c][f], s.pending, f) {
      assert OwnKey(s.calls[f], s.pending, f);
    }
  }

  lemma BeginKeepsInv(s: State, e: Exec, kb: Kb, request: RequestId, parent: Version, changes: Changes)
    requires Inv(s) && Enabled(s, Begin(e, kb, request, parent, changes))
    ensures Inv(Apply(s, Begin(e, kb, request, parent, changes)))
  {
    var c := Call(kb, request, parent, changes, Locked);
    BeginKeepsLocks(s.calls, s.locks, e, c);
    BeginKeepsRest(s, e, c);
    BeginKeepsCounts(s, e, c);
  }

  /** The lock keeps a second registration of the knowledge base out: whoever else has one has returned from an inline write. */
  lemma OnlyOwnEntry(s: State, e: Exec, k: Key)
    requires LocksSound(s.calls, s.locks) && PendingSound(s.wired, s.calls, s.pending)
    requires e in s.calls && HoldsLock(s.calls[e].phase) && k in s.pending && k.0 == s.calls[e].kb
    ensures s.wired ==> s.pending[k].exec == e && k == KeyOf(s.calls[e]) && !s.calls[e].phase.Locked?
    ensures s.pending[k].exec != e ==> !s.wired && s.calls[s.pending[k].exec].phase.Succeeded?
  {
    var x := s.pending[k];
    assert EntrySound(s.wired, s.calls, k, x);
    if HoldsLock(s.calls[x.exec].phase) {
      assert Holds(s.calls, x.exec, k.0) && Holds(s.calls, e, k.0);
    }
  }

  ghost function WithEntry(calls: map<Exec, Call>, pending: map<Key, Entry>, e: Exec): map<Key, Entry>
    requires e in calls
  {
    pending[KeyOf(calls[e]) := Entry(e, calls[e].parent, calls[e].changes)]
  }

  lemma RegisterKeepsCount(c: Call, pending: map<Key, Entry>, k: Key, x: Entry, f: Exec, times: nat, kept: bool)
    requires CountSound(c, pending, f, times, kept) && x.exec != f
    requires KeyOf(c) == k ==> !kept
    requires k in pending && pending[k].exec == f ==> c.phase.Succeeded?
    ensures CountSound(c, pending[k := x], f, times, kept)
  {
  }

  /** Registering over what an earlier inline write of the same request left replaces that registration. */
  lemma RegisterCounts(wired: bool, calls: map<Exec, Call>, pending: map<Key, Entry>, handed: seq<Hand>, e: Exec)
    requires e in calls && calls[e].phase.Locked? && CountsSound(wired, calls, pending, handed)
    requires KeyOf(calls[e]) in pending ==> !wired
    requires PendingSound(wired, calls, pending)
    requires forall f :: f in calls && f != e && KeyOf(calls[f]) == KeyOf(calls[e]) ==> !HoldsLock(calls[f].phase)
    ensures CountsSound(wired, Moved(calls, e, Registered), WithEntry(calls, pending, e), handed)
  {
    var calls', pending', k := Moved(calls, e, Registered), WithEntry(calls, pending, e), KeyOf(calls[e]);
    if k in pending { assert EntrySound(wired, calls, k, pending[k]); }
    forall f | f in calls ensures CountSound(calls'[f], pending', f, Times(handed, f), wired || SoleUser(calls', f)) {
      MoveKeepsSole(calls, e, Registered, f);
      assert CountSound(calls[f], pending, f, Times(handed, f), wired || SoleUser(calls, f));
      if f != e && KeyOf(calls[f]) == k {
        assert !SoleUser(calls, f);
      }
      if f != e && !(wired && KeyOf(calls[f]) == k) {
        RegisterKeepsCount(calls[f], pending, k, pending'[k], f, Times(handed, f), wired || SoleUser(calls, f));
      }
    }
  }

  lemma RegisterKeepsPending(s: State, e: Exec)
    requires Inv(s) && InPhase(s, e, Locked)
    requires KeyOf(s.calls[e]) in s.pending ==> !s.wired
    ensures PendingSound(s.wired, Moved(s.calls, e, Registered), WithEntry(s.calls, s.pending, e))
    ensures OwnKeys(Moved(s.calls, e, Registered), WithEntry(s.calls, s.pending, e))
  {
    var calls', pending' := Moved(s.calls, e, Registered), WithEntry(s.calls, s.pending, e);
    forall k | k in pending' ensures EntrySound(s.wired, calls', k, pending'[k]) {
      if k != KeyOf(s.calls[e]) { assert EntrySound(s.wired, s.calls, k, s.pending[k]); }
    }
    forall f | f in calls' ensures OwnKey(calls'[f], pending', f) {
      assert OwnKey(s.calls[f], s.pending, f);
      if f != e && HoldsLock(s.calls[f].phase) && KeyOf(s.calls[f]) == KeyOf(s.calls[e]) {
        assert Holds(s.calls, f, s.calls[e].kb) && Holds(s.calls, e, s.calls[e].kb);
      }
    }
  }

  lemma RegisterKeepsInv(s: State, e: Exec)
    requires Inv(s) && Enabled(s, Register(e))
    ensures Inv(Apply(s, Register(e)))
  {
    var c := s.calls[e];
    if KeyOf(c) in s.pending {
      OnlyOwnEntry(s, e, KeyOf(c));
      assert EntrySound(s.wired, s.calls, KeyOf(c), s.pending[KeyOf(c)]);
    }
    MoveKeepsLocks(s.calls, s.locks, e, Registered);
    RegisterKeepsPending(s, e);
    forall f | f in s.calls && f != e && KeyOf(s.calls[f]) == KeyOf(c) ensures !HoldsLock(s.calls[f].phase) {
      if HoldsLock(s.calls[f].phase) { assert Holds(s.calls, f, c.kb) && Holds(s.calls, e, c.kb); }
    }
    RegisterCounts(s.wired, s.calls, s.pending, s.handed, e);
    MoveKeepsHands(s.calls, s.versions, s.hooks, s.handed, e, Registered);
  }

  lemma ProposedKeepsInv(s: State, e: Exec, p: Phase)
    requires Inv(s) && InPhase(s, e, Registered)
    requires p.Failing? || (p.Committed? && KeyOf(s.calls[e]) in s.versions && p.version == s.versions[KeyOf(s.calls[e])])
    ensures Inv(MoveTo(s, e, p))
  {
    MoveKeepsLocks(s.calls, s.locks, e, p);
    MoveKeepsPending(s.wired, s.calls, s.pending, e, p);
    assert CountSound(s.calls[e], s.pending, e, Times(s.handed, e), s.wired || SoleUser(s.calls, e));
    MoveKeepsCounts(s.wired, s.calls, s.pending, s.handed, e, p);
    MoveKeepsHands(s.calls, s.versions, s.hooks, s.handed, e, p);
  }

  lemma AppliedKeepsInv(s: State, k: Key, v: Version, parent: Version)
    requires Inv(s) && Enabled(s, ApplyCommand(k, v, parent))
    ensures Inv(Apply(s, ApplyCommand(k, v, parent)))
  {
  }

  /** Returning: handed over exactly once or, after an inline write, maybe not yet; at most once if it failed. */
  lemma ReturnKeepsInv(s: State, e: Exec, p: Phase)
    requires Inv(s) && e in s.calls && (KeyOf(s.calls[e]) !in s.pending || (!s.wired && p.Succeeded?))
    requires (s.calls[e].phase.Committed? && p == Succeeded(s.calls[e].phase.version)) || (s.calls[e].phase.Failing? && p.Failed?)
    ensures Inv(ReturnWith(s, e, p))
  {
    MoveKeepsLocks(s.calls, s.locks, e, p);
    MoveKeepsPending(s.wired, s.calls, s.pending, e, p);
    assert CountSound(s.calls[e], s.pending, e, Times(s.handed, e), s.wired || SoleUser(s.calls, e));
    MoveKeepsCounts(s.wired, s.calls, s.pending, s.handed, e, p);
    MoveKeepsHands(s.calls, s.versions, s.hooks, s.handed, e, p);
  }

  lemma ForgetCounts(wired: bool, calls: map<Exec, Call>, pending: map<Key, Entry>, handed: seq<Hand>, e: Exec)
    requires e in calls && calls[e].phase.Failing? && CountsSound(wired, calls, pending, handed)
    requires OwnKey(calls[e], pending, e)
    ensures CountsSound(wired, Moved(calls, e, Failed), pending - {KeyOf(calls[e])}, handed)
  {
    var calls', k := Moved(calls, e, Failed), KeyOf(calls[e]);
    forall f | f in calls ensures CountSound(calls'[f], pending - {k}, f, Times(handed, f), wired || SoleUser(calls', f)) {
      MoveKeepsSole(calls, e, Failed, f);
      assert CountSound(calls[f], pending, f, Times(handed, f), wired || SoleUser(calls, f));
      assert f != e ==> Left(calls[f], pending - {k}, f) == Left(calls[f], pending, f);
    }
  }

  lemma ForgetKeepsInv(s: State, e: Exec)
    requires Inv(s) && Enabled(s, Forget(e))
    ensures Inv(Apply(s, Forget(e)))
  {
    var k := KeyOf(s.calls[e]);
    assert OwnKey(s.calls[e], s.pending, e);
    TakeKeepsPending(s.wired, s.calls, s.pending, k);
    MoveKeepsLocks(s.calls, s.locks, e, Failed);
    MoveKeepsPending(s.wired, s.calls, s.pending - {k}, e, Failed);
    ForgetCounts(s.wired, s.calls, s.pending, s.handed, e);
    MoveKeepsHands(s.calls, s.versions, s.hooks, s.handed, e, Failed);
  }

  lemma BackgroundKeepsInv(s: State, e: Exec)
    requires Inv(s) && Enabled(s, Background(e))
    ensures Inv(Apply(s, Background(e)))
  {
    var c := s.calls[e];
    TakeKeepsInv(s, KeyOf(c), c.phase.version, 0);
    ReturnKeepsInv(TakeAndHand(s, KeyOf(c), c.phase.version, 0), e, Succeeded(c.phase.version));
  }

  lemma HookKeepsInv(s: State, h: Hook)
    requires Inv(s) && Enabled(s, RunHook(h))
    ensures Inv(Apply(s, RunHook(h)))
  {
    TakeKeepsInv(s, h.key, h.version, h.parent);
  }

  lemma StepKeepsInv(s: State, a: Step)
    requires Inv(s) && Enabled(s, a)
    ensures Inv(Apply(s, a))
  {
    match a
    case Begin(e, kb, request, parent, changes) => BeginKeepsInv(s, e, kb, request, parent, changes);
    case Register(e) => RegisterKeepsInv(s, e);
    case ApplyCommand(k, v, parent) => AppliedKeepsInv(s, k, v, parent);
    case ProposeOk(e) => ProposedKeepsInv(s, e, Committed(s.versions[KeyOf(s.calls[e])]));
    case ProposeErr(e) => ProposedKeepsInv(s, e, Failing);
    case Forget(e) => ForgetKeepsInv(s, e);
    case Background(e) => BackgroundKeepsInv(s, e);
    case Inline(e) => ReturnKeepsInv(s, e, Succeeded(s.calls[e].phase.version));
    case RunHook(h) => HookKeepsInv(s, h);
  }

  ghost predicate IsRun(s: State, steps: seq<Step>)
    decreases |steps|
  {
    steps != [] ==> Enabled(s, steps[0]) && IsRun(Apply(s, steps[0]), steps[1..])
  }

  ghost function RunTo(s: State, steps: seq<Step>): State
    requires IsRun(s, steps)
    decreases |steps|
  {
    if steps == [] then s else RunTo(Apply(s, steps[0]), steps[1..])
  }

  lemma {:induction false} RunKeepsInv(s: State, steps: seq<Step>)
    requires Inv(s) && IsRun(s, steps)
    ensures Inv(RunTo(s, steps))
    decreases |steps|
  {
    if steps != [] {
      StepKeepsInv(s, steps[0]);
      RunKeepsInv(Apply(s, steps[0]), steps[1..]);
    }
  }

  lemma {:induction false} RunKeepsWiring(s: State, steps: seq<Step>)
    requires IsRun(s, steps)
    ensures RunTo(s, steps).wired == s.wired
    decreases |steps|
  {
    if steps != [] { RunKeepsWiring(Apply(s, steps[0]), steps[1..]); }
  }

  /** Something was handed over exactly as often as the log says, so once means there is one. */
  lemma {:induction false} HandExists(handed: seq<Hand>, e: Exec)
    requires Times(handed, e) > 0
    ensures exists h :: h in handed && h.exec == e
  {
    var last := handed[|handed| - 1];
    if last.exec == e {
      assert last in handed;
    } else {
      HandExists(handed[..|handed| - 1], e);
      var h :| h in handed[..|handed| - 1] && h.exec == e;
      assert h in handed;
    }
  }

  /** Counting at most one is having at most one place in the log. */
  lemma {:induction false} AtMostOnce(handed: seq<Hand>, e: Exec)
    ensures Times(handed, e) <= 1 <==>
      forall i, j :: 0 <= i < |handed| && 0 <= j < |handed| && handed[i].exec == e == handed[j].exec ==> i == j
  {
    if handed != [] {
      var front, n := handed[..|handed| - 1], |handed| - 1;
      AtMostOnce(front, e);
      if handed[n].exec == e {
        if Times(front, e) > 0 {
          HandExists(front, e);
          var h :| h in front && h.exec == e;
          var i :| 0 <= i < |front| && front[i] == h;
          assert handed[i].exec == e && i != n;
        } else {
          forall i | 0 <= i < n ensures handed[i].exec != e {
            assert front[i] in front;
            if front[i].exec == e { HandCounts(front, front[i]); }
          }
        }
      } else {
        assert forall i :: 0 <= i < |front| ==> front[i] == handed[i];
      }
    }
  }

  /**
    The hand-off, over every interleaving of Executes and apply hooks with a dispatcher
    wired. A successful Execute's changes were handed over exactly once, for the version it
    returned, by one side or the other; a failed one's at most once; and no registration of
    a knowledge base is left whenever no Execute holds its lock.
  */
  lemma HandedOverOnce(s: State, steps: seq<Step>, e: Exec, kb: Kb)
    requires Init(s) && s.wired && IsRun(s, steps)
    ensures var s' := RunTo(s, steps);
      && (forall i, j :: 0 <= i < |s'.handed| && 0 <= j < |s'.handed| && s'.handed[i].exec == e == s'.handed[j].exec ==> i == j)
      && (e in s'.calls && s'.calls[e].phase.Succeeded? ==>
            && Times(s'.handed, e) == 1
            && exists h :: h in s'.handed && h.exec == e &&
                 h.version == s'.calls[e].phase.version && h.changes == s'.calls[e].changes)
      && (e in s'.calls && s'.calls[e].phase.Failed? ==> Times(s'.handed, e) <= 1)
      && (kb !in s'.locks ==> forall k :: k in s'.pending ==> k.0 != kb)
  {
    InitSound(s);
    RunKeepsInv(s, steps);
    var s' := RunTo(s, steps);
    RunKeepsWiring(s, steps);
    if e in s'.calls && s'.calls[e].phase.Succeeded? {
      assert CountSound(s'.calls[e], s'.pending, e, Times(s'.handed, e), true);
      assert Left(s'.calls[e], s'.pending, e) == 0 by {
        if KeyOf(s'.calls[e]) in s'.pending { assert EntrySound(true, s'.calls, KeyOf(s'.calls[e]), s'.pending[KeyOf(s'.calls[e])]); }
      }
      HandExists(s'.handed, e);
      var h :| h in s'.handed && h.exec == e;
      assert HandSound(s'.calls, s'.versions, h);
    }
    if e in s'.calls && s'.calls[e].phase.Failed? {
      assert CountSound(s'.calls[e], s'.pending, e, Times(s'.handed, e), true);
    }
    assert Times(s'.handed, e) <= 1 by {
      if e in s'.calls { assert CountSound(s'.calls[e], s'.pending, e, Times(s'.handed, e), true); }
    }
    AtMostOnce(s'.handed, e);
    forall k | k in s'.pending ensures k.0 in s'.locks {
      assert EntrySound(true, s'.calls, k, s'.pending[k]);
      assert Holds(s'.calls, s'.pending[k].exec, k.0);
    }
  }

  lemma RunOfCons(s: State, a: Step, rest: seq<Step>)
    requires Enabled(s, a) && IsRun(Apply(s, a), rest)
    ensures IsRun(s, [a] + rest) && RunTo(s, [a] + rest) == RunTo(Apply(s, a), rest)
  {
    assert ([a] + rest)[1..] == rest;
  }

  /** A run of an unwired coordinator that ends with the lock free and a registration left. */
  lemma UnwiredLeaks(s: State, e: Exec, kb: Kb, request: RequestId, changes: Changes, v: Version) returns (steps: seq<Step>)
    requires Init(s) && !s.wired && changes != []
    ensures IsRun(s, steps)
    ensures kb !in RunTo(s, steps).locks && (kb, request) in RunTo(s, steps).pending && RunTo(s, steps).handed == []
  {
    var a := [Begin(e, kb, request, 0, changes), Register(e), ApplyCommand((kb, request), v, 0), ProposeOk(e), Inline(e)];
    var s1 := Apply(s, a[0]);
    var s2 := Apply(s1, a[1]);
    var s3 := Apply(s2, a[2]);
    var s4 := Apply(s3, a[3]);
    var s5 := Apply(s4, a[4]);
    assert IsRun(s5, []) && RunTo(s5, []) == s5;
    RunOfCons(s4, a[4], []);
    RunOfCons(s3, a[3], [a[4]] + []);
    RunOfCons(s2, a[2], [a[3]] + ([a[4]] + []));
    RunOfCons(s1, a[1], [a[2]] + ([a[3]] + ([a[4]] + [])));
    RunOfCons(s, a[0], [a[1]] + ([a[2]] + ([a[3]] + ([a[4]] + []))));
    steps := [a[0]] + ([a[1]] + ([a[2]] + ([a[3]] + ([a[4]] + []))));
  }

  /** Nothing is registered for a knowledge base whose lock nobody holds. */
  ghost predicate NothingLeft(s: State) {
    forall k :: k in s.pending ==> k.0 in s.locks
  }

  /** Over all runs, no registration is left behind with the lock free if and only if a dispatcher is wired. */
  lemma NothingLeftIffWired(s: State, e: Exec, k: Key, changes: Changes, v: Version)
    requires Init(s) && changes != []
    ensures (forall steps :: IsRun(s, steps) ==> NothingLeft(RunTo(s, steps))) <==> s.wired
  {
    if s.wired {
      forall steps | IsRun(s, steps) ensures NothingLeft(RunTo(s, steps)) {
        forall j | j in RunTo(s, steps).pending ensures j.0 in RunTo(s, steps).locks {
          HandedOverOnce(s, steps, e, j.0);
        }
      }
    } else {
      var steps := UnwiredLeaks(s, e, k.0, k.1, changes, v);
      assert k == (k.0, k.1) && !NothingLeft(RunTo(s, steps));
    }
  }

  /**
    With or without a dispatcher, over every run: from the moment an Execute has registered
    until it returns successfully, its registration is there if and only if its changes have
    not been handed over; and it stays so afterwards unless another Execute used the same
    request ID. In no case are they handed over twice.
  */
  lemma RegisteredIffNotHandedOver(s: State, steps: seq<Step>, e: Exec)
    requires Init(s) && IsRun(s, steps) && e in RunTo(s, steps).calls
    ensures var s' := RunTo(s, steps);
      var c := s'.calls[e];
      && Times(s'.handed, e) <= 1
      && (c.phase.Registered? || c.phase.Committed? || (c.phase.Succeeded? && SoleUser(s'.calls, e)) ==>
            ((c.kb, c.request) in s'.pending && s'.pending[(c.kb, c.request)].exec == e <==> forall h :: h in s'.handed ==> h.exec != e))
  {
    InitSound(s);
    RunKeepsInv(s, steps);
    var s' := RunTo(s, steps);
    assert CountSound(s'.calls[e], s'.pending, e, Times(s'.handed, e), s'.wired || SoleUser(s'.calls, e));
    if Times(s'.handed, e) == 0 {
      forall h | h in s'.handed ensures h.exec != e {
        if h.exec == e { HandCounts(s'.handed, h); }
      }
    } else {
      HandExists(s'.handed, e);
    }
  }

  // ---------------------------------------------------------------- the registry and Execute

  datatype Fault = NotLeader | EmptyChanges | ProposeFailed

  /**
    The registry, with a ghost record of what was handed over. Between any two of its calls
    hooks may run for any key, and Executes of other knowledge bases go about their work.
  */
  class WriteCoordinator {
    var pending: map<Key, Entry>
    var versions: map<Key, Version>   // the version a request's command created, once applied here
    ghost var handed: seq<Hand>

    ghost predicate NoneOf(kb: Kb)
      reads this
    {
      forall k :: k in pending ==> k.0 != kb
    }

    /** The only registration of its knowledge base, if it is still there. */
    ghost predicate OnlyMine(k: Key, x: Entry)
      reads this
    {
      forall j :: j in pending ==> if j.0 == k.0 then j == k && pending[j] == x else pending[j].exec != x.exec
    }

    constructor ()
      ensures pending == map[] && versions == map[] && handed == []
    {
      pending, versions, handed := map[], map[], [];
    }

    /** What was handed over for `x` is what it was registered with, for the version its request created. */
    ghost predicate Told(k: Key, x: Entry)
      reads this
    {
      forall h :: h in handed && h.exec == x.exec ==>
        && k in versions && h.version == versions[k] && h.changes == x.changes
        && (x.parent != 0 ==> h.parent == x.parent)
    }

    method RegisterPendingDispatch(k: Key, x: Entry)
      modifies this`pending
      ensures pending == old(pending)[k := x]
    {
      pending := pending[k := x];
    }

    /** Removes and returns a registration: a second taker gets nothing. */
    method TakePendingDispatch(k: Key) returns (r: Option<Entry>)
      modifies this`pending
      ensures pending == old(pending) - {k}
      ensures r == if k in old(pending) then Some(old(pending)[k]) else None
    {
      if k !in pending {
        assert pending - {k} == pending;
        return None;
      }
      r := Some(pending[k]);
      pending := pending - {k};
    }

    method ForgetPendingDispatch(k: Key)
      modifies this`pending
      ensures pending == old(pending) - {k}
    {
      pending := pending - {k};
    }

    /** The apply hook and the background dispatch alike: take, and dispatch what was there. */
    method DispatchCommitted(k: Key, v: Version, parent: Version)
      modifies this`pending, this`handed
      ensures pending == old(pending) - {k}
      ensures k !in old(pending) ==> handed == old(handed)
      ensures k in old(pending) ==> var x := old(pending)[k];
        handed == old(handed) + [Hand(x.exec, v, if x.parent != 0 then x.parent else parent, x.changes)]
    {
      var r := TakePendingDispatch(k);
      if r.None? { return; }
      var x := r.value;
      handed := handed + [Hand(x.exec, v, if x.parent != 0 then x.parent else parent, x.changes)];
    }

    /**
      Hooks for any command, and the registry calls of Executes of other knowledge bases. If
      the registration of `e` goes, its changes have been handed over.
    */
    method Others(k: Key, x: Entry)
      requires OnlyMine(k, x) && Told(k, x)
      modifies this
      ensures OnlyMine(k, x) && Told(k, x)
      ensures Times(handed, x.exec) + Left(k) == Times(old(handed), x.exec) + old(Left(k))
      ensures forall j :: j in old(versions) ==> j in versions && versions[j] == old(versions)[j]
    {
      var n: nat :| n >= 0;
      for i := 0 to n
        invariant OnlyMine(k, x) && Told(k, x)
        invariant Times(handed, x.exec) + Left(k) == Times(old(handed), x.exec) + old(Left(k))
        invariant forall j :: j in old(versions) ==> j in versions && versions[j] == old(versions)[j]
      {
        var j: Key, y: Entry, v: Version := *, *, *;
        if * {
          ApplyCommand(j, v);
          HandOverOne(handed, pending, j, versions[j], x.exec);
          DispatchCommitted(j, versions[j], 0);
        } else if j.0 != k.0 && y.exec != x.exec {
          if * {
            RegisterPendingDispatch(j, y);
          } else {
            ForgetPendingDispatch(j);
          }
        }
      }
    }

    /** The command of a request is applied: the first time it creates a version, later it finds that one. */
    method ApplyCommand(k: Key, next: Version)
      modifies this`versions
      ensures versions == if k in old(versions) then old(versions) else old(versions)[k := next]
    {
      if k !in versions {
        versions := versions[k := next];
      }
    }

    /** One while the registration is there. */
    ghost function Left(k: Key): nat
      reads this
    {
      if k in pending then 1 else 0
    }

    /**
      With a dispatcher wired: register, propose, and dispatch if the hook has not. `leader` says
      whether this node leads, `commits` whether the proposal commits. The lock is held
      throughout, so no registration of the knowledge base is there before or after.
    */
    method Execute(
      e: Exec, kb: Kb, parent: Version, changes: Changes, request: RequestId, leader: bool, commits: bool)
      returns (r: Result<Version, Fault>)
      requires NoneOf(kb) && Times(handed, e) == 0 && forall j :: j in pending ==> pending[j].exec != e
      modifies this
      ensures NoneOf(kb)
      ensures r.Ok? <==> leader && changes != [] && commits
      ensures r == Err(NotLeader) <==> !leader
      ensures r == Err(EmptyChanges) <==> leader && changes == []
      ensures Times(handed, e) <= 1 && (r.Ok? ==> Times(handed, e) == 1)
      ensures r.Ok? ==> exists h :: h in handed && h.exec == e
      ensures r.Ok? ==> forall h :: h in handed && h.exec == e ==>
        h.version == r.value && h.changes == changes && (parent != 0 ==> h.parent == parent)
      ensures r.Ok? && request != "" ==> (kb, request) in versions && versions[(kb, request)] == r.value
      ensures r.Err? && !r.error.ProposeFailed? ==> handed == old(handed) && pending == old(pending)
    {
      if !leader { return Err(NotLeader); }
      if |changes| == 0 { return Err(EmptyChanges); }
      var id := request;
      if id == "" { id := *; }
      var k, x := (kb, id), Entry(e, parent, changes);
      forall h | h in handed ensures h.exec != e {
        HandCounts(handed, h);
      }
      RegisterPendingDispatch(k, x);
      Others(k, x);
      if !commits {
        ForgetPendingDispatch(k);
        return Err(ProposeFailed);
      }
      var next: Version :| true;
      ApplyCommand(k, next);
      Others(k, x);
      var v := versions[k];
      HandOverOne(handed, pending, k, v, e);
      DispatchCommitted(k, v, 0);
      HandExists(handed, e);
      r := Ok(v);
    }
  }

  lemma {:induction false} HandCounts(handed: seq<Hand>, h: Hand)
    requires h in handed
    ensures Times(handed, h.exec) > 0
  {
    if handed[|handed| - 1] != h {
      HandCounts(handed[..|handed| - 1], h);
    }
  }

  lemma HandOverOne(handed: seq<Hand>, pending: map<Key, Entry>, k: Key, v: Version, e: Exec)
    ensures k in pending ==> forall p ::
      Times(handed + [Hand(pending[k].exec, v, p, pending[k].changes)], e) == Times(handed, e) + if pending[k].exec == e then 1 else 0
  {
    if k in pending {
      forall p ensures Times(handed + [Hand(pending[k].exec, v, p, pending[k].changes)], e) ==
        Times(handed, e) + if pending[k].exec == e then 1 else 0
      {
        TimesOneMore(handed, Hand(pending[k].exec, v, p, pending[k].changes), e);
      }
    }
  }
}
