/**
  The bounded build pool: a fixed number of workers, two queues of which the interactive one
  always goes first, and a condition variable workers sleep on. Submit, Close and the
  workers' critical sections interleave in any order; what happened is kept in a log, and
  the properties are stated about the log.
*/
module BuildPool {
  import opened Basics

  datatype Priority = Interactive | Backfill
  datatype Request = Request(id: nat, priority: Priority)

  datatype Event = Accepted(req: Request) | Started(req: Request) | Ran(req: Request)

  /** Ready: on the way to the lock. Sleeping: in cond.Wait, not signalled. Finishing: fn has returned. */
  datatype Phase = Ready | Sleeping | Running(req: Request) | Finishing | Exited

  datatype Queues = Queues(interactive: seq<Request>, backfill: seq<Request>)

  datatype Pool = Pool(queues: Queues, closed: bool, inFlight: int, workers: seq<Phase>, log: seq<Event>)

  datatype Step =
    | Submit(req: Request, woken: Option<nat>)  // the sleeper the signal reaches, if there is one
    | Close
    | Take(worker: nat)                         // lock, then wait, exit or take a request
    | Return(worker: nat)                       // fn returns
    | Finish(worker: nat)                       // lock, inFlight--

  function Queued(q: Queues): nat {
    |q.interactive| + |q.backfill|
  }

  function Enqueue(q: Queues, req: Request): Queues {
    if req.priority.Interactive? then q.(interactive := q.interactive + [req])
    else q.(backfill := q.backfill + [req])
  }

  /** The request that goes next: the oldest interactive one, or else the oldest of the others. */
  function Next(q: Queues): Request
    requires Queued(q) > 0
  {
    if |q.interactive| > 0 then q.interactive[0] else q.backfill[0]
  }

  function Rest(q: Queues): Queues
    requires Queued(q) > 0
  {
    if |q.interactive| > 0 then q.(interactive := q.interactive[1..]) else q.(backfill := q.backfill[1..])
  }

  function Woken(p: Phase): Phase {
    if p.Sleeping? then Ready else p
  }

  /** Every sleeper wakes up. */
  function WakeAll(ws: seq<Phase>): seq<Phase> {
    seq(|ws|, i requires 0 <= i < |ws| => Woken(ws[i]))
  }

  ghost predicate Enabled(s: Pool, a: Step) {
    match a
    case Submit(_, None) => s.closed || forall i :: 0 <= i < |s.workers| ==> !s.workers[i].Sleeping?
    case Submit(_, Some(w)) => !s.closed && w < |s.workers| && s.workers[w].Sleeping?
    case Close => true
    case Take(w) => w < |s.workers| && s.workers[w].Ready?
    case Return(w) => w < |s.workers| && s.workers[w].Running?
    case Finish(w) => w < |s.workers| && s.workers[w].Finishing?
  }

  ghost function TakeApply(s: Pool, w: nat): Pool
    requires w < |s.workers|
  {
    if Queued(s.queues) == 0 then s.(workers := s.workers[w := if s.closed then Exited else Sleeping])
    else
      var req := Next(s.queues);
      s.(queues := Rest(s.queues), inFlight := s.inFlight + 1, workers := s.workers[w := Running(req)],
         log := s.log + [Started(req)])
  }

  ghost function Apply(s: Pool, a: Step): Pool
    requires Enabled(s, a)
  {
    match a
    case Submit(req, woken) =>
      if s.closed then s
      else
        s.(queues := Enqueue(s.queues, req), log := s.log + [Accepted(req)],
           workers := if woken.Some? then s.workers[woken.value := Ready] else s.workers)
    case Close => s.(closed := true, workers := if s.closed then s.workers else WakeAll(s.workers))
    case Take(w) => TakeApply(s, w)
    case Return(w) => s.(workers := s.workers[w := Finishing], log := s.log + [Ran(s.workers[w].req)])
    case Finish(w) => s.(inFlight := s.inFlight - 1, workers := s.workers[w := Ready])
  }

  /** A pool just started. */
  ghost predicate Init(s: Pool) {
    && s.queues == Queues([], []) && !s.closed && s.inFlight == 0 && s.log == []
    && |s.workers| >= 1 && forall i :: 0 <= i < |s.workers| ==> s.workers[i].Ready?
  }

  // ---------------------------------------------------------------- reading the log

  /** The accepted requests of one class, in the order they were accepted. */
  ghost function AcceptedOf(log: seq<Event>, c: Priority): seq<Request> {
    if log == [] then []
    else
      var e := log[|log| - 1];
      AcceptedOf(log[..|log| - 1], c) + if e.Accepted? && e.req.priority == c then [e.req] else []
  }

  ghost function StartedOf(log: seq<Event>, c: Priority): seq<Request> {
    if log == [] then []
    else
      var e := log[|log| - 1];
      StartedOf(log[..|log| - 1], c) + if e.Started? && e.req.priority == c then [e.req] else []
  }

  lemma Logged(log: seq<Event>, e: Event, c: Priority)
    ensures AcceptedOf(log + [e], c) == AcceptedOf(log, c) + if e.Accepted? && e.req.priority == c then [e.req] else []
    ensures StartedOf(log + [e], c) == StartedOf(log, c) + if e.Started? && e.req.priority == c then [e.req] else []
  {
    assert (log + [e])[..|log|] == log;
  }

  lemma OneMore<T>(front: seq<T>, last: T, x: T)
    ensures multiset(front + [last])[x] == multiset(front)[x] + if last == x then 1 else 0
  {
  }

  lemma {:induction false} AcceptedCount(log: seq<Event>, r: Request)
    ensures multiset(AcceptedOf(log, r.priority))[r] == multiset(log)[Accepted(r)]
  {
    if log != [] {
      var front, e := log[..|log| - 1], log[|log| - 1];
      AcceptedCount(front, r);
      assert log == front + [e];
      OneMore(front, e, Accepted(r));
      if e.Accepted? && e.req.priority == r.priority {
        OneMore(AcceptedOf(front, r.priority), e.req, r);
      }
    }
  }

  lemma {:induction false} StartedCount(log: seq<Event>, r: Request)
    ensures multiset(StartedOf(log, r.priority))[r] == multiset(log)[Started(r)]
  {
    if log != [] {
      var front, e := log[..|log| - 1], log[|log| - 1];
      StartedCount(front, r);
      assert log == front + [e];
      OneMore(front, e, Started(r));
      if e.Started? && e.req.priority == r.priority {
        OneMore(StartedOf(front, r.priority), e.req, r);
      }
    }
  }

  /** Whenever a backfill request started, no accepted interactive request was still waiting. */
  ghost predicate InteractiveFirst(log: seq<Event>) {
    forall i :: 0 <= i < |log| && log[i].Started? && log[i].req.priority.Backfill? ==>
      StartedOf(log[..i], Interactive) == AcceptedOf(log[..i], Interactive)
  }

  // ---------------------------------------------------------------- counting workers

  predicate Busy(p: Phase) {
    p.Running? || p.Finishing?
  }

  /** The workers that have taken a request and not yet reported back. */
  ghost function BusyCount(ws: seq<Phase>): nat {
    if ws == [] then 0 else BusyCount(ws[1..]) + if Busy(ws[0]) then 1 else 0
  }

  lemma {:induction false} ReplaceBusy(ws: seq<Phase>, w: nat, p: Phase)
    requires w < |ws|
    ensures BusyCount(ws[w := p]) + (if Busy(ws[w]) then 1 else 0) == BusyCount(ws) + if Busy(p) then 1 else 0
  {
    if w == 0 {
      assert ws[w := p][1..] == ws[1..];
    } else {
      ReplaceBusy(ws[1..], w - 1, p);
      assert ws[w := p][1..] == ws[1..][w - 1 := p];
    }
  }

  lemma {:induction false} WakingMovesNoWork(ws: seq<Phase>)
    ensures BusyCount(WakeAll(ws)) == BusyCount(ws)
    ensures forall r :: multiset(WakeAll(ws))[Running(r)] == multiset(ws)[Running(r)]
  {
    if ws != [] {
      WakingMovesNoWork(ws[1..]);
      assert WakeAll(ws)[1..] == WakeAll(ws[1..]);
      assert WakeAll(ws) == [Woken(ws[0])] + WakeAll(ws[1..]);
      assert ws == [ws[0]] + ws[1..];
    }
  }

  lemma {:induction false} BusyAtMostAll(ws: seq<Phase>)
    ensures BusyCount(ws) <= |ws|
  {
    if ws != [] { BusyAtMostAll(ws[1..]); }
  }

  lemma {:induction false} NoneBusy(ws: seq<Phase>)
    requires forall i :: 0 <= i < |ws| ==> !Busy(ws[i])
    ensures BusyCount(ws) == 0
  {
    if ws != [] { NoneBusy(ws[1..]); }
  }

  lemma Absent(ws: seq<Phase>, p: Phase)
    requires p !in ws
    ensures multiset(ws)[p] == 0
  {
    assert p !in multiset(ws);
  }

  // ---------------------------------------------------------------- invariant

  /** Each queue is what was accepted of its class and has not started, in order. */
  ghost predicate Fifo(q: Queues, log: seq<Event>) {
    && AcceptedOf(log, Interactive) == StartedOf(log, Interactive) + q.interactive
    && AcceptedOf(log, Backfill) == StartedOf(log, Backfill) + q.backfill
    && (forall i :: 0 <= i < |q.interactive| ==> q.interactive[i].priority == Interactive)
    && (forall i :: 0 <= i < |q.backfill| ==> q.backfill[i].priority == Backfill)
  }

  /** While anyone sleeps, enough workers are on their way to take everything queued. */
  ghost predicate NoLostWakeUp(queued: nat, ws: seq<Phase>) {
    Sleeping in ws ==> multiset(ws)[Ready] >= queued
  }

  /** Nobody sleeps on a closed pool, and workers leave only a closed and drained one. */
  ghost predicate ClosedSound(queued: nat, closed: bool, ws: seq<Phase>) {
    && (closed ==> Sleeping !in ws)
    && (Exited in ws ==> closed && queued == 0)
  }

  /** Every started request is being built or has run, none twice. */
  ghost predicate OnceEach(log: seq<Event>, ws: seq<Phase>) {
    forall r :: multiset(log)[Started(r)] == multiset(log)[Ran(r)] + multiset(ws)[Running(r)]
  }

  ghost predicate Inv(s: Pool) {
    && Fifo(s.queues, s.log) && InteractiveFirst(s.log)
    && NoLostWakeUp(Queued(s.queues), s.workers)
    && ClosedSound(Queued(s.queues), s.closed, s.workers)
    && s.inFlight == BusyCount(s.workers)
    && OnceEach(s.log, s.workers)
  }

  lemma LogKeepsInteractiveFirst(log: seq<Event>, e: Event)
    requires InteractiveFirst(log)
    requires e.Started? && e.req.priority.Backfill? ==> StartedOf(log, Interactive) == AcceptedOf(log, Interactive)
    ensures InteractiveFirst(log + [e])
  {
    var log' := log + [e];
    forall i | 0 <= i < |log'| && log'[i].Started? && log'[i].req.priority.Backfill?
      ensures StartedOf(log'[..i], Interactive) == AcceptedOf(log'[..i], Interactive)
    {
      assert log'[..i] == log[..i];
      assert log[..|log|] == log;
    }
  }

  lemma InitKeepsInv(s: Pool)
    requires Init(s)
    ensures Inv(s)
  {
    NoneBusy(s.workers);
    forall r ensures multiset(s.workers)[Running(r)] == 0 {
      Absent(s.workers, Running(r));
    }
  }

  lemma AcceptKeepsFifo(q: Queues, log: seq<Event>, req: Request)
    requires Fifo(q, log)
    ensures Fifo(Enqueue(q, req), log + [Accepted(req)])
  {
    Logged(log, Accepted(req), Interactive);
    Logged(log, Accepted(req), Backfill);
  }

  lemma StartKeepsFifo(q: Queues, log: seq<Event>)
    requires Fifo(q, log) && Queued(q) > 0
    ensures Fifo(Rest(q), log + [Started(Next(q))])
  {
    Logged(log, Started(Next(q)), Interactive);
    Logged(log, Started(Next(q)), Backfill);
  }

  lemma RanKeepsFifo(q: Queues, log: seq<Event>, req: Request)
    requires Fifo(q, log)
    ensures Fifo(q, log + [Ran(req)])
  {
    Logged(log, Ran(req), Interactive);
    Logged(log, Ran(req), Backfill);
  }

  /** Swapping one worker's phase changes the workers' tally by those two phases. */
  lemma ReplaceTally(ws: seq<Phase>, w: nat, p: Phase)
    requires w < |ws|
    ensures multiset(ws[w := p]) == multiset(ws) - multiset{ws[w]} + multiset{p}
    ensures ws[w] in multiset(ws)
    ensures forall q :: q != p && q in ws[w := p] ==> q in ws
    ensures p in ws[w := p]
  {
    assert ws == ws[..w] + [ws[w]] + ws[w + 1..];
    assert ws[w := p] == ws[..w] + [p] + ws[w + 1..];
  }

  lemma AcceptKeepsOnce(log: seq<Event>, ws: seq<Phase>, req: Request)
    requires OnceEach(log, ws)
    ensures OnceEach(log + [Accepted(req)], ws)
  {
  }

  lemma RanKeepsOnce(log: seq<Event>, ws: seq<Phase>, w: nat)
    requires OnceEach(log, ws) && w < |ws| && ws[w].Running?
    ensures OnceEach(log + [Ran(ws[w].req)], ws[w := Finishing])
  {
    ReplaceTally(ws, w, Finishing);
  }

  lemma WakeOne(queued: nat, log: seq<Event>, ws: seq<Phase>, w: nat)
    requires w < |ws| && ws[w].Sleeping? && OnceEach(log, ws)
    requires NoLostWakeUp(queued, ws) && ClosedSound(queued, false, ws)
    ensures NoLostWakeUp(queued + 1, ws[w := Ready]) && ClosedSound(queued + 1, false, ws[w := Ready])
    ensures OnceEach(log, ws[w := Ready]) && BusyCount(ws[w := Ready]) == BusyCount(ws)
  {
    assert ws[w] in ws;
    ReplaceBusy(ws, w, Ready);
    ReplaceTally(ws, w, Ready);
  }

  lemma SubmitKeepsInv(s: Pool, req: Request, woken: Option<nat>)
    requires Inv(s) && Enabled(s, Submit(req, woken))
    ensures Inv(Apply(s, Submit(req, woken)))
  {
    if !s.closed {
      AcceptKeepsFifo(s.queues, s.log, req);
      LogKeepsInteractiveFirst(s.log, Accepted(req));
      AcceptKeepsOnce(s.log, s.workers, req);
      if woken.Some? {
        WakeOne(Queued(s.queues), s.log + [Accepted(req)], s.workers, woken.value);
      }
    }
  }

  lemma CloseKeepsInv(s: Pool)
    requires Inv(s)
    ensures Inv(Apply(s, Close))
  {
    WakingMovesNoWork(s.workers);
  }

  lemma RestKeepsInv(s: Pool, w: nat)
    requires Inv(s) && Enabled(s, Take(w)) && Queued(s.queues) == 0
    ensures Inv(Apply(s, Take(w)))
  {
    var p := if s.closed then Exited else Sleeping;
    ReplaceBusy(s.workers, w, p);
    ReplaceTally(s.workers, w, p);
  }

  lemma StartKeepsInv(s: Pool, w: nat)
    requires Inv(s) && Enabled(s, Take(w)) && Queued(s.queues) > 0
    ensures Inv(Apply(s, Take(w)))
  {
    var req := Next(s.queues);
    StartKeepsFifo(s.queues, s.log);
    LogKeepsInteractiveFirst(s.log, Started(req));
    ReplaceBusy(s.workers, w, Running(req));
    ReplaceTally(s.workers, w, Running(req));
  }

  lemma ReturnMovesNobody(queued: nat, closed: bool, ws: seq<Phase>, w: nat)
    requires w < |ws| && ws[w].Running? && NoLostWakeUp(queued, ws) && ClosedSound(queued, closed, ws)
    ensures NoLostWakeUp(queued, ws[w := Finishing]) && ClosedSound(queued, closed, ws[w := Finishing])
    ensures BusyCount(ws[w := Finishing]) == BusyCount(ws)
  {
    ReplaceBusy(ws, w, Finishing);
    ReplaceTally(ws, w, Finishing);
  }

  lemma ReturnKeepsInv(s: Pool, w: nat)
    requires Inv(s) && Enabled(s, Return(w))
    ensures Inv(Apply(s, Return(w)))
  {
    var req := s.workers[w].req;
    RanKeepsFifo(s.queues, s.log, req);
    LogKeepsInteractiveFirst(s.log, Ran(req));
    ReturnMovesNobody(Queued(s.queues), s.closed, s.workers, w);
    RanKeepsOnce(s.log, s.workers, w);
  }

  lemma FinishKeepsInv(s: Pool, w: nat)
    requires Inv(s) && Enabled(s, Finish(w))
    ensures Inv(Apply(s, Finish(w)))
  {
    ReplaceBusy(s.workers, w, Ready);
    ReplaceTally(s.workers, w, Ready);
  }

  lemma StepKeepsInv(s: Pool, a: Step)
    requires Inv(s) && Enabled(s, a)
    ensures Inv(Apply(s, a)) && |Apply(s, a).workers| == |s.workers|
  {
    match a
    case Submit(req, woken) => SubmitKeepsInv(s, req, woken);
    case Close => CloseKeepsInv(s);
    case Take(w) => if Queued(s.queues) == 0 { RestKeepsInv(s, w); } else { StartKeepsInv(s, w); }
    case Return(w) => ReturnKeepsInv(s, w);
    case Finish(w) => FinishKeepsInv(s, w);
  }

  ghost predicate IsRun(s: Pool, steps: seq<Step>)
    decreases |steps|
  {
    steps != [] ==> Enabled(s, steps[0]) && IsRun(Apply(s, steps[0]), steps[1..])
  }

  ghost function RunTo(s: Pool, steps: seq<Step>): Pool
    requires IsRun(s, steps)
    decreases |steps|
  {
    if steps == [] then s else RunTo(Apply(s, steps[0]), steps[1..])
  }

  lemma {:induction false} RunKeepsInv(s: Pool, steps: seq<Step>)
    requires Inv(s) && IsRun(s, steps)
    ensures Inv(RunTo(s, steps)) && |RunTo(s, steps).workers| == |s.workers|
    decreases |steps|
  {
    if steps != [] {
      StepKeepsInv(s, steps[0]);
      RunKeepsInv(Apply(s, steps[0]), steps[1..]);
    }
  }

  // ---------------------------------------------------------------- what every run has

  /**
    No lost wake-up: on every run, while any worker sleeps there are as many on their way to
    the lock as requests queued, so queued work never waits for workers all asleep or gone.
  */
  lemma QueuedWorkHasAWorker(s: Pool, steps: seq<Step>)
    requires Init(s) && IsRun(s, steps)
    ensures var s' := RunTo(s, steps);
      && (Sleeping in s'.workers ==> multiset(s'.workers)[Ready] >= Queued(s'.queues))
      && (Queued(s'.queues) > 0 ==>
            exists i :: 0 <= i < |s'.workers| && !s'.workers[i].Sleeping? && !s'.workers[i].Exited?)
  {
    InitKeepsInv(s);
    RunKeepsInv(s, steps);
    var ws := RunTo(s, steps).workers;
    if forall i :: 0 <= i < |ws| ==> ws[i].Sleeping? || ws[i].Exited? {
      assert ws[0] in ws;
      Absent(ws, Ready);
    }
  }

  /** The events of one kind and class before position `n` of the log. */
  ghost function Accepts(log: seq<Event>, n: nat, c: Priority): set<nat>
    requires n <= |log|
  {
    set k: nat | 0 <= k < n && log[k].Accepted? && log[k].req.priority == c
  }

  ghost function Starts(log: seq<Event>, n: nat, c: Priority): set<nat>
    requires n <= |log|
  {
    set k: nat | 0 <= k < n && log[k].Started? && log[k].req.priority == c
  }

  lemma OneMoreElement(s: set<nat>, s': set<nat>, n: nat, more: bool)
    requires n !in s && forall k: nat :: k in s' <==> k in s || (more && k == n)
    ensures |s'| == |s| + if more then 1 else 0
  {
    assert s' == if more then s + {n} else s;
  }

  lemma OneMoreEvent(log: seq<Event>, n: nat, c: Priority)
    requires n < |log|
    ensures |Accepts(log, n + 1, c)| == |Accepts(log, n, c)| + if log[n].Accepted? && log[n].req.priority == c then 1 else 0
    ensures |Starts(log, n + 1, c)| == |Starts(log, n, c)| + if log[n].Started? && log[n].req.priority == c then 1 else 0
  {
    OneMoreElement(Accepts(log, n, c), Accepts(log, n + 1, c), n, log[n].Accepted? && log[n].req.priority == c);
    OneMoreElement(Starts(log, n, c), Starts(log, n + 1, c), n, log[n].Started? && log[n].req.priority == c);
  }

  lemma {:induction false} LogCounts(log: seq<Event>, n: nat, c: Priority)
    requires n <= |log|
    ensures |AcceptedOf(log[..n], c)| == |Accepts(log, n, c)|
    ensures |StartedOf(log[..n], c)| == |Starts(log, n, c)|
  {
    if n == 0 {
      assert Accepts(log, 0, c) == {} && Starts(log, 0, c) == {};
    } else {
      LogCounts(log, n - 1, c);
      Logged(log[..n - 1], log[n - 1], c);
      assert log[..n] == log[..n - 1] + [log[n - 1]];
      OneMoreEvent(log, n - 1, c);
    }
  }

  /** The n-th accepted request of a class has its place in the log. */
  lemma {:induction false} AcceptedPlace(log: seq<Event>, c: Priority, n: nat) returns (j: nat)
    requires n < |AcceptedOf(log, c)|
    ensures j < |log| && log[j] == Accepted(AcceptedOf(log, c)[n]) && log[j].req.priority == c && |AcceptedOf(log[..j], c)| == n
  {
    var front, e := log[..|log| - 1], log[|log| - 1];
    if n < |AcceptedOf(front, c)| {
      j := AcceptedPlace(front, c, n);
      assert log[..j] == front[..j];
    } else {
      j := |log| - 1;
    }
  }

  /** Each start is of the oldest accepted request of its class that had not started. */
  ghost predicate StartsFollow(log: seq<Event>) {
    forall i :: 0 <= i < |log| && log[i].Started? ==>
      var c, before := log[i].req.priority, log[..i];
      |StartedOf(before, c)| < |AcceptedOf(before, c)| && AcceptedOf(before, c)[|StartedOf(before, c)|] == log[i].req
  }

  lemma StepKeepsFollow(s: Pool, a: Step)
    requires Inv(s) && Enabled(s, a) && StartsFollow(s.log)
    ensures StartsFollow(Apply(s, a).log)
  {
    var log, log' := s.log, Apply(s, a).log;
    if log' != log {
      assert log' == log + [log'[|log|]];
      forall i | 0 <= i < |log'| && log'[i].Started?
        ensures var c, before := log'[i].req.priority, log'[..i];
          |StartedOf(before, c)| < |AcceptedOf(before, c)| && AcceptedOf(before, c)[|StartedOf(before, c)|] == log'[i].req
      {
        if i < |log| {
          assert log'[..i] == log[..i];
        } else {
          assert log'[..i] == log;
        }
      }
    }
  }

  lemma {:induction false} RunKeepsFollow(s: Pool, steps: seq<Step>)
    requires Inv(s) && IsRun(s, steps) && StartsFollow(s.log)
    ensures StartsFollow(RunTo(s, steps).log)
    decreases |steps|
  {
    if steps != [] {
      StepKeepsFollow(s, steps[0]);
      StepKeepsInv(s, steps[0]);
      RunKeepsFollow(Apply(s, steps[0]), steps[1..]);
    }
  }

  lemma {:induction false} BusyIs(ws: seq<Phase>, n: nat)
    requires n <= |ws|
    ensures BusyCount(ws[n..]) == |set i: nat | n <= i < |ws| && (ws[i].Running? || ws[i].Finishing?)|
    decreases |ws| - n
  {
    var all := set i: nat | n <= i < |ws| && (ws[i].Running? || ws[i].Finishing?);
    if n < |ws| {
      BusyIs(ws, n + 1);
      assert ws[n..][1..] == ws[n + 1..];
      var rest := set i: nat | n + 1 <= i < |ws| && (ws[i].Running? || ws[i].Finishing?);
      assert all == rest + if Busy(ws[n]) then {n} else {};
    } else {
      assert all == {};
    }
  }

  /**
    Order and bound, over every run. A start has its own acceptance before it: if `n` requests
    of its class have started so far, it is of the one that was accepted after `n` others. A
    backfill request starts only when as many interactive ones have started as were accepted.
    The builds in flight are counted exactly and never exceed the pool's size.
  */
  lemma StartsInOrder(s: Pool, steps: seq<Step>, i: nat)
    requires Init(s) && IsRun(s, steps)
    ensures var s' := RunTo(s, steps);
      && (i < |s'.log| && s'.log[i].Started? ==>
            exists j: nat :: j < i && s'.log[j] == Accepted(s'.log[i].req) &&
              |Accepts(s'.log, j, s'.log[i].req.priority)| == |Starts(s'.log, i, s'.log[i].req.priority)|)
      && (i < |s'.log| && s'.log[i].Started? && s'.log[i].req.priority.Backfill? ==>
            |Starts(s'.log, i, Interactive)| == |Accepts(s'.log, i, Interactive)|)
      && s'.inFlight == |set w: nat | 0 <= w < |s'.workers| && (s'.workers[w].Running? || s'.workers[w].Finishing?)|
      && 0 <= s'.inFlight <= |s.workers|
  {
    InitKeepsInv(s);
    RunKeepsInv(s, steps);
    RunKeepsFollow(s, steps);
    var s' := RunTo(s, steps);
    BusyAtMostAll(s'.workers);
    BusyIs(s'.workers, 0);
    assert s'.workers[0..] == s'.workers;
    if i < |s'.log| && s'.log[i].Started? {
      var j := StartHasItsPlace(s'.log, i);
      if s'.log[i].req.priority.Backfill? {
        LogCounts(s'.log, i, Interactive);
      }
    }
  }

  lemma StartHasItsPlace(log: seq<Event>, i: nat) returns (j: nat)
    requires StartsFollow(log) && i < |log| && log[i].Started?
    ensures j < i && log[j] == Accepted(log[i].req)
    ensures |Accepts(log, j, log[i].req.priority)| == |Starts(log, i, log[i].req.priority)|
  {
    var c := log[i].req.priority;
    j := AcceptedPlace(log[..i], c, |StartedOf(log[..i], c)|);
    assert log[..i][..j] == log[..j];
    LogCounts(log, i, c);
    LogCounts(log, j, c);
  }

  /** What the WaitGroup waits for. */
  ghost predicate Drained(s: Pool) {
    forall i :: 0 <= i < |s.workers| ==> s.workers[i].Exited?
  }

  /** When the closing Close returns, every accepted request has run exactly once and none is running. */
  lemma CloseReturnsAfterEverythingRan(s: Pool, steps: seq<Step>, r: Request)
    requires Init(s) && IsRun(s, steps) && Drained(RunTo(s, steps))
    ensures var s' := RunTo(s, steps);
      && multiset(s'.log)[Ran(r)] == multiset(s'.log)[Accepted(r)]
      && s'.closed && Queued(s'.queues) == 0 && s'.inFlight == 0
  {
    InitKeepsInv(s);
    RunKeepsInv(s, steps);
    var s' := RunTo(s, steps);
    assert s'.workers[0] in s'.workers;
    NoneBusy(s'.workers);
    Absent(s'.workers, Running(r));
    AcceptedCount(s'.log, r);
    StartedCount(s'.log, r);
  }

  // ---------------------------------------------------------------- progress

  ghost function PhaseRank(p: Phase): nat {
    match p
    case Running(_) => 3
    case Finishing => 2
    case Ready => 1
    case Sleeping => 0
    case Exited => 0
  }

  ghost function WorkersRank(ws: seq<Phase>): nat {
    if ws == [] then 0 else PhaseRank(ws[0]) + WorkersRank(ws[1..])
  }

  /** How many worker steps are left at most if nothing is submitted. */
  ghost function Rank(s: Pool): nat {
    4 * Queued(s.queues) + WorkersRank(s.workers)
  }

  lemma {:induction false} ReplaceRank(ws: seq<Phase>, w: nat, p: Phase)
    requires w < |ws|
    ensures WorkersRank(ws[w := p]) + PhaseRank(ws[w]) == WorkersRank(ws) + PhaseRank(p)
  {
    if w == 0 {
      assert ws[w := p][1..] == ws[1..];
    } else {
      ReplaceRank(ws[1..], w - 1, p);
      assert ws[w := p][1..] == ws[1..][w - 1 := p];
    }
  }

  /** Every worker step brings the pool closer to rest. */
  lemma WorkerStepDecreases(s: Pool, a: Step)
    requires Enabled(s, a) && ByWorker(a)
    ensures Rank(Apply(s, a)) < Rank(s)
  {
    ReplaceRank(s.workers, a.worker, Apply(s, a).workers[a.worker]);
  }

  /**
    A pool where no worker can step has nothing queued; if it is closed it is drained.
  */
  lemma StuckMeansDone(s: Pool, steps: seq<Step>)
    requires Init(s) && IsRun(s, steps)
    ensures var s' := RunTo(s, steps);
      (forall w :: !Enabled(s', Take(w)) && !Enabled(s', Return(w)) && !Enabled(s', Finish(w))) ==>
        Queued(s'.queues) == 0 && BusyCount(s'.workers) == 0 && (s'.closed ==> Drained(s'))
  {
    InitKeepsInv(s);
    RunKeepsInv(s, steps);
    var s' := RunTo(s, steps);
    if forall w :: !Enabled(s', Take(w)) && !Enabled(s', Return(w)) && !Enabled(s', Finish(w)) {
      forall i | 0 <= i < |s'.workers| ensures s'.workers[i].Sleeping? || s'.workers[i].Exited? {
        assert !Enabled(s', Take(i)) && !Enabled(s', Return(i)) && !Enabled(s', Finish(i));
      }
      NoneBusy(s'.workers);
      Absent(s'.workers, Ready);
      assert s'.workers[0] in s'.workers;
    }
  }

  predicate ByWorker(a: Step) {
    a.Take? || a.Return? || a.Finish?
  }

  /** Without submissions, workers take at most Rank more steps. */
  lemma {:induction false} WorkersRest(s: Pool, steps: seq<Step>)
    requires IsRun(s, steps) && forall i :: 0 <= i < |steps| ==> ByWorker(steps[i])
    ensures |steps| + Rank(RunTo(s, steps)) <= Rank(s)
    decreases |steps|
  {
    if steps != [] {
      WorkerStepDecreases(s, steps[0]);
      WorkersRest(Apply(s, steps[0]), steps[1..]);
    }
  }

  lemma {:induction false} RunsJoin(s: Pool, x: seq<Step>, y: seq<Step>)
    requires IsRun(s, x) && IsRun(RunTo(s, x), y)
    ensures IsRun(s, x + y) && RunTo(s, x + y) == RunTo(RunTo(s, x), y)
    decreases |x|
  {
    if x == [] {
      assert x + y == y;
    } else {
      RunsJoin(Apply(s, x[0]), x[1..], y);
      assert (x + y)[1..] == x[1..] + y;
    }
  }

  /**
    Close returns. After any run that closed the pool, workers can only take so many more
    steps (WorkersRest), and as long as they have not all left, one of them can take one: so
    every way of letting them go on ends, after at most Rank steps, with every worker gone.
  */
  lemma CloseReturns(s: Pool, before: seq<Step>, after: seq<Step>)
    requires Init(s) && IsRun(s, before) && RunTo(s, before).closed
    requires IsRun(RunTo(s, before), after) && forall i :: 0 <= i < |after| ==> ByWorker(after[i])
    ensures |after| <= Rank(RunTo(s, before))
    ensures var s' := RunTo(RunTo(s, before), after);
      Drained(s') <==> forall w :: !Enabled(s', Take(w)) && !Enabled(s', Return(w)) && !Enabled(s', Finish(w))
  {
    WorkersRest(RunTo(s, before), after);
    RunsJoin(s, before, after);
    StuckMeansDone(s, before + after);
    StaysClosed(RunTo(s, before), after);
  }

  lemma {:induction false} StaysClosed(s: Pool, steps: seq<Step>)
    requires IsRun(s, steps) && s.closed
    ensures RunTo(s, steps).closed
    decreases |steps|
  {
    if steps != [] { StaysClosed(Apply(s, steps[0]), steps[1..]); }
  }

  // ---------------------------------------------------------------- the pool

  /** What a worker does after its locked section: wait on the condition, leave, or build. */
  datatype Outcome = Wait | Leave | Build(req: Request)

  /**
    The pool's own fields; the workers' phases and the log are ghost. Each method is one
    critical section and one step of the machine above.
  */
  class SharedPool {
    var interactive: seq<Request>
    var backfill: seq<Request>
    var closed: bool
    var inFlight: int
    ghost var workers: seq<Phase>
    ghost var log: seq<Event>

    ghost function S(): Pool
      reads this
    {
      Pool(Queues(interactive, backfill), closed, inFlight, workers, log)
    }

    /** Starts `size` workers, or the default number when `size` is not positive. */
    constructor (size: int, cpus: int)
      ensures Init(S()) && |workers| == if size > 0 then size else if cpus < 1 then 1 else cpus
    {
      var n := if size > 0 then size else if cpus < 1 then 1 else cpus;
      interactive, backfill, closed, inFlight := [], [], false, 0;
      workers, log := seq(n, i => Ready), [];
    }

    /** Pops the request that goes next, if any is queued. */
    method NextLocked() returns (r: Option<Request>)
      modifies this`interactive, this`backfill
      ensures var q := Queues(old(interactive), old(backfill));
        if Queued(q) == 0 then r == None && Queues(interactive, backfill) == q
        else r == Some(Next(q)) && Queues(interactive, backfill) == Rest(q)
    {
      if |interactive| > 0 {
        r := Some(interactive[0]);
        interactive := interactive[1..];
      } else if |backfill| > 0 {
        r := Some(backfill[0]);
        backfill := backfill[1..];
      } else {
        r := None;
      }
    }

    /** Queues a request and signals; refused exactly when the pool is closed. */
    method Submit(req: Request, ghost woken: Option<nat>) returns (ok: bool)
      requires Enabled(S(), Step.Submit(req, woken))
      modifies this
      ensures S() == Apply(old(S()), Step.Submit(req, woken)) && ok == !old(closed)
    {
      if closed { return false; }
      if req.priority == Interactive {
        interactive := interactive + [req];
      } else {
        backfill := backfill + [req];
      }
      log := log + [Accepted(req)];
      workers := if woken.Some? then workers[woken.value := Ready] else workers;
      ok := true;
    }

    /** A worker's locked section: back to sleep, out of a closed and drained pool, or on to a build. */
    method TakeWork(ghost w: nat) returns (out: Outcome)
      requires Enabled(S(), Take(w))
      modifies this
      ensures S() == Apply(old(S()), Take(w))
      ensures match out
        case Wait => workers[w] == Sleeping
        case Leave => workers[w] == Exited
        case Build(req) => workers[w] == Running(req)
    {
      if |interactive| == 0 && |backfill| == 0 && !closed {
        workers := workers[w := Sleeping];
        return Wait;
      }
      if |interactive| == 0 && |backfill| == 0 {
        workers := workers[w := Exited];
        return Leave;
      }
      var req := NextLocked();
      inFlight := inFlight + 1;
      workers, log := workers[w := Running(req.value)], log + [Started(req.value)];
      out := Build(req.value);
    }

    /** The build function returns. */
    ghost method Returned(w: nat)
      requires Enabled(S(), Return(w))
      modifies this`workers, this`log
      ensures S() == Apply(old(S()), Return(w))
    {
      workers, log := workers[w := Finishing], log + [Ran(workers[w].req)];
    }

    method FinishWork(ghost w: nat)
      requires Enabled(S(), Finish(w))
      modifies this`inFlight, this`workers
      ensures S() == Apply(old(S()), Finish(w))
    {
      inFlight := inFlight - 1;
      workers := workers[w := Ready];
    }

    /** Stops intake and wakes everyone; only the call that closed the pool goes on to wait. */
    method StopIntake() returns (waits: bool)
      modifies this`closed, this`workers
      ensures S() == Apply(old(S()), Close) && waits == !old(closed)
    {
      if closed { return false; }
      closed := true;
      workers := WakeAll(workers);
      waits := true;
    }
  }
}
