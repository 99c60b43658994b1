/** Every place where UBI code sleeps on a lock, what is already held there, and why no set of
    threads can sleep on each other for ever. */
module Locking {
  import opened Flash
  import MP = MoveProtocol
  import WlState

  datatype Lock = AlcMutex | LebLock(leb: Leb) | WorkSem | MoveMutex | BufMutex

  function Rank(k: Lock): nat {
    match k
    case AlcMutex => 0
    case LebLock(_) => 1
    case WorkSem => 2
    case MoveMutex => 3
    case BufMutex => 4
  }

  /** The locks of the operation that calls into wear-leveling: those of a write or an unmapping of
      a LEB, those of an atomic change, or none. */
  datatype Caller = Nobody | WithLeb(leb: Leb) | Changing(leb: Leb)

  function CallerHolds(c: Caller): set<Lock> {
    match c
    case Nobody => {}
    case WithLeb(l) => {LebLock(l)}
    case Changing(l) => {AlcMutex, LebLock(l)}
  }

  /** Where a thread may sleep. */
  datatype Site =
    | ChangeBegins                      // waits for its turn to change a LEB atomically
    | ChangeLocks(leb: Leb)             // then for the LEB
    | LebOperation(leb: Leb)            // any other operation on a LEB
    | RunsWork(caller: Caller)          // does a pending work, the background thread or a writer without free PEBs
    | Flushes                           // waits until all works under way are finished
    | MovesLeb(caller: Caller)          // the wear-leveling work, inside of do_work
    | CopiesLeb(caller: Caller, moved: Leb)   // having got the lock of the moved LEB without waiting
    | PutsPeb(caller: Caller)           // the PEB to be put is being moved
    | Recovers(caller: Caller)          // moves data away from a PEB that failed

  function Holds(site: Site): set<Lock> {
    match site
    case ChangeBegins => {}
    case ChangeLocks(_) => {AlcMutex}
    case LebOperation(_) => {}
    case RunsWork(c) => CallerHolds(c)
    case Flushes => {}
    case MovesLeb(c) => CallerHolds(c) + {WorkSem}
    case CopiesLeb(c, m) => CallerHolds(c) + {WorkSem, MoveMutex, LebLock(m)}
    case PutsPeb(c) => CallerHolds(c)
    case Recovers(c) => CallerHolds(c)
  }

  function Wants(site: Site): Lock {
    match site
    case ChangeBegins => AlcMutex
    case ChangeLocks(l) => LebLock(l)
    case LebOperation(l) => LebLock(l)
    case RunsWork(_) => WorkSem
    case Flushes => WorkSem
    case MovesLeb(_) => MoveMutex
    case CopiesLeb(_, _) => BufMutex
    case PutsPeb(_) => MoveMutex
    case Recovers(_) => BufMutex
  }

  /** A sleeping thread: where, and its place in the queue of the lock. */
  datatype Sleeper = Sleeper(site: Site, ticket: nat)

  /** a sleeps because of b: b holds the lock, or is queued for it in front of a (a writer waiting
      for the work semaphore keeps later readers out). */
  predicate WaitsFor(a: Sleeper, b: Sleeper) {
    Wants(a.site) in Holds(b.site) || (Wants(a.site) == Wants(b.site) && b.ticket < a.ticket)
  }

  /** Locks are taken in ascending order; only the lock of a moved LEB is taken out of order, and
      that is never waited for. */
  lemma LocksAscend(site: Site)
    ensures forall k | k in Holds(site) :: Rank(k) < Rank(Wants(site))
  {
  }

  /** a is not before b in the order of waiting. */
  predicate Ahead(a: Sleeper, b: Sleeper) {
    Rank(Wants(b.site)) < Rank(Wants(a.site)) ||
    (Rank(Wants(b.site)) == Rank(Wants(a.site)) && a.ticket <= b.ticket)
  }

  lemma {:induction false} SomeoneIsAhead(sleepers: set<Sleeper>) returns (a: Sleeper)
    requires sleepers != {}
    ensures a in sleepers && forall b | b in sleepers :: Ahead(a, b)
  {
    var x :| x in sleepers;
    if sleepers == {x} {
      a := x;
    } else {
      var rest := sleepers - {x};
      assert rest != {} by {
        var y :| y in sleepers && y != x;
        assert y in rest;
      }
      a := SomeoneIsAhead(rest);
      assert forall b | b in sleepers :: b == x || b in rest;
      if !Ahead(a, x) {
        a := x;
      }
    }
  }

  /** However many threads sleep wherever, one of them does not sleep because of another one of
      them: there is no cyclic wait. */
  lemma NoCyclicWait(sleepers: set<Sleeper>)
    requires sleepers != {}
    ensures exists a | a in sleepers :: forall b | b in sleepers :: !WaitsFor(a, b)
  {
    var a := SomeoneIsAhead(sleepers);
    forall b | b in sleepers
      ensures !WaitsFor(a, b)
    {
      LocksAscend(b.site);
    }
  }

  // ---- The locks of the move protocol --------------------------------------------------------

  /** What a thread of the protocol holds. */
  function ThreadHolds(pc: MP.Pc): set<Lock> {
    if pc.Idle? then {} else {LebLock(pc.leb)}
  }

  /** What the wear-leveling worker holds: the move mutex while a move is under way, and the lock of the
      moved LEB while it is being copied. */
  function WorkerHas(w: MP.Worker): set<Lock> {
    if w.Resting? then {}
    else if w.Copying? || w.Copied? then {WorkSem, MoveMutex, LebLock(w.leb)}
    else {WorkSem, MoveMutex}
  }

  /** A thread of the protocol that waits sleeps where a PEB is put, and the worker where it copies a LEB;
      the table above says what they hold there, and they wait for what the table says. */
  lemma SitesAreOfTheProtocol(s: MP.Sys, t: nat)
    requires MP.Inv(s)
    ensures t in s.pc && s.pc[t].Waiting? ==>
      && Holds(PutsPeb(WithLeb(s.pc[t].leb))) == ThreadHolds(s.pc[t]) && Wants(PutsPeb(WithLeb(s.pc[t].leb))) == MoveMutex
      && (MP.Enabled(s, MP.Wake(t)) <==> MoveMutex !in WorkerHas(s.worker))
    ensures s.worker.Copying? ==> Holds(CopiesLeb(Nobody, s.worker.leb)) == WorkerHas(s.worker)
    ensures t in s.pc ==> ThreadHolds(s.pc[t]) * WorkerHas(s.worker) == {}
    ensures forall u | t in s.pc && u in s.pc && t != u && ThreadHolds(s.pc[t]) * ThreadHolds(s.pc[u]) != {} ::
      s.pc[t].Reading? && s.pc[u].Reading?
  {
    if t in s.pc {
      forall u | u in s.pc && t != u && ThreadHolds(s.pc[t]) * ThreadHolds(s.pc[u]) != {}
        ensures s.pc[t].Reading? && s.pc[u].Reading?
      {
        var k :| k in ThreadHolds(s.pc[t]) * ThreadHolds(s.pc[u]);
        assert MP.Excludes(s, t, u, s.pc[t].leb) && MP.Excludes(s, u, t, s.pc[t].leb);
      }
      if s.worker.Copying? || s.worker.Copied? {
        assert MP.WorkerHolds(s.worker, s.worker.leb);
      }
    }
  }

  lemma WorkerCanGo(r: MP.Sys) returns (step: MP.Step)
    requires MP.WorkerFits(r) && WlState.MoveFits(r.wl) && !r.worker.Resting?
    ensures MP.Enabled(r, step) && MP.Apply(r, step).worker != r.worker
  {
    match r.worker
    case Selected => step := MP.CopyFails(MP.ToUsed);
    case Copying(_) => step := MP.CopyDone;
    case Copied(_) => step := MP.UnlockMoved;
    case Unlocked => step := MP.FinishMoved;
    case Failed(_) => step := MP.FinishFailed;
    case Cleaning(held) => var p :| p in held; step := MP.Clean(p);
  }

  lemma ThreadCanGo(r: MP.Sys, t: nat) returns (step: MP.Step)
    requires r.worker.Resting? && t in r.pc && !r.pc[t].Idle?
    ensures MP.Enabled(r, step) && t in MP.Apply(r, step).pc && MP.Apply(r, step).pc[t] != r.pc[t]
  {
    match r.pc[t]
    case Reading(_, _) => step := MP.Unlock(t);
    case Locked(_) => step := MP.Unlock(t);
    case HasNew(_, _) => step := MP.MapNew(t);
    case Putting(_, _, _) => step := MP.PutPeb(t);
    case Waiting(_, _, _) => step := MP.Wake(t);
    case Scheduling(_, _, _) => step := MP.Schedule(t);
    case Remapping(_, _) => step := MP.Remap(t);
  }

  /** In every reachable state of the protocol, whoever has begun something can be waited for: the worker
      can go on, or, if it rests, every thread can that is not idle. */
  lemma NoDeadlock(s: MP.Sys, steps: seq<MP.Step>, t: nat) returns (step: MP.Step)
    requires MP.Quiet(s) && MP.Legal(s, steps)
    requires var r := MP.Run(s, steps); !r.worker.Resting? || (t in r.pc && !r.pc[t].Idle?)
    ensures var r := MP.Run(s, steps);
      && MP.Enabled(r, step)
      && if r.worker.Resting? then t in MP.Apply(r, step).pc && MP.Apply(r, step).pc[t] != r.pc[t]
         else MP.Apply(r, step).worker != r.worker
  {
    MP.QuietIsFine(s);
    MP.RunKeepsInv(s, steps);
    var r := MP.Run(s, steps);
    assert MP.WorkerFits(r) && WlState.MoveFits(r.wl);
    hide *;
    if r.worker.Resting? {
      step := ThreadCanGo(r, t);
    } else {
      step := WorkerCanGo(r);
    }
  }
}
