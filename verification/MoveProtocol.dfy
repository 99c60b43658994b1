/** Any number of threads unmapping, writing, changing and scrubbing LEBs, any number of erasures,
    and the wear-leveling worker moving a LEB from one PEB to another, interleaved in any way. */
module MoveProtocol {
  import opened Flash
  import opened WlState
  import opened Wrappers

  /** What a thread does once its old PEB has been put: nothing, or map the LEB to the new one. */
  datatype After = Done | RemapTo(q: nat)

  /** What a thread is about to do.  All but Idle and Reading hold the LEB lock for writing. */
  datatype Pc =
    | Idle
    | Reading(leb: Leb, p: nat)
    | Locked(leb: Leb)
    | HasNew(leb: Leb, p: nat)
    | Putting(leb: Leb, p: nat, after: After)
    | Waiting(leb: Leb, p: nat, after: After)
    | Scheduling(leb: Leb, p: nat, after: After)
    | Remapping(leb: Leb, q: nat)

  /** Where the source of a move that was given up goes back to. */
  datatype Fate = ToProtection | ToErroneous | ToScrub | ToUsed

  /** What the wear-leveling worker is about to do; it holds the move mutex unless it is Resting.
      Copying and Copied hold the lock of the LEB too. */
  datatype Worker =
    | Resting
    | Selected
    | Copying(leb: Leb)
    | Copied(leb: Leb)
    | Unlocked
    | Failed(fate: Fate)
    | Cleaning(held: set<nat>)

  /** given: how often each PEB was given up for erasure; scheduled: how often its erasure was
      scheduled. */
  datatype Sys = Sys(
    wl: Wl,
    eba: map<Leb, nat>,
    pc: map<nat, Pc>,
    worker: Worker,
    given: map<nat, nat>,
    scheduled: map<nat, nat>)

  datatype Step =
    | LockWrite(t: nat, leb: Leb)
    | LockRead(t: nat, leb: Leb)
    | Unlock(t: nat)
    | Scrub(t: nat)
    | Unmap(t: nat)
    | GetPeb(t: nat, p: nat)
    | MapNew(t: nat)
    | Discard(t: nat)
    | PutPeb(t: nat)
    | Wake(t: nat)
    | Schedule(t: nat)
    | Remap(t: nat)
    | SelectMove(e1: nat, e2: nat)
    | TryLock(leb: Leb)
    | CopyFails(fate: Fate)
    | CopyDone
    | UnlockMoved
    | FinishMoved
    | FinishFailed
    | Clean(p: nat)
    | EraseBegin(p: nat)
    | EraseEnd(p: nat)
    | EraseAgain(p: nat)
    | ServeQueue

  // ---- Locks ---------------------------------------------------------------------------------

  predicate Writes(pc: Pc, l: Leb) {
    !pc.Idle? && !pc.Reading? && pc.leb == l
  }

  predicate Reads(pc: Pc, l: Leb) {
    pc.Reading? && pc.leb == l
  }

  predicate WorkerHolds(w: Worker, l: Leb) {
    (w.Copying? || w.Copied?) && w.leb == l
  }

  predicate FreeToRead(s: Sys, l: Leb) {
    !WorkerHolds(s.worker, l) && forall t | t in s.pc :: !Writes(s.pc[t], l)
  }

  predicate FreeToWrite(s: Sys, l: Leb) {
    FreeToRead(s, l) && forall t | t in s.pc :: !Reads(s.pc[t], l)
  }

  // ---- Steps ---------------------------------------------------------------------------------

  function Count(m: map<nat, nat>, p: nat): nat {
    if p in m then m[p] else 0
  }

  function More(m: map<nat, nat>, p: nat): map<nat, nat> {
    m[p := Count(m, p) + 1]
  }

  function Next(l: Leb, after: After): Pc {
    match after
    case Done => Locked(l)
    case RemapTo(q) => Remapping(l, q)
  }

  function BackPlace(w: Wl, fate: Fate): Place {
    match fate
    case ToProtection => Protected(Tail(w))
    case ToErroneous => Erroneous
    case ToScrub => Place.Scrub
    case ToUsed => Used
  }

  predicate Enabled(s: Sys, step: Step) {
    match step
    case LockWrite(t, l) => t in s.pc && s.pc[t].Idle? && FreeToWrite(s, l)
    case LockRead(t, l) => t in s.pc && s.pc[t].Idle? && FreeToRead(s, l) && l in s.eba
    case Unlock(t) => t in s.pc && (s.pc[t].Locked? || s.pc[t].Reading?)
    case Scrub(t) => t in s.pc && s.pc[t].Reading?
    case Unmap(t) => t in s.pc && s.pc[t].Locked? && s.pc[t].leb in s.eba
    case GetPeb(t, p) => t in s.pc && s.pc[t].Locked? && At(s.wl, p, Free)
    case MapNew(t) => t in s.pc && s.pc[t].HasNew?
    case Discard(t) => t in s.pc && s.pc[t].HasNew?
    case PutPeb(t) => t in s.pc && s.pc[t].Putting?
    case Wake(t) => t in s.pc && s.pc[t].Waiting? && s.worker.Resting?
    case Schedule(t) => t in s.pc && s.pc[t].Scheduling?
    case Remap(t) => t in s.pc && s.pc[t].Remapping?
    case SelectMove(e1, e2) =>
      s.worker.Resting? && (At(s.wl, e1, Used) || At(s.wl, e1, Place.Scrub)) && At(s.wl, e2, Free)
    case TryLock(_) => s.worker.Selected?
    case CopyFails(_) => s.worker.Selected? || s.worker.Copying?
    case CopyDone => s.worker.Copying? && s.wl.moveTo >= 0
    case UnlockMoved => s.worker.Copied?
    case FinishMoved => s.worker.Unlocked? && s.wl.moveFrom >= 0 && s.wl.moveTo >= 0
    case FinishFailed => s.worker.Failed? && s.wl.moveFrom >= 0 && s.wl.moveTo >= 0
    case Clean(p) => s.worker.Cleaning? && p in s.worker.held
    case EraseBegin(p) => At(s.wl, p, ToErase)
    case EraseEnd(p) => At(s.wl, p, Erasing)
    case EraseAgain(p) => At(s.wl, p, Erasing)
    case ServeQueue => true
  }

  function Go(s: Sys, t: nat, pc: Pc): Sys {
    s.(pc := s.pc[t := pc])
  }

  /** The critical section of ubi_wl_put_peb, and how the thread goes on. */
  function DoPut(s: Sys, t: nat): Sys
    requires t in s.pc && s.pc[t].Putting?
  {
    var Putting(l, p, after) := s.pc[t];
    if p == s.wl.moveFrom then Go(s, t, Waiting(l, p, after))
    else
      var r := s.(wl := Release(s.wl, p), given := More(s.given, p));
      if p == s.wl.moveTo then Go(r, t, Next(l, after)) else Go(r, t, Scheduling(l, p, after))
  }

  /** ubi_eba_copy_leb never waits for the LEB lock, and checks the mapping once it has it. */
  function DoTryLock(s: Sys, l: Leb): Sys {
    if FreeToWrite(s, l) && l in s.eba && s.eba[l] == s.wl.moveFrom then s.(worker := Copying(l))
    else s.(worker := Failed(ToProtection))
  }

  function Apply(s: Sys, step: Step): Sys
    requires Enabled(s, step)
  {
    match step
    case LockWrite(t, l) => Go(s, t, Locked(l))
    case LockRead(t, l) => Go(s, t, Reading(l, s.eba[l]))
    case Unlock(t) => Go(s, t, Idle)
    case Scrub(t) =>
      if s.pc[t].p == s.wl.moveTo then s else Go(s.(wl := Mark(s.wl, s.pc[t].p)), t, Idle)
    case Unmap(t) =>
      var l := s.pc[t].leb;
      Go(s.(eba := MapWithout(s.eba, l)), t, Putting(l, s.eba[l], Done))
    case GetPeb(t, p) => Go(s.(wl := Get(s.wl, p)), t, HasNew(s.pc[t].leb, p))
    case MapNew(t) =>
      var l, q := s.pc[t].leb, s.pc[t].p;
      if l in s.eba then Go(s, t, Putting(l, s.eba[l], RemapTo(q))) else Go(s.(eba := s.eba[l := q]), t, Locked(l))
    case Discard(t) => Go(s, t, Putting(s.pc[t].leb, s.pc[t].p, Done))
    case PutPeb(t) => DoPut(s, t)
    case Wake(t) => Go(s, t, Putting(s.pc[t].leb, s.pc[t].p, s.pc[t].after))
    case Schedule(t) =>
      var p := s.pc[t].p;
      Go(s.(wl := Put(s.wl, p, ToErase), scheduled := More(s.scheduled, p)), t, Next(s.pc[t].leb, s.pc[t].after))
    case Remap(t) => Go(s.(eba := s.eba[s.pc[t].leb := s.pc[t].q]), t, Locked(s.pc[t].leb))
    case SelectMove(e1, e2) => s.(wl := Select(s.wl, e1, e2), worker := Selected)
    case TryLock(l) => DoTryLock(s, l)
    case CopyFails(fate) => s.(worker := Failed(fate))
    case CopyDone => s.(eba := s.eba[s.worker.leb := s.wl.moveTo], worker := Copied(s.worker.leb))
    case UnlockMoved => s.(worker := Unlocked)
    case FinishMoved =>
      s.(wl := Moved(s.wl), given := More(s.given, s.wl.moveFrom),
         worker := Cleaning(if s.wl.moveToPut then {s.wl.moveFrom, s.wl.moveTo} else {s.wl.moveFrom}))
    case FinishFailed =>
      s.(wl := NotMoved(s.wl, BackPlace(s.wl, s.worker.fate)), given := More(s.given, s.wl.moveTo), worker := Cleaning({s.wl.moveTo}))
    case Clean(p) =>
      var held := s.worker.held - {p};
      s.(wl := Put(s.wl, p, ToErase), scheduled := More(s.scheduled, p),
         worker := if held == {} then Resting else Cleaning(held))
    case EraseBegin(p) => s.(wl := Put(s.wl, p, Erasing))
    case EraseEnd(p) => s.(wl := Put(s.wl, p, Free))
    case EraseAgain(p) => s.(wl := Put(s.wl, p, ToErase))
    case ServeQueue => s.(wl := Serve(s.wl))
  }

  // ---- What holds in every reachable state -------------------------------------------------

  /** Between putting the old PEB and mapping the new one, the table entry of l is out of date. */
  predicate IsStale(pc: Pc, l: Leb) {
    (pc.Scheduling? && pc.leb == l && pc.after.RemapTo?) || (pc.Remapping? && pc.leb == l)
  }

  predicate Live(s: Sys, l: Leb) {
    l in s.eba && forall t | t in s.pc :: !IsStale(s.pc[t], l)
  }

  /** The PEB in use that only the thread knows of, or -1. */
  function Owned(pc: Pc): int {
    match pc
    case HasNew(_, p) => p
    case Putting(_, p, after) => if after.Done? then p else after.q
    case Waiting(_, p, after) => if after.Done? then p else after.q
    case Scheduling(_, _, after) => if after.Done? then -1 else after.q
    case Remapping(_, q) => q
    case _ => -1
  }

  datatype Claimant = ByLeb(l: Leb) | ByThread(t: nat)

  /** c has PEB p in use. */
  predicate Claims(s: Sys, c: Claimant, p: nat) {
    match c
    case ByLeb(l) => Live(s, l) && s.eba[l] == p
    case ByThread(t) => t in s.pc && Owned(s.pc[t]) == p
  }

  ghost predicate Unclaimed(s: Sys, p: int) {
    forall c, q: nat | Claims(s, c, q) :: q != p
  }

  ghost predicate ClaimsFit(s: Sys) {
    && (forall c, p: nat | Claims(s, c, p) :: InUse(s.wl, p))
    && (forall c, d, p: nat | Claims(s, c, p) && Claims(s, d, p) :: c == d)
  }

  /** t has the lock of l, and u does not use l meanwhile. */
  predicate Excludes(s: Sys, t: nat, u: nat, l: Leb)
    requires t in s.pc && u in s.pc
  {
    Writes(s.pc[t], l) && t != u ==> !Writes(s.pc[u], l) && !Reads(s.pc[u], l)
  }

  ghost predicate LocksFit(s: Sys) {
    && (forall t, u, l | t in s.pc && u in s.pc :: Excludes(s, t, u, l))
    && (forall t, l | t in s.pc && WorkerHolds(s.worker, l) :: !Writes(s.pc[t], l) && !Reads(s.pc[t], l))
  }

  /** What a thread is about to put or to scrub is what it thinks it is. */
  predicate PcFits(s: Sys, pc: Pc) {
    match pc
    case Reading(l, p) => l in s.eba && s.eba[l] == p
    case Putting(l, p, after) => after.RemapTo? ==> l in s.eba && s.eba[l] == p
    case Waiting(l, p, after) => after.RemapTo? ==> l in s.eba && s.eba[l] == p
    case Scheduling(_, p, _) => At(s.wl, p, Held)
    case _ => true
  }

  /** Someone is just going to schedule the erasure of p. */
  predicate Cleans(s: Sys, t: int, p: nat) {
    if t == -1 then s.worker.Cleaning? && p in s.worker.held else t >= 0 && t in s.pc && s.pc[t].Scheduling? && s.pc[t].p == p
  }

  ghost predicate HeldFit(s: Sys) {
    && (forall p | p in s.wl.place && s.wl.place[p] == Held :: exists t: int :: Cleans(s, t, p))
    && (forall t: int, p: nat | Cleans(s, t, p) :: At(s.wl, p, Held))
    && (forall t: int, u: int, p: nat | Cleans(s, t, p) && Cleans(s, u, p) :: t == u)
  }

  ghost predicate WorkerFits(s: Sys) {
    match s.worker
    case Resting => s.wl.moveFrom < 0
    case Cleaning(held) => s.wl.moveFrom < 0 && held != {}
    case Selected => s.wl.moveFrom >= 0 && !s.wl.moveToPut && Unclaimed(s, s.wl.moveTo)
    case Failed(_) => s.wl.moveFrom >= 0 && !s.wl.moveToPut && Unclaimed(s, s.wl.moveTo)
    case Copying(l) =>
      s.wl.moveFrom >= 0 && !s.wl.moveToPut && Unclaimed(s, s.wl.moveTo) && l in s.eba && s.eba[l] == s.wl.moveFrom
    case Copied(_) => s.wl.moveFrom >= 0 && Unclaimed(s, s.wl.moveFrom)
    case Unlocked => s.wl.moveFrom >= 0 && Unclaimed(s, s.wl.moveFrom)
  }

  /** p has been given up, and its erasure has not been scheduled yet. */
  predicate Pending(s: Sys, p: nat) {
    At(s.wl, p, Held) || (p == s.wl.moveTo && s.wl.moveToPut)
  }

  ghost predicate CountsFit(s: Sys) {
    forall p: nat :: Count(s.given, p) == Count(s.scheduled, p) + if Pending(s, p) then 1 else 0
  }

  ghost predicate Inv(s: Sys) {
    && MoveFits(s.wl) && ClaimsFit(s) && LocksFit(s) && HeldFit(s) && WorkerFits(s) && CountsFit(s)
    && forall t | t in s.pc :: PcFits(s, s.pc[t])
  }

  /** Steps that change locks, the table and the state of the worker only. */
  predicate KeepsWl(step: Step) {
    || step.LockWrite? || step.LockRead? || step.Unlock? || step.Unmap? || step.MapNew? || step.Discard? || step.Wake? || step.Remap?
    || step.TryLock? || step.CopyFails? || step.CopyDone? || step.UnlockMoved?
  }

  lemma WlUntouched(s: Sys, step: Step)
    requires Enabled(s, step) && KeepsWl(step)
    ensures Apply(s, step).wl == s.wl && Apply(s, step).given == s.given && Apply(s, step).scheduled == s.scheduled
    ensures !s.worker.Cleaning? ==> !Apply(s, step).worker.Cleaning?
    ensures s.worker.Cleaning? || s.worker.Resting? ==> Apply(s, step).worker == s.worker
  {
  }

  // ---- Every step keeps it ------------------------------------------------------------------

  lemma MoveKeptByPut(s: Sys, step: Step)
    requires step.PutPeb?
    requires Inv(s) && Enabled(s, step)
    ensures MoveFits(Apply(s, step).wl)
  {
    PutIsInUse(s, step.t);
    hide LocksFit, HeldFit, CountsFit, ClaimsFit, WorkerFits;
  }

  lemma MoveKeptByTable(s: Sys, step: Step)
    requires KeepsWl(step)
    requires Inv(s) && Enabled(s, step)
    ensures MoveFits(Apply(s, step).wl)
  {
    WlUntouched(s, step);
    hide *;
  }

  lemma MoveKeptByPeb(s: Sys, step: Step)
    requires !step.PutPeb? && !KeepsWl(step)
    requires Inv(s) && Enabled(s, step)
    ensures MoveFits(Apply(s, step).wl)
  {
    hide Inv, Apply, MoveFits, Enabled;
    if step.SelectMove? || step.FinishMoved? || step.FinishFailed? || step.Clean? {
      MoveKeptByMove(s, step);
    } else {
      MoveKeptElse(s, step);
    }
  }

  lemma MoveKeptByMove(s: Sys, step: Step)
    requires step.SelectMove? || step.FinishMoved? || step.FinishFailed? || step.Clean?
    requires Inv(s) && Enabled(s, step)
    ensures MoveFits(Apply(s, step).wl)
  {
    TouchedIsInUse(s, step);
    assert MoveFits(s.wl) && WorkerFits(s);
    hide Inv, Apply, Enabled, WorkerFits;
    if step.SelectMove? || step.Clean? {
      MoveKeptAtStart(s, step);
    } else {
      MoveKeptAtEnd(s, step);
    }
  }

  lemma MoveKeptAtStart(s: Sys, step: Step)
    requires step.SelectMove? || step.Clean?
    requires MoveFits(s.wl) && WorkerFits(s) && Enabled(s, step) && (step.Clean? ==> At(s.wl, step.p, Held))
    ensures MoveFits(Apply(s, step).wl)
  {
    hide Unclaimed, More;
  }

  lemma MoveKeptAtEnd(s: Sys, step: Step)
    requires step.FinishMoved? || step.FinishFailed?
    requires MoveFits(s.wl) && WorkerFits(s) && Enabled(s, step)
    ensures MoveFits(Apply(s, step).wl)
  {
    hide Unclaimed, More;
  }

  lemma MoveKeptElse(s: Sys, step: Step)
    requires !step.PutPeb? && !KeepsWl(step) && !step.SelectMove? && !step.FinishMoved? && !step.FinishFailed? && !step.Clean?
    requires Inv(s) && Enabled(s, step)
    ensures MoveFits(Apply(s, step).wl)
  {
    TouchedIsInUse(s, step);
    assert MoveFits(s.wl);
    hide Inv, LocksFit, HeldFit, CountsFit, ClaimsFit, WorkerFits;
  }

  lemma MoveKept(s: Sys, step: Step)
    requires Inv(s) && Enabled(s, step)
    ensures MoveFits(Apply(s, step).wl)
  {
    hide *;
    if step.PutPeb? {
      MoveKeptByPut(s, step);
    } else if KeepsWl(step) {
      MoveKeptByTable(s, step);
    } else {
      MoveKeptByPeb(s, step);
    }
  }

  /** Only the thread that takes the step, or nobody, has a new lock. */
  lemma LockTaken(s: Sys, step: Step, t: nat, l: Leb)
    requires Enabled(s, step) && t in s.pc
    ensures Apply(s, step).pc.Keys == s.pc.Keys
    ensures Writes(Apply(s, step).pc[t], l) ==> Writes(s.pc[t], l) || step == LockWrite(t, l)
    ensures Reads(Apply(s, step).pc[t], l) ==> Reads(s.pc[t], l) || step == LockRead(t, l)
    ensures WorkerHolds(Apply(s, step).worker, l) ==> WorkerHolds(s.worker, l) || (step == TryLock(l) && FreeToWrite(s, l))
  {
    StepKeepsThreads(s, step);
    LockTakenByThread(s, step, t, l);
    LockTakenByWorker(s, step, l);
    hide *;
  }

  lemma LockTakenByThread(s: Sys, step: Step, t: nat, l: Leb)
    requires Enabled(s, step) && t in s.pc && t in Apply(s, step).pc
    ensures Writes(Apply(s, step).pc[t], l) ==> Writes(s.pc[t], l) || step == LockWrite(t, l)
    ensures Reads(Apply(s, step).pc[t], l) ==> Reads(s.pc[t], l) || step == LockRead(t, l)
  {
    hide At, InUse, Release, Mark, Select, Moved, NotMoved, Serve, More, FreeToWrite, FreeToRead, WorkerHolds;
  }

  lemma LockTakenByWorker(s: Sys, step: Step, l: Leb)
    requires Enabled(s, step)
    ensures WorkerHolds(Apply(s, step).worker, l) ==> WorkerHolds(s.worker, l) || (step == TryLock(l) && FreeToWrite(s, l))
  {
    hide At, InUse, Release, Mark, Select, Moved, NotMoved, Serve, More, FreeToWrite, FreeToRead, Writes, Reads;
  }

  lemma LocksKept(s: Sys, step: Step)
    requires LocksFit(s) && Enabled(s, step)
    ensures LocksFit(Apply(s, step))
  {
    var r := Apply(s, step);
    forall t, u, l | t in r.pc && u in r.pc
      ensures Excludes(r, t, u, l)
    {
      LockTaken(s, step, t, l);
      LockTaken(s, step, u, l);
      assert Excludes(s, t, u, l) && Excludes(s, u, t, l);
      hide Apply, LocksFit;
    }
    forall t, l | t in r.pc && WorkerHolds(r.worker, l)
      ensures !Writes(r.pc[t], l) && !Reads(r.pc[t], l)
    {
      LockTaken(s, step, t, l);
    }
  }

  /** The entry of a LEB is up to date while a thread that has the lock is not changing it. */
  lemma WriterIsLive(s: Sys, t: nat)
    requires LocksFit(s) && t in s.pc && (s.pc[t].Locked? || s.pc[t].HasNew? || s.pc[t].Putting? || s.pc[t].Waiting?)
    ensures s.pc[t].leb in s.eba ==> Live(s, s.pc[t].leb)
  {
    forall u | u in s.pc
      ensures !IsStale(s.pc[u], s.pc[t].leb)
    {
      assert Excludes(s, t, u, s.pc[t].leb);
    }
  }

  lemma ReadIsInUse(s: Sys, t: nat)
    requires Inv(s) && t in s.pc && s.pc[t].Reading?
    ensures Claims(s, ByLeb(s.pc[t].leb), s.pc[t].p) && InUse(s.wl, s.pc[t].p)
  {
    var l := s.pc[t].leb;
    forall u | u in s.pc
      ensures !IsStale(s.pc[u], l)
    {
      assert Excludes(s, u, t, l);
    }
    assert PcFits(s, s.pc[t]);
    assert Claims(s, ByLeb(l), s.pc[t].p);
  }

  /** A PEB that is put is in use, and the caller has nothing else to do with it. */
  lemma PutIsInUse(s: Sys, t: nat)
    requires Inv(s) && t in s.pc && s.pc[t].Putting?
    ensures InUse(s.wl, s.pc[t].p)
    ensures Claims(s, if s.pc[t].after.Done? then ByThread(t) else ByLeb(s.pc[t].leb), s.pc[t].p)
  {
    WriterIsLive(s, t);
    assert PcFits(s, s.pc[t]);
    assert Claims(s, if s.pc[t].after.Done? then ByThread(t) else ByLeb(s.pc[t].leb), s.pc[t].p);
  }

  /** Who is responsible for a PEB that has just become Held. */
  function NewCleaner(step: Step): int {
    if step.PutPeb? then step.t else -1
  }

  lemma CleansAfterByPut(s: Sys, step: Step, t: int, p: nat)
    requires step.PutPeb?
    requires Inv(s) && Enabled(s, step)
    ensures Cleans(Apply(s, step), t, p) <==>
      || (Cleans(s, t, p) && !(step.Schedule? && step.t == t) && !(step.Clean? && step.p == p))
      || (!Cleans(s, t, p) && t == NewCleaner(step) && At(Apply(s, step).wl, p, Held) && !At(s.wl, p, Held))
  {
    PutIsInUse(s, step.t);
    hide LocksFit, ClaimsFit, CountsFit, WorkerFits;
  }

  lemma CleansAfterByTable(s: Sys, step: Step, t: int, p: nat)
    requires KeepsWl(step)
    requires Inv(s) && Enabled(s, step)
    ensures Cleans(Apply(s, step), t, p) <==>
      || (Cleans(s, t, p) && !(step.Schedule? && step.t == t) && !(step.Clean? && step.p == p))
      || (!Cleans(s, t, p) && t == NewCleaner(step) && At(Apply(s, step).wl, p, Held) && !At(s.wl, p, Held))
  {
    WlUntouched(s, step);
    if t >= 0 && t in s.pc {
      SchedulingUntouched(s, step, t);
    }
    StepKeepsThreads(s, step);
    hide Apply, Inv, At, Enabled;
  }

  lemma SchedulingUntouched(s: Sys, step: Step, t: nat)
    requires KeepsWl(step) && Enabled(s, step) && t in s.pc
    ensures t in Apply(s, step).pc
    ensures s.pc[t].Scheduling? || Apply(s, step).pc[t].Scheduling? ==> Apply(s, step).pc[t] == s.pc[t]
  {
    hide FreeToWrite, FreeToRead;
  }

  lemma CleansAfterByPeb(s: Sys, step: Step, t: int, p: nat)
    requires !step.PutPeb? && !KeepsWl(step)
    requires Inv(s) && Enabled(s, step)
    ensures Cleans(Apply(s, step), t, p) <==>
      || (Cleans(s, t, p) && !(step.Schedule? && step.t == t) && !(step.Clean? && step.p == p))
      || (!Cleans(s, t, p) && t == NewCleaner(step) && At(Apply(s, step).wl, p, Held) && !At(s.wl, p, Held))
  {
    hide Inv, Apply, Cleans, Enabled, At;
    if step.Clean? {
      CleansAfterClean(s, step, t, p);
    } else if step.SelectMove? || step.FinishMoved? || step.FinishFailed? {
      CleansAfterMove(s, step, t, p);
    } else {
      CleansAfterElse(s, step, t, p);
    }
  }

  lemma CleansAfterMove(s: Sys, step: Step, t: int, p: nat)
    requires step.SelectMove? || step.FinishMoved? || step.FinishFailed?
    requires Inv(s) && Enabled(s, step)
    ensures Cleans(Apply(s, step), t, p) <==>
      || (Cleans(s, t, p) && !(step.Schedule? && step.t == t) && !(step.Clean? && step.p == p))
      || (!Cleans(s, t, p) && t == NewCleaner(step) && At(Apply(s, step).wl, p, Held) && !At(s.wl, p, Held))
  {
    assert MoveFits(s.wl) && WorkerFits(s);
    hide Inv, LocksFit, ClaimsFit, CountsFit, HeldFit, Unclaimed;
  }

  lemma CleansAfterClean(s: Sys, step: Step, t: int, p: nat)
    requires step.Clean?
    requires Inv(s) && Enabled(s, step)
    ensures Cleans(Apply(s, step), t, p) <==>
      || (Cleans(s, t, p) && !(step.Schedule? && step.t == t) && !(step.Clean? && step.p == p))
      || (!Cleans(s, t, p) && t == NewCleaner(step) && At(Apply(s, step).wl, p, Held) && !At(s.wl, p, Held))
  {
    assert HeldFit(s) && Cleans(s, -1, step.p);
    assert At(s.wl, step.p, Held);
    assert Cleans(s, t, step.p) ==> t == -1;
    assert step.p != p && p in s.worker.held ==> p in s.worker.held - {step.p};
    hide Inv, LocksFit, ClaimsFit, CountsFit, MoveFits, HeldFit, WorkerFits;
  }

  lemma CleansAfterElse(s: Sys, step: Step, t: int, p: nat)
    requires step.Scrub? || step.GetPeb? || step.Schedule? || step.EraseBegin? || step.EraseEnd? || step.EraseAgain? || step.ServeQueue?
    requires Inv(s) && Enabled(s, step)
    ensures Cleans(Apply(s, step), t, p) <==>
      || (Cleans(s, t, p) && !(step.Schedule? && step.t == t) && !(step.Clean? && step.p == p))
      || (!Cleans(s, t, p) && t == NewCleaner(step) && At(Apply(s, step).wl, p, Held) && !At(s.wl, p, Held))
  {
    hide Inv, Apply, Cleans, Enabled, At;
    if step.Scrub? || step.GetPeb? || step.Schedule? {
      CleansAfterPeb(s, step, t, p);
    } else {
      CleansAfterErasure(s, step, t, p);
    }
  }

  lemma CleansAfterPeb(s: Sys, step: Step, t: int, p: nat)
    requires step.Scrub? || step.GetPeb? || step.Schedule?
    requires Inv(s) && Enabled(s, step)
    ensures Cleans(Apply(s, step), t, p) <==>
      || (Cleans(s, t, p) && !(step.Schedule? && step.t == t) && !(step.Clean? && step.p == p))
      || (!Cleans(s, t, p) && t == NewCleaner(step) && At(Apply(s, step).wl, p, Held) && !At(s.wl, p, Held))
  {
    TouchedIsInUse(s, step);
    hide LocksFit, ClaimsFit, CountsFit, WorkerFits;
  }

  lemma CleansAfterErasure(s: Sys, step: Step, t: int, p: nat)
    requires step.EraseBegin? || step.EraseEnd? || step.EraseAgain? || step.ServeQueue?
    requires Inv(s) && Enabled(s, step)
    ensures Cleans(Apply(s, step), t, p) <==>
      || (Cleans(s, t, p) && !(step.Schedule? && step.t == t) && !(step.Clean? && step.p == p))
      || (!Cleans(s, t, p) && t == NewCleaner(step) && At(Apply(s, step).wl, p, Held) && !At(s.wl, p, Held))
  {
    assert MoveFits(s.wl);
    hide Inv, LocksFit, ClaimsFit, CountsFit, WorkerFits, HeldFit;
  }

  lemma CleansAfter(s: Sys, step: Step, t: int, p: nat)
    requires Inv(s) && Enabled(s, step)
    ensures Cleans(Apply(s, step), t, p) <==>
      || (Cleans(s, t, p) && !(step.Schedule? && step.t == t) && !(step.Clean? && step.p == p))
      || (!Cleans(s, t, p) && t == NewCleaner(step) && At(Apply(s, step).wl, p, Held) && !At(s.wl, p, Held))
  {
    hide *;
    if step.PutPeb? {
      CleansAfterByPut(s, step, t, p);
    } else if KeepsWl(step) {
      CleansAfterByTable(s, step, t, p);
    } else {
      CleansAfterByPeb(s, step, t, p);
    }
  }

  lemma HeldKept(s: Sys, step: Step)
    requires Inv(s) && Enabled(s, step)
    ensures HeldFit(Apply(s, step))
  {
    HeldIsCleaned(s, step);
    CleanedIsHeld(s, step);
    hide Apply, Inv, Enabled, Cleans, At;
  }

  lemma HeldIsCleaned(s: Sys, step: Step)
    requires Inv(s) && Enabled(s, step)
    ensures var r := Apply(s, step);
      forall p | p in r.wl.place && r.wl.place[p] == Held :: exists t: int :: Cleans(r, t, p)
  {
    TouchedIsInUse(s, step);
    assert HeldFit(s) && (step.Schedule? ==> Cleans(s, step.t, s.pc[step.t].p));
    assert step.Clean? ==> !At(Apply(s, step).wl, step.p, Held);
    assert step.Schedule? ==> !At(Apply(s, step).wl, s.pc[step.t].p, Held);
    hide Inv, Apply, Cleans, Enabled, MoveFits, ClaimsFit, LocksFit, WorkerFits, CountsFit;
    var r := Apply(s, step);
    forall p | p in r.wl.place && r.wl.place[p] == Held
      ensures exists t: int :: Cleans(r, t, p)
    {
      if At(s.wl, p, Held) {
        var t :| Cleans(s, t, p);
        CleansAfter(s, step, t, p);
        if step.Schedule? && step.t == t {
          OnlyOne(s, step, t, p);
        }
        assert Cleans(r, t, p);
      } else {
        CleansAfter(s, step, NewCleaner(step), p);
        NotCleanedBefore(s, NewCleaner(step), p);
        assert Cleans(r, NewCleaner(step), p);
      }
    }
  }

  lemma OnlyOne(s: Sys, step: Step, t: int, p: nat)
    requires Enabled(s, step) && step.Schedule? && step.t == t && Cleans(s, t, p)
    ensures p == s.pc[step.t].p
  {
  }

  lemma NotCleanedBefore(s: Sys, t: int, p: nat)
    requires HeldFit(s) && !At(s.wl, p, Held)
    ensures !Cleans(s, t, p)
  {
  }

  lemma CleanedIsHeld(s: Sys, step: Step)
    requires Inv(s) && Enabled(s, step)
    ensures var r := Apply(s, step);
      && (forall t: int, p: nat | Cleans(r, t, p) :: At(r.wl, p, Held))
      && (forall t: int, u: int, p: nat | Cleans(r, t, p) && Cleans(r, u, p) :: t == u)
  {
    assert HeldFit(s);
    hide Inv, Apply, Cleans, Enabled, MoveFits, ClaimsFit, LocksFit, WorkerFits, CountsFit, At;
    var r := Apply(s, step);
    forall t: int, p: nat | Cleans(r, t, p)
      ensures At(r.wl, p, Held)
    {
      CleansAfter(s, step, t, p);
      if Cleans(s, t, p) {
        HeldStays(s, step, t, p);
      }
    }
    forall t: int, u: int, p: nat | Cleans(r, t, p) && Cleans(r, u, p)
      ensures t == u
    {
      CleansAfter(s, step, t, p);
      CleansAfter(s, step, u, p);
      if Cleans(s, t, p) || Cleans(s, u, p) {
        assert At(s.wl, p, Held);
      }
    }
  }

  /** A PEB that is going to be scheduled for erasure stays where it is until that is done. */
  lemma HeldStays(s: Sys, step: Step, t: int, p: nat)
    requires Inv(s) && Enabled(s, step) && Cleans(s, t, p) && Cleans(Apply(s, step), t, p)
    ensures At(Apply(s, step).wl, p, Held)
  {
    assert At(s.wl, p, Held);
    hide *;
    if KeepsWl(step) {
      WlUntouched(s, step);
    } else {
      HeldStaysElse(s, step, t, p);
    }
  }

  lemma HeldStaysElse(s: Sys, step: Step, t: int, p: nat)
    requires !KeepsWl(step)
    requires Inv(s) && Enabled(s, step) && Cleans(s, t, p) && Cleans(Apply(s, step), t, p)
    ensures At(Apply(s, step).wl, p, Held)
  {
    assert At(s.wl, p, Held);
    TouchedIsInUse(s, step);
    if step.Schedule? {
      assert Cleans(s, step.t, s.pc[step.t].p);
    } else if step.Clean? {
      assert Cleans(s, -1, step.p);
    }
    hide LocksFit, ClaimsFit, CountsFit, WorkerFits;
  }

  /** Whose claim on a PEB c has taken over with this step. */
  function Origin(s: Sys, step: Step, c: Claimant): Claimant
    requires Enabled(s, step)
  {
    if step.Unmap? && c == ByThread(step.t) then ByLeb(s.pc[step.t].leb)
    else if (step.MapNew? || step.Remap?) && c == ByLeb(s.pc[step.t].leb) && s.pc[step.t].leb in Apply(s, step).eba
      && (step.Remap? || s.pc[step.t].leb !in s.eba) then ByThread(step.t)
    else c
  }

  /** A PEB nobody used before this step. */
  predicate IsNew(s: Sys, step: Step, c: Claimant, p: nat) {
    || (step.GetPeb? && c == ByThread(step.t) && p == step.p)
    || (step.CopyDone? && s.worker.Copying? && c == ByLeb(s.worker.leb) && p == s.wl.moveTo)
  }

  lemma ClaimsAfter(s: Sys, step: Step, c: Claimant, p: nat)
    requires Inv(s) && Enabled(s, step) && Claims(Apply(s, step), c, p)
    ensures IsNew(s, step, c, p) || Claims(s, Origin(s, step, c), p)
  {
    hide *;
    if c.ByLeb? {
      ClaimOfLebAfter(s, step, c.l, p);
    } else {
      ClaimOfThreadAfter(s, step, c.t, p);
    }
  }

  lemma ClaimOfLebAfter(s: Sys, step: Step, l: Leb, p: nat)
    requires Inv(s) && Enabled(s, step) && Claims(Apply(s, step), ByLeb(l), p)
    ensures IsNew(s, step, ByLeb(l), p) || Claims(s, Origin(s, step, ByLeb(l)), p)
  {
    assert s.worker.Copying? ==> WorkerFits(s);
    hide *;
    if Changes(step) {
      NewLebClaim(s, step, l, p);
    } else {
      SameLebClaim(s, step, l, p);
    }
  }

  predicate Changes(step: Step) {
    step.MapNew? || step.Remap? || step.CopyDone?
  }

  lemma NewLebClaim(s: Sys, step: Step, l: Leb, p: nat)
    requires Changes(step) && (s.worker.Copying? ==> WorkerFits(s))
    requires Enabled(s, step) && Claims(Apply(s, step), ByLeb(l), p)
    ensures IsNew(s, step, ByLeb(l), p) || Claims(s, Origin(s, step, ByLeb(l)), p)
  {
    hide More, Release, Mark, Get, Put, Select, Moved, NotMoved, Serve, BackPlace;
    if !(step.Remap? && s.pc[step.t].leb == l) {
      StaleKept(s, step, l);
    }
  }

  lemma SameLebClaim(s: Sys, step: Step, l: Leb, p: nat)
    requires !Changes(step)
    requires Enabled(s, step) && Claims(Apply(s, step), ByLeb(l), p)
    ensures IsNew(s, step, ByLeb(l), p) || Claims(s, Origin(s, step, ByLeb(l)), p)
  {
    hide More, Release, Mark, Get, Put, Select, Moved, NotMoved, Serve, BackPlace;
    StaleKept(s, step, l);
  }

  /** Only mapping the new PEB brings an entry up to date. */
  lemma StaleKept(s: Sys, step: Step, l: Leb)
    requires Enabled(s, step) && (step.Remap? ==> s.pc[step.t].leb != l)
    ensures forall u | u in s.pc && IsStale(s.pc[u], l) :: u in Apply(s, step).pc && IsStale(Apply(s, step).pc[u], l)
  {
    hide More, Release, Mark, Get, Put, Select, Moved, NotMoved, Serve, BackPlace;
  }

  lemma ClaimOfThreadAfter(s: Sys, step: Step, t: nat, p: nat)
    requires Inv(s) && Enabled(s, step) && Claims(Apply(s, step), ByThread(t), p)
    ensures IsNew(s, step, ByThread(t), p) || Claims(s, Origin(s, step, ByThread(t)), p)
  {
    hide *;
    if step.PutPeb? {
      PutKeepsOwned(s, step, t);
    } else {
      ClaimOfThreadElse(s, step, t, p);
    }
  }

  lemma PutKeepsOwned(s: Sys, step: Step, t: nat)
    requires Enabled(s, step) && step.PutPeb?
    ensures forall p: nat | Claims(Apply(s, step), ByThread(t), p) :: Claims(s, ByThread(t), p) && Origin(s, step, ByThread(t)) == ByThread(t)
  {
    hide Release, More;
  }

  lemma ClaimOfThreadElse(s: Sys, step: Step, t: nat, p: nat)
    requires !step.PutPeb?
    requires Inv(s) && Enabled(s, step) && Claims(Apply(s, step), ByThread(t), p)
    ensures IsNew(s, step, ByThread(t), p) || Claims(s, Origin(s, step, ByThread(t)), p)
  {
    hide HeldFit, CountsFit, MoveFits, LocksFit, ClaimsFit, WorkerFits, More, Release, Mark, Get, Put, Select, Moved, NotMoved, Serve, BackPlace;
    if step.Unmap? && step.t == t {
      WriterIsLive(s, t);
    }
  }

  /** What the step puts is in use, and what it scrubs too. */
  lemma TouchedIsInUse(s: Sys, step: Step)
    requires Inv(s) && Enabled(s, step)
    ensures step.PutPeb? ==> InUse(s.wl, s.pc[step.t].p)
    ensures step.Scrub? ==> InUse(s.wl, s.pc[step.t].p)
    ensures step.Schedule? ==> At(s.wl, s.pc[step.t].p, Held)
    ensures step.Clean? ==> At(s.wl, step.p, Held)
  {
    if step.PutPeb? {
      PutIsInUse(s, step.t);
    } else if step.Scrub? {
      ReadIsInUse(s, step.t);
    } else if step.Clean? {
      assert Cleans(s, -1, step.p);
    } else if step.Schedule? {
      assert PcFits(s, s.pc[step.t]);
    }
  }

  /** The thread that takes the step, or the worker, has the lock of the LEB whose entry changes. */
  lemma EntryKept(s: Sys, step: Step, t: nat, l: Leb)
    requires Inv(s) && Enabled(s, step) && t in s.pc && (Writes(s.pc[t], l) || Reads(s.pc[t], l))
    requires !(step.Unmap? && step.t == t) && !(step.MapNew? && step.t == t) && !(step.Remap? && step.t == t)
    ensures l in Apply(s, step).eba <==> l in s.eba
    ensures l in s.eba ==> Apply(s, step).eba[l] == s.eba[l]
  {
    hide HeldFit, ClaimsFit, CountsFit, MoveFits, PcFits;
    if step.Unmap? || step.MapNew? || step.Remap? {
      assert Excludes(s, step.t, t, l);
    } else if step.CopyDone? {
      assert WorkerHolds(s.worker, s.worker.leb);
    }
  }

  lemma PcKept(s: Sys, step: Step, t: nat)
    requires Inv(s) && Enabled(s, step) && t in s.pc
    ensures Apply(s, step).pc.Keys == s.pc.Keys && PcFits(Apply(s, step), Apply(s, step).pc[t])
  {
    StepKeepsThreads(s, step);
    hide *;
    if Apply(s, step).pc[t].Scheduling? {
      ScheduledKept(s, step, t);
    } else if Apply(s, step).pc[t] == s.pc[t] {
      SamePcKept(s, step, t);
    } else {
      NewPcFits(s, step, t);
    }
  }

  lemma ScheduledKept(s: Sys, step: Step, t: nat)
    requires Inv(s) && Enabled(s, step) && t in s.pc && t in Apply(s, step).pc && Apply(s, step).pc[t].Scheduling?
    ensures PcFits(Apply(s, step), Apply(s, step).pc[t])
  {
    hide Inv, Apply, Enabled;
    HeldKept(s, step);
    assert Cleans(Apply(s, step), t, Apply(s, step).pc[t].p);
  }

  lemma SamePcKept(s: Sys, step: Step, t: nat)
    requires Inv(s) && Enabled(s, step) && t in s.pc && t in Apply(s, step).pc
    requires Apply(s, step).pc[t] == s.pc[t] && !s.pc[t].Scheduling?
    ensures PcFits(Apply(s, step), Apply(s, step).pc[t])
  {
    assert PcFits(s, s.pc[t]);
    if !s.pc[t].Idle? && !((step.Unmap? || step.MapNew? || step.Remap?) && step.t == t) {
      EntryKept(s, step, t, s.pc[t].leb);
    }
    if (step.Unmap? || step.MapNew? || step.Remap?) && step.t == t {
      OwnPcMoves(s, step);
    }
    hide Inv, Apply, Enabled;
  }

  lemma OwnPcMoves(s: Sys, step: Step)
    requires Enabled(s, step) && (step.Unmap? || step.MapNew? || step.Remap?)
    ensures step.t in Apply(s, step).pc && Apply(s, step).pc[step.t] != s.pc[step.t]
  {
  }

  lemma NewPcFits(s: Sys, step: Step, t: nat)
    requires Inv(s) && Enabled(s, step) && t in s.pc && t in Apply(s, step).pc
    requires Apply(s, step).pc[t] != s.pc[t] && !Apply(s, step).pc[t].Scheduling?
    ensures PcFits(Apply(s, step), Apply(s, step).pc[t])
  {
    assert PcFits(s, s.pc[t]);
    hide Inv, PcFits;
    if KeepsWl(step) {
      NewPcFitsTable(s, step, t);
    } else {
      NewPcFitsElse(s, step, t);
    }
  }

  lemma NewPcFitsTable(s: Sys, step: Step, t: nat)
    requires KeepsWl(step) && Enabled(s, step) && t in s.pc && t in Apply(s, step).pc && PcFits(s, s.pc[t])
    requires Apply(s, step).pc[t] != s.pc[t] && !Apply(s, step).pc[t].Scheduling?
    ensures PcFits(Apply(s, step), Apply(s, step).pc[t])
  {
    hide FreeToRead, FreeToWrite, At, Claims;
  }

  lemma NewPcFitsElse(s: Sys, step: Step, t: nat)
    requires !KeepsWl(step) && Enabled(s, step) && t in s.pc && t in Apply(s, step).pc && PcFits(s, s.pc[t])
    requires Apply(s, step).pc[t] != s.pc[t] && !Apply(s, step).pc[t].Scheduling?
    ensures PcFits(Apply(s, step), Apply(s, step).pc[t])
  {
    hide At, InUse, Release, Mark, Get, Put, Select, Moved, NotMoved, Serve, More, BackPlace;
  }

  lemma PcsKept(s: Sys, step: Step)
    requires Inv(s) && Enabled(s, step)
    ensures forall t | t in Apply(s, step).pc :: PcFits(Apply(s, step), Apply(s, step).pc[t])
  {
    hide Inv, Apply, PcFits;
    forall t | t in s.pc
      ensures Apply(s, step).pc.Keys == s.pc.Keys && PcFits(Apply(s, step), Apply(s, step).pc[t])
    {
      PcKept(s, step, t);
    }
    StepKeepsThreads(s, step);
  }

  lemma StepKeepsThreads(s: Sys, step: Step)
    requires Enabled(s, step)
    ensures Apply(s, step).pc.Keys == s.pc.Keys
  {
    hide More, Release, Mark, Get, Put, Select, Moved, NotMoved, Serve, BackPlace, At;
  }

  lemma CountsKeptByPut(s: Sys, step: Step)
    requires step.PutPeb?
    requires Inv(s) && Enabled(s, step)
    ensures CountsFit(Apply(s, step))
  {
    PutIsInUse(s, step.t);
    hide LocksFit, ClaimsFit, HeldFit, WorkerFits;
  }

  lemma CountsKeptByTable(s: Sys, step: Step)
    requires KeepsWl(step)
    requires Inv(s) && Enabled(s, step)
    ensures CountsFit(Apply(s, step))
  {
    WlUntouched(s, step);
    hide Apply, LocksFit, ClaimsFit, HeldFit, WorkerFits, MoveFits;
  }

  lemma CountsKeptByPeb(s: Sys, step: Step)
    requires !step.PutPeb? && !KeepsWl(step)
    requires Inv(s) && Enabled(s, step)
    ensures CountsFit(Apply(s, step))
  {
    hide *;
    if step.FinishMoved? || step.FinishFailed? {
      CountsKeptAtEnd(s, step);
    } else {
      CountsKeptElse(s, step);
    }
  }

  lemma CountsKeptAtEnd(s: Sys, step: Step)
    requires step.FinishMoved? || step.FinishFailed?
    requires Inv(s) && Enabled(s, step)
    ensures CountsFit(Apply(s, step))
  {
    hide LocksFit, ClaimsFit, HeldFit;
  }

  lemma CountsKeptElse(s: Sys, step: Step)
    requires !step.PutPeb? && !KeepsWl(step) && !step.FinishMoved? && !step.FinishFailed?
    requires Inv(s) && Enabled(s, step)
    ensures CountsFit(Apply(s, step))
  {
    TouchedIsInUse(s, step);
    hide LocksFit, ClaimsFit, HeldFit;
  }

  lemma CountsKept(s: Sys, step: Step)
    requires Inv(s) && Enabled(s, step)
    ensures CountsFit(Apply(s, step))
  {
    hide *;
    if step.PutPeb? {
      CountsKeptByPut(s, step);
    } else if KeepsWl(step) {
      CountsKeptByTable(s, step);
    } else {
      CountsKeptByPeb(s, step);
    }
  }

  /** A PEB in use stays in use, unless its user has just put it, or the worker dropped it. */
  lemma UseKeptByPut(s: Sys, step: Step, p: nat)
    requires step.PutPeb?
    requires Inv(s) && Enabled(s, step) && InUse(s.wl, p)
    ensures InUse(Apply(s, step).wl, p)
      || (step.PutPeb? && p == s.pc[step.t].p && p != s.wl.moveFrom)
      || (step.FinishMoved? && p == s.wl.moveFrom)
      || (step.FinishFailed? && p == s.wl.moveTo)
  {
    PutIsInUse(s, step.t);
    hide LocksFit, ClaimsFit, HeldFit, CountsFit, WorkerFits;
  }

  lemma UseKeptByTable(s: Sys, step: Step, p: nat)
    requires KeepsWl(step)
    requires Inv(s) && Enabled(s, step) && InUse(s.wl, p)
    ensures InUse(Apply(s, step).wl, p)
      || (step.FinishMoved? && p == s.wl.moveFrom)
      || (step.FinishFailed? && p == s.wl.moveTo)
  {
    WlUntouched(s, step);
    hide Apply, Inv;
  }

  lemma UseKeptByPeb(s: Sys, step: Step, p: nat)
    requires !step.PutPeb? && !KeepsWl(step)
    requires Inv(s) && Enabled(s, step) && InUse(s.wl, p)
    ensures InUse(Apply(s, step).wl, p)
      || (step.FinishMoved? && p == s.wl.moveFrom)
      || (step.FinishFailed? && p == s.wl.moveTo)
  {
    hide LocksFit, ClaimsFit, HeldFit, CountsFit, WorkerFits, More;
    TouchedIsInUse(s, step);
  }

  lemma UseKept(s: Sys, step: Step, p: nat)
    requires Inv(s) && Enabled(s, step) && InUse(s.wl, p)
    ensures InUse(Apply(s, step).wl, p)
      || (step.PutPeb? && p == s.pc[step.t].p && p != s.wl.moveFrom)
      || (step.FinishMoved? && p == s.wl.moveFrom)
      || (step.FinishFailed? && p == s.wl.moveTo)
  {
    hide *;
    if step.PutPeb? {
      UseKeptByPut(s, step, p);
    } else if KeepsWl(step) {
      UseKeptByTable(s, step, p);
    } else {
      UseKeptByPeb(s, step, p);
    }
  }

  /** What has been put is not claimed any more. */
  lemma PutDropsClaim(s: Sys, t: nat, c: Claimant)
    requires Inv(s) && t in s.pc && s.pc[t].Putting? && s.pc[t].p != s.wl.moveFrom
    ensures !Claims(Apply(s, PutPeb(t)), c, s.pc[t].p)
  {
    PutIsInUse(s, t);
    PutBringsNoClaim(s, t, c, s.pc[t].p);
    OwnerDrops(s, t);
    hide Apply, Claims, LocksFit, HeldFit, CountsFit, WorkerFits;
  }

  lemma PutBringsNoClaim(s: Sys, t: nat, c: Claimant, p: nat)
    requires Inv(s) && t in s.pc && s.pc[t].Putting?
    ensures Claims(Apply(s, PutPeb(t)), c, p) ==> Claims(s, c, p)
  {
    hide Inv, Apply, Claims;
    if Claims(Apply(s, PutPeb(t)), c, p) {
      ClaimsAfter(s, PutPeb(t), c, p);
    }
  }

  /** Whoever had the PEB in use does not claim it any more. */
  lemma OwnerDrops(s: Sys, t: nat)
    requires Inv(s) && t in s.pc && s.pc[t].Putting? && s.pc[t].p != s.wl.moveFrom
    ensures !Claims(Apply(s, PutPeb(t)), if s.pc[t].after.Done? then ByThread(t) else ByLeb(s.pc[t].leb), s.pc[t].p)
  {
    var r := Apply(s, PutPeb(t));
    if s.pc[t].after.RemapTo? {
      assert IsStale(r.pc[t], s.pc[t].leb);
    }
    hide Inv, Release, More;
  }

  lemma ClaimedIsInUse(s: Sys, step: Step, c: Claimant, p: nat)
    requires Inv(s) && Enabled(s, step) && Claims(Apply(s, step), c, p)
    ensures InUse(Apply(s, step).wl, p)
  {
    ClaimsAfter(s, step, c, p);
    hide *;
    if IsNew(s, step, c, p) {
      NewIsInUse(s, step, c, p);
    } else {
      StaysInUse(s, step, c, p);
    }
  }

  lemma NewIsInUse(s: Sys, step: Step, c: Claimant, p: nat)
    requires Inv(s) && Enabled(s, step) && IsNew(s, step, c, p)
    ensures InUse(Apply(s, step).wl, p)
  {
    assert MoveFits(s.wl);
    hide LocksFit, HeldFit, CountsFit, ClaimsFit;
  }

  lemma StaysInUse(s: Sys, step: Step, c: Claimant, p: nat)
    requires Inv(s) && Enabled(s, step) && Claims(s, Origin(s, step, c), p) && Claims(Apply(s, step), c, p)
    ensures InUse(Apply(s, step).wl, p)
  {
    assert InUse(s.wl, p);
    assert step.FinishMoved? ==> Unclaimed(s, s.wl.moveFrom);
    assert step.FinishFailed? ==> Unclaimed(s, s.wl.moveTo);
    UseKept(s, step, p);
    if step.PutPeb? && p == s.pc[step.t].p && p != s.wl.moveFrom {
      PutDropsClaim(s, step.t, c);
    }
    hide Inv, Apply, InUse, Claims;
  }

  lemma ClaimIsUnique(s: Sys, step: Step, c: Claimant, d: Claimant, p: nat)
    requires Inv(s) && Enabled(s, step) && Claims(Apply(s, step), c, p) && Claims(Apply(s, step), d, p)
    ensures c == d
  {
    ClaimsAfter(s, step, c, p);
    ClaimsAfter(s, step, d, p);
    hide *;
    if !IsNew(s, step, c, p) && !IsNew(s, step, d, p) {
      OriginIsInjective(s, step, c, d, p);
    } else if IsNew(s, step, c, p) {
      NewIsUnclaimed(s, step, c, d, p);
    } else {
      NewIsUnclaimed(s, step, d, c, p);
    }
  }

  lemma OriginIsInjective(s: Sys, step: Step, c: Claimant, d: Claimant, p: nat)
    requires Inv(s) && Enabled(s, step) && Claims(Apply(s, step), c, p) && Claims(Apply(s, step), d, p)
    requires Claims(s, Origin(s, step, c), p) && Claims(s, Origin(s, step, d), p)
    ensures c == d
  {
    assert Origin(s, step, c) == Origin(s, step, d);
    hide LocksFit, HeldFit, CountsFit, MoveFits, ClaimsFit, WorkerFits, InUse;
  }

  lemma NewIsUnclaimed(s: Sys, step: Step, c: Claimant, d: Claimant, p: nat)
    requires Inv(s) && Enabled(s, step) && IsNew(s, step, c, p)
    requires IsNew(s, step, d, p) || Claims(s, Origin(s, step, d), p)
    ensures c == d
  {
    hide LocksFit, HeldFit, CountsFit, Apply, Origin;
  }

  lemma ClaimsKept(s: Sys, step: Step)
    requires Inv(s) && Enabled(s, step)
    ensures ClaimsFit(Apply(s, step))
  {
    hide Inv, Apply, Enabled, Claims, InUse;
    var r := Apply(s, step);
    forall c, p: nat | Claims(r, c, p)
      ensures InUse(r.wl, p)
    {
      ClaimedIsInUse(s, step, c, p);
    }
    forall c, d, p: nat | Claims(r, c, p) && Claims(r, d, p)
      ensures c == d
    {
      ClaimIsUnique(s, step, c, d, p);
    }
  }

  lemma CopiedIsLive(s: Sys)
    requires Inv(s) && s.worker.Copying?
    ensures s.wl.moveFrom >= 0 && Claims(s, ByLeb(s.worker.leb), s.wl.moveFrom)
  {
    forall u | u in s.pc
      ensures !IsStale(s.pc[u], s.worker.leb)
    {
      assert WorkerHolds(s.worker, s.worker.leb) && !Writes(s.pc[u], s.worker.leb);
    }
  }

  /** Who claims a PEB after the step did so before, or it is new. */
  ghost predicate ClaimsCarryOver(s: Sys, step: Step)
    requires Enabled(s, step)
  {
    forall c, p: nat | Claims(Apply(s, step), c, p) :: IsNew(s, step, c, p) || Claims(s, Origin(s, step, c), p)
  }

  lemma ClaimsDoCarryOver(s: Sys, step: Step)
    requires Inv(s) && Enabled(s, step)
    ensures ClaimsCarryOver(s, step)
  {
    hide Inv, Apply, Claims, IsNew, Origin, Enabled;
    forall c, p: nat | Claims(Apply(s, step), c, p)
      ensures IsNew(s, step, c, p) || Claims(s, Origin(s, step, c), p)
    {
      ClaimsAfter(s, step, c, p);
    }
  }

  lemma WorkerKept(s: Sys, step: Step)
    requires Inv(s) && Enabled(s, step)
    ensures WorkerFits(Apply(s, step))
  {
    ClaimsDoCarryOver(s, step);
    hide *;
    if step.PutPeb? {
      WorkerKeptByPut(s, step);
    } else if KeepsWl(step) {
      WorkerKeptByTable(s, step);
    } else {
      WorkerKeptByPeb(s, step);
    }
  }

  lemma WorkerKeptByPut(s: Sys, step: Step)
    requires step.PutPeb?
    requires Inv(s) && Enabled(s, step) && ClaimsCarryOver(s, step)
    ensures WorkerFits(Apply(s, step))
  {
    PutIsInUse(s, step.t);
    hide HeldFit, CountsFit, LocksFit;
  }

  lemma WorkerKeptByTable(s: Sys, step: Step)
    requires KeepsWl(step)
    requires Inv(s) && Enabled(s, step) && ClaimsCarryOver(s, step)
    ensures WorkerFits(Apply(s, step))
  {
    hide *;
    if step.TryLock? || step.CopyFails? || step.CopyDone? || step.UnlockMoved? {
      WorkerKeptByItself(s, step);
    } else {
      WorkerKeptByThreads(s, step);
    }
  }

  lemma WorkerKeptByItself(s: Sys, step: Step)
    requires step.TryLock? || step.CopyFails? || step.CopyDone? || step.UnlockMoved?
    requires Inv(s) && Enabled(s, step) && ClaimsCarryOver(s, step)
    ensures WorkerFits(Apply(s, step))
  {
    if step.CopyDone? {
      CopiedIsLive(s);
    }
    hide HeldFit, CountsFit, MoveFits, LocksFit;
  }

  lemma WorkerKeptByThreads(s: Sys, step: Step)
    requires KeepsWl(step) && !(step.TryLock? || step.CopyFails? || step.CopyDone? || step.UnlockMoved?)
    requires Inv(s) && Enabled(s, step) && ClaimsCarryOver(s, step)
    ensures WorkerFits(Apply(s, step))
  {
    WlUntouched(s, step);
    assert s.worker.Copying? ==> WorkerHolds(s.worker, s.worker.leb);
    hide HeldFit, CountsFit, MoveFits;
  }

  lemma WorkerKeptByPeb(s: Sys, step: Step)
    requires !step.PutPeb? && !KeepsWl(step)
    requires Inv(s) && Enabled(s, step) && ClaimsCarryOver(s, step)
    ensures WorkerFits(Apply(s, step))
  {
    TouchedIsInUse(s, step);
    hide HeldFit, CountsFit, LocksFit;
  }

  lemma StepKeepsInv(s: Sys, step: Step)
    requires Inv(s) && Enabled(s, step)
    ensures Inv(Apply(s, step))
  {
    MoveKept(s, step);
    LocksKept(s, step);
    HeldKept(s, step);
    PcsKept(s, step);
    ClaimsKept(s, step);
    WorkerKept(s, step);
    CountsKept(s, step);
    hide *;
  }

  /** Attached, and nothing under way: every mapped PEB is in use, and no erasure is forgotten. */
  predicate Quiet(s: Sys) {
    && MoveFits(s.wl) && s.wl.moveFrom < 0 && s.worker.Resting? && (forall t | t in s.pc :: s.pc[t].Idle?)
    && (forall l | l in s.eba :: InUse(s.wl, s.eba[l]))
    && (forall k, l | k in s.eba && l in s.eba && s.eba[k] == s.eba[l] :: k == l)
    && (forall p | p in s.wl.place :: s.wl.place[p] != Held)
    && s.given == map[] && s.scheduled == map[]
  }

  ghost predicate Legal(s: Sys, steps: seq<Step>)
    decreases |steps|
  {
    steps != [] ==> Enabled(s, steps[0]) && Legal(Apply(s, steps[0]), steps[1..])
  }

  ghost function Run(s: Sys, steps: seq<Step>): Sys
    requires Legal(s, steps)
    decreases |steps|
  {
    if steps == [] then s else Run(Apply(s, steps[0]), steps[1..])
  }

  lemma QuietIsFine(s: Sys)
    requires Quiet(s)
    ensures Inv(s)
  {
  }

  lemma {:induction false} RunKeepsInv(s: Sys, steps: seq<Step>)
    requires Inv(s) && Legal(s, steps)
    ensures Inv(Run(s, steps))
    decreases |steps|
  {
    if steps != [] {
      StepKeepsInv(s, steps[0]);
      RunKeepsInv(Apply(s, steps[0]), steps[1..]);
    }
  }

  // ---- What follows for every run ------------------------------------------------------------

  /** Every PEB that was given up, before, during or after a move, has its erasure scheduled exactly
      once, or is going to: somebody is just doing it, or the worker will when the move ends. */
  lemma ErasedExactlyOnce(s: Sys, steps: seq<Step>, p: nat)
    requires Quiet(s) && Legal(s, steps)
    ensures var r := Run(s, steps);
      && Count(r.scheduled, p) <= Count(r.given, p) <= Count(r.scheduled, p) + 1
      && (Count(r.given, p) == Count(r.scheduled, p) + 1 <==> Pending(r, p))
      && (At(r.wl, p, Held) ==> exists t: int :: Cleans(r, t, p))
      && (p == r.wl.moveTo && r.wl.moveToPut ==> r.worker.Copied? || r.worker.Unlocked?)
  {
    QuietIsFine(s);
    RunKeepsInv(s, steps);
  }

  /** A move that was cancelled never leaves a put target behind, and a target is only put once the
      LEB had been moved to it. */
  lemma CancelledTargetIsNotPut(s: Sys, steps: seq<Step>, t: nat)
    requires Quiet(s) && Legal(s, steps)
    ensures var r := Run(s, steps);
      && (r.worker.Failed? || r.worker.Selected? || r.worker.Copying? ==> !r.wl.moveToPut)
      && (t in r.pc && r.pc[t].Putting? && r.pc[t].p == r.wl.moveTo ==>
            (r.worker.Copied? || r.worker.Unlocked?) && !r.wl.moveToPut)
  {
    QuietIsFine(s);
    RunKeepsInv(s, steps);
    var r := Run(s, steps);
    if t in r.pc && r.pc[t].Putting? && r.pc[t].p == r.wl.moveTo {
      PutIsInUse(r, t);
    }
  }

  /** No PEB a LEB is mapped to is free or on its way to erasure, once the LEB is not locked; and
      what a thread puts is always found in one of the trees, the queue or the move. */
  lemma MappedIsInUse(s: Sys, steps: seq<Step>, l: Leb, t: nat)
    requires Quiet(s) && Legal(s, steps)
    ensures var r := Run(s, steps);
      && (l in r.eba && (forall u | u in r.pc :: !Writes(r.pc[u], l)) ==>
            InUse(r.wl, r.eba[l]) && forall k | Live(r, k) && r.eba[k] == r.eba[l] :: k == l)
      && (t in r.pc && r.pc[t].Putting? ==> InUse(r.wl, r.pc[t].p))
  {
    QuietIsFine(s);
    RunKeepsInv(s, steps);
    var r := Run(s, steps);
    if l in r.eba && (forall u | u in r.pc :: !Writes(r.pc[u], l)) {
      assert Claims(r, ByLeb(l), r.eba[l]);
      forall k | Live(r, k) && r.eba[k] == r.eba[l]
        ensures k == l
      {
        assert Claims(r, ByLeb(k), r.eba[l]);
      }
    }
    if t in r.pc && r.pc[t].Putting? {
      PutIsInUse(r, t);
    }
  }

  /** A reader that asks for scrubbing gets it at once, unless the PEB is the target of the move: it is marked
      then, or was found erroneous, or is being moved, and nothing else changes its place. */
  lemma ScrubMarks(s: Sys, t: nat)
    requires Enabled(s, Step.Scrub(t)) && s.pc[t].p != s.wl.moveTo
    ensures var r, p := Apply(s, Step.Scrub(t)), s.pc[t].p;
      && (At(r.wl, p, Place.Scrub) || At(r.wl, p, Erroneous) || p == s.wl.moveFrom)
      && (forall q | q != p && q in s.wl.place :: At(r.wl, q, s.wl.place[q])) && r.pc[t] == Idle
  {
  }
}
