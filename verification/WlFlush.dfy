/** ubi_wl_flush: what has been erased when it returns.  Works are done by the caller and by the
    background thread at the same time. */
module WlFlush {
  import opened WearLeveling
  import opened WlRuns
  import opened WlState

  /** Draining: until no work is pending.  Waiting: for everybody who is doing a work.  Again: once more
      until no work is pending.  Failed: a work the caller did itself has failed. */
  datatype Pc = Draining | Waiting | Again | Returned | Failed

  /** given: the PEBs that had been given up when the flush began and are not erased yet. */
  datatype State = State(s: Sys, given: set<nat>, pc: Pc)

  /** Works: any step of wear-leveling, whoever does it. */
  datatype Move = Works(step: Step) | NoneLeft | Locked | Return | Fail

  /** The PEB is on its way to its erasure, and no put of it is under way. */
  predicate GivenUp(s: Sys, p: nat) {
    || At(s.w, p, ToErase) || At(s.w, p, Erasing) || (p in s.hands && s.hands[p].Worker?)
    || (p == s.w.moveTo && s.w.moveToPut)
  }

  /** Nobody is in the middle of a work. */
  predicate Quiet(s: Sys) {
    && !s.mover.Started? && !s.mover.Copying? && (forall p | p in s.w.place :: s.w.place[p] != Erasing)
    && forall p | p in s.hands :: s.hands[p].User?
  }

  predicate CanMove(f: State, m: Move) {
    match m
    case Works(step) => WlRuns.Enabled(f.s, step)
    case NoneLeft => f.pc.Draining? && f.s.works == []
    case Locked => f.pc.Waiting? && Quiet(f.s)
    case Return => f.pc.Again? && f.s.works == []
    case Fail => f.pc.Draining? || f.pc.Again?
  }

  function Next(f: State, m: Move): State
    requires CanMove(f, m)
  {
    match m
    case Works(step) =>
      f.(s := WlRuns.Apply(f.s, step), given := if step.Erased? || step.WentBad? then f.given - {step.p} else f.given)
    case NoneLeft => f.(pc := Waiting)
    case Locked => f.(pc := Again)
    case Return => f.(pc := Returned)
    case Fail => f.(pc := Failed)
  }

  /** A PEB that was given up and is not erased is still on its way, or its entry was freed when the device
      became read-only. */
  ghost predicate Fits(f: State) {
    WlRuns.Inv(f.s) && forall p | p in f.given :: GivenUp(f.s, p) || p in f.s.lost
  }

  ghost predicate Legal(f: State, moves: seq<Move>)
    decreases |moves|
  {
    moves != [] ==> CanMove(f, moves[0]) && Legal(Next(f, moves[0]), moves[1..])
  }

  ghost function Run(f: State, moves: seq<Move>): State
    requires Legal(f, moves)
    decreases |moves|
  {
    if moves == [] then f else Run(Next(f, moves[0]), moves[1..])
  }

  predicate Erases(step: Step, p: nat) {
    (step.Erased? || step.WentBad?) && step.p == p
  }

  lemma GivenAfterMove(s: Sys, step: Step, p: nat)
    requires MoveFits(s.w) && HandsFit(s) && WlRuns.Enabled(s, step) && EndsMove(step) && GivenUp(s, p)
    ensures GivenUp(WlRuns.Apply(s, step), p) || p in WlRuns.Apply(s, step).lost
  {
  }

  lemma GivenOtherwise(s: Sys, step: Step, p: nat)
    requires MoveFits(s.w) && HandsFit(s) && WlRuns.Enabled(s, step) && !EndsMove(step) && !step.TakeErasure? && !step.BeginMove? && !step.Serve?
    requires GivenUp(s, p) && !Erases(step, p)
    ensures GivenUp(WlRuns.Apply(s, step), p) || p in WlRuns.Apply(s, step).lost
  {
    hide Tail, WlState.Serve, MoveMakesSense, Select, Moved, NotMoved;
  }

  lemma GivenServed(s: Sys, p: nat)
    requires GivenUp(s, p)
    ensures GivenUp(WlRuns.Apply(s, Step.Serve), p)
  {
  }

  lemma GivenByWorker(s: Sys, step: Step, p: nat)
    requires WlRuns.Inv(s) && WlRuns.Enabled(s, step) && (step.TakeErasure? || step.BeginMove?) && GivenUp(s, p)
    ensures GivenUp(WlRuns.Apply(s, step), p)
  {
    InvHas(s);
    hide WorksFit, Apart;
  }

  /** Nothing but its erasure ends the way of a PEB, as long as the device can be written to. */
  lemma StaysGivenUp(s: Sys, step: Step, p: nat)
    requires WlRuns.Inv(s) && WlRuns.Enabled(s, step) && GivenUp(s, p) && !Erases(step, p)
    ensures GivenUp(WlRuns.Apply(s, step), p) || p in WlRuns.Apply(s, step).lost
  {
    hide *;
    InvHas(s);
    if EndsMove(step) {
      GivenAfterMove(s, step, p);
    } else if step.TakeErasure? || step.BeginMove? {
      GivenByWorker(s, step, p);
    } else if step.Serve? {
      GivenServed(s, p);
    } else {
      GivenOtherwise(s, step, p);
    }
  }

  lemma MoveKeepsFit(f: State, m: Move)
    requires Fits(f) && CanMove(f, m)
    ensures Fits(Next(f, m))
  {
    if m.Works? {
      StepKeepsInv(f.s, m.step);
      hide WlRuns.Inv, WlRuns.Enabled, WlRuns.Apply, GivenUp;
      LostStays(f.s, m.step);
      forall p | p in Next(f, m).given
        ensures GivenUp(Next(f, m).s, p) || p in Next(f, m).s.lost
      {
        if GivenUp(f.s, p) {
          StaysGivenUp(f.s, m.step, p);
        }
      }
    }
  }

  lemma LostStays(s: Sys, step: Step)
    requires WlRuns.Inv(s) && WlRuns.Enabled(s, step)
    ensures s.lost <= WlRuns.Apply(s, step).lost
  {
    StepKeepsInv(s, step);
    hide WlRuns.Inv, WlRuns.Enabled, WlRuns.Apply;
  }

  lemma {:induction false} RunKeepsFit(f: State, moves: seq<Move>)
    requires Fits(f) && Legal(f, moves)
    ensures Fits(Run(f, moves))
    decreases |moves|
  {
    if moves != [] {
      hide Fits, CanMove, Next;
      MoveKeepsFit(f, moves[0]);
      RunKeepsFit(Next(f, moves[0]), moves[1..]);
    }
  }

  /** When nobody is in the middle of a work, whatever was given up has its erasure among the works. */
  lemma QuietMeansPending(s: Sys, p: nat)
    requires WlRuns.Inv(s) && Quiet(s) && GivenUp(s, p)
    ensures At(s.w, p, ToErase)
  {
    InvHas(s);
  }

  /** All that is on its way when the flush begins. */
  function AllGivenUp(s: Sys): (r: set<nat>)
    ensures forall p | p in r :: GivenUp(s, p)
  {
    set p | p in s.w.place && GivenUp(s, p)
  }

  lemma FlushBegins(s: Sys)
    requires WlRuns.Inv(s)
    ensures Fits(State(s, AllGivenUp(s), Draining)) && forall p: nat | GivenUp(s, p) :: p in AllGivenUp(s)
  {
    InvHas(s);
  }

  // ---- What is erased when the flush returns -------------------------------------------------

  /** Everything that was given up is erased, but for what a device that became read-only has lost. */
  predicate AllErased(f: State) {
    f.given <= f.s.lost
  }

  ghost predicate ErasedInTheEnd(f: State) {
    forall moves | Legal(f, moves) && Run(f, moves).pc.Returned? :: AllErased(Run(f, moves))
  }

  lemma {:induction false} StaysErased(f: State, moves: seq<Move>)
    requires Fits(f) && Legal(f, moves) && AllErased(f)
    ensures AllErased(Run(f, moves))
    decreases |moves|
  {
    if moves != [] {
      MoveKeepsFit(f, moves[0]);
      if moves[0].Works? {
        LostStays(f.s, moves[0].step);
      }
      hide Fits, CanMove, WlRuns.Inv, WlRuns.Apply, WlRuns.Enabled;
      StaysErased(Next(f, moves[0]), moves[1..]);
    }
  }

  /** The flush may return without p having been erased. */
  ghost predicate MayMiss(f: State, p: nat) {
    exists moves :: Legal(f, moves) && Run(f, moves).pc.Returned? && p in Run(f, moves).given && p !in Run(f, moves).s.lost
  }

  lemma MissedLater(f: State, m: Move, p: nat)
    requires CanMove(f, m) && MayMiss(Next(f, m), p)
    ensures MayMiss(f, p)
  {
    hide CanMove, Next;
    var moves :| Legal(Next(f, m), moves) && Run(Next(f, m), moves).pc.Returned?
      && p in Run(Next(f, m), moves).given && p !in Run(Next(f, m), moves).s.lost;
    var all := [m] + moves;
    assert all[0] == m && all[1..] == moves;
    assert Legal(f, all) && Run(f, all) == Run(Next(f, m), moves);
  }

  lemma NothingPending(f: State, p: nat)
    requires Fits(f) && f.pc.Again? && f.s.works == [] && p in f.given && At(f.s.w, p, Erasing)
    ensures MayMiss(f, p)
  {
    InvHas(f.s);
    var r := Next(f, Return);
    assert Legal(r, []) && Run(r, []) == r;
    hide Fits;
    MissedLater(f, Return, p);
  }

  /** The background thread takes all the works before the caller looks at them. */
  lemma {:induction false} AllTaken(f: State, p: nat)
    requires Fits(f) && f.pc.Again? && p in f.given && (At(f.s.w, p, ToErase) || At(f.s.w, p, Erasing))
    ensures MayMiss(f, p)
    decreases |f.s.works|
  {
    if f.s.works == [] {
      if At(f.s.w, p, ToErase) {
        ErasureIsPending(f.s, p);
      }
      NothingPending(f, p);
    } else {
      var m := Works(if f.s.works[0].EraseWork? then TakeErasure else TakeMove(true));
      MoveKeepsFit(f, m);
      hide Fits, MayMiss;
      AllTaken(Next(f, m), p);
      MissedLater(f, m, p);
    }
  }

  lemma ErasureIsPending(s: Sys, p: nat)
    requires WlRuns.Inv(s) && At(s.w, p, ToErase)
    ensures s.works != []
  {
    InvHas(s);
  }

  /** Once the flush has waited for those who were doing works, it keeps its promise, whoever goes on in
      whatever order, if and only if nothing that was given up is pending any more; if something is, another
      thread may take it, and the flush does not wait for that thread again. */
  lemma FlushIsCompleteIff(f: State)
    requires Fits(f) && CanMove(f, Locked)
    ensures ErasedInTheEnd(Next(f, Locked)) <==> forall p | p in f.given :: !At(f.s.w, p, ToErase)
    ensures f.s.works == [] ==> ErasedInTheEnd(Next(f, Locked))
  {
    var g := Next(f, Locked);
    if p: nat :| p in f.given && At(f.s.w, p, ToErase) {
      ErasureIsPending(f.s, p);
      AllTaken(g, p);
      var moves :| Legal(g, moves) && Run(g, moves).pc.Returned? && p in Run(g, moves).given && p !in Run(g, moves).s.lost;
      assert !AllErased(Run(g, moves));
    } else {
      forall p | p in f.given
        ensures p in f.s.lost
      {
        if GivenUp(f.s, p) {
          QuietMeansPending(f.s, p);
        }
      }
      forall moves | Legal(g, moves) && Run(g, moves).pc.Returned?
        ensures AllErased(Run(g, moves))
      {
        StaysErased(g, moves);
      }
    }
  }

  // ---- When it keeps its promise -------------------------------------------------------------

  /** What was given up is queued or being erased, or lost, and not queued any more once the queue has been
      empty. */
  predicate OnItsWay(f: State) {
    forall p | p in f.given ::
      p in f.s.lost || At(f.s.w, p, Erasing) || (f.pc.Draining? && At(f.s.w, p, ToErase))
  }

  /** Apart from Failed, which ends everything. */
  predicate Calm(f: State) {
    f.pc.Failed? || OnItsWay(f)
  }

  /** No erasure of these PEBs fails and is tried again. */
  predicate NoRetry(given: set<nat>, moves: seq<Move>) {
    forall i | 0 <= i < |moves| && moves[i].Works? && moves[i].step.EraseAgain? :: moves[i].step.p !in given
  }

  lemma ErasingStays(s: Sys, step: Step, p: nat)
    requires MoveFits(s.w) && HandsFit(s) && WlRuns.Enabled(s, step) && !Erases(step, p) && !(step.EraseAgain? && step.p == p)
    requires At(s.w, p, Erasing)
    ensures p in WlRuns.Apply(s, step).lost || At(WlRuns.Apply(s, step).w, p, Erasing)
  {
    hide Tail, MoveMakesSense;
  }

  lemma QueuedStays(s: Sys, step: Step, p: nat)
    requires MoveFits(s.w) && HandsFit(s) && WlRuns.Enabled(s, step) && At(s.w, p, ToErase)
    ensures At(WlRuns.Apply(s, step).w, p, Erasing) || At(WlRuns.Apply(s, step).w, p, ToErase)
  {
    hide Tail, MoveMakesSense;
  }

  lemma CalmStays(f: State, m: Move)
    requires Fits(f) && Calm(f) && CanMove(f, m) && NoRetry(f.given, [m])
    ensures Calm(Next(f, m)) && Next(f, m).given <= f.given
  {
    hide WlRuns.Inv, WlRuns.Enabled, WlRuns.Apply, At, MoveFits, HandsFit;
    match m
    case Works(step) =>
      assert [m][0] == m;
      InvHas(f.s);
      LostStays(f.s, step);
      forall p | p in f.given && !Erases(step, p) && !f.pc.Failed?
        ensures p in Next(f, m).s.lost || At(Next(f, m).s.w, p, Erasing) || (f.pc.Draining? && At(Next(f, m).s.w, p, ToErase))
      {
        if At(f.s.w, p, Erasing) {
          ErasingStays(f.s, step, p);
        } else if At(f.s.w, p, ToErase) {
          QueuedStays(f.s, step, p);
        }
      }
    case NoneLeft =>
      forall p | p in f.given
        ensures !At(f.s.w, p, ToErase)
      {
        if At(f.s.w, p, ToErase) {
          ErasureIsPending(f.s, p);
        }
      }
    case _ =>
  }

  lemma {:induction false} CalmFlush(f: State, moves: seq<Move>)
    requires Fits(f) && Calm(f) && Legal(f, moves) && NoRetry(f.given, moves)
    requires f.pc.Again? || f.pc.Returned? ==> AllErased(f)
    ensures Run(f, moves).pc.Returned? ==> AllErased(Run(f, moves))
    decreases |moves|
  {
    if moves != [] {
      var t := Next(f, moves[0]);
      MoveKeepsFit(f, moves[0]);
      assert NoRetry(f.given, [moves[0]]);
      CalmStays(f, moves[0]);
      ErasedOnceLocked(f, moves[0]);
      hide Fits, Calm, CanMove, Next, AllErased;
      CalmFlush(t, moves[1..]);
    }
  }

  lemma ErasedOnceLocked(f: State, m: Move)
    requires Fits(f) && Calm(f) && CanMove(f, m) && (f.pc.Again? || f.pc.Returned? ==> AllErased(f))
    ensures Next(f, m).pc.Again? || Next(f, m).pc.Returned? ==> AllErased(Next(f, m))
  {
    if m.Works? && !f.pc.Failed? {
      LostStays(f.s, m.step);
    }
    hide WlRuns.Inv, WlRuns.Enabled, WlRuns.Apply;
  }

  /** A caller can rely on the flush if, when it begins, no PEB whose erasure failed is just being queued again and
      the target of the move under way has not been put, and if no erasure of what was given up fails while it
      runs: then it does not matter who does the works, nor what is moved, cancelled, put or given up meanwhile. */
  lemma FlushIsComplete(s: Sys, moves: seq<Move>)
    requires WlRuns.Inv(s) && !s.w.moveToPut && forall p | p in s.hands :: s.hands[p].User?
    requires var f := State(s, AllGivenUp(s), Draining);
      Legal(f, moves) && NoRetry(f.given, moves) && Run(f, moves).pc.Returned?
    ensures AllErased(Run(State(s, AllGivenUp(s), Draining), moves))
  {
    FlushBegins(s);
    CalmFlush(State(s, AllGivenUp(s), Draining), moves);
  }

  lemma Prepend(f: State, m: Move, moves: seq<Move>)
    requires CanMove(f, m) && Legal(Next(f, m), moves)
    ensures Legal(f, [m] + moves) && Run(f, [m] + moves) == Run(Next(f, m), moves)
  {
    hide CanMove, Next;
    assert ([m] + moves)[0] == m && ([m] + moves)[1..] == moves;
  }

  /** A device of one PEB. */
  function OnePeb(place: Place, works: seq<Work>, hands: map<nat, Hand>): Sys {
    Sys(Wl(map[0 := place], 0, -1, -1, false), works, false, Resting, hands, {}, {}, false)
  }

  lemma OnePebFits()
    ensures Fits(State(OnePeb(Erasing, [], map[]), {0}, Draining))
  {
  }

  /** From the moment the PEB waits for its erasure once more. */
  lemma ThenOvertaken(f: State)
    requires f == State(OnePeb(ToErase, [EraseWork(0, false)], map[]), {0}, Waiting)
    ensures var moves := [Locked, Works(TakeErasure), Return];
            Legal(f, moves) && Run(f, moves) == State(OnePeb(Erasing, [], map[]), {0}, Returned)
  {
    var locked := f.(pc := Again);
    var taken := locked.(s := OnePeb(Erasing, [], map[]));
    var done := taken.(pc := Returned);
    assert CanMove(f, Locked) && Next(f, Locked) == locked;
    assert CanMove(locked, Works(TakeErasure)) && Next(locked, Works(TakeErasure)) == taken;
    assert CanMove(taken, Return) && Next(taken, Return) == done;
    assert Legal(done, []) && Run(done, []) == done;
    Prepend(taken, Return, []);
    Prepend(locked, Works(TakeErasure), [Return] + []);
    Prepend(f, Locked, [Works(TakeErasure)] + ([Return] + []));
    assert [Locked] + ([Works(TakeErasure)] + ([Return] + [])) == [Locked, Works(TakeErasure), Return];
  }

  /** The erasure of its PEB is under way when the flush begins.  It fails and is scheduled again; the flush,
      which has waited for it, finds the new work, but another thread is faster: the flush returns while the
      PEB is being erased. */
  lemma ErasureIsOvertaken(f: State)
    requires f == State(OnePeb(Erasing, [], map[]), {0}, Draining)
    ensures var moves := [NoneLeft, Works(EraseAgain(0)), Works(Step.Schedule(0)), Locked, Works(TakeErasure), Return];
            GivenUp(f.s, 0) && Legal(f, moves) && Run(f, moves) == f.(pc := Returned)
  {
    var waiting := f.(pc := Waiting);
    var failed := waiting.(s := OnePeb(Held, [], map[0 := Worker(false)]));
    var again := waiting.(s := OnePeb(ToErase, [EraseWork(0, false)], map[]));
    assert CanMove(f, NoneLeft) && Next(f, NoneLeft) == waiting;
    assert CanMove(waiting, Works(EraseAgain(0))) && Next(waiting, Works(EraseAgain(0))) == failed;
    assert CanMove(failed, Works(Step.Schedule(0))) && Next(failed, Works(Step.Schedule(0))) == again;
    hide CanMove, Next, Legal, Run;
    ThenOvertaken(again);
    var rest := [Locked, Works(TakeErasure), Return];
    Prepend(failed, Works(Step.Schedule(0)), rest);
    Prepend(waiting, Works(EraseAgain(0)), [Works(Step.Schedule(0))] + rest);
    Prepend(f, NoneLeft, [Works(EraseAgain(0))] + ([Works(Step.Schedule(0))] + rest));
    assert [NoneLeft] + ([Works(EraseAgain(0))] + ([Works(Step.Schedule(0))] + rest))
      == [NoneLeft, Works(EraseAgain(0)), Works(Step.Schedule(0)), Locked, Works(TakeErasure), Return];
  }
}
