/** Runs of the wear-leveling sub-system: users, the erase worker and the wear-leveling worker take
    turns in any order, PEBs go bad and memory runs out.  No PEB is lost sight of unless the device
    becomes read-only, and moves go on unless memory was missing once at the wrong moment. */
module WlRuns {
  import opened WearLeveling
  import opened WlState
  import opened WlTree
  import opened Wrappers

  /** Who is about to schedule the erasure of a PEB. */
  datatype Hand = User(torture: bool) | Worker(torture: bool)

  /** Where the wear-leveling worker is; Stuck: it had no memory for a VID header. */
  datatype Mover = Resting | Started | Copying | Stuck

  /** lost: PEBs whose entries were freed although they are not bad. */
  datatype Sys = Sys(
    w: Wl, works: seq<Work>, scheduled: bool, mover: Mover, hands: map<nat, Hand>, bad: set<nat>, lost: set<nat>, roMode: bool)

  datatype Step =
    | Get(p: nat)
    | Put(p: nat, torture: bool)
    | Scrub(p: nat)
    | Schedule(p: nat)
    | NoMemory(p: nat)
    | Ensure(worn: bool)
    | TakeErasure
    | TakeMove(memory: bool)
    | NoMove
    | BeginMove(e1: nat, e2: nat)
    | MoveDone
    | MoveCancelled(back: Place, torture: bool)
    | MoveFails
    | Erased(p: nat)
    | EraseAgain(p: nat)
    | WentBad(p: nat)
    | EraseFails(p: nat)
    | Serve

  predicate Somewhere(w: Wl, x: Place) {
    exists p | p in w.place :: w.place[p] == x
  }

  /** There is a PEB to scrub, or, if their counters differ enough, one to take data from and one to put
      it in. */
  predicate MoveMakesSense(w: Wl, worn: bool) {
    Somewhere(w, Place.Scrub) || (worn && Somewhere(w, Used) && Somewhere(w, Free))
  }

  /** worn: the erase counters differ enough for a move. */
  predicate Enabled(s: Sys, step: Step) {
    match step
    case Get(p) => At(s.w, p, Free)
    case Put(p, _) => InUse(s.w, p) && p != s.w.moveFrom
    case Scrub(p) => InUse(s.w, p)
    case Schedule(p) => p in s.hands
    case NoMemory(p) => p in s.hands
    case Ensure(worn) => !s.scheduled && MoveMakesSense(s.w, worn)
    case TakeErasure => s.works != [] && s.works[0].EraseWork?
    case TakeMove(_) => s.works != [] && s.works[0].MoveWork?
    case NoMove => s.mover.Started?
    case BeginMove(e1, e2) => s.mover.Started? && (At(s.w, e1, Used) || At(s.w, e1, Place.Scrub)) && At(s.w, e2, Free)
    case MoveDone => s.mover.Copying? && s.w.moveFrom >= 0 && s.w.moveTo >= 0
    case MoveCancelled(back, _) =>
      && s.mover.Copying? && s.w.moveFrom >= 0 && s.w.moveTo >= 0 && !s.w.moveToPut
      && (back in {Used, Place.Scrub, Erroneous} || back == Protected(Tail(s.w)))
    case MoveFails => s.mover.Copying? && s.w.moveFrom >= 0 && s.w.moveTo >= 0
    case Erased(p) => At(s.w, p, Erasing)
    case EraseAgain(p) => At(s.w, p, Erasing)
    case WentBad(p) => At(s.w, p, Erasing)
    case EraseFails(p) => At(s.w, p, Erasing)
    case Serve => true
  }

  /** The entry of a PEB that is not bad is freed, and the device becomes read-only. */
  function Lose(s: Sys, p: nat): Sys {
    s.(w := Gone(s.w, p), hands := MapWithout(s.hands, p), lost := s.lost + {p}, roMode := true)
  }

  function DoPut(s: Sys, p: nat, torture: bool): Sys {
    var r := s.(w := Release(s.w, p));
    if p == s.w.moveTo then r else r.(hands := s.hands[p := User(torture || At(s.w, p, Erroneous))])
  }

  /** ubi_wl_put_peb puts the PEB back if there is no memory; the workers give up. */
  function DoNoMemory(s: Sys, p: nat): Sys
    requires p in s.hands
  {
    if s.hands[p].User? then s.(w := WlState.Put(s.w, p, Used), hands := MapWithout(s.hands, p)) else Lose(s, p)
  }

  function MoveOver(s: Sys): Sys {
    s.(mover := Resting, scheduled := false)
  }

  function DoMoveDone(s: Sys): Sys
    requires s.w.moveFrom >= 0 && s.w.moveTo >= 0
  {
    var hands := s.hands[s.w.moveFrom as nat := Worker(false)];
    MoveOver(s).(w := Moved(s.w), hands := if s.w.moveToPut then hands[s.w.moveTo as nat := Worker(false)] else hands)
  }

  function DoMoveCancelled(s: Sys, back: Place, torture: bool): Sys
    requires s.w.moveTo >= 0
  {
    MoveOver(s).(w := NotMoved(s.w, back), hands := s.hands[s.w.moveTo as nat := Worker(torture)])
  }

  function DoMoveFails(s: Sys): Sys
    requires s.w.moveFrom >= 0 && s.w.moveTo >= 0
  {
    var e1: nat, e2: nat := s.w.moveFrom, s.w.moveTo;
    MoveOver(Lose(Lose(s.(w := s.w.(moveFrom := -1, moveTo := -1, moveToPut := false)), e1), e2))
  }

  function Apply(s: Sys, step: Step): Sys
    requires Enabled(s, step)
  {
    match step
    case Get(p) => s.(w := WlState.Get(s.w, p))
    case Put(p, torture) => DoPut(s, p, torture)
    case Scrub(p) => s.(w := Mark(s.w, p))
    case Schedule(p) =>
      s.(w := WlState.Put(s.w, p, ToErase), works := s.works + [EraseWork(p, s.hands[p].torture)], hands := MapWithout(s.hands, p))
    case NoMemory(p) => DoNoMemory(s, p)
    case Ensure(_) => WithMove(s)
    case TakeErasure => s.(w := WlState.Put(s.w, s.works[0].pnum, Erasing), works := s.works[1..])
    case TakeMove(memory) => s.(works := s.works[1..], mover := if memory then Started else Stuck)
    case NoMove => MoveOver(s)
    case BeginMove(e1, e2) => s.(w := Select(s.w, e1, e2), mover := Copying)
    case MoveDone => DoMoveDone(s)
    case MoveCancelled(back, torture) => DoMoveCancelled(s, back, torture)
    case MoveFails => DoMoveFails(s)
    case Erased(p) => s.(w := WlState.Put(s.w, p, Free))
    case EraseAgain(p) => s.(w := WlState.Put(s.w, p, Held), hands := s.hands[p := Worker(false)])
    case WentBad(p) => s.(w := Gone(s.w, p), bad := s.bad + {p})
    case EraseFails(p) => Lose(s, p)
    case Serve => s.(w := WlState.Serve(s.w))
  }

  // ---- What every run keeps ------------------------------------------------------------------

  /** Every PEB in nobody's tree or list is in the hands of exactly one caller of schedule_erase. */
  ghost predicate HandsFit(s: Sys) {
    forall p: nat :: p in s.hands <==> At(s.w, p, Held)
  }

  predicate Apart(s: Sys) {
    s.bad !! s.w.place.Keys && s.lost !! s.w.place.Keys && s.bad !! s.lost && (s.lost != {} ==> s.roMode)
  }

  /** A move is scheduled as long as it is pending, or under way, or stuck; and only one. */
  predicate MoverFits(s: Sys) {
    && (s.mover.Copying? <==> s.w.moveFrom >= 0) && (s.scheduled <==> MoveWork in s.works || s.mover != Resting)
    && (MoveWork in s.works ==> s.mover == Resting)
  }

  ghost predicate Inv(s: Sys) {
    MoveFits(s.w) && WorksFit(s.works, s.w.place) && HandsFit(s) && Apart(s) && MoverFits(s)
  }

  function Everything(s: Sys): set<nat> {
    s.w.place.Keys + s.bad + s.lost
  }

  predicate EndsMove(step: Step) {
    step.MoveDone? || step.MoveCancelled? || step.MoveFails?
  }

  /** What was forgotten or found bad stays so. */
  predicate Later(s: Sys, t: Sys) {
    Everything(t) == Everything(s) && s.bad <= t.bad && s.lost <= t.lost && (s.roMode ==> t.roMode)
  }

  lemma PutKeepsMove(w: Wl, p: nat, x: Place)
    requires MoveFits(w) && p != w.moveFrom && p != w.moveTo && x != From && x != To
    ensures MoveFits(WlState.Put(w, p, x))
  {
  }

  lemma GoneKeepsMove(w: Wl, p: nat)
    requires MoveFits(w) && p != w.moveFrom && p != w.moveTo
    ensures MoveFits(Gone(w, p))
  {
  }

  /** What is marked as the current move is not anywhere else. */
  lemma NotMoving(w: Wl, p: nat, x: Place)
    requires MoveFits(w) && At(w, p, x) && x != From && x != To
    ensures p != w.moveFrom && p != w.moveTo
  {
  }

  lemma OnePebKeepsMove(s: Sys, step: Step)
    requires Inv(s) && Enabled(s, step) && !EndsMove(step) && !step.BeginMove? && !step.Serve?
    ensures MoveFits(Apply(s, step).w)
  {
    assert step.TakeErasure? ==> At(s.w, s.works[0].pnum, ToErase);
    hide Inv, WorksFit, Apart, MoverFits, MoveFits, InUse;
    assert MoveFits(s.w) && HandsFit(s) by {
      InvHas(s);
    }
    match step
    case Get(p) =>
      NotMoving(s.w, p, Free);
      PutKeepsMove(s.w, p, Protected(Tail(s.w)));
    case Put(p, _) =>
      if p != s.w.moveTo {
        PutKeepsMove(s.w, p, Held);
      } else {
        MarkKeepsMove(s.w);
      }
    case Scrub(p) =>
      if p != s.w.moveFrom && p != s.w.moveTo {
        PutKeepsMove(s.w, p, Place.Scrub);
      }
    case Schedule(p) =>
      NotMoving(s.w, p, Held);
      PutKeepsMove(s.w, p, ToErase);
    case NoMemory(p) =>
      NotMoving(s.w, p, Held);
      PutKeepsMove(s.w, p, Used);
      GoneKeepsMove(s.w, p);
    case TakeErasure =>
      NotMoving(s.w, s.works[0].pnum, ToErase);
      PutKeepsMove(s.w, s.works[0].pnum, Erasing);
    case Erased(p) =>
      NotMoving(s.w, p, Erasing);
      PutKeepsMove(s.w, p, Free);
    case EraseAgain(p) =>
      NotMoving(s.w, p, Erasing);
      PutKeepsMove(s.w, p, Held);
    case WentBad(p) =>
      NotMoving(s.w, p, Erasing);
      GoneKeepsMove(s.w, p);
    case EraseFails(p) =>
      NotMoving(s.w, p, Erasing);
      GoneKeepsMove(s.w, p);
    case _ =>
  }

  lemma InvHas(s: Sys)
    requires Inv(s)
    ensures MoveFits(s.w) && HandsFit(s) && MoverFits(s) && Apart(s) && WorksFit(s.works, s.w.place)
  {
    hide MoveFits, HandsFit, MoverFits, Apart, WorksFit;
  }

  lemma MarkKeepsMove(w: Wl)
    requires MoveFits(w) && w.moveTo >= 0
    ensures MoveFits(w.(moveToPut := true))
  {
  }

  lemma MoveKept(s: Sys, step: Step)
    requires Inv(s) && Enabled(s, step) && !EndsMove(step)
    ensures MoveFits(Apply(s, step).w)
  {
    hide Inv, WorksFit, Apart, HandsFit;
    if step.Serve? {
      InvHas(s);
      ServeKeepsMove(s.w);
    } else if step.BeginMove? {
      InvHas(s);
    } else {
      OnePebKeepsMove(s, step);
    }
  }

  lemma ServeKeepsMove(w: Wl)
    requires MoveFits(w)
    ensures MoveFits(WlState.Serve(w))
  {
  }

  lemma MoveEnds(s: Sys, step: Step)
    requires Inv(s) && Enabled(s, step) && EndsMove(step)
    ensures MoveFits(Apply(s, step).w) && MoverFits(Apply(s, step))
  {
    InvHas(s);
    hide Inv, WorksFit, HandsFit, Apart;
  }

  /** The marks of the move change only where it begins and ends. */
  lemma MarksStay(s: Sys, step: Step)
    requires Enabled(s, step) && !EndsMove(step) && !step.BeginMove?
    ensures Apply(s, step).w.moveFrom == s.w.moveFrom
    ensures step.TakeMove? || step.NoMove? || Apply(s, step).mover == s.mover
    ensures step.Ensure? || step.NoMove? || Apply(s, step).scheduled == s.scheduled
  {
    hide At, InUse, Tail;
  }

  /** Erasures have nothing to do with the moves. */
  lemma MoveWorksStay(s: Sys, step: Step)
    requires Enabled(s, step) && !EndsMove(step) && !step.TakeMove? && !step.Ensure?
    ensures MoveWork in Apply(s, step).works <==> MoveWork in s.works
  {
    hide At, InUse, Tail, WlState.Put, WlState.Get, Release, Mark, WlState.Serve, Gone, Select;
    if step.TakeErasure? {
      assert s.works == [s.works[0]] + s.works[1..];
    }
  }

  lemma MoverKept(s: Sys, step: Step)
    requires Inv(s) && Enabled(s, step) && !EndsMove(step)
    ensures MoverFits(Apply(s, step))
  {
    InvHas(s);
    if step.TakeMove? {
      WorksPop(s.works, s.w.place);
    } else if step.BeginMove? {
    } else if step.Ensure? {
      assert MoveWork in Apply(s, step).works;
    } else {
      MarksStay(s, step);
      MoveWorksStay(s, step);
    }
    hide Inv, WorksFit, HandsFit, Apart, MoveFits, At, InUse, Tail, WlState.Put, WlState.Get, Release, Mark, WlState.Serve, Gone;
  }

  lemma WorksKept(s: Sys, step: Step)
    requires Inv(s) && Enabled(s, step)
    ensures WorksFit(Apply(s, step).works, Apply(s, step).w.place)
  {
    match step
    case Schedule(p) => WorksGain(s.works, s.w.place, p, s.hands[p].torture);
    case Ensure(_) => WorksGainMove(s.works, s.w.place);
    case TakeErasure => WorksPop(s.works, s.w.place);
    case TakeMove(_) => WorksPop(s.works, s.w.place);
    case _ => WorksStill(s, step);
  }

  lemma WorksStill(s: Sys, step: Step)
    requires Inv(s) && Enabled(s, step) && !step.Schedule? && !step.Ensure? && !step.TakeErasure? && !step.TakeMove?
    ensures WorksFit(Apply(s, step).works, Apply(s, step).w.place)
  {
    InvHas(s);
    hide *;
    if EndsMove(step) {
      ErasuresAfterMove(s, step);
    } else {
      ErasuresStay(s, step);
    }
    SameErasures(s.works, s.w.place, Apply(s, step).w);
  }

  lemma ErasuresAfterMove(s: Sys, step: Step)
    requires Inv(s) && Enabled(s, step) && EndsMove(step)
    ensures Apply(s, step).works == s.works
    ensures forall p: nat :: At(Apply(s, step).w, p, ToErase) <==> p in s.w.place && s.w.place[p] == ToErase
  {
    InvHas(s);
    assert At(s.w, s.w.moveFrom, From) && At(s.w, s.w.moveTo, To);
    assert Apply(s, step).works == s.works;
    hide Inv, Apply, Enabled, At, MoveFits;
    forall p: nat
      ensures At(Apply(s, step).w, p, ToErase) <==> p in s.w.place && s.w.place[p] == ToErase
    {
      ErasureAfterMove(s, step, p);
    }
  }

  lemma ErasureAfterMove(s: Sys, step: Step, p: nat)
    requires Enabled(s, step) && EndsMove(step) && At(s.w, s.w.moveFrom, From) && At(s.w, s.w.moveTo, To)
    ensures At(Apply(s, step).w, p, ToErase) <==> p in s.w.place && s.w.place[p] == ToErase
  {
    hide Tail;
  }

  /** None of these steps schedules an erasure or begins one. */
  lemma ErasuresStay(s: Sys, step: Step)
    requires Inv(s) && Enabled(s, step) && !step.Schedule? && !step.Ensure? && !step.TakeErasure? && !step.TakeMove? && !EndsMove(step)
    ensures Apply(s, step).works == s.works
    ensures forall p: nat :: At(Apply(s, step).w, p, ToErase) <==> p in s.w.place && s.w.place[p] == ToErase
  {
    assert forall p | p in s.hands :: At(s.w, p, Held);
    assert Apply(s, step).works == s.works;
    hide Inv, Apply, Enabled, At;
    forall p: nat
      ensures At(Apply(s, step).w, p, ToErase) <==> p in s.w.place && s.w.place[p] == ToErase
    {
      ErasureOf(s, step, p);
    }
  }

  lemma ErasureOf(s: Sys, step: Step, p: nat)
    requires Enabled(s, step) && !step.Schedule? && !step.Ensure? && !step.TakeErasure? && !step.TakeMove? && !EndsMove(step)
    requires step.NoMemory? ==> At(s.w, step.p, Held)
    ensures At(Apply(s, step).w, p, ToErase) <==> p in s.w.place && s.w.place[p] == ToErase
  {
    hide Tail;
  }

  lemma SameErasures(works: seq<Work>, a: map<nat, Place>, w: Wl)
    requires WorksFit(works, a) && forall p: nat :: At(w, p, ToErase) <==> p in a && a[p] == ToErase
    ensures WorksFit(works, w.place)
  {
    assert forall p | p in w.place :: w.place[p] == ToErase <==> At(w, p, ToErase);
    assert forall i | 0 <= i < |works| && works[i].EraseWork? :: At(w, works[i].pnum, ToErase);
  }

  lemma HandsKept(s: Sys, step: Step)
    requires Inv(s) && Enabled(s, step)
    ensures HandsFit(Apply(s, step))
  {
    hide *;
    if EndsMove(step) {
      HandsAfterMove(s, step);
    } else {
      HandsElse(s, step);
    }
  }

  lemma HandsAfterMove(s: Sys, step: Step)
    requires Inv(s) && Enabled(s, step) && EndsMove(step)
    ensures HandsFit(Apply(s, step))
  {
    InvHas(s);
    hide Inv, WorksFit, Apart, MoverFits;
  }

  lemma HandsElse(s: Sys, step: Step)
    requires Inv(s) && Enabled(s, step) && !EndsMove(step)
    ensures HandsFit(Apply(s, step))
  {
    assert step.TakeErasure? ==> At(s.w, s.works[0].pnum, ToErase);
    hide Apply, Enabled, Inv;
    forall p: nat
      ensures p in Apply(s, step).hands <==> At(Apply(s, step).w, p, Held)
    {
      HandOf(s, step, p);
    }
  }

  predicate PassesOn(step: Step) {
    step.Put? || step.Schedule? || step.NoMemory? || step.EraseAgain?
  }

  lemma HandOf(s: Sys, step: Step, p: nat)
    requires Inv(s) && Enabled(s, step) && !EndsMove(step) && (step.TakeErasure? ==> At(s.w, s.works[0].pnum, ToErase))
    ensures p in Apply(s, step).hands <==> At(Apply(s, step).w, p, Held)
  {
    assert p in s.hands <==> At(s.w, p, Held);
    hide *;
    if PassesOn(step) {
      HandPassed(s, step, p);
    } else {
      HandStays(s, step, p);
    }
  }

  lemma HandPassed(s: Sys, step: Step, p: nat)
    requires Enabled(s, step) && PassesOn(step) && (p in s.hands <==> At(s.w, p, Held))
    ensures p in Apply(s, step).hands <==> At(Apply(s, step).w, p, Held)
  {
    hide Tail;
  }

  lemma HandStays(s: Sys, step: Step, p: nat)
    requires Enabled(s, step) && !PassesOn(step) && !EndsMove(step) && (p in s.hands <==> At(s.w, p, Held))
    requires step.TakeErasure? ==> At(s.w, s.works[0].pnum, ToErase)
    ensures p in Apply(s, step).hands <==> At(Apply(s, step).w, p, Held)
  {
    hide Tail;
  }

  /** Places are left only by what is bad or lost. */
  predicate Forgets(step: Step) {
    step.NoMemory? || step.MoveFails? || step.WentBad? || step.EraseFails?
  }

  lemma NobodyForgotten(s: Sys, step: Step)
    requires Inv(s) && Enabled(s, step) && !Forgets(step)
    ensures Apply(s, step).w.place.Keys == s.w.place.Keys && Apply(s, step).bad == s.bad && Apply(s, step).lost == s.lost
    ensures Apply(s, step).roMode == s.roMode
  {
    assert step.TakeErasure? ==> At(s.w, s.works[0].pnum, ToErase);
    assert step.Schedule? ==> At(s.w, step.p, Held);
    assert At(s.w, s.w.moveFrom, From) || s.w.moveFrom < 0;
    assert At(s.w, s.w.moveTo, To) || s.w.moveTo < 0;
    hide *;
    if EndsMove(step) {
      NobodyAfterMove(s, step);
    } else {
      NobodyElse(s, step);
    }
  }

  lemma NobodyAfterMove(s: Sys, step: Step)
    requires Enabled(s, step) && EndsMove(step) && !Forgets(step)
    requires (At(s.w, s.w.moveFrom, From) || s.w.moveFrom < 0) && (At(s.w, s.w.moveTo, To) || s.w.moveTo < 0)
    ensures Apply(s, step).w.place.Keys == s.w.place.Keys && Apply(s, step).bad == s.bad && Apply(s, step).lost == s.lost
    ensures Apply(s, step).roMode == s.roMode
  {
    hide Tail;
  }

  lemma NobodyElse(s: Sys, step: Step)
    requires Enabled(s, step) && !EndsMove(step) && !Forgets(step)
    requires step.TakeErasure? ==> At(s.w, s.works[0].pnum, ToErase)
    requires step.Schedule? ==> At(s.w, step.p, Held)
    ensures Apply(s, step).w.place.Keys == s.w.place.Keys && Apply(s, step).bad == s.bad && Apply(s, step).lost == s.lost
    ensures Apply(s, step).roMode == s.roMode
  {
    hide Tail;
  }

  lemma OneForgotten(s: Sys, step: Step)
    requires Inv(s) && Enabled(s, step) && Forgets(step)
    ensures Apart(Apply(s, step)) && Later(s, Apply(s, step))
  {
    InvHas(s);
    match step
    case NoMemory(p) => MemoryIsLater(s, p);
    case WentBad(p) =>
      BadIsLater(s, p);
      hide Apart, Everything;
    case EraseFails(p) =>
      LoseIsLater(s, p);
      hide Apart, Everything;
    case MoveFails =>
      LoseTwoIsLater(s, s.w.moveFrom, s.w.moveTo);
      hide Apart, Everything;
    case _ =>
  }

  lemma MemoryIsLater(s: Sys, p: nat)
    requires Apart(s) && p in s.hands && At(s.w, p, Held)
    ensures Apart(DoNoMemory(s, p)) && Later(s, DoNoMemory(s, p))
  {
    LoseIsLater(s, p);
    hide Lose;
  }

  lemma LoseIsLater(s: Sys, p: nat)
    requires Apart(s) && p in s.w.place
    ensures Apart(Lose(s, p)) && Later(s, Lose(s, p))
  {
  }

  lemma BadIsLater(s: Sys, p: nat)
    requires Apart(s) && p in s.w.place
    ensures var t := s.(w := Gone(s.w, p), bad := s.bad + {p}); Apart(t) && Later(s, t)
  {
  }

  lemma LoseTwoIsLater(s: Sys, p: nat, q: nat)
    requires Apart(s) && p in s.w.place && q in s.w.place && p != q
    ensures var w := s.w.(moveFrom := -1, moveTo := -1, moveToPut := false);
            var t := MoveOver(Lose(Lose(s.(w := w), p), q)); Apart(t) && Later(s, t)
  {
  }

  lemma NothingVanishes(s: Sys, step: Step)
    requires Inv(s) && Enabled(s, step)
    ensures Apart(Apply(s, step)) && Later(s, Apply(s, step))
  {
    InvHas(s);
    hide Inv, WorksFit, HandsFit, MoverFits, MoveFits, Apply, Enabled;
    if Forgets(step) {
      OneForgotten(s, step);
    } else {
      NobodyForgotten(s, step);
    }
  }

  lemma StepKeepsInv(s: Sys, step: Step)
    requires Inv(s) && Enabled(s, step)
    ensures Inv(Apply(s, step)) && Later(s, Apply(s, step))
  {
    hide *;
    if EndsMove(step) {
      MoveEnds(s, step);
    } else {
      MoveKept(s, step);
      MoverKept(s, step);
    }
    WorksKept(s, step);
    HandsKept(s, step);
    NothingVanishes(s, step);
    InvIs(Apply(s, step));
  }

  lemma InvIs(s: Sys)
    requires MoveFits(s.w) && WorksFit(s.works, s.w.place) && HandsFit(s) && Apart(s) && MoverFits(s)
    ensures Inv(s)
  {
    hide MoveFits, HandsFit, MoverFits, Apart, WorksFit;
  }

  ghost predicate Legal(s: Sys, steps: seq<Step>)
    decreases |steps|
  {
    steps != [] ==> Enabled(s, steps[0]) && Legal(Apply(s, steps[0]), steps[1..])
  }

  ghost function Run(s: Sys, steps: seq<Step>): Sys
    requires Legal(s, steps)
    decreases |steps|
  {
    if steps == [] then s else Run(Apply(s, steps[0]), steps[1..])
  }

  lemma LaterStill(a: Sys, b: Sys, c: Sys)
    requires Later(a, b) && Later(b, c)
    ensures Later(a, c)
  {
    hide Everything;
  }

  lemma {:induction false} RunKeepsInv(s: Sys, steps: seq<Step>)
    requires Inv(s) && Legal(s, steps)
    ensures Inv(Run(s, steps)) && Later(s, Run(s, steps))
    decreases |steps|
  {
    if steps != [] {
      hide Inv, Apply, Enabled, Later;
      StepKeepsInv(s, steps[0]);
      RunKeepsInv(Apply(s, steps[0]), steps[1..]);
      LaterStill(s, Apply(s, steps[0]), Run(s, steps));
    }
  }

  /** While the device is not read-only, every PEB is either bad or in exactly one place; a PEB that
      waits for erasure has exactly one work, and a PEB in transit is in somebody's hands. */
  lemma EveryPebIsSomewhere(s: Sys, steps: seq<Step>, p: nat)
    requires Inv(s) && s.lost == {} && Legal(s, steps) && (p in s.w.place || p in s.bad) && !Run(s, steps).roMode
    ensures var t := Run(s, steps);
      && (p in t.w.place <==> p !in t.bad)
      && (At(t.w, p, ToErase) <==> EraseWork(p, false) in t.works || EraseWork(p, true) in t.works)
      && (At(t.w, p, Held) <==> p in t.hands)
      && (At(t.w, p, From) <==> p == t.w.moveFrom) && (At(t.w, p, To) <==> p == t.w.moveTo)
      && (p in s.bad ==> p in t.bad)
      && forall i, j | 0 <= i < j < |t.works| :: !SameWork(t.works[i], t.works[j])
  {
    RunKeepsInv(s, steps);
    var t := Run(s, steps);
    InvHas(t);
    hide Inv, Legal, Run, MoverFits;
    assert p in Everything(s) && p in Everything(t) && t.lost == {};
  }

  // ---- Whether wear-leveling goes on ---------------------------------------------------------

  ghost predicate CanStart(s: Sys) {
    exists steps :: Legal(s, steps) && Run(s, steps).mover == Started
  }

  lemma Prepended(s: Sys, step: Step)
    requires Enabled(s, step) && CanStart(Apply(s, step))
    ensures CanStart(s)
  {
    hide Enabled, Apply;
    var steps :| Legal(Apply(s, step), steps) && Run(Apply(s, step), steps).mover == Started;
    var all := [step] + steps;
    assert all[0] == step && all[1..] == steps;
    assert Legal(s, all) && Run(s, all).mover == Started;
  }

  lemma StartedCanStart(s: Sys)
    requires s.mover.Started?
    ensures CanStart(s)
  {
    assert Legal(s, []) && Run(s, []) == s;
  }

  lemma TakesFirst(s: Sys, i: nat)
    requires i < |s.works| && WorksFit(s.works, s.w.place) && s.works[i].MoveWork?
    ensures i == 0 ==> Enabled(s, TakeMove(true)) && Apply(s, TakeMove(true)).mover.Started?
    ensures i > 0 ==> Enabled(s, TakeErasure) && Apply(s, TakeErasure).works == s.works[1..]
  {
    OnlyOneMove(s.works, s.w.place, i);
  }

  /** A move whose work is in the list can be begun: the works before it are done first. */
  lemma {:induction false} WorkIsReached(s: Sys, i: nat)
    requires Inv(s) && i < |s.works| && s.works[i].MoveWork?
    ensures CanStart(s)
    decreases i
  {
    TakesFirst(s, i) by {
      InvHas(s);
    }
    hide Inv, Enabled, Apply, CanStart;
    if i == 0 {
      StartedCanStart(Apply(s, TakeMove(true)));
      Prepended(s, TakeMove(true));
    } else {
      StepKeepsInv(s, TakeErasure);
      WorkIsReached(Apply(s, TakeErasure), i - 1);
      Prepended(s, TakeErasure);
    }
  }

  lemma OnlyOneMove(works: seq<Work>, place: map<nat, Place>, i: nat)
    requires WorksFit(works, place) && i < |works| && works[i].MoveWork?
    ensures i == 0 || works[0].EraseWork?
  {
    assert i > 0 ==> !SameWork(works[0], works[i]);
  }

  lemma StuckStays(s: Sys, step: Step)
    requires Inv(s) && s.mover.Stuck? && Enabled(s, step)
    ensures Apply(s, step).mover.Stuck?
  {
    InvHas(s);
    assert s.works != [] && s.works[0].MoveWork? ==> MoveWork in s.works;
    hide Inv, WorksFit, HandsFit, MoveFits, Apart, At, InUse, WlState.Put, WlState.Get, Release, Mark, WlState.Serve, Gone;
  }

  lemma {:induction false} StuckForever(s: Sys, steps: seq<Step>)
    requires Inv(s) && s.mover.Stuck? && Legal(s, steps)
    ensures Run(s, steps).mover.Stuck?
    decreases |steps|
  {
    if steps != [] {
      hide Inv, Apply, Enabled;
      StuckStays(s, steps[0]);
      StepKeepsInv(s, steps[0]);
      StuckForever(Apply(s, steps[0]), steps[1..]);
    }
  }

  /** Nothing is left to be done: without any PEB no move begins. */
  predicate Idle(s: Sys) {
    s.w.place == map[] && s.mover.Resting? && !s.scheduled
  }

  lemma IdleStays(s: Sys, step: Step)
    requires Inv(s) && Idle(s) && Enabled(s, step)
    ensures Idle(Apply(s, step))
  {
    InvHas(s);
  }

  lemma {:induction false} IdleForever(s: Sys, steps: seq<Step>)
    requires Inv(s) && Idle(s) && Legal(s, steps)
    ensures Idle(Run(s, steps))
    decreases |steps|
  {
    if steps != [] {
      hide Inv, Apply, Enabled, Idle;
      IdleStays(s, steps[0]);
      StepKeepsInv(s, steps[0]);
      IdleForever(Apply(s, steps[0]), steps[1..]);
    }
  }

  /** Another move can begin, for wear-leveling or for scrubbing, if and only if the worker never lacked
      memory for its VID header (it then forgets to allow another move to be scheduled) and there is any
      PEB at all: some user can then always have it scrubbed. */
  lemma GoesOnIff(s: Sys)
    requires Inv(s)
    ensures CanStart(s) <==> !s.mover.Stuck? && !Idle(s)
  {
    if s.mover.Stuck? {
      forall steps | Legal(s, steps)
        ensures Run(s, steps).mover != Started
      {
        StuckForever(s, steps);
      }
    } else if Idle(s) {
      forall steps | Legal(s, steps)
        ensures Run(s, steps).mover != Started
      {
        IdleForever(s, steps);
      }
    } else {
      CanStillStart(s);
    }
  }

  /** Nothing is scheduled, and PEB p is at x. */
  ghost predicate Waits(s: Sys, p: nat, x: Place) {
    Inv(s) && s.mover.Resting? && !s.scheduled && At(s.w, p, x)
  }

  lemma ScrubStarts(s: Sys, p: nat)
    requires Waits(s, p, Place.Scrub)
    ensures CanStart(s)
  {
    assert Somewhere(s.w, Place.Scrub);
    StepKeepsInv(s, Ensure(false));
    var t := Apply(s, Ensure(false));
    assert t.works[|s.works|] == MoveWork;
    hide Inv, CanStart;
    WorkIsReached(t, |s.works|);
    Prepended(s, Ensure(false));
  }

  lemma InUseStarts(s: Sys, p: nat, x: Place)
    requires Waits(s, p, x) && (x == Used || x.Protected?)
    ensures CanStart(s)
  {
    InvHas(s);
    StepKeepsInv(s, Step.Scrub(p));
    hide Inv, CanStart;
    ScrubStarts(Apply(s, Step.Scrub(p)), p);
    Prepended(s, Step.Scrub(p));
  }

  lemma FreeStarts(s: Sys, p: nat)
    requires Waits(s, p, Free)
    ensures CanStart(s)
  {
    StepKeepsInv(s, Step.Get(p));
    hide Inv, CanStart;
    InUseStarts(Apply(s, Step.Get(p)), p, Protected(Tail(s.w)));
    Prepended(s, Step.Get(p));
  }

  lemma ErasingStarts(s: Sys, p: nat)
    requires Waits(s, p, Erasing)
    ensures CanStart(s)
  {
    StepKeepsInv(s, Erased(p));
    hide Inv, CanStart;
    FreeStarts(Apply(s, Erased(p)), p);
    Prepended(s, Erased(p));
  }

  /** The first of the works is begun. */
  lemma ToEraseStarts(s: Sys, p: nat)
    requires Waits(s, p, ToErase)
    ensures CanStart(s)
  {
    FirstIsErasure(s, p);
    StepKeepsInv(s, TakeErasure);
    hide Inv, CanStart;
    ErasingStarts(Apply(s, TakeErasure), s.works[0].pnum);
    Prepended(s, TakeErasure);
  }

  lemma FirstIsErasure(s: Sys, p: nat)
    requires Waits(s, p, ToErase)
    ensures s.works != [] && s.works[0].EraseWork?
  {
    InvHas(s);
    assert s.works != [] && s.works[0].MoveWork? ==> MoveWork in s.works;
  }

  lemma HeldStarts(s: Sys, p: nat)
    requires Waits(s, p, Held)
    ensures CanStart(s)
  {
    InvHas(s);
    StepKeepsInv(s, Step.Schedule(p));
    hide Inv, CanStart;
    ToEraseStarts(Apply(s, Step.Schedule(p)), p);
    Prepended(s, Step.Schedule(p));
  }

  lemma ErroneousStarts(s: Sys, p: nat)
    requires Waits(s, p, Erroneous)
    ensures CanStart(s)
  {
    InvHas(s);
    StepKeepsInv(s, Step.Put(p, false));
    hide Inv, CanStart;
    HeldStarts(Apply(s, Step.Put(p, false)), p);
    Prepended(s, Step.Put(p, false));
  }

  lemma AnyPebStarts(s: Sys, p: nat)
    requires Inv(s) && s.mover.Resting? && !s.scheduled && p in s.w.place
    ensures CanStart(s)
  {
    InvHas(s);
    hide Inv, CanStart, HandsFit, WorksFit, Apart;
    match s.w.place[p]
    case Free => FreeStarts(s, p);
    case Scrub => ScrubStarts(s, p);
    case Erroneous => ErroneousStarts(s, p);
    case ToErase => ToEraseStarts(s, p);
    case Erasing => ErasingStarts(s, p);
    case Held => HeldStarts(s, p);
    case Used => InUseStarts(s, p, Used);
    case Protected(slot) => InUseStarts(s, p, Protected(slot));
    case From =>
    case To =>
  }

  lemma RestingCanStart(s: Sys)
    requires Inv(s) && s.mover.Resting? && !Idle(s)
    ensures CanStart(s)
  {
    InvHas(s);
    if s.scheduled {
      var i :| 0 <= i < |s.works| && s.works[i] == MoveWork;
      WorkIsReached(s, i);
    } else {
      var p :| p in s.w.place;
      AnyPebStarts(s, p);
    }
  }

  lemma CanStillStart(s: Sys)
    requires Inv(s) && !s.mover.Stuck? && !Idle(s)
    ensures CanStart(s)
  {
    InvHas(s);
    if s.mover.Resting? {
      RestingCanStart(s);
    } else if s.mover.Started? {
      StartedCanStart(s);
    } else {
      StepKeepsInv(s, MoveDone);
      assert s.w.moveFrom in Apply(s, MoveDone).w.place;
      RestingCanStart(Apply(s, MoveDone));
      Prepended(s, MoveDone);
    }
  }

  // ---- The workers ---------------------------------------------------------------------------

  lemma OneStep(s: Sys, step: Step)
    requires Inv(s) && Enabled(s, step)
    ensures Legal(s, [step]) && Run(s, [step]) == Apply(s, step) && Inv(Apply(s, step))
  {
    StepKeepsInv(s, step);
    hide Inv, Apply, Enabled;
    assert [step][1..] == [] && Legal(Apply(s, step), []);
  }

  lemma {:induction false} RunConcat(s: Sys, a: seq<Step>, b: seq<Step>)
    requires Legal(s, a) && Legal(Run(s, a), b)
    ensures Legal(s, a + b) && Run(s, a + b) == Run(Run(s, a), b)
    decreases |a|
  {
    hide Enabled, Apply;
    if a == [] {
      assert a + b == b;
    } else {
      RunConcat(Apply(s, a[0]), a[1..], b);
      assert (a + b)[1..] == a[1..] + b;
    }
  }

  lemma CopyingIs(s: Sys, back: Place, torture: bool)
    requires Inv(s) && s.mover.Copying?
    ensures Enabled(s, MoveDone) && Apply(s, MoveDone) == DoMoveDone(s)
    ensures Enabled(s, Step.MoveFails) && Apply(s, Step.MoveFails) == DoMoveFails(s)
    ensures !s.w.moveToPut && (back in {Used, Place.Scrub, Erroneous} || back == Protected(Tail(s.w))) ==>
      Enabled(s, MoveCancelled(back, torture))
    ensures !s.w.moveToPut && (back in {Used, Place.Scrub, Erroneous} || back == Protected(Tail(s.w))) ==>
      Apply(s, MoveCancelled(back, torture)) == DoMoveCancelled(s, back, torture)
    ensures At(s.w, s.w.moveFrom, From) && At(s.w, s.w.moveTo, To)
  {
  }

  lemma MoversNotInHand(s: Sys)
    requires Inv(s) && s.mover.Copying?
    ensures s.w.moveFrom >= 0 && s.w.moveTo >= 0 && s.w.moveFrom != s.w.moveTo
    ensures s.w.moveFrom !in s.hands && s.w.moveTo !in s.hands
  {
    hide WorksFit, Apart;
    assert !At(s.w, s.w.moveFrom, Held) && !At(s.w, s.w.moveTo, Held);
  }

  lemma NotThere(hands: map<nat, Hand>, e1: nat, e2: nat)
    requires e1 !in hands && e2 !in hands
    ensures MapWithout(MapWithout(hands, e1), e2) == hands
  {
  }

  lemma FailedIs(s: Sys)
    requires Inv(s) && s.mover.Copying?
    ensures s.w.moveFrom >= 0 && s.w.moveTo >= 0 && s.w.moveFrom != s.w.moveTo
    ensures DoMoveFails(s) ==
      s.(w := Wl(MapWithout(MapWithout(s.w.place, s.w.moveFrom), s.w.moveTo), s.w.pqHead, -1, -1, false),
         mover := Resting, scheduled := false, lost := s.lost + {s.w.moveFrom as nat} + {s.w.moveTo as nat}, roMode := true)
  {
    hide Inv, MapWithout;
    MoversNotInHand(s);
    NotThere(s.hands, s.w.moveFrom, s.w.moveTo);
  }

  lemma ErasedIs(s: Sys, p: nat)
    requires At(s.w, p, Erasing)
    ensures Enabled(s, Erased(p)) && Apply(s, Erased(p)) == s.(w := WlState.Put(s.w, p, Free))
    ensures Enabled(s, EraseAgain(p)) && Apply(s, EraseAgain(p)) == s.(w := WlState.Put(s.w, p, Held), hands := s.hands[p := Worker(false)])
    ensures Enabled(s, WentBad(p)) && Apply(s, WentBad(p)) == s.(w := Gone(s.w, p), bad := s.bad + {p})
    ensures Enabled(s, EraseFails(p)) && Apply(s, EraseFails(p)) == Lose(s, p)
  {
  }

  lemma ServedIs(s: Sys)
    ensures Enabled(s, Step.Serve) && Apply(s, Step.Serve) == s.(w := WlState.Serve(s.w))
  {
  }

  lemma ScheduledIs(s: Sys, p: nat)
    requires p in s.hands
    ensures Enabled(s, Step.Schedule(p)) && Enabled(s, NoMemory(p)) && Apply(s, NoMemory(p)) == DoNoMemory(s, p)
    ensures Apply(s, Step.Schedule(p)) ==
      s.(w := WlState.Put(s.w, p, ToErase), works := s.works + [EraseWork(p, s.hands[p].torture)], hands := MapWithout(s.hands, p))
  {
  }

  /** schedule_erase has worked. */
  function Scheduled(s: Sys, p: nat, torture: bool): Sys {
    s.(w := WlState.Put(s.w, p, ToErase), works := s.works + [EraseWork(p, torture)], hands := MapWithout(s.hands, p))
  }

  function WithMove(s: Sys): Sys {
    s.(works := s.works + [MoveWork], scheduled := true)
  }

  /** How a worker schedules an erasure. */
  function ScheduledOrLost(s: Sys, p: nat, torture: bool, memory: bool): Sys {
    if memory then Scheduled(s, p, torture) else Lose(s, p)
  }

  /** The move is over: its source is at x and its target at y. */
  function Over(s: Sys, x: Place, y: Place): Sys
    requires s.w.moveFrom >= 0 && s.w.moveTo >= 0
  {
    var place := s.w.place[s.w.moveFrom as nat := x][s.w.moveTo as nat := y];
    s.(w := Wl(place, s.w.pqHead, -1, -1, false), mover := Resting, scheduled := false)
  }

  /** The last of these PEBs is not known any more, and the device is read-only. */
  function WithLost(s: Sys, p: nat): Sys {
    s.(w := s.w.(place := MapWithout(s.w.place, p)), lost := s.lost + {p}, roMode := true)
  }

  /** The move has been given up: its source is at x, and its target is to be erased, or lost. */
  function GivenUp(s: Sys, x: Place, torture: bool, memory: bool): Sys
    requires s.w.moveFrom >= 0 && s.w.moveTo >= 0
  {
    if memory then Over(s, x, ToErase).(works := s.works + [EraseWork(s.w.moveTo, torture)])
    else WithLost(Over(s, x, Held), s.w.moveTo)
  }

  /** The move has failed in a way that loses both PEBs. */
  function BothLost(s: Sys): Sys
    requires s.w.moveFrom >= 0 && s.w.moveTo >= 0
  {
    WithLost(WithLost(Over(s, Held, Held), s.w.moveFrom), s.w.moveTo)
  }

  /** The move has succeeded: the source is to be erased, or lost, and so is a target that was put
      meanwhile. */
  function Finished(s: Sys, memory: bool, memory2: bool): Sys
    requires s.w.moveFrom >= 0 && s.w.moveTo >= 0
  {
    var e1, e2 := s.w.moveFrom, s.w.moveTo;
    var x, y := if memory then ToErase else Held, if !s.w.moveToPut then Used else if memory && memory2 then ToErase else Held;
    var t := Over(s, x, y).(works := s.works + (if memory then [EraseWork(e1, false)] else [])
                                             + if s.w.moveToPut && memory && memory2 then [EraseWork(e2, false)] else []);
    var u := if memory then t else WithLost(t, e1);
    if s.w.moveToPut && !(memory && memory2) then WithLost(u, e2) else u
  }

  lemma FinishedIs(s: Sys, memory: bool, memory2: bool)
    requires Inv(s) && s.mover.Copying?
    ensures s.w.moveFrom >= 0 && s.w.moveTo >= 0
    ensures var t := ScheduledOrLost(DoMoveDone(s), s.w.moveFrom, false, memory);
            Finished(s, memory, memory2) == if s.w.moveToPut then ScheduledOrLost(t, s.w.moveTo, false, memory && memory2) else t
  {
    MoversNotInHand(s);
    hide *;
    if s.w.moveToPut {
      FinishedTwo(s, memory, memory2);
    } else {
      FinishedOne(s, memory, memory2);
    }
  }

  lemma FinishedOne(s: Sys, memory: bool, memory2: bool)
    requires s.w.moveFrom >= 0 && s.w.moveTo >= 0 && s.w.moveFrom != s.w.moveTo && s.w.moveFrom !in s.hands
    requires !s.w.moveToPut
    ensures Finished(s, memory, memory2) == ScheduledOrLost(DoMoveDone(s), s.w.moveFrom, false, memory)
  {
    var e1: nat := s.w.moveFrom;
    assert MapWithout(s.hands[e1 := Worker(false)], e1) == s.hands;
    assert s.works + [] == s.works;
    assert DoMoveDone(s).w.place[e1 := ToErase] == s.w.place[e1 := ToErase][s.w.moveTo as nat := Used];
  }

  lemma FinishedTwo(s: Sys, memory: bool, memory2: bool)
    requires s.w.moveFrom >= 0 && s.w.moveTo >= 0 && s.w.moveFrom != s.w.moveTo && s.w.moveFrom !in s.hands && s.w.moveTo !in s.hands
    requires s.w.moveToPut
    ensures Finished(s, memory, memory2) ==
      ScheduledOrLost(ScheduledOrLost(DoMoveDone(s), s.w.moveFrom, false, memory), s.w.moveTo, false, memory && memory2)
  {
    var e1: nat, e2: nat := s.w.moveFrom, s.w.moveTo;
    var hands := s.hands[e1 := Worker(false)][e2 := Worker(false)];
    assert MapWithout(MapWithout(hands, e1), e2) == s.hands;
    hide MapWithout;
    var p := s.w.place[e1 := Held][e2 := Held];
    assert p[e1 := ToErase] == s.w.place[e1 := ToErase][e2 := Held];
    assert p[e1 := ToErase][e2 := ToErase] == s.w.place[e1 := ToErase][e2 := ToErase];
    assert s.works + [] == s.works;
  }

  /** What the end of a move makes of both PEBs.  A source without VID header, and one whose LEB is
      busy, is the last to be looked at again; one that cannot be read is not moved any more; a bad
      target is tortured.  Whatever else goes wrong loses both. */
  ghost function Ended(s: Sys, how: Copy, scrubbing: bool, tooMany: bool, memory: bool, memory2: bool): Sys
    requires s.w.moveFrom >= 0 && s.w.moveTo >= 0
  {
    var newest := (s.w.pqHead + PROT_QUEUE_LEN - 1) % PROT_QUEUE_LEN;
    match how
    case Copied => Finished(s, memory, memory2)
    case NoHeader => GivenUp(s, Protected(newest), false, memory)
    case NoHeaderBitFlips => GivenUp(s, Place.Scrub, false, memory)
    case HeaderUnreadable => BothLost(s)
    case Race => GivenUp(s, Protected(newest), false, memory)
    case TargetBad => GivenUp(s, if scrubbing then Place.Scrub else Used, true, memory)
    case SourceUnreadable => if tooMany then BothLost(s) else GivenUp(s, Erroneous, false, memory)
    case CopyFails => BothLost(s)
  }

  lemma EndedIs(s: Sys, how: Copy, scrubbing: bool, tooMany: bool, memory: bool, memory2: bool)
    requires Inv(s) && s.mover.Copying?
    ensures s.w.moveFrom >= 0 && s.w.moveTo >= 0
    ensures Ended(s, how, scrubbing, tooMany, memory, memory2) ==
              match how
              case Copied => Finished(s, memory, memory2)
              case NoHeader => GivenUp(s, BackPlace(Tail(s.w), true, false, scrubbing), false, memory)
              case NoHeaderBitFlips => GivenUp(s, BackPlace(Tail(s.w), false, false, true), false, memory)
              case HeaderUnreadable => BothLost(s)
              case Race => GivenUp(s, BackPlace(Tail(s.w), true, false, scrubbing), false, memory)
              case TargetBad => GivenUp(s, BackPlace(Tail(s.w), false, false, scrubbing), true, memory)
              case SourceUnreadable => if tooMany then BothLost(s) else GivenUp(s, BackPlace(Tail(s.w), false, true, scrubbing), false, memory)
              case CopyFails => BothLost(s)
  {
    InvHas(s);
    hide Inv, GivenUp, Finished, BothLost;
    assert Tail(s.w) == (s.w.pqHead + PROT_QUEUE_LEN - 1) % PROT_QUEUE_LEN;
  }

  lemma RetriedIs(s: Sys, p: nat)
    requires Inv(s) && At(s.w, p, Erasing)
    ensures var t := s.(w := WlState.Put(s.w, p, Held), hands := s.hands[p := Worker(false)]);
            Scheduled(t, p, false) == Scheduled(s, p, false) && Lose(t, p) == WithLost(s, p)
  {
    NotInHand(s, p);
    hide Inv;
    assert MapWithout(s.hands[p := Worker(false)], p) == s.hands;
  }

  lemma CancelledIs(s: Sys, x: Place, torture: bool, memory: bool)
    requires Inv(s) && s.mover.Copying? && !s.w.moveToPut
    ensures s.w.moveFrom >= 0 && s.w.moveTo >= 0
    ensures ScheduledOrLost(DoMoveCancelled(s, x, torture), s.w.moveTo, torture, memory) == GivenUp(s, x, torture, memory)
  {
    MoversNotInHand(s);
    hide Inv;
    var to: nat := s.w.moveTo;
    assert MapWithout(s.hands[to := Worker(torture)], to) == s.hands;
    assert NotMoved(s.w, x).place[to := ToErase] == s.w.place[s.w.moveFrom as nat := x][to := ToErase];
    assert NotMoved(s.w, x).place == s.w.place[s.w.moveFrom as nat := x][to := Held];
  }

  lemma TakenIs(s: Sys, memory: bool)
    requires s.works != []
    ensures s.works[0].EraseWork? ==> Enabled(s, TakeErasure)
    ensures s.works[0].EraseWork? ==>
      Apply(s, TakeErasure) == s.(w := WlState.Put(s.w, s.works[0].pnum, Erasing), works := s.works[1..])
    ensures s.works[0].MoveWork? ==> Enabled(s, TakeMove(memory))
    ensures s.works[0].MoveWork? ==>
      Apply(s, TakeMove(memory)) == s.(works := s.works[1..], mover := if memory then Started else Stuck)
  {
  }

  lemma InHand(s: Sys, p: nat)
    requires Inv(s) && p in s.hands
    ensures At(s.w, p, Held)
  {
  }

  lemma NotInHand(s: Sys, p: nat)
    requires Inv(s) && At(s.w, p, Erasing)
    ensures p !in s.hands && MapWithout(s.hands, p) == s.hands
  {
  }

  lemma HeadAndRest(w: Work, rest: seq<Work>, all: seq<Work>)
    requires [w] + rest == all
    ensures all != [] && w == all[0] && rest == all[1..]
  {
  }

  lemma FirstWork(s: Sys)
    requires Inv(s) && s.works != []
    ensures s.works[0].MoveWork? ==> MoveWork in s.works && s.mover.Resting? && s.w.moveFrom < 0
  {
  }

  /** How sync_erase ends: Busy stands for the errors after which it is tried again. */
  datatype Erasure = Done(ec: nat) | Busy | Bad | Fatal

  /** How reading the VID header of the source and ubi_eba_copy_leb end. */
  datatype Copy = Copied | NoHeader | NoHeaderBitFlips | HeaderUnreadable | Race | TargetBad | SourceUnreadable | CopyFails

  class Device {
    const wl: WearLeveling
    var mover: Mover
    var hands: map<nat, Hand>
    var bad: set<nat>
    var lost: set<nat>
    var roMode: bool
    var scrubbing: bool

    ghost function Now(): Sys
      reads this, wl
    {
      Sys(wl.Now(), wl.works, wl.wlScheduled, mover, hands, bad, lost, roMode)
    }

    ghost predicate Valid()
      reads this, wl
    {
      wl.Valid() && Inv(Now())
    }

    /** All that was done are these steps. */
    ghost predicate Did(s: Sys, steps: seq<Step>)
      reads this, wl
    {
      Valid() && Legal(s, steps) && Run(s, steps) == Now()
    }

    lemma Nothing()
      requires Valid()
      ensures Did(Now(), [])
    {
      hide Inv;
    }

    /** One more step, after which the device is as it is now. */
    lemma OneMore(s: Sys, steps: seq<Step>, t: Sys, step: Step)
      requires wl.Valid() && Legal(s, steps) && Run(s, steps) == t && Inv(t) && Enabled(t, step) && Now() == Apply(t, step)
      ensures Did(s, steps + [step])
    {
      hide Inv, Apply, Enabled;
      OneStep(t, step);
      RunConcat(s, steps, [step]);
    }

    /** After ubi_wl_init_scan. */
    constructor (found: seq<(Entry, Place)>, maxErroneous: nat)
      requires forall i | 0 <= i < |found| :: found[i].1 in {Free, Used, Place.Scrub, ToErase}
      requires forall i, j | 0 <= i < j < |found| :: found[i].0.pnum != found[j].0.pnum
      ensures Valid() && fresh(wl) && bad == {} && lost == {} && !roMode && !mover.Stuck?
      ensures KnownAre(found, |found|, wl.place, wl.ecs)
    {
      var w := new WearLeveling(maxErroneous);
      w.InitScan(found);
      wl := w;
      mover, hands, bad, lost, roMode, scrubbing := Resting, map[], {}, {}, false, false;
    }

    method GetPeb(dtype: DataType) returns (p: int, ghost steps: seq<Step>)
      requires Valid()
      modifies wl
      ensures Did(old(Now()), steps) && steps == (if p < 0 then [] else [Get(p)])
      ensures p < 0 ==> forall q :: !At(Now().w, q, Free)
      ensures p >= 0 ==> p in wl.ecs && old(wl.free).Node? && Ordered(old(wl.free)) && Picks(old(wl.free), dtype, wl.EntryOf(p))
    {
      hide Inv, MoveFits, TreeFits, QueueFits, WorksFit, Elems, Ordered, Picks;
      Nothing();
      ghost var s := Now();
      p := wl.GetPeb(dtype);
      steps := [];
      if p >= 0 {
        OneMore(s, [], s, Get(p));
        steps := [Get(p)];
        assert [] + [Get(p)] == steps;
      }
    }

    /** ubi_wl_put_peb, up to schedule_erase. */
    method PutPeb(p: nat, torture: bool) returns (r: PutResult, ghost steps: seq<Step>)
      requires Valid() && InUse(wl.Now(), p)
      modifies wl, this`hands
      ensures Did(old(Now()), steps) && steps == (if r.WaitForMove? then [] else [Put(p, torture)])
      ensures r.WaitForMove? <==> p == old(wl.moveFrom)
      ensures r.Schedule? ==> p in hands && hands[p] == User(r.torture)
    {
      hide Inv, MoveFits, wl.Valid, TreeFits, QueueFits, WorksFit, Elems;
      Nothing();
      ghost var s := Now();
      r := wl.PutPeb(p, torture);
      steps := [];
      if r.Schedule? {
        hands := hands[p := User(r.torture)];
      }
      if !r.WaitForMove? {
        OneMore(s, [], s, Put(p, torture));
        steps := [Put(p, torture)];
        assert [] + [Put(p, torture)] == steps;
      }
    }

    method ScrubPeb(p: nat) returns (again: bool, ghost steps: seq<Step>)
      requires Valid() && InUse(wl.Now(), p)
      modifies wl
      ensures Did(old(Now()), steps) && steps == [Step.Scrub(p)] && (again <==> p == wl.moveTo)
    {
      hide Inv, MoveFits, wl.Valid, TreeFits, QueueFits, WorksFit, Elems;
      Nothing();
      ghost var s := Now();
      again := wl.ScrubPeb(p);
      OneMore(s, [], s, Step.Scrub(p));
      steps := [Step.Scrub(p)];
      assert [] + [Step.Scrub(p)] == steps;
    }

    method Ensure() returns (ghost steps: seq<Step>)
      requires Valid()
      modifies wl
      ensures Did(old(Now()), steps)
      ensures steps == if !old(wl.wlScheduled) && wl.MoveNeeded() then [Step.Ensure(wl.scrub.Leaf?)] else []
      ensures wl.Now() == old(wl.Now()) && wl.ecs == old(wl.ecs) && wl.MoveNeeded() == old(wl.MoveNeeded())
      ensures Now() == if !old(wl.wlScheduled) && wl.MoveNeeded() then WithMove(old(Now())) else old(Now())
    {
      hide Inv, MoveFits, wl.Valid, wl.MoveNeeded, TreeFits, QueueFits, WorksFit, Elems, Ordered;
      Nothing();
      ghost var s := Now();
      if !wl.wlScheduled && wl.MoveNeeded() {
        NeededMakesSense();
      }
      wl.EnsureWearLeveling();
      steps := [];
      if wl.works != s.works {
        OneMore(s, [], s, Step.Ensure(wl.scrub.Leaf?));
        steps := [Step.Ensure(wl.scrub.Leaf?)];
        assert [] + [Step.Ensure(wl.scrub.Leaf?)] == steps;
      } else {
        assert Now() == s;
      }
    }

    lemma NeededMakesSense()
      requires wl.Valid() && wl.MoveNeeded()
      ensures MoveMakesSense(wl.Now(), wl.scrub.Leaf?)
    {
      EmptyTree(wl.scrub, wl.place, wl.ecs, Place.Scrub);
      EmptyTree(wl.used, wl.place, wl.ecs, Used);
      EmptyTree(wl.free, wl.place, wl.ecs, Free);
    }

    method ScheduleWork(p: nat) returns (ghost steps: seq<Step>)
      requires Valid() && p in hands
      modifies wl, this`hands
      ensures Did(old(Now()), steps) && steps == [Step.Schedule(p)] && hands == MapWithout(old(hands), p) && At(wl.Now(), p, ToErase)
      ensures Now() == Scheduled(old(Now()), p, old(hands)[p].torture) && wl.erroneousCount == old(wl.erroneousCount)
    {
      hide Inv, wl.Valid, Legal, Run, Enabled, Apply;
      Nothing();
      InHand(Now(), p);
      ghost var s := Now();
      ScheduledIs(s, p);
      wl.ScheduleErase(p, hands[p].torture);
      hands := MapWithout(hands, p);
      OneMore(s, [], s, Step.Schedule(p));
      steps := [] + [Step.Schedule(p)];
    }

    method PutBack(p: nat) returns (ghost steps: seq<Step>)
      requires Valid() && p in hands && hands[p].User?
      modifies wl, this`hands
      ensures Did(old(Now()), steps) && steps == [NoMemory(p)] && hands == MapWithout(old(hands), p) && At(wl.Now(), p, Used)
      ensures wl.place == old(wl.place)[p := Used] && wl.works == old(wl.works)
    {
      hide Inv, wl.Valid, Legal, Run, Enabled, Apply, MapWithout;
      Nothing();
      InHand(Now(), p);
      ghost var s := Now();
      ScheduledIs(s, p);
      wl.GiveUsed(p);
      hands := MapWithout(hands, p);
      OneMore(s, [], s, NoMemory(p));
      steps := [] + [NoMemory(p)];
    }

    method GiveUp(p: nat) returns (ghost steps: seq<Step>)
      requires Valid() && p in hands && hands[p].Worker?
      modifies wl, this`hands, this`lost, this`roMode
      ensures Did(old(Now()), steps) && steps == [NoMemory(p)] && hands == MapWithout(old(hands), p)
      ensures lost == old(lost) + {p} && roMode && Now() == Lose(old(Now()), p) && wl.erroneousCount == old(wl.erroneousCount)
    {
      hide Inv, wl.Valid, Legal, Run, Enabled, Apply, MapWithout, Gone;
      Nothing();
      InHand(Now(), p);
      ghost var s := Now();
      ScheduledIs(s, p);
      wl.Forget(p);
      lost, roMode := lost + {p}, true;
      hands := MapWithout(hands, p);
      OneMore(s, [], s, NoMemory(p));
      steps := [] + [NoMemory(p)];
    }

    /** schedule_erase, and what its caller does if there is no memory for the work. */
    method ScheduleErase(p: nat, memory: bool) returns (ghost steps: seq<Step>)
      requires Valid() && p in hands
      modifies wl, this`hands, this`lost, this`roMode
      ensures Did(old(Now()), steps) && steps == [if memory then Step.Schedule(p) else NoMemory(p)]
      ensures hands == MapWithout(old(hands), p)
      ensures memory ==> At(wl.Now(), p, ToErase) && lost == old(lost) && roMode == old(roMode)
      ensures !memory && old(hands)[p].User? ==> At(wl.Now(), p, Used) && lost == old(lost) && roMode == old(roMode)
      ensures !memory && old(hands)[p].User? ==> wl.place == old(wl.place)[p := Used] && wl.works == old(wl.works)
      ensures !memory && old(hands)[p].Worker? ==> lost == old(lost) + {p} && roMode
      ensures memory || old(hands)[p].Worker? ==> wl.erroneousCount == old(wl.erroneousCount)
      ensures memory || old(hands)[p].Worker? ==> Now() == ScheduledOrLost(old(Now()), p, old(hands)[p].torture, memory)
    {
      hide Legal, Run, Inv, wl.Valid, Lose, Scheduled;
      if memory {
        steps := ScheduleWork(p);
      } else if hands[p].User? {
        steps := PutBack(p);
      } else {
        steps := GiveUp(p);
      }
    }

    /** The first pending work is taken. */
    method Take(memory: bool) returns (w: Work, ghost steps: seq<Step>)
      requires Valid() && wl.works != []
      modifies wl, this`mover
      ensures Did(old(Now()), steps) && [w] + wl.works == old(wl.works)
      ensures w.EraseWork? ==> steps == [TakeErasure] && At(wl.Now(), w.pnum, Erasing)
      ensures w.MoveWork? ==> steps == [TakeMove(memory)] && mover == (if memory then Started else Stuck)
      ensures w.MoveWork? ==> wl.wlScheduled && wl.moveFrom < 0 && MoveWork !in wl.works
      ensures wl.free == old(wl.free) && wl.used == old(wl.used) && wl.scrub == old(wl.scrub) && wl.ecs == old(wl.ecs)
    {
      hide Inv, wl.Valid, Legal, Run, Enabled, Apply;
      Nothing();
      FirstWork(Now());
      ghost var s := Now();
      TakenIs(s, memory);
      w := wl.TakeWork();
      HeadAndRest(w, wl.works, s.works);
      if w.MoveWork? {
        mover := if memory then Started else Stuck;
        OneMore(s, [], s, TakeMove(memory));
        steps := [] + [TakeMove(memory)];
      } else {
        OneMore(s, [], s, TakeErasure);
        steps := [] + [TakeErasure];
      }
    }

    /** do_work, up to the point where the flash is erased or copied; memory is for the VID header. */
    method DoWork(memory: bool) returns (w: Work, ghost steps: seq<Step>)
      requires Valid() && wl.works != []
      modifies wl, this`mover, this`scrubbing
      ensures Did(old(Now()), steps) && [w] + wl.works == old(wl.works)
      ensures w.EraseWork? ==> steps == [TakeErasure] && At(wl.Now(), w.pnum, Erasing)
      ensures w.MoveWork? && !memory ==> steps == [TakeMove(false)] && mover.Stuck?
      ensures w.MoveWork? && memory && old(wl.free).Node? && old(wl.MoveNeeded()) ==>
        && mover.Copying? && Chosen(old(wl.free), old(wl.used), old(wl.scrub), wl.ecs, wl.moveFrom, wl.moveTo, scrubbing)
        && steps == [TakeMove(true), Step.BeginMove(wl.moveFrom, wl.moveTo)]
      ensures w.MoveWork? && memory && !(old(wl.free).Node? && old(wl.MoveNeeded())) ==>
        mover.Resting? && steps == [TakeMove(true), NoMove]
    {
      hide Legal, Run, Inv, wl.Valid, Chosen, wl.MoveNeeded;
      ghost var s := Now();
      w, steps := Take(memory);
      if w.MoveWork? && memory {
        steps := StartMove(s, steps);
      }
    }

    /** The first critical section of the wear-leveling worker. */
    method StartMove(ghost s: Sys, ghost before: seq<Step>) returns (ghost steps: seq<Step>)
      requires Did(s, before) && mover.Started? && wl.wlScheduled && wl.moveFrom < 0 && MoveWork !in wl.works
      modifies wl, this`mover, this`scrubbing
      ensures Did(s, steps) && wl.works == old(wl.works)
      ensures old(wl.free).Node? && old(wl.MoveNeeded()) ==>
        && mover.Copying? && Chosen(old(wl.free), old(wl.used), old(wl.scrub), wl.ecs, wl.moveFrom, wl.moveTo, scrubbing)
        && steps == before + [Step.BeginMove(wl.moveFrom, wl.moveTo)]
      ensures !(old(wl.free).Node? && old(wl.MoveNeeded())) ==> mover.Resting? && steps == before + [NoMove]
    {
      hide Inv, MoveFits, wl.Valid, wl.MoveNeeded, Chosen, TreeFits, QueueFits, WorksFit, Elems;
      ghost var t := Now();
      var e1, e2, scrub := wl.BeginMove();
      if e1 < 0 {
        mover := Resting;
        OneMore(s, before, t, NoMove);
        steps := before + [NoMove];
      } else {
        mover, scrubbing := Copying, scrub;
        OneMore(s, before, t, Step.BeginMove(e1, e2));
        steps := before + [Step.BeginMove(e1, e2)];
      }
    }

    /** The entry is freed. */
    method Drop(p: nat)
      requires wl.Valid() && At(wl.Now(), p, Erasing)
      modifies wl
      ensures wl.Valid() && wl.Now() == Gone(old(wl.Now()), p) && wl.works == old(wl.works) && wl.wlScheduled == old(wl.wlScheduled)
      ensures wl.ecs == MapWithout(old(wl.ecs), p)
    {
      hide wl.Valid;
      wl.Hold(p);
      wl.Forget(p);
    }

    /** The erasure has worked. */
    method EraseOk(p: nat, ec: nat) returns (ghost steps: seq<Step>)
      requires Valid() && At(wl.Now(), p, Erasing)
      modifies wl
      ensures Did(old(Now()), steps) && steps == [Erased(p)] && At(wl.Now(), p, Free) && wl.ecs == old(wl.ecs)[p := ec]
      ensures Now() == old(Now()).(w := WlState.Put(old(wl.Now()), p, Free))
    {
      hide Inv, wl.Valid, Legal, Run, Enabled, Apply;
      Nothing();
      ghost var s := Now();
      ErasedIs(s, p);
      wl.EraseDone(p, ec);
      OneMore(s, [], s, Erased(p));
      steps := [Erased(p)];
      assert [] + [Erased(p)] == steps;
    }

    method ServeQueue() returns (ghost steps: seq<Step>)
      requires Valid()
      modifies wl
      ensures Did(old(Now()), steps) && steps == [Step.Serve] && Now() == old(Now()).(w := WlState.Serve(old(wl.Now()))) && wl.ecs == old(wl.ecs)
    {
      hide Inv, wl.Valid, Legal, Run, Enabled, Apply, WlState.Serve;
      Nothing();
      ghost var s := Now();
      ServedIs(s);
      wl.ServeProtQueue();
      OneMore(s, [], s, Step.Serve);
      steps := [Step.Serve];
      assert [] + [Step.Serve] == steps;
    }

    /** The PEB is free again, the oldest protected PEBs are not protected any more, and a move may be
        needed. */
    method Erases(p: nat, ec: nat) returns (ghost steps: seq<Step>)
      requires Valid() && At(wl.Now(), p, Erasing)
      modifies wl
      ensures Did(old(Now()), steps) && wl.ecs == old(wl.ecs)[p := ec]
      ensures var t := old(Now()).(w := WlState.Serve(WlState.Put(old(wl.Now()), p, Free)));
        Now() == if !old(wl.wlScheduled) && wl.MoveNeeded() then WithMove(t) else t
    {
      hide Legal, Run, Inv, wl.Valid, wl.MoveNeeded, WlState.Serve;
      ghost var s := Now();
      steps := EraseOk(p, ec);
      ghost var more := ServeQueue();
      RunConcat(s, steps, more);
      steps := steps + more;
      more := Ensure();
      RunConcat(s, steps, more);
      steps := steps + more;
    }

    method TakeBack(p: nat) returns (ghost steps: seq<Step>)
      requires Valid() && At(wl.Now(), p, Erasing)
      modifies wl, this`hands
      ensures Did(old(Now()), steps) && hands == old(hands)[p := Worker(false)]
      ensures Now() == old(Now()).(w := WlState.Put(old(wl.Now()), p, Held), hands := hands)
    {
      hide Inv, wl.Valid, Legal, Run, Enabled, Apply;
      Nothing();
      ghost var s := Now();
      ErasedIs(s, p);
      wl.Hold(p);
      hands := hands[p := Worker(false)];
      OneMore(s, [], s, EraseAgain(p));
      steps := [EraseAgain(p)];
      assert [] + [EraseAgain(p)] == steps;
    }

    /** The erasure is to be tried again. */
    method Retries(p: nat, memory: bool) returns (ghost steps: seq<Step>)
      requires Valid() && At(wl.Now(), p, Erasing)
      modifies wl, this`hands, this`lost, this`roMode
      ensures Did(old(Now()), steps)
      ensures Now() == if memory then Scheduled(old(Now()), p, false) else WithLost(old(Now()), p)
    {
      RetriedIs(Now(), p);
      hide Legal, Run, Inv, wl.Valid, Scheduled, WithLost, Lose;
      ghost var s := Now();
      steps := TakeBack(p);
      ghost var more := ScheduleErase(p, memory);
      RunConcat(s, steps, more);
      steps := steps + more;
    }

    /** The PEB has been marked bad. */
    method GoesBad(p: nat) returns (ghost steps: seq<Step>)
      requires Valid() && At(wl.Now(), p, Erasing)
      modifies wl, this`bad
      ensures Did(old(Now()), steps) && wl.ecs == MapWithout(old(wl.ecs), p)
      ensures Now() == old(Now()).(w := Gone(old(wl.Now()), p), bad := old(bad) + {p})
    {
      hide Inv, wl.Valid, Legal, Run, Enabled, Apply;
      Nothing();
      ghost var s := Now();
      ErasedIs(s, p);
      Drop(p);
      bad := bad + {p};
      OneMore(s, [], s, WentBad(p));
      steps := [WentBad(p)];
      assert [] + [WentBad(p)] == steps;
    }

    method Fails(p: nat) returns (ghost steps: seq<Step>)
      requires Valid() && At(wl.Now(), p, Erasing)
      modifies wl, this`lost, this`roMode
      ensures Did(old(Now()), steps) && Now() == WithLost(old(Now()), p)
    {
      hide Inv, wl.Valid, Legal, Run, Enabled, Apply;
      Nothing();
      NotInHand(Now(), p);
      ghost var s := Now();
      ErasedIs(s, p);
      Drop(p);
      lost, roMode := lost + {p}, true;
      OneMore(s, [], s, EraseFails(p));
      steps := [EraseFails(p)];
      assert [] + [EraseFails(p)] == steps;
    }

    /** The rest of erase_worker: whatever happens, the PEB is free, to be erased again, bad, or lost on
        a device that is read-only from now on. */
    method EraseEnds(p: nat, how: Erasure, memory: bool) returns (ghost steps: seq<Step>)
      requires Valid() && At(wl.Now(), p, Erasing)
      modifies wl, this`hands, this`bad, this`lost, this`roMode
      ensures Did(old(Now()), steps)
      ensures how.Done? ==> wl.ecs == old(wl.ecs)[p := how.ec]
      ensures how.Done? ==>
        var t := old(Now()).(w := WlState.Serve(WlState.Put(old(wl.Now()), p, Free)));
        Now() == if !old(wl.wlScheduled) && wl.MoveNeeded() then WithMove(t) else t
      ensures how.Busy? && memory ==> Now() == Scheduled(old(Now()), p, false)
      ensures how.Bad? ==> Now() == old(Now()).(w := Gone(old(wl.Now()), p), bad := old(bad) + {p}) && p !in wl.ecs
      ensures how.Fatal? || (how.Busy? && !memory) ==> Now() == WithLost(old(Now()), p)
    {
      hide Legal, Run, Inv, wl.Valid, wl.MoveNeeded, Scheduled, WithLost, WithMove, Gone, WlState.Put, WlState.Serve;
      match how
      case Done(ec) => steps := Erases(p, ec);
      case Busy => steps := Retries(p, memory);
      case Bad => steps := GoesBad(p);
      case Fatal => steps := Fails(p);
    }

    // ---- The end of a move ---------------------------------------------------------------------

    method EndCopied() returns (e1: nat, e2: int, ghost steps: seq<Step>)
      requires Valid() && mover.Copying?
      modifies wl, this`mover, this`hands
      ensures Did(old(Now()), steps) && mover.Resting? && e1 == old(wl.moveFrom) && e1 in hands && hands[e1] == Worker(false)
      ensures if old(wl.moveToPut) then e2 == old(wl.moveTo) >= 0 && e2 != e1 && e2 in hands && hands[e2] == Worker(false)
        else e2 == -1 && At(wl.Now(), old(wl.moveTo), Used)
      ensures Now() == DoMoveDone(old(Now())) && wl.erroneousCount == old(wl.erroneousCount)
    {
      hide Inv, wl.Valid, Legal, Run, Enabled, Apply;
      Nothing();
      CopyingIs(Now(), Used, false);
      ghost var s := Now();
      e1, e2 := wl.EndMoved();
      mover, hands := Resting, hands[e1 := Worker(false)];
      if e2 >= 0 {
        hands := hands[e2 := Worker(false)];
      }
      OneMore(s, [], s, MoveDone);
      steps := [] + [MoveDone];
    }

    method EndCancelled(protect: bool, isErroneous: bool, scrub: bool, torture: bool) returns (e2: nat, ghost steps: seq<Step>)
      requires Valid() && mover.Copying? && !wl.moveToPut && (isErroneous ==> wl.erroneousCount <= wl.maxErroneous)
      modifies wl, this`mover, this`hands
      ensures Did(old(Now()), steps) && mover.Resting? && e2 == old(wl.moveTo) && e2 in hands && hands[e2] == Worker(torture)
      ensures At(wl.Now(), old(wl.moveFrom), BackPlace(Tail(old(wl.Now())), protect, isErroneous, scrub))
      ensures Now() == DoMoveCancelled(old(Now()), BackPlace(Tail(old(wl.Now())), protect, isErroneous, scrub), torture)
      ensures wl.erroneousCount == old(wl.erroneousCount) + if isErroneous && !protect then 1 else 0
    {
      hide Inv, wl.Valid, Legal, Run, Enabled, Apply;
      Nothing();
      ghost var back := BackPlace(Tail(wl.Now()), protect, isErroneous, scrub);
      CopyingIs(Now(), back, torture);
      ghost var s := Now();
      e2 := wl.EndNotMoved(protect, isErroneous, scrub);
      mover, hands := Resting, hands[e2 := Worker(torture)];
      OneMore(s, [], s, MoveCancelled(back, torture));
      steps := [] + [MoveCancelled(back, torture)];
    }

    /** The entries of source and target are freed, and the device becomes read-only. */
    method EndFailed() returns (ghost steps: seq<Step>)
      requires Valid() && mover.Copying?
      modifies wl, this`mover, this`lost, this`roMode
      ensures Did(old(Now()), steps) && mover.Resting? && roMode && lost == old(lost) + {old(wl.moveFrom) as nat} + {old(wl.moveTo) as nat}
      ensures Now() == BothLost(old(Now())) && wl.erroneousCount == old(wl.erroneousCount)
    {
      hide Inv, wl.Valid, Legal, Run, Enabled, Apply, DoMoveFails, MapWithout, At;
      Nothing();
      CopyingIs(Now(), Used, false);
      FailedIs(Now());
      ghost var s := Now();
      var e1: nat, e2: nat := wl.moveFrom, wl.moveTo;
      wl.DropMove(e1, e2);
      mover, lost, roMode := Resting, lost + {e1} + {e2}, true;
      assert Now() == DoMoveFails(s);
      OneMore(s, [], s, Step.MoveFails);
      steps := [] + [Step.MoveFails];
    }

    /** A move has been given up, and its target is to be erased. */
    method Cancel(protect: bool, isErroneous: bool, scrub: bool, torture: bool, memory: bool) returns (ghost steps: seq<Step>)
      requires Valid() && mover.Copying? && !wl.moveToPut && (isErroneous ==> wl.erroneousCount <= wl.maxErroneous)
      modifies wl, this`mover, this`hands, this`lost, this`roMode
      ensures Did(old(Now()), steps) && mover.Resting?
      ensures Now() == GivenUp(old(Now()), BackPlace(Tail(old(wl.Now())), protect, isErroneous, scrub), torture, memory)
      ensures wl.erroneousCount == old(wl.erroneousCount) + if isErroneous && !protect then 1 else 0
    {
      CancelledIs(Now(), BackPlace(Tail(wl.Now()), protect, isErroneous, scrub), torture, memory);
      hide Legal, Run, Inv, wl.Valid, BackPlace, GivenUp, ScheduledOrLost, DoMoveCancelled;
      ghost var s := Now();
      var e2;
      e2, steps := EndCancelled(protect, isErroneous, scrub, torture);
      ghost var more := ScheduleErase(e2, memory);
      RunConcat(s, steps, more);
      steps := steps + more;
    }

    /** A move has succeeded, and its source is to be erased; so is a target that was put meanwhile.  memory
        and memory2 say whether there is memory for these erasures; the second is not tried without the first. */
    method Finish(memory: bool, memory2: bool) returns (ghost steps: seq<Step>)
      requires Valid() && mover.Copying?
      modifies wl, this`mover, this`hands, this`lost, this`roMode
      ensures Did(old(Now()), steps) && mover.Resting? && Now() == Finished(old(Now()), memory, memory2)
      ensures wl.erroneousCount == old(wl.erroneousCount)
    {
      FinishedIs(Now(), memory, memory2);
      hide Legal, Run, Inv, wl.Valid, DoMoveDone, Finished, ScheduledOrLost;
      ghost var s := Now();
      var e1, e2;
      e1, e2, steps := EndCopied();
      ghost var more := ScheduleErase(e1, memory);
      RunConcat(s, steps, more);
      steps := steps + more;
      if e2 >= 0 {
        more := ScheduleErase(e2, memory && memory2);
        RunConcat(s, steps, more);
        steps := steps + more;
      }
    }

    /** The rest of wear_leveling_worker.  A target that was put cannot be one whose move failed. */
    method MoveEnds(how: Copy, memory: bool, memory2: bool) returns (ghost steps: seq<Step>)
      requires Valid() && mover.Copying? && (wl.moveToPut ==> how in {Copied, HeaderUnreadable, CopyFails})
      modifies wl, this`mover, this`hands, this`lost, this`roMode
      ensures Did(old(Now()), steps) && old(wl.moveFrom) >= 0 && old(wl.moveTo) >= 0
      ensures Now() == Ended(old(Now()), how, scrubbing, old(wl.erroneousCount) > wl.maxErroneous, memory, memory2)
      ensures wl.erroneousCount == old(wl.erroneousCount)
        + if how == SourceUnreadable && old(wl.erroneousCount) <= wl.maxErroneous then 1 else 0
    {
      hide Legal, Run, Inv, wl.Valid, GivenUp, Finished, BothLost, Ended, BackPlace, Tail;
      EndedIs(Now(), how, scrubbing, wl.erroneousCount > wl.maxErroneous, memory, memory2);
      match how
      case Copied => steps := Finish(memory, memory2);
      case NoHeader => steps := Cancel(true, false, scrubbing, false, memory);
      case NoHeaderBitFlips => steps := Cancel(false, false, true, false, memory);
      case HeaderUnreadable => steps := EndFailed();
      case Race => steps := Cancel(true, false, scrubbing, false, memory);
      case TargetBad => steps := Cancel(false, false, scrubbing, true, memory);
      case SourceUnreadable =>
        if wl.erroneousCount > wl.maxErroneous {
          steps := EndFailed();
        } else {
          steps := Cancel(false, true, scrubbing, false, memory);
        }
      case CopyFails => steps := EndFailed();
    }
  }
}
