/** Where the wear-leveling sub-system keeps each PEB, and what each of its critical sections does
    to that. */
module WlState {
  import opened Wrappers

  const PROT_QUEUE_LEN: nat := 10

  /** Held: taken out of its tree, and about to be scheduled for erasure. */
  datatype Place =
    | Free
    | Used
    | Scrub
    | Erroneous
    | Protected(slot: nat)
    | ToErase
    | Erasing
    | Held
    | From
    | To

  datatype Wl = Wl(place: map<nat, Place>, pqHead: nat, moveFrom: int, moveTo: int, moveToPut: bool)

  predicate At(w: Wl, p: int, x: Place) {
    p >= 0 && p in w.place && w.place[p] == x
  }

  /** A user of the LEB has the PEB, and no erasure of it is on its way. */
  predicate InUse(w: Wl, p: nat) {
    p in w.place && match w.place[p]
                    case Used => true
                    case Scrub => true
                    case Erroneous => true
                    case Protected(_) => true
                    case From => true
                    case To => !w.moveToPut
                    case _ => false
  }

  /** The current move, and nothing else, is marked. */
  predicate MoveFits(w: Wl) {
    && (w.moveFrom >= 0 ==> At(w, w.moveFrom, From)) && (w.moveTo >= 0 ==> At(w, w.moveTo, To))
    && (forall p | p in w.place :: (w.place[p] == From ==> p == w.moveFrom) && (w.place[p] == To ==> p == w.moveTo))
    && (w.moveFrom >= 0 <==> w.moveTo >= 0) && (w.moveToPut ==> w.moveTo >= 0)
    && w.pqHead < PROT_QUEUE_LEN
  }

  function Tail(w: Wl): nat {
    if w.pqHead == 0 then PROT_QUEUE_LEN - 1 else w.pqHead - 1
  }

  function Put(w: Wl, p: nat, x: Place): Wl {
    w.(place := w.place[p := x])
  }

  function Gone(w: Wl, p: nat): Wl {
    w.(place := MapWithout(w.place, p))
  }

  /** ubi_wl_get_peb: the PEB is protected for a while. */
  function Get(w: Wl, p: nat): Wl {
    Put(w, p, Protected(Tail(w)))
  }

  /** ubi_wl_put_peb: what happens at once.  A PEB that is just being moved has to be waited for. */
  function Release(w: Wl, p: nat): Wl {
    if p == w.moveFrom then w else if p == w.moveTo then w.(moveToPut := true) else Put(w, p, Held)
  }

  /** ubi_wl_scrub_peb */
  function Mark(w: Wl, p: nat): Wl {
    if p == w.moveFrom || p == w.moveTo || At(w, p, Scrub) || At(w, p, Erroneous) then w else Put(w, p, Scrub)
  }

  function Select(w: Wl, e1: nat, e2: nat): Wl {
    Put(Put(w, e1, From), e2, To).(moveFrom := e1, moveTo := e2)
  }

  /** The end of a successful move: the source goes, and so does a target that was put meanwhile. */
  function Moved(w: Wl): Wl {
    if w.moveFrom < 0 || w.moveTo < 0 then w
    else
      Put(Put(w, w.moveFrom, Held), w.moveTo, if w.moveToPut then Held else Used).(moveFrom := -1, moveTo := -1, moveToPut := false)
  }

  /** The end of a move that was given up: the source goes back, and the target goes. */
  function NotMoved(w: Wl, back: Place): Wl {
    if w.moveFrom < 0 || w.moveTo < 0 then w
    else Put(Put(w, w.moveFrom, back), w.moveTo, Held).(moveFrom := -1, moveTo := -1)
  }

  /** serve_prot_queue: the PEBs that have waited longest are not protected any more. */
  function Serve(w: Wl): Wl {
    w.(place := map p | p in w.place :: if w.place[p] == Protected(w.pqHead) then Used else w.place[p],
       pqHead := if w.pqHead + 1 == PROT_QUEUE_LEN then 0 else w.pqHead + 1)
  }

  function ServedTimes(w: Wl, n: nat): Wl {
    if n == 0 then w else Serve(ServedTimes(w, n - 1))
  }

  /** How often the queue has to be served before the PEB is an ordinary one in use. */
  function Waiting(w: Wl, slot: nat): int {
    1 + if w.pqHead <= slot then slot - w.pqHead else slot - w.pqHead + PROT_QUEUE_LEN
  }

  lemma {:induction false} WaitsInSlot(w: Wl, p: nat, slot: nat, n: nat)
    requires w.pqHead < PROT_QUEUE_LEN && slot < PROT_QUEUE_LEN && At(w, p, Protected(slot)) && n <= Waiting(w, slot)
    ensures At(ServedTimes(w, n), p, if n < Waiting(w, slot) then Protected(slot) else Used)
    ensures n < Waiting(w, slot) ==>
      ServedTimes(w, n).pqHead < PROT_QUEUE_LEN && Waiting(ServedTimes(w, n), slot) == Waiting(w, slot) - n
  {
    if n > 0 {
      WaitsInSlot(w, p, slot, n - 1);
    }
  }

  /** A PEB just handed out is left alone until PROT_QUEUE_LEN other PEBs have been erased; then it may be
      moved. */
  lemma ProtectedForLong(w: Wl, p: nat, n: nat)
    requires w.pqHead < PROT_QUEUE_LEN && n <= PROT_QUEUE_LEN
    ensures n < PROT_QUEUE_LEN ==> exists slot :: At(ServedTimes(Get(w, p), n), p, Protected(slot))
    ensures n == PROT_QUEUE_LEN ==> At(ServedTimes(Get(w, p), n), p, Used)
  {
    WaitsInSlot(Get(w, p), p, Tail(w), n);
  }
}
