/** The data structures of the wear-leveling sub-system: every PEB is in exactly one of the trees,
    a slot of the protection queue, the list of pending works, or part of the current move. */
module WearLeveling {
  import opened WlState
  import opened WlTree
  import opened Wrappers

  datatype Work = EraseWork(pnum: nat, torture: bool) | MoveWork

  /** How ubi_wl_put_peb goes on. */
  datatype PutResult = WaitForMove | MarkedTarget | Schedule(torture: bool)

  ghost predicate NoRepeats<T>(s: seq<T>) {
    forall i, j | 0 <= i < j < |s| :: s[i] != s[j]
  }

  predicate Sits(e: Entry, place: map<nat, Place>, ecs: map<nat, nat>, x: Place) {
    e.pnum in place && place[e.pnum] == x && e.pnum in ecs && ecs[e.pnum] == e.ec
  }

  /** The tree holds exactly the PEBs that are in that place, with their erase counters. */
  ghost predicate TreeFits(t: Tree, place: map<nat, Place>, ecs: map<nat, nat>, x: Place) {
    && Ordered(t)
    && forall e: Entry :: e in Elems(t) <==> Sits(e, place, ecs, x)
  }

  ghost predicate SlotFits(list: seq<nat>, place: map<nat, Place>, slot: nat) {
    NoRepeats(list) && forall p: nat :: p in list <==> p in place && place[p] == Protected(slot)
  }

  ghost predicate QueueFits(pq: seq<seq<nat>>, place: map<nat, Place>) {
    && |pq| == PROT_QUEUE_LEN
    && (forall i | 0 <= i < |pq| :: SlotFits(pq[i], place, i))
    && (forall p | p in place && place[p].Protected? :: place[p].slot < PROT_QUEUE_LEN)
  }

  predicate SameWork(a: Work, b: Work) {
    a == b || (a.EraseWork? && b.EraseWork? && a.pnum == b.pnum)
  }

  /** Exactly the PEBs waiting for erasure have a work, and there is at most one move. */
  ghost predicate WorksFit(works: seq<Work>, place: map<nat, Place>) {
    && (forall i, j | 0 <= i < j < |works| :: !SameWork(works[i], works[j]))
    && (forall i | 0 <= i < |works| && works[i].EraseWork? :: works[i].pnum in place && place[works[i].pnum] == ToErase)
    && (forall p | p in place && place[p] == ToErase :: EraseWork(p, false) in works || EraseWork(p, true) in works)
  }

  // ---- One PEB changes its place -------------------------------------------------------------

  lemma TreeStays(t: Tree, place: map<nat, Place>, ecs: map<nat, nat>, x: Place, p: nat, y: Place)
    requires TreeFits(t, place, ecs, x) && p in place && place[p] != x && y != x
    ensures TreeFits(t, place[p := y], ecs, x)
  {
    hide Ordered, Elems;
  }

  lemma TreeKnows(t: Tree, place: map<nat, Place>, ecs: map<nat, nat>, x: Place, e: Entry)
    requires TreeFits(t, place, ecs, x) && e in Elems(t)
    ensures Ordered(t) && e.pnum in place && place[e.pnum] == x && e.pnum in ecs && ecs[e.pnum] == e.ec
  {
  }

  /** The free PEB that a move would use is worn by WL_THRESHOLD more than some PEB in use. */
  ghost predicate TooDifferent(used: Tree, free: Tree)
    requires used.Node? && free.Node?
  {
    Ordered(used) && Ordered(free) && exists e :: Closest(free, Min(free).ec + WL_FREE_MAX_DIFF, e) && e.ec - Min(used).ec >= WL_THRESHOLD
  }

  method CompareWear(used: Tree, free: Tree) returns (yes: bool)
    requires used.Node? && free.Node? && Ordered(used) && Ordered(free)
    ensures yes == TooDifferent(used, free)
  {
    hide Elems, Ordered, Closest;
    var e1 := First(used);
    MinIsOne(used, e1);
    var e2 := FindWlEntry(free, WL_FREE_MAX_DIFF);
    OnlyClosest(used, free, e2);
    yes := e2.ec - e1.ec >= WL_THRESHOLD;
  }

  /** TooDifferent depends on the one entry a move would use. */
  lemma OnlyClosest(used: Tree, free: Tree, to: Entry)
    requires used.Node? && free.Node? && Ordered(used) && Ordered(free) && Closest(free, Min(free).ec + WL_FREE_MAX_DIFF, to)
    ensures TooDifferent(used, free) <==> to.ec - Min(used).ec >= WL_THRESHOLD
  {
    hide Elems, Ordered, Closest;
    if e :| Closest(free, Min(free).ec + WL_FREE_MAX_DIFF, e) && e.ec - Min(used).ec >= WL_THRESHOLD {
      ClosestIsOne(free, Min(free).ec + WL_FREE_MAX_DIFF, e, to);
    }
  }

  /** The source of a move is the least worn PEB to scrub or, if there is none, the least worn one in
      use; the target is the most worn free one, but not worn too much more than the least worn. */
  ghost predicate Chosen(free: Tree, used: Tree, scrub: Tree, ecs: map<nat, nat>, e1: int, e2: int, scrubbing: bool) {
    && e1 >= 0 && e2 >= 0 && e1 in ecs && e2 in ecs && (scrubbing <==> scrub.Node?)
    && free.Node? && Ordered(free) && Closest(free, Min(free).ec + WL_FREE_MAX_DIFF, Entry(ecs[e2], e2))
    && var from := if scrub.Node? then scrub else used;
       from.Node? && Ordered(from) && Min(from) == Entry(ecs[e1], e1)
  }

  lemma EmptyTree(t: Tree, place: map<nat, Place>, ecs: map<nat, nat>, x: Place)
    requires TreeFits(t, place, ecs, x) && place.Keys == ecs.Keys
    ensures Ordered(t) && (t.Leaf? <==> forall p | p in place :: place[p] != x)
  {
    if t.Leaf? {
      forall p | p in place
        ensures place[p] != x
      {
        assert Entry(ecs[p], p) !in Elems(t);
      }
    } else {
      assert t.e in Elems(t);
    }
  }

  lemma TreeLoses(t: Tree, place: map<nat, Place>, ecs: map<nat, nat>, x: Place, p: nat, y: Place)
    requires TreeFits(t, place, ecs, x) && p in place && p in ecs && y != x
    ensures Ordered(t) && TreeFits(Remove(t, Entry(ecs[p], p)), place[p := y], ecs, x)
    ensures place[p] == x ==> |Elems(Remove(t, Entry(ecs[p], p)))| == |Elems(t)| - 1
  {
    hide Ordered, Elems, Remove;
    var e := Entry(ecs[p], p);
    var r := Remove(t, e);
    forall d: Entry
      ensures d in Elems(r) <==> Sits(d, place[p := y], ecs, x)
    {
      assert d in Elems(t) <==> Sits(d, place, ecs, x);
    }
    OneLess(Elems(t), Elems(r), e, place[p] == x && Sits(e, place, ecs, x));
  }

  lemma OneLess(a: set<Entry>, b: set<Entry>, e: Entry, there: bool)
    requires b == a - {e} && (there ==> e in a)
    ensures there ==> |b| == |a| - 1
  {
  }

  lemma TreeGains(t: Tree, place: map<nat, Place>, ecs: map<nat, nat>, x: Place, p: nat)
    requires TreeFits(t, place, ecs, x) && p in place && p in ecs && place[p] != x
    ensures Ordered(t) && Entry(ecs[p], p) !in Elems(t) && TreeFits(Add(t, Entry(ecs[p], p)), place[p := x], ecs, x)
    ensures |Elems(Add(t, Entry(ecs[p], p)))| == |Elems(t)| + 1
  {
    hide Ordered, Elems;
    var e := Entry(ecs[p], p);
    assert e !in Elems(t) by {
      assert !Sits(e, place, ecs, x);
    }
    var r := Add(t, e);
    forall d: Entry
      ensures d in Elems(r) <==> Sits(d, place[p := x], ecs, x)
    {
      assert d in Elems(t) <==> Sits(d, place, ecs, x);
    }
    hide Sits, Add;
    assert |Elems(t) + {e}| == |Elems(t)| + 1;
  }

  lemma QueueStays(pq: seq<seq<nat>>, place: map<nat, Place>, p: nat, y: Place)
    requires QueueFits(pq, place) && p in place && !place[p].Protected? && !y.Protected?
    ensures QueueFits(pq, place[p := y])
  {
    forall i | 0 <= i < |pq|
      ensures SlotFits(pq[i], place[p := y], i)
    {
      assert SlotFits(pq[i], place, i);
    }
  }

  lemma QueueGains(pq: seq<seq<nat>>, place: map<nat, Place>, p: nat, slot: nat)
    requires QueueFits(pq, place) && p in place && !place[p].Protected? && slot < PROT_QUEUE_LEN
    ensures QueueFits(pq[slot := pq[slot] + [p]], place[p := Protected(slot)])
  {
    var pq' := pq[slot := pq[slot] + [p]];
    forall i | 0 <= i < |pq'|
      ensures SlotFits(pq'[i], place[p := Protected(slot)], i)
    {
      assert SlotFits(pq[i], place, i);
    }
  }

  function WithoutPeb(s: seq<nat>, p: nat): (r: seq<nat>)
    ensures forall x: nat :: x in r <==> x in s && x != p
    ensures NoRepeats(s) ==> NoRepeats(r)
    ensures |r| <= |s| && (p in s ==> |r| < |s|)
  {
    if s == [] then []
    else
      var r := WithoutPeb(s[..|s| - 1], p);
      assert forall x: nat :: x in s <==> x in s[..|s| - 1] || x == s[|s| - 1];
      assert NoRepeats(s) ==> NoRepeats(s[..|s| - 1]) && s[|s| - 1] !in s[..|s| - 1];
      if s[|s| - 1] == p then r else r + [s[|s| - 1]]
  }

  lemma QueueLoses(pq: seq<seq<nat>>, place: map<nat, Place>, p: nat, y: Place)
    requires QueueFits(pq, place) && p in place && place[p].Protected? && !y.Protected?
    ensures place[p].slot < |pq|
    ensures QueueFits(pq[place[p].slot := WithoutPeb(pq[place[p].slot], p)], place[p := y])
  {
    var slot := place[p].slot;
    var pq' := pq[slot := WithoutPeb(pq[slot], p)];
    forall i | 0 <= i < |pq'|
      ensures SlotFits(pq'[i], place[p := y], i)
    {
      assert SlotFits(pq[i], place, i);
    }
  }

  lemma WorksStay(works: seq<Work>, place: map<nat, Place>, p: nat, y: Place)
    requires WorksFit(works, place) && p in place && place[p] != ToErase && y != ToErase
    ensures WorksFit(works, place[p := y])
  {
  }

  lemma WorksGain(works: seq<Work>, place: map<nat, Place>, p: nat, torture: bool)
    requires WorksFit(works, place) && p in place && place[p] != ToErase
    ensures WorksFit(works + [EraseWork(p, torture)], place[p := ToErase])
  {
    var ws, place' := works + [EraseWork(p, torture)], place[p := ToErase];
    forall q | q in place' && place'[q] == ToErase
      ensures EraseWork(q, false) in ws || EraseWork(q, true) in ws
    {
      if q == p {
        assert ws[|works|] == EraseWork(p, torture);
      } else {
        assert EraseWork(q, false) in works || EraseWork(q, true) in works;
      }
    }
  }

  lemma WorksPop(works: seq<Work>, place: map<nat, Place>)
    requires WorksFit(works, place) && works != []
    ensures works[0].MoveWork? ==> WorksFit(works[1..], place)
    ensures works[0].EraseWork? ==> works[0].pnum in place && place[works[0].pnum] == ToErase
    ensures works[0].EraseWork? ==> WorksFit(works[1..], place[works[0].pnum := Erasing])
    ensures MoveWork in works <==> works[0] == MoveWork || MoveWork in works[1..]
    ensures works[0] == MoveWork ==> MoveWork !in works[1..]
  {
    assert forall w: Work :: w in works <==> w == works[0] || w in works[1..];
    assert forall i | 0 < i < |works| :: !SameWork(works[0], works[i]) && works[1..][i - 1] == works[i];
  }

  lemma WorksGainMove(works: seq<Work>, place: map<nat, Place>)
    requires WorksFit(works, place) && MoveWork !in works
    ensures WorksFit(works + [MoveWork], place)
  {
    forall p | p in place && place[p] == ToErase
      ensures EraseWork(p, false) in works + [MoveWork] || EraseWork(p, true) in works + [MoveWork]
    {
      assert EraseWork(p, false) in works || EraseWork(p, true) in works;
    }
  }

  lemma EcChanges(t: Tree, place: map<nat, Place>, ecs: map<nat, nat>, x: Place, p: nat, ec: nat)
    requires TreeFits(t, place, ecs, x) && p in place && place[p] != x
    ensures TreeFits(t, place, ecs[p := ec], x)
  {
    hide Ordered, Elems;
  }

  /** What is not concerned by the move of PEB p to place y still fits. */
  lemma Elsewhere(w: WearLeveling, p: nat, y: Place)
    requires w.Valid() && p in w.place
    ensures forall x, t | w.place[p] != x && y != x && TreeFits(t, w.place, w.ecs, x) :: TreeFits(t, w.place[p := y], w.ecs, x)
    ensures !w.place[p].Protected? && !y.Protected? ==> QueueFits(w.pq, w.place[p := y])
    ensures w.place[p] != ToErase && y != ToErase ==> WorksFit(w.works, w.place[p := y])
  {
    hide TreeFits, QueueFits, WorksFit;
    forall x, t | w.place[p] != x && y != x && TreeFits(t, w.place, w.ecs, x)
      ensures TreeFits(t, w.place[p := y], w.ecs, x)
    {
      TreeStays(t, w.place, w.ecs, x, p, y);
    }
    if !w.place[p].Protected? && !y.Protected? {
      QueueStays(w.pq, w.place, p, y);
    }
    if w.place[p] != ToErase && y != ToErase {
      WorksStay(w.works, w.place, p, y);
    }
  }

  lemma StaysElsewhere(free: Tree, used: Tree, scrub: Tree, erroneous: Tree, pq: seq<seq<nat>>, works: seq<Work>,
                       place: map<nat, Place>, ecs: map<nat, nat>, p: nat, y: Place)
    requires TreeFits(free, place, ecs, Free) && TreeFits(used, place, ecs, Used) && TreeFits(scrub, place, ecs, Scrub)
    requires TreeFits(erroneous, place, ecs, Erroneous) && QueueFits(pq, place) && WorksFit(works, place)
    requires p in place && (place[p] == Held || place[p] == To) && (y == Held || y == To)
    ensures TreeFits(free, place[p := y], ecs, Free) && TreeFits(used, place[p := y], ecs, Used)
    ensures TreeFits(scrub, place[p := y], ecs, Scrub) && TreeFits(erroneous, place[p := y], ecs, Erroneous)
    ensures QueueFits(pq, place[p := y]) && WorksFit(works, place[p := y])
  {
    hide TreeFits, QueueFits, WorksFit;
    TreeStays(free, place, ecs, Free, p, y);
    TreeStays(used, place, ecs, Used, p, y);
    TreeStays(scrub, place, ecs, Scrub, p, y);
    TreeStays(erroneous, place, ecs, Erroneous, p, y);
    QueueStays(pq, place, p, y);
    WorksStay(works, place, p, y);
  }

  lemma SelectIgnoresPlaces(w: Wl, e1: nat, e2: nat)
    requires e1 != e2
    ensures Select(Put(Put(w, e1, Held), e2, Held), e1, e2) == Select(w, e1, e2)
    ensures At(Put(Put(w, e1, Held), e2, Held), e1, Held) && At(Put(Put(w, e1, Held), e2, Held), e2, Held)
  {
  }

  /** Some of the PEBs of the slot have already become used ones. */
  ghost predicate Serving(before: map<nat, Place>, place: map<nat, Place>, slot: nat) {
    && place.Keys == before.Keys
    && forall p | p in place :: place[p] == before[p] || (before[p] == Protected(slot) && place[p] == Used)
  }

  lemma ServingStarts(place: map<nat, Place>, slot: nat)
    ensures Serving(place, place, slot)
  {
  }

  lemma ServesOne(before: map<nat, Place>, place: map<nat, Place>, slot: nat, p: nat)
    requires Serving(before, place, slot) && p in place && place[p] == Protected(slot)
    ensures Serving(before, place[p := Held][p := Used], slot)
  {
  }

  lemma NewEntry(t: Tree, place: map<nat, Place>, ecs: map<nat, nat>, x: Place, e: Entry)
    requires TreeFits(t, place, ecs, x) && place.Keys == ecs.Keys && e.pnum !in place && x != Held
    ensures TreeFits(t, place[e.pnum := Held], ecs[e.pnum := e.ec], x)
  {
    hide Ordered, Elems;
  }

  lemma NewInQueue(pq: seq<seq<nat>>, place: map<nat, Place>, p: nat)
    requires QueueFits(pq, place) && p !in place
    ensures QueueFits(pq, place[p := Held])
  {
    forall i | 0 <= i < |pq|
      ensures SlotFits(pq[i], place[p := Held], i)
    {
      assert SlotFits(pq[i], place, i);
    }
  }

  lemma NewInWorks(works: seq<Work>, place: map<nat, Place>, p: nat)
    requires WorksFit(works, place) && p !in place
    ensures WorksFit(works, place[p := Held])
  {
  }

  lemma EntryGone(t: Tree, place: map<nat, Place>, ecs: map<nat, nat>, x: Place, p: nat)
    requires TreeFits(t, place, ecs, x) && p in place && place[p] != x
    ensures TreeFits(t, MapWithout(place, p), MapWithout(ecs, p), x)
  {
    hide Ordered, Elems;
  }

  lemma GoneFromQueue(pq: seq<seq<nat>>, place: map<nat, Place>, p: nat)
    requires QueueFits(pq, place) && p in place && !place[p].Protected?
    ensures QueueFits(pq, MapWithout(place, p))
  {
    forall i | 0 <= i < |pq|
      ensures SlotFits(pq[i], MapWithout(place, p), i)
    {
      assert SlotFits(pq[i], place, i);
    }
  }

  lemma GoneFromWorks(works: seq<Work>, place: map<nat, Place>, p: nat)
    requires WorksFit(works, place) && p in place && place[p] != ToErase
    ensures WorksFit(works, MapWithout(place, p))
  {
  }

  /** Exactly the first n of the PEBs found are known, where they were found, with their counters. */
  ghost predicate KnownAre(found: seq<(Entry, Place)>, n: nat, place: map<nat, Place>, ecs: map<nat, nat>)
    requires n <= |found|
  {
    && (forall p | p in place :: exists i | 0 <= i < n :: found[i].0.pnum == p)
    && forall i | 0 <= i < n ::
         && found[i].0.pnum in place && place[found[i].0.pnum] == found[i].1
         && found[i].0.pnum in ecs && ecs[found[i].0.pnum] == found[i].0.ec
  }

  lemma ServedIsServe(w: Wl, place: map<nat, Place>)
    requires Serving(w.place, place, w.pqHead) && forall p | p in place :: place[p] != Protected(w.pqHead)
    ensures place == Serve(w).place
  {
  }

  lemma SlotKnows(pq: seq<seq<nat>>, place: map<nat, Place>, slot: nat, p: nat)
    requires QueueFits(pq, place) && slot < |pq| && p in pq[slot]
    ensures p in place && place[p] == Protected(slot)
  {
    assert SlotFits(pq[slot], place, slot);
  }

  lemma EmptySlot(pq: seq<seq<nat>>, place: map<nat, Place>, slot: nat)
    requires QueueFits(pq, place) && slot < |pq| && pq[slot] == []
    ensures forall p | p in place :: place[p] != Protected(slot)
  {
    assert SlotFits(pq[slot], place, slot);
  }

  lemma BothGone(place: map<nat, Place>, e1: nat, e2: nat)
    ensures MapWithout(MapWithout(place[e1 := Held][e2 := Held], e1), e2) == MapWithout(MapWithout(place, e1), e2)
  {
  }

  lemma BothHeld(w: Wl, was: map<nat, Place>, e1: nat, e2: nat)
    requires w.place == was[e1 := Held][e2 := Held]
    ensures At(w, e1, Held) && At(w, e2, Held)
  {
  }

  lemma HeldStill(w: Wl, e1: nat, e2: nat)
    requires At(w, e2, Held) && e1 != e2
    ensures At(Gone(w, e1), e2, Held)
  {
  }

  /** Where the source of a move that was given up goes. */
  function BackPlace(tail: nat, protect: bool, isErroneous: bool, scrubbing: bool): Place {
    if protect then Protected(tail) else if isErroneous then Erroneous else if scrubbing then Scrub else Used
  }

  class WearLeveling {
    var ecs: map<nat, nat>
    var free: Tree
    var used: Tree
    var scrub: Tree
    var erroneous: Tree
    var pq: seq<seq<nat>>
    var pqHead: nat
    var works: seq<Work>
    var worksCount: int
    var moveFrom: int
    var moveTo: int
    var moveToPut: bool
    var wlScheduled: bool
    var erroneousCount: int
    const maxErroneous: nat
    ghost var place: map<nat, Place>

    ghost function Now(): Wl
      reads this
    {
      Wl(place, pqHead, moveFrom, moveTo, moveToPut)
    }

    ghost predicate Valid()
      reads this
    {
      && place.Keys == ecs.Keys && MoveFits(Now()) && |pq| == PROT_QUEUE_LEN
      && TreeFits(free, place, ecs, Free) && TreeFits(used, place, ecs, Used)
      && TreeFits(scrub, place, ecs, Scrub) && TreeFits(erroneous, place, ecs, Erroneous)
      && QueueFits(pq, place) && WorksFit(works, place)
      && worksCount == |works| && erroneousCount == |Elems(erroneous)| <= maxErroneous + 1
      && (MoveWork in works ==> wlScheduled && moveFrom < 0) && (moveFrom >= 0 ==> wlScheduled)
    }

    /** The entry of a PEB. */
    function EntryOf(p: nat): Entry
      requires p in ecs
      reads this`ecs
    {
      Entry(ecs[p], p)
    }

    // ---- Taking a PEB out of its tree or list, and putting it into another -------------------

    method TakeFree(p: nat)
      requires Valid() && At(Now(), p, Free)
      modifies this`free, this`place
      ensures Valid() && Now() == Put(old(Now()), p, Held)
    {
      hide TreeFits, QueueFits, WorksFit, Ordered, Elems;
      Elsewhere(this, p, Held);
      TreeLoses(free, place, ecs, Free, p, Held);
      free := Remove(free, EntryOf(p));
      place := place[p := Held];
    }

    method TakeUsed(p: nat)
      requires Valid() && At(Now(), p, Used)
      modifies this`used, this`place
      ensures Valid() && Now() == Put(old(Now()), p, Held)
    {
      hide TreeFits, QueueFits, WorksFit, Ordered, Elems;
      Elsewhere(this, p, Held);
      TreeLoses(used, place, ecs, Used, p, Held);
      used := Remove(used, EntryOf(p));
      place := place[p := Held];
    }

    method TakeScrub(p: nat)
      requires Valid() && At(Now(), p, Scrub)
      modifies this`scrub, this`place
      ensures Valid() && Now() == Put(old(Now()), p, Held)
    {
      hide TreeFits, QueueFits, WorksFit, Ordered, Elems;
      Elsewhere(this, p, Held);
      TreeLoses(scrub, place, ecs, Scrub, p, Held);
      scrub := Remove(scrub, EntryOf(p));
      place := place[p := Held];
    }

    method TakeErroneous(p: nat)
      requires Valid() && At(Now(), p, Erroneous)
      modifies this`erroneous, this`place, this`erroneousCount
      ensures Valid() && Now() == Put(old(Now()), p, Held)
    {
      hide TreeFits, QueueFits, WorksFit, Ordered, Elems;
      Elsewhere(this, p, Held);
      TreeLoses(erroneous, place, ecs, Erroneous, p, Held);
      erroneous := Remove(erroneous, EntryOf(p));
      erroneousCount := erroneousCount - 1;
      place := place[p := Held];
    }

    /** prot_queue_del: the entry is unlinked from whatever list it is in. */
    method TakeProtected(p: nat)
      requires Valid() && p in place && place[p].Protected?
      modifies this`pq, this`place
      ensures Valid() && Now() == Put(old(Now()), p, Held)
      ensures old(place)[p].slot < |old(pq)|
      ensures pq == old(pq)[old(place)[p].slot := WithoutPeb(old(pq)[old(place)[p].slot], p)]
    {
      hide TreeFits, QueueFits, WorksFit, Elems, NoRepeats;
      var i := FindInQueue(p);
      Elsewhere(this, p, Held);
      QueueLoses(pq, place, p, Held);
      pq := pq[i := WithoutPeb(pq[i], p)];
      place := place[p := Held];
    }

    method FindInQueue(p: nat) returns (i: nat)
      requires QueueFits(pq, place) && p in place && place[p].Protected?
      ensures i == place[p].slot < |pq|
    {
      i := 0;
      assert SlotFits(pq[place[p].slot], place, place[p].slot);
      while p !in pq[i]
        invariant 0 <= i <= place[p].slot
        decreases place[p].slot - i
      {
        i := i + 1;
      }
      assert SlotFits(pq[i], place, i);
    }

    method GiveFree(p: nat)
      requires Valid() && At(Now(), p, Held)
      modifies this`free, this`place
      ensures Valid() && Now() == Put(old(Now()), p, Free)
    {
      hide TreeFits, QueueFits, WorksFit, Ordered, Elems;
      Elsewhere(this, p, Free);
      TreeGains(free, place, ecs, Free, p);
      free := Add(free, EntryOf(p));
      place := place[p := Free];
    }

    method GiveUsed(p: nat)
      requires Valid() && At(Now(), p, Held)
      modifies this`used, this`place
      ensures Valid() && Now() == Put(old(Now()), p, Used)
    {
      hide TreeFits, QueueFits, WorksFit, Ordered, Elems;
      Elsewhere(this, p, Used);
      TreeGains(used, place, ecs, Used, p);
      used := Add(used, EntryOf(p));
      place := place[p := Used];
    }

    method GiveScrub(p: nat)
      requires Valid() && At(Now(), p, Held)
      modifies this`scrub, this`place
      ensures Valid() && Now() == Put(old(Now()), p, Scrub)
    {
      hide TreeFits, QueueFits, WorksFit, Ordered, Elems;
      Elsewhere(this, p, Scrub);
      TreeGains(scrub, place, ecs, Scrub, p);
      scrub := Add(scrub, EntryOf(p));
      place := place[p := Scrub];
    }

    method GiveErroneous(p: nat)
      requires Valid() && At(Now(), p, Held) && erroneousCount <= maxErroneous
      modifies this`erroneous, this`place, this`erroneousCount
      ensures Valid() && Now() == Put(old(Now()), p, Erroneous) && erroneousCount == old(erroneousCount) + 1
    {
      hide TreeFits, QueueFits, WorksFit, Ordered, Elems;
      Elsewhere(this, p, Erroneous);
      TreeGains(erroneous, place, ecs, Erroneous, p);
      erroneous := Add(erroneous, EntryOf(p));
      erroneousCount := erroneousCount + 1;
      place := place[p := Erroneous];
    }

    /** prot_queue_add */
    method Protect(p: nat)
      requires Valid() && At(Now(), p, Held)
      modifies this`pq, this`place
      ensures Valid() && Now() == Put(old(Now()), p, Protected(Tail(Now())))
    {
      hide TreeFits, QueueFits, WorksFit, Elems;
      var tail := pqHead - 1;
      if tail < 0 {
        tail := PROT_QUEUE_LEN - 1;
      }
      Elsewhere(this, p, Protected(tail));
      QueueGains(pq, place, p, tail);
      pq := pq[tail := pq[tail] + [p]];
      place := place[p := Protected(tail)];
    }

    // ---- Critical sections ---------------------------------------------------------------------

    /** The part of ubi_wl_get_peb that picks a PEB. */
    method GetPeb(dtype: DataType) returns (p: int)
      requires Valid()
      modifies this`free, this`pq, this`place
      ensures Valid()
      ensures p < 0 ==> Now() == old(Now()) && forall q :: !At(Now(), q, Free)
      ensures p >= 0 ==> At(old(Now()), p, Free) && Now() == Get(old(Now()), p) && p in ecs
      ensures p >= 0 ==> old(free).Node? && Ordered(old(free)) && Picks(old(free), dtype, EntryOf(p))
    {
      hide TreeFits, QueueFits, WorksFit, Ordered, Elems, Picks;
      EmptyTree(free, place, ecs, Free);
      if free.Leaf? {
        return -1;
      }
      var e := Pick(free, dtype);
      TreeKnows(free, place, ecs, Free, e);
      TakeFree(e.pnum);
      Protect(e.pnum);
      p := e.pnum;
    }

    /** schedule_erase, of a PEB that has been taken out of its tree. */
    method ScheduleErase(p: nat, torture: bool)
      requires Valid() && At(Now(), p, Held)
      modifies this`works, this`worksCount, this`place
      ensures Valid() && Now() == Put(old(Now()), p, ToErase) && works == old(works) + [EraseWork(p, torture)]
    {
      hide TreeFits, QueueFits, WorksFit, Elems;
      Elsewhere(this, p, ToErase);
      WorksGain(works, place, p, torture);
      place := place[p := ToErase];
      works := works + [EraseWork(p, torture)];
      worksCount := worksCount + 1;
    }

    /** in_wl_tree */
    method InTree(t: Tree, p: nat, ghost x: Place) returns (found: bool)
      requires TreeFits(t, place, ecs, x) && p in place && p in ecs
      ensures found <==> place[p] == x
    {
      found := Contains(t, EntryOf(p));
    }

    /** The critical section of ubi_wl_put_peb. */
    method PutPeb(p: nat, torture: bool) returns (r: PutResult)
      requires Valid() && InUse(Now(), p)
      modifies this`used, this`scrub, this`erroneous, this`pq, this`erroneousCount, this`moveToPut, this`place
      ensures Valid() && Now() == Release(old(Now()), p)
      ensures r == if p == moveFrom then WaitForMove else if p == moveTo then MarkedTarget
        else Schedule(torture || At(old(Now()), p, Erroneous))
    {
      hide TreeFits, QueueFits, WorksFit, Elems;
      if p == moveFrom {
        return WaitForMove;
      }
      if p == moveTo {
        moveToPut := true;
        return MarkedTarget;
      }
      var inUsed := InTree(used, p, Used);
      var inScrub := InTree(scrub, p, Scrub);
      var inErroneous := InTree(erroneous, p, Erroneous);
      if inUsed {
        TakeUsed(p);
      } else if inScrub {
        TakeScrub(p);
      } else if inErroneous {
        TakeErroneous(p);
        return Schedule(true);
      } else {
        TakeProtected(p);
      }
      return Schedule(torture);
    }

    /** From the used tree, or else from the protection queue. */
    method TakeGood(p: nat)
      requires Valid() && p in place && (place[p] == Used || place[p].Protected?)
      modifies this`used, this`pq, this`place
      ensures Valid() && Now() == Put(old(Now()), p, Held)
    {
      hide TreeFits, QueueFits, WorksFit, Elems;
      var inUsed := InTree(used, p, Used);
      if inUsed {
        TakeUsed(p);
      } else {
        TakeProtected(p);
      }
    }

    /** The critical section of ubi_wl_scrub_peb; it has to be tried again for the target of a move. */
    method ScrubPeb(p: nat) returns (again: bool)
      requires Valid() && InUse(Now(), p)
      modifies this`used, this`scrub, this`pq, this`place
      ensures Valid() && Now() == Mark(old(Now()), p) && (again <==> p == moveTo)
    {
      hide TreeFits, QueueFits, WorksFit, Elems;
      var inScrub := InTree(scrub, p, Scrub);
      var inErroneous := InTree(erroneous, p, Erroneous);
      if p == moveFrom || inScrub || inErroneous {
        return false;
      }
      if p == moveTo {
        return true;
      }
      ToScrub(p);
      return false;
    }

    method ToScrub(p: nat)
      requires Valid() && p in place && (place[p] == Used || place[p].Protected?)
      modifies this`used, this`scrub, this`pq, this`place
      ensures Valid() && Now() == Put(old(Now()), p, Scrub)
    {
      hide Valid;
      TakeGood(p);
      GiveScrub(p);
    }

    /** The part of do_work that takes the first pending work. */
    method TakeWork() returns (w: Work)
      requires Valid() && works != []
      modifies this`works, this`worksCount, this`place
      ensures Valid() && [w] + works == old(works)
      ensures w.EraseWork? ==> At(old(Now()), w.pnum, ToErase) && Now() == Put(old(Now()), w.pnum, Erasing)
      ensures w.MoveWork? ==> Now() == old(Now()) && MoveWork !in works && wlScheduled && moveFrom < 0
    {
      hide TreeFits, QueueFits, WorksFit, Elems;
      WorksPop(works, place);
      w := works[0];
      if w.EraseWork? {
        Elsewhere(this, w.pnum, Erasing);
        place := place[w.pnum := Erasing];
      }
      works := works[1..];
      worksCount := worksCount - 1;
    }

    /** Some PEB has to be scrubbed, or the PEBs are worn too differently. */
    ghost predicate MoveNeeded()
      reads this`scrub, this`used, this`free
    {
      scrub.Node? || (used.Node? && free.Node? && TooDifferent(used, free))
    }

    /** ensure_wear_leveling */
    method EnsureWearLeveling()
      requires Valid()
      modifies this`works, this`worksCount, this`wlScheduled
      ensures Valid() && Now() == old(Now())
      ensures var begins := !old(wlScheduled) && MoveNeeded();
        works == (if begins then old(works) + [MoveWork] else old(works)) && wlScheduled == (old(wlScheduled) || begins)
    {
      hide TreeFits, QueueFits, WorksFit, Elems, Ordered, TooDifferent;
      if wlScheduled {
        return;
      }
      if scrub.Leaf? {
        if used.Leaf? || free.Leaf? {
          return;
        }
        EmptyTree(used, place, ecs, Used);
        EmptyTree(free, place, ecs, Free);
        var worn := CompareWear(used, free);
        if !worn {
          return;
        }
      }
      QueueMove();
    }

    method QueueMove()
      requires Valid() && !wlScheduled
      modifies this`works, this`worksCount, this`wlScheduled
      ensures Valid() && Now() == old(Now()) && works == old(works) + [MoveWork] && wlScheduled
    {
      hide TreeFits, QueueFits, WorksFit, Elems, Ordered, TooDifferent;
      wlScheduled := true;
      WorksGainMove(works, place);
      works := works + [MoveWork];
      worksCount := worksCount + 1;
    }

    /** What is to be moved where, if anything: a PEB marked for scrubbing first, else the least
        worn used one if a free one is worn enough. */
    method ChooseMove() returns (e1: int, e2: int, scrubbing: bool)
      requires Valid()
      ensures e1 >= 0 ==> e2 >= 0 && At(Now(), e2, Free) && At(Now(), e1, if scrubbing then Scrub else Used)
      ensures e1 >= 0 <==> free.Node? && MoveNeeded()
      ensures e1 >= 0 ==> Chosen(free, used, scrub, ecs, e1, e2, scrubbing)
    {
      hide TreeFits, QueueFits, WorksFit, Elems, Ordered, Closest;
      EmptyTree(used, place, ecs, Used);
      EmptyTree(free, place, ecs, Free);
      EmptyTree(scrub, place, ecs, Scrub);
      scrubbing := false;
      if free.Leaf? || (used.Leaf? && scrub.Leaf?) {
        return -1, -1, scrubbing;
      }
      var to := FindWlEntry(free, WL_FREE_MAX_DIFF);
      TreeKnows(free, place, ecs, Free, to);
      var from;
      if scrub.Leaf? {
        from := First(used);
        MinIsOne(used, from);
        TreeKnows(used, place, ecs, Used, from);
        OnlyClosest(used, free, to);
        if to.ec - from.ec < WL_THRESHOLD {
          return -1, -1, scrubbing;
        }
      } else {
        scrubbing := true;
        from := First(scrub);
        MinIsOne(scrub, from);
        TreeKnows(scrub, place, ecs, Scrub, from);
      }
      assert At(Now(), to.pnum, Free) && At(Now(), from.pnum, if scrubbing then Scrub else Used);
      e1, e2 := from.pnum, to.pnum;
    }

    /** The source and the target of the move are taken out of their trees. */
    method TakeBoth(e1: nat, e2: nat, scrubbing: bool)
      requires Valid() && At(Now(), e2, Free) && At(Now(), e1, if scrubbing then Scrub else Used)
      modifies this`free, this`used, this`scrub, this`place
      ensures Valid() && Now() == Put(Put(old(Now()), e1, Held), e2, Held)
    {
      hide Valid, MoveFits;
      if scrubbing {
        TakeScrub(e1);
      } else {
        TakeUsed(e1);
      }
      TakeFree(e2);
    }

    /** The first critical section of wear_leveling_worker. */
    method BeginMove() returns (e1: int, e2: int, scrubbing: bool)
      requires Valid() && moveFrom < 0 && wlScheduled && MoveWork !in works
      modifies this`free, this`used, this`scrub, this`place, this`moveFrom, this`moveTo, this`wlScheduled
      ensures Valid()
      ensures e1 < 0 ==> Now() == old(Now()) && !wlScheduled
      ensures e1 >= 0 <==> old(free).Node? && old(MoveNeeded())
      ensures e1 >= 0 ==> e2 >= 0 && At(old(Now()), e2, Free) && At(old(Now()), e1, if scrubbing then Scrub else Used)
      ensures e1 >= 0 ==> Chosen(old(free), old(used), old(scrub), ecs, e1, e2, scrubbing)
      ensures e1 >= 0 ==> wlScheduled && Now() == Select(old(Now()), e1, e2)
    {
      hide TreeFits, QueueFits, WorksFit, Elems;
      e1, e2, scrubbing := ChooseMove();
      if e1 < 0 {
        wlScheduled := false;
        return;
      }
      assert e1 != e2;
      hide Valid, Put, Select, MoveFits;
      TakeBoth(e1, e2, scrubbing);
      SelectIgnoresPlaces(old(Now()), e1, e2);
      MarkMove(e1, e2);
    }

    method MarkMove(e1: nat, e2: nat)
      requires Valid() && moveFrom < 0 && wlScheduled && MoveWork !in works && e1 != e2
      requires At(Now(), e1, Held) && At(Now(), e2, Held)
      modifies this`place, this`moveFrom, this`moveTo
      ensures Valid() && Now() == Select(old(Now()), e1, e2)
    {
      hide TreeFits, QueueFits, WorksFit, Elems;
      ghost var one := place[e1 := From];
      Elsewhere(this, e1, From);
      StaysElsewhere(free, used, scrub, erroneous, pq, works, one, ecs, e2, To);
      place := one[e2 := To];
      moveFrom, moveTo := e1, e2;
    }

    /** The critical section after a successful move; e2 is the target if it has to be erased too. */
    method EndMoved() returns (e1: nat, e2: int)
      requires Valid() && moveFrom >= 0
      modifies this`used, this`place, this`moveFrom, this`moveTo, this`moveToPut, this`wlScheduled
      ensures Valid() && Now() == Moved(old(Now())) && !wlScheduled
      ensures e1 == old(moveFrom) && e2 == if old(moveToPut) then old(moveTo) else -1
    {
      hide TreeFits, QueueFits, WorksFit, Elems;
      e1, e2 := moveFrom, moveTo;
      var put := moveToPut;
      UnmarkMove();
      if !put {
        GiveUsed(e2);
        e2 := -1;
      }
    }

    method UnmarkMove()
      requires Valid() && moveFrom >= 0
      modifies this`place, this`moveFrom, this`moveTo, this`moveToPut, this`wlScheduled
      ensures Valid() && !wlScheduled && moveFrom == moveTo == -1 && !moveToPut
      ensures place == old(place)[old(moveFrom) := Held][old(moveTo) := Held]
    {
      hide TreeFits, QueueFits, WorksFit, Elems;
      ghost var one := place[moveFrom := Held];
      Elsewhere(this, moveFrom, Held);
      StaysElsewhere(free, used, scrub, erroneous, pq, works, one, ecs, moveTo, Held);
      place := one[moveTo := Held];
      moveFrom, moveTo, moveToPut, wlScheduled := -1, -1, false, false;
    }

    /** The source of a move that was given up goes back to where it came from, or elsewhere. */
    method GiveBack(e1: nat, protect: bool, isErroneous: bool, scrubbing: bool)
      requires Valid() && At(Now(), e1, Held) && (isErroneous ==> erroneousCount <= maxErroneous)
      modifies this`used, this`scrub, this`erroneous, this`erroneousCount, this`pq, this`place
      ensures Valid() && Now() == Put(old(Now()), e1, BackPlace(Tail(old(Now())), protect, isErroneous, scrubbing))
      ensures erroneousCount == old(erroneousCount) + if isErroneous && !protect then 1 else 0
    {
      hide Valid, Put, MoveFits;
      if protect {
        Protect(e1);
      } else if isErroneous {
        GiveErroneous(e1);
      } else if scrubbing {
        GiveScrub(e1);
      } else {
        GiveUsed(e1);
      }
    }

    /** The critical section after a move that was given up. */
    method EndNotMoved(protect: bool, isErroneous: bool, scrubbing: bool) returns (e2: nat)
      requires Valid() && moveFrom >= 0 && !moveToPut && (isErroneous ==> erroneousCount <= maxErroneous)
      modifies this`used, this`scrub, this`erroneous, this`erroneousCount, this`pq
      modifies this`place, this`moveFrom, this`moveTo, this`moveToPut, this`wlScheduled
      ensures Valid() && !wlScheduled && e2 == old(moveTo)
      ensures Now() == NotMoved(old(Now()), BackPlace(Tail(old(Now())), protect, isErroneous, scrubbing))
      ensures erroneousCount == old(erroneousCount) + if isErroneous && !protect then 1 else 0
    {
      hide TreeFits, QueueFits, WorksFit, Elems, BackPlace;
      var e1 := moveFrom;
      e2 := moveTo;
      UnmarkMove();
      GiveBack(e1, protect, isErroneous, scrubbing);
    }

    /** The erasure is over, and nothing has been decided yet. */
    method Hold(p: nat)
      requires Valid() && At(Now(), p, Erasing)
      modifies this`place
      ensures Valid() && Now() == Put(old(Now()), p, Held)
    {
      hide TreeFits, QueueFits, WorksFit, Elems;
      Elsewhere(this, p, Held);
      place := place[p := Held];
    }

    /** sync_erase stores the new erase counter. */
    method SetEc(p: nat, ec: nat)
      requires Valid() && At(Now(), p, Held)
      modifies this`ecs
      ensures Valid() && ecs == old(ecs)[p := ec]
    {
      hide TreeFits, QueueFits, WorksFit, Elems;
      EcChanges(free, place, ecs, Free, p, ec);
      EcChanges(used, place, ecs, Used, p, ec);
      EcChanges(scrub, place, ecs, Scrub, p, ec);
      EcChanges(erroneous, place, ecs, Erroneous, p, ec);
      ecs := ecs[p := ec];
    }

    /** The end of a successful erasure: the counter has grown, and the PEB is free. */
    method EraseDone(p: nat, ec: nat)
      requires Valid() && At(Now(), p, Erasing)
      modifies this`free, this`ecs, this`place
      ensures Valid() && Now() == Put(old(Now()), p, Free) && ecs == old(ecs)[p := ec]
    {
      hide Valid;
      Hold(p);
      SetEc(p, ec);
      GiveFree(p);
    }

    /** The PEB has gone bad, or its entry is freed: wear-leveling does not know of it any more. */
    method Forget(p: nat)
      requires Valid() && At(Now(), p, Held)
      modifies this`ecs, this`place
      ensures Valid() && Now() == Gone(old(Now()), p) && ecs == MapWithout(old(ecs), p)
    {
      hide Elems, Ordered, TreeFits, QueueFits, WorksFit;
      EntryGone(free, place, ecs, Free, p);
      EntryGone(used, place, ecs, Used, p);
      EntryGone(scrub, place, ecs, Scrub, p);
      EntryGone(erroneous, place, ecs, Erroneous, p);
      GoneFromQueue(pq, place, p);
      GoneFromWorks(works, place, p);
      place := MapWithout(place, p);
      ecs := MapWithout(ecs, p);
    }

    method TakeFromSlot(p: nat)
      requires Valid() && At(Now(), p, Protected(pqHead)) && pqHead < |pq| && p in pq[pqHead]
      modifies this`pq, this`place
      ensures Valid() && Now() == Put(old(Now()), p, Held) && |pq| == |old(pq)| && |pq[pqHead]| < |old(pq)[pqHead]|
    {
      hide Valid;
      assert |WithoutPeb(pq[pqHead], p)| < |pq[pqHead]|;
      hide WithoutPeb;
      TakeProtected(p);
    }

    method Unprotect(p: nat)
      requires Valid() && At(Now(), p, Protected(pqHead)) && pqHead < |pq| && p in pq[pqHead]
      modifies this`used, this`pq, this`place
      ensures Valid() && place == old(place)[p := Held][p := Used] && |pq| == |old(pq)| && |pq[pqHead]| < |old(pq)[pqHead]|
    {
      hide Valid;
      TakeFromSlot(p);
      GiveUsed(p);
    }

    method ForgetBoth(e1: nat, e2: nat)
      requires Valid() && At(Now(), e1, Held) && At(Now(), e2, Held) && e1 != e2
      modifies this`ecs, this`place
      ensures Valid() && Now() == Gone(Gone(old(Now()), e1), e2)
    {
      HeldStill(Now(), e1, e2);
      hide Valid, MapWithout, MoveFits, At, Gone;
      Forget(e1);
      Forget(e2);
    }

    /** The end of a move after which both entries are freed. */
    method DropMove(e1: nat, e2: nat)
      requires Valid() && e1 == moveFrom && e2 == moveTo && e1 != e2
      modifies this`ecs, this`place, this`moveFrom, this`moveTo, this`moveToPut, this`wlScheduled
      ensures Valid() && !wlScheduled && moveFrom == moveTo == -1 && !moveToPut
      ensures place == MapWithout(MapWithout(old(place), e1), e2)
    {
      BothGone(place, e1, e2);
      hide Valid, MapWithout, MoveFits, At;
      UnmarkMove();
      BothHeld(Now(), old(place), e1, e2);
      ForgetBoth(e1, e2);
    }

    lemma FirstOfSlot()
      requires Valid()
      ensures pqHead < |pq| && (pq[pqHead] != [] ==> pq[pqHead][0] in pq[pqHead] && At(Now(), pq[pqHead][0], Protected(pqHead)))
    {
      assert pqHead < |pq|;
      if pq[pqHead] != [] {
        assert pq[pqHead][0] in pq[pqHead];
        SlotKnows(pq, place, pqHead, pq[pqHead][0]);
      }
    }

    /** One PEB of the oldest slot is not protected any more. */
    method ServeOne(ghost before: map<nat, Place>)
      requires Valid() && pq[pqHead] != [] && Serving(before, place, pqHead)
      modifies this`used, this`pq, this`place
      ensures Valid() && Serving(before, place, pqHead) && Now() == old(Now()).(place := place)
      ensures |pq[pqHead]| < |old(pq)[pqHead]|
    {
      hide Valid, Serving;
      FirstOfSlot();
      var p := pq[pqHead][0];
      ServesOne(before, place, pqHead, p);
      Unprotect(p);
    }

    method EmptyOldest()
      requires Valid()
      modifies this`used, this`pq, this`place
      ensures Valid() && Now() == old(Now()).(place := place) && Serving(old(place), place, pqHead) && pq[pqHead] == []
    {
      hide TreeFits, QueueFits, WorksFit, Elems, Ordered, Serving;
      ServingStarts(place, pqHead);
      while pq[pqHead] != []
        invariant Valid() && Now() == old(Now()).(place := place) && Serving(old(place), place, pqHead)
        decreases |pq[pqHead]|
      {
        ServeOne(old(place));
      }
    }

    /** serve_prot_queue: the oldest slot is emptied into the used tree, and becomes the newest. */
    method ServeProtQueue()
      requires Valid()
      modifies this`used, this`pq, this`pqHead, this`place
      ensures Valid() && Now() == Serve(old(Now()))
    {
      hide TreeFits, QueueFits, WorksFit, Elems, Ordered, Serving;
      EmptyOldest();
      EmptySlot(pq, place, pqHead);
      ServedIsServe(old(Now()), place);
      pqHead := pqHead + 1;
      if pqHead == PROT_QUEUE_LEN {
        pqHead := 0;
      }
    }

    // ---- Attaching -----------------------------------------------------------------------------

    constructor (maxErroneous: nat)
      ensures Valid() && place == map[] && this.maxErroneous == maxErroneous && !wlScheduled && works == []
    {
      ecs, place := map[], map[];
      free, used, scrub, erroneous := Leaf, Leaf, Leaf, Leaf;
      pq, pqHead := seq(PROT_QUEUE_LEN, _ => []), 0;
      works, worksCount, erroneousCount := [], 0, 0;
      moveFrom, moveTo, moveToPut, wlScheduled := -1, -1, false, false;
      this.maxErroneous := maxErroneous;
    }

    /** A new entry of the lookup table. */
    method Know(e: Entry)
      requires Valid() && e.pnum !in place
      modifies this`ecs, this`place
      ensures Valid() && Now() == Put(old(Now()), e.pnum, Held) && ecs == old(ecs)[e.pnum := e.ec]
    {
      hide Elems, Ordered, TreeFits, QueueFits, WorksFit;
      NewEntry(free, place, ecs, Free, e);
      NewEntry(used, place, ecs, Used, e);
      NewEntry(scrub, place, ecs, Scrub, e);
      NewEntry(erroneous, place, ecs, Erroneous, e);
      NewInQueue(pq, place, e.pnum);
      NewInWorks(works, place, e.pnum);
      place := place[e.pnum := Held];
      ecs := ecs[e.pnum := e.ec];
    }

    method AddFound(e: Entry, x: Place)
      requires Valid() && e.pnum !in place && x in {Free, Used, Scrub, ToErase}
      modifies this
      ensures Valid() && place == old(place)[e.pnum := x] && ecs == old(ecs)[e.pnum := e.ec]
      ensures wlScheduled == old(wlScheduled) && (MoveWork in works <==> MoveWork in old(works))
      ensures works == if x == ToErase then old(works) + [EraseWork(e.pnum, false)] else old(works)
    {
      hide TreeFits, QueueFits, WorksFit, Elems, Ordered, MoveFits;
      Know(e);
      if x == Free {
        GiveFree(e.pnum);
      } else if x == Used {
        GiveUsed(e.pnum);
      } else if x == Scrub {
        GiveScrub(e.pnum);
      } else {
        ScheduleErase(e.pnum, false);
      }
    }

    lemma NothingToErase()
      requires Valid() && place == map[]
      ensures forall w | w in works :: w.MoveWork?
    {
      assert forall i | 0 <= i < |works| :: works[i].MoveWork?;
    }

    /** ubi_wl_init_scan: each PEB the scan has found gets its entry in the place the scan says, and
        erasures are scheduled for those to be erased. */
    method InitScan(found: seq<(Entry, Place)>)
      requires Valid() && place == map[] && !wlScheduled
      requires forall i | 0 <= i < |found| :: found[i].1 in {Free, Used, Scrub, ToErase}
      requires forall i, j | 0 <= i < j < |found| :: found[i].0.pnum != found[j].0.pnum
      modifies this
      ensures Valid() && KnownAre(found, |found|, place, ecs) && (wlScheduled <==> MoveWork in works) && (wlScheduled <==> MoveNeeded())
      ensures forall w | w in works :: w.MoveWork? || !w.torture
    {
      hide TreeFits, QueueFits, WorksFit, Elems, Ordered, MoveFits;
      NothingToErase();
      for n := 0 to |found|
        invariant Valid() && KnownAre(found, n, place, ecs) && !wlScheduled
        invariant forall w | w in works :: w.MoveWork? || !w.torture
      {
        AddFound(found[n].0, found[n].1);
      }
      EnsureWearLeveling();
      assert wlScheduled ==> works[|works| - 1] == MoveWork;
    }
  }
}
