/** The two copies of the volume table: how a change writes them, and what is made of them when
    the device is attached.  Copies that were replaced are erased one after the other. */
module LayoutVolume {
  import opened Wrappers

  /** A copy of the table in some PEB: all of it, or something whose checksums do not match. */
  datatype Copy<T> = Whole(value: T) | Torn

  /** The mapped copy of a LEB.  Writing: its first PEB is just being written.  Replacing: while the
      device is attached, a second PEB is written without unmapping the first one. */
  datatype Current<T> = Unmapped | Writing(new_: T) | Mapped(copy: Copy<T>) | Replacing(copy: Copy<T>, new_: T)

  /** A copy that waits for its erasure. */
  datatype Stale<T> = Stale(sqnum: nat, copy: Copy<T>)

  /** queue: the order of the erasures; sqnum: that of the current copy, or a larger one. */
  datatype Leb<T> = Leb(queue: seq<Stale<T>>, current: Current<T>, sqnum: nat)

  datatype Layout<T> = Layout(leb0: Leb<T>, leb1: Leb<T>)

  /** The newest of some copies. */
  predicate IsNewest<T>(queue: seq<Stale<T>>, k: int) {
    0 <= k < |queue| && forall j :: 0 <= j < |queue| ==> queue[j].sqnum <= queue[k].sqnum
  }

  function Newest<T>(queue: seq<Stale<T>>): (k: nat)
    requires queue != []
    ensures IsNewest(queue, k)
  {
    if |queue| == 1 then 0
    else
      var k := Newest(queue[1..]);
      assert forall j | 1 <= j < |queue| :: queue[1..][j - 1] == queue[j];
      if queue[0].sqnum > queue[k + 1].sqnum then 0 else k + 1
  }

  /** The scan keeps the newest copy that is left.  The first one of the queue may just be being
      erased. */
  ghost predicate FromQueue<T(!new)>(queue: seq<Stale<T>>, found: Option<Copy<T>>) {
    if queue == [] then found.None?
    else
      || (exists k :: IsNewest(queue, k) && found == Some(queue[k].copy))
      || (IsNewest(queue, 0) && (found == Some(Torn) || FromQueue(queue[1..], found)))
  }

  /** What may be found of the LEB after a power cut. */
  ghost predicate LebCut<T(!new)>(l: Leb<T>, found: Option<Copy<T>>) {
    match l.current
    case Mapped(c) => found == Some(c)
    case Unmapped => FromQueue(l.queue, found)
    case Writing(t) => FromQueue(l.queue, found) || found == Some(Torn) || found == Some(Whole(t))
    case Replacing(c, t) => found == Some(c) || found == Some(Torn) || found == Some(Whole(t))
  }

  /** The table process_lvol returns: the first copy if it is sound, or else the second one. */
  function Result<T>(found0: Option<Copy<T>>, found1: Option<Copy<T>>): Option<T> {
    if found0.Some? && found0.value.Whole? then Some(found0.value.value)
    else if found1.Some? && found1.value.Whole? then Some(found1.value.value)
    else None
  }

  // ---- Changing the table --------------------------------------------------------------------

  /** Unmapped: its copy is the last one of the queue. */
  function Dropped<T>(l: Leb<T>): Leb<T> {
    if l.current.Mapped? then Leb(l.queue + [Stale(l.sqnum, l.current.copy)], Unmapped, l.sqnum + 1)
    else Leb(l.queue, Unmapped, l.sqnum)
  }

  function Started<T>(l: Leb<T>, t: T): Leb<T> {
    l.(current := Writing(t))
  }

  function Written<T>(l: Leb<T>, t: T): Leb<T> {
    l.(current := Mapped(Whole(t)))
  }

  /** The states of ubi_change_vtbl_record: first one copy is unmapped and written, then the other. */
  function ChangeStates<T>(s: Layout<T>, t: T): (r: seq<Layout<T>>)
    ensures |r| == 6
  {
    var a, b := Dropped(s.leb0), Dropped(s.leb1);
    [Layout(a, s.leb1), Layout(Started(a, t), s.leb1), Layout(Written(a, t), s.leb1),
     Layout(Written(a, t), b), Layout(Written(a, t), Started(b, t)), Layout(Written(a, t), Written(b, t))]
  }

  /** A write that has failed leaves its LEB unmapped. */
  function GivenUp<T>(l: Leb<T>): Leb<T> {
    if l.current.Writing? then l.(current := Unmapped) else l
  }

  /** A change that stops after n of the six steps. */
  function StoppedAfter<T>(s: Layout<T>, t: T, n: nat): Layout<T>
    requires n <= 6
  {
    var r := if n == 0 then s else ChangeStates(s, t)[n - 1];
    Layout(GivenUp(r.leb0), GivenUp(r.leb1))
  }

  predicate Holds<T(==)>(s: Layout<T>, t: T) {
    s.leb0.current == Mapped(Whole(t)) && s.leb1.current == Mapped(Whole(t))
  }

  // ---- Attaching -----------------------------------------------------------------------------

  /** The LEB as it has been found, with whatever older copies are left, in any order. */
  function FoundLeb<T>(queue: seq<Stale<T>>, found: Option<Copy<T>>, sqnum: nat): Leb<T> {
    if found.None? then Leb([], Unmapped, sqnum) else Leb(queue, Mapped(found.value), sqnum)
  }

  function Restoring<T>(l: Leb<T>, t: T): Leb<T> {
    if l.current.Mapped? then l.(current := Replacing(l.current.copy, t)) else l.(current := Writing(t))
  }

  function Restored<T>(l: Leb<T>, t: T): Leb<T> {
    if l.current.Replacing? then Leb(l.queue + [Stale(l.sqnum, l.current.copy)], Mapped(Whole(t)), l.sqnum + 1)
    else l.(current := Mapped(Whole(t)))
  }

  function Found<T>(l: Leb<T>): Option<Copy<T>> {
    if l.current.Mapped? then Some(l.current.copy) else None
  }

  /** Which copy has to be written anew. */
  datatype Repair = Neither | First | Second

  function ToRepair<T(==)>(l0: Leb<T>, l1: Leb<T>, t: T): Repair {
    if l0.current != Mapped(Whole(t)) then First else if l1.current != Mapped(Whole(t)) then Second else Neither
  }

  function BeginRepair<T>(s: Layout<T>, r: Repair, t: T): Layout<T> {
    match r
    case Neither => s
    case First => s.(leb0 := Restoring(s.leb0, t))
    case Second => s.(leb1 := Restoring(s.leb1, t))
  }

  function EndRepair<T>(s: Layout<T>, r: Repair, t: T): Layout<T> {
    match r
    case Neither => s
    case First => s.(leb0 := Restored(s.leb0, t))
    case Second => s.(leb1 := Restored(s.leb1, t))
  }

  /** Nobody is writing the LEB. */
  predicate Settled<T>(l: Leb<T>) {
    l.current.Mapped? || l.current.Unmapped?
  }

  class Volume<T(==,!new)> {
    var leb0: Leb<T>
    var leb1: Leb<T>
    ghost var trace: seq<Layout<T>>

    ghost function Now(): Layout<T>
      reads this
    {
      Layout(leb0, leb1)
    }

    constructor (found: Layout<T>)
      ensures Now() == found && trace == []
    {
      leb0, leb1, trace := found.leb0, found.leb1, [];
    }

    /** The loop of ubi_change_vtbl_record and of ubi_vtbl_rename_volumes, which ends with the first
        error: after n of the six steps, or not at all if n is 6. */
    method ChangeTable(t: T, n: nat) returns (ok: bool)
      requires n <= 6 && Settled(leb0) && Settled(leb1)
      modifies this
      ensures ok <==> n == 6
      ensures Now() == StoppedAfter(old(Now()), t, n)
      ensures trace == old(trace) + ChangeStates(old(Now()), t)[..n] + if n == 2 || n == 5 then [Now()] else []
    {
      var i := 0;
      while i < 2
        invariant 0 <= i <= 2 && 3 * i <= n
        invariant i == 0 ==> Now() == old(Now()) && trace == old(trace)
        invariant i > 0 ==> Now() == ChangeStates(old(Now()), t)[3 * i - 1]
        invariant trace == old(trace) + ChangeStates(old(Now()), t)[..3 * i]
      {
        if n == 3 * i {
          return false;
        }
        SetLeb(i, Dropped(if i == 0 then leb0 else leb1));
        if n == 3 * i + 1 {
          return false;
        }
        SetLeb(i, Started(if i == 0 then leb0 else leb1, t));
        if n == 3 * i + 2 {
          SetLeb(i, GivenUp(if i == 0 then leb0 else leb1));
          return false;
        }
        SetLeb(i, Written(if i == 0 then leb0 else leb1, t));
        i := i + 1;
      }
      return true;
    }

    method SetLeb(i: nat, l: Leb<T>)
      requires i < 2
      modifies this
      ensures Now() == (if i == 0 then Layout(l, old(leb1)) else Layout(old(leb0), l)) && trace == old(trace) + [Now()]
    {
      if i == 0 {
        leb0 := l;
      } else {
        leb1 := l;
      }
      trace := trace + [Now()];
    }

    /** process_lvol: the copy that is missing, corrupted or different is written anew.  If that fails, so
        does attaching. */
    method ProcessLvol(fails: bool) returns (r: Option<T>)
      requires Settled(leb0) && Settled(leb1)
      modifies this
      ensures var t := Result(Found(old(leb0)), Found(old(leb1)));
        if t.None? then r.None? && Now() == old(Now()) && trace == old(trace)
        else
          var which := ToRepair(old(leb0), old(leb1), t.value);
          var begun := BeginRepair(old(Now()), which, t.value);
          && r == (if fails && !which.Neither? then None else t)
          && (r.Some? ==> Holds(Now(), t.value) && Now() == EndRepair(begun, which, t.value))
          && (r.None? ==> Now() == begun)
          && trace == old(trace) + if which.Neither? then [] else if fails then [begun] else [begun, Now()]
    {
      if leb0.current.Mapped? && leb0.current.copy.Whole? {
        var t := leb0.current.copy.value;
        if leb1.current != Mapped(Whole(t)) {
          var ok := CreateVtbl(1, t, fails);
          if !ok {
            return None;
          }
        }
        return Some(t);
      }
      if leb1.current.Mapped? && leb1.current.copy.Whole? {
        var t := leb1.current.copy.value;
        var ok := CreateVtbl(0, t, fails);
        return if ok then Some(t) else None;
      }
      return None;
    }

    /** create_vtbl, without unmapping what is there. */
    method CreateVtbl(i: nat, t: T, fails: bool) returns (ok: bool)
      requires i < 2
      modifies this
      ensures ok == !fails
      ensures var l := if i == 0 then old(leb0) else old(leb1);
        var begun := if i == 0 then Layout(Restoring(l, t), old(leb1)) else Layout(old(leb0), Restoring(l, t));
        var ended := if i == 0 then Layout(Restored(Restoring(l, t), t), old(leb1)) else Layout(old(leb0), Restored(Restoring(l, t), t));
        Now() == (if fails then begun else ended) && trace == old(trace) + if fails then [begun] else [begun, ended]
    {
      var l := if i == 0 then leb0 else leb1;
      SetLeb(i, Restoring(l, t));
      if !fails {
        SetLeb(i, Restored(Restoring(l, t), t));
      }
      ok := !fails;
    }
  }

  // ---- Whole histories -----------------------------------------------------------------------

  /** Changing(n): the change has made n of its six steps.  Stopped: it has failed.  Attaching: a copy is
      being restored. */
  datatype Phase = Steady | Changing(n: nat) | Stopped | Attaching(which: Repair)

  /** tables: all that were ever asked for, the last one being written if a change is under way; age
      is the number of the one that holds; failed: those whose change has failed since, before their first
      copy was written. */
  datatype State<T> = State(lay: Layout<T>, phase: Phase, tables: seq<T>, age: nat, failed: seq<T>)

  predicate Dated<T>(s: State<T>) {
    s.age < |s.tables|
  }

  function Cur<T>(s: State<T>): T
    requires Dated(s)
  {
    s.tables[s.age]
  }

  function Last<T>(s: State<T>): T
    requires Dated(s)
  {
    s.tables[|s.tables| - 1]
  }

  /** Retry: the PEB in which a copy could not be written is given up, and another one is taken.  Fail: the
      change ends with an error. */
  datatype Step<T> =
    | Begin(t: T)
    | Advance
    | Retry(left: Copy<T>)
    | Fail
    | Erase(i: nat, k: nat)
    | Cut(found0: Option<Copy<T>>, found1: Option<Copy<T>>, queue0: seq<Stale<T>>, queue1: seq<Stale<T>>, sqnum: nat)
    | EndAttach

  function Nth<T>(s: Layout<T>, i: nat): Leb<T>
    requires i < 2
  {
    if i == 0 then s.leb0 else s.leb1
  }

  /** The copies left are older than the one found. */
  predicate Older<T>(queue: seq<Stale<T>>, sqnum: nat) {
    forall j :: 0 <= j < |queue| ==> queue[j].sqnum < sqnum
  }

  /** An erasure is in order if it is the one at the head of the queue. */
  ghost predicate Enabled<T(!new)>(s: State<T>, a: Step<T>) {
    Dated(s) &&
    match a
    case Begin(_) => s.phase.Steady? || s.phase.Stopped?
    case Advance => s.phase.Changing? && s.phase.n < 6
    case Retry(c) => s.phase.Changing? && (s.phase.n == 2 || s.phase.n == 5) && (c == Torn || c == Whole(Last(s)))
    case Fail => s.phase.Changing? && s.phase.n < 6
    case Erase(i, k) => i < 2 && k < |Nth(s.lay, i).queue|
    case Cut(f0, f1, q0, q1, sqnum) =>
      LebCut(s.lay.leb0, f0) && LebCut(s.lay.leb1, f1) && Older(q0, sqnum) && Older(q1, sqnum) && Result(f0, f1).Some?
    case EndAttach => s.phase.Attaching?
  }

  predicate InOrder<T>(a: Step<T>) {
    a.Erase? ==> a.k == 0
  }

  /** The second copy has the table that holds, which is the case unless a change has failed after it had
      written the first one. */
  predicate Careful<T(==)>(s: State<T>, a: Step<T>) {
    a.Begin? ==> Dated(s) && s.lay.leb1.current == Mapped(Whole(Cur(s)))
  }

  function EraseAt<T>(l: Leb<T>, k: nat): Leb<T>
    requires k < |l.queue|
  {
    l.(queue := RemoveAt(l.queue, k))
  }

  /** The next of the six steps, whatever has been erased meanwhile. */
  function Advanced<T>(s: Layout<T>, n: nat, t: T): Layout<T> {
    match n
    case 0 => s.(leb0 := Dropped(s.leb0))
    case 1 => s.(leb0 := Started(s.leb0, t))
    case 2 => s.(leb0 := Written(s.leb0, t))
    case 3 => s.(leb1 := Dropped(s.leb1))
    case 4 => s.(leb1 := Started(s.leb1, t))
    case _ => s.(leb1 := Written(s.leb1, t))
  }

  /** A copy that could not be written is given up and waits for its erasure. */
  function Leave<T>(l: Leb<T>, c: Copy<T>): Leb<T> {
    l.(queue := l.queue + [Stale(l.sqnum, c)], sqnum := l.sqnum + 1)
  }

  function Position<T(==)>(tables: seq<T>, t: T): (k: nat)
    ensures t in tables ==> k < |tables| && tables[k] == t && forall j :: k < j < |tables| ==> tables[j] != t
  {
    if tables == [] then 0
    else if tables[|tables| - 1] == t then |tables| - 1
    else Position(tables[..|tables| - 1], t)
  }

  /** The number of a table that is found. */
  function AgeOf<T(==)>(s: State<T>, t: T): nat
    requires Dated(s)
  {
    if s.phase.Changing? && s.phase.n >= 2 && t == Last(s) then |s.tables| - 1
    else if t in s.failed then Position(s.tables, t)
    else s.age
  }

  function Do<T(==)>(s: State<T>, a: Step<T>): State<T>
    requires Dated(s)
    requires a.Advance? || a.Fail? || a.Retry? ==> s.phase.Changing?
    requires a.Erase? ==> a.i < 2 && a.k < |Nth(s.lay, a.i).queue|
    requires a.Cut? ==> Result(a.found0, a.found1).Some?
    requires a.EndAttach? ==> s.phase.Attaching?
  {
    match a
    case Begin(t) => s.(phase := Changing(0), tables := s.tables + [t])
    case Advance =>
      var r := s.(lay := Advanced(s.lay, s.phase.n, Last(s)));
      if s.phase.n < 5 then r.(phase := Changing(s.phase.n + 1)) else r.(phase := Steady, age := |s.tables| - 1, failed := [])
    case Retry(c) =>
      if s.phase.n < 3 then s.(lay := s.lay.(leb0 := Leave(s.lay.leb0, c))) else s.(lay := s.lay.(leb1 := Leave(s.lay.leb1, c)))
    case Fail =>
      var r := s.(lay := Layout(GivenUp(s.lay.leb0), GivenUp(s.lay.leb1)), phase := Stopped);
      if s.phase.n < 3 then r.(failed := s.failed + [Last(s)]) else r.(age := |s.tables| - 1, failed := [])
    case Erase(i, k) =>
      if i == 0 then s.(lay := s.lay.(leb0 := EraseAt(s.lay.leb0, k))) else s.(lay := s.lay.(leb1 := EraseAt(s.lay.leb1, k)))
    case Cut(f0, f1, q0, q1, sqnum) =>
      var t := Result(f0, f1).value;
      var l0, l1 := FoundLeb(q0, f0, sqnum), FoundLeb(q1, f1, sqnum);
      var which := ToRepair(l0, l1, t);
      State(BeginRepair(Layout(l0, l1), which, t), if which.Neither? then Steady else Attaching(which), s.tables, AgeOf(s, t), [])
    case EndAttach => s.(lay := EndRepair(s.lay, s.phase.which, Cur(s)), phase := Steady)
  }

  /** Changing a table step by step passes through the states of ChangeTable, and fails as it does. */
  lemma {:induction false} AdvancingIsChanging<T>(s: State<T>, lay: Layout<T>, n: nat)
    requires Dated(s) && s.phase == Changing(n) && n < 6 && s.lay == if n == 0 then lay else ChangeStates(lay, Last(s))[n - 1]
    ensures Do(s, Advance).lay == ChangeStates(lay, Last(s))[n] && Do(s, Fail).lay == StoppedAfter(lay, Last(s), n)
  {
  }

  /** The newest of the copies that wait is the last one of them, or it is gone. */
  predicate LastIsNewest<T>(queue: seq<Stale<T>>) {
    queue != [] ==> IsNewest(queue, |queue| - 1) && forall j :: 0 <= j < |queue| - 1 ==> queue[j].sqnum < queue[|queue| - 1].sqnum
  }

  /** Unmapped, or being written for the first time: nothing but these tables can come back. */
  predicate ComesBack<T(==)>(queue: seq<Stale<T>>, ts: seq<T>) {
    LastIsNewest(queue) && (queue != [] ==> var c := queue[|queue| - 1].copy; c.Torn? || c.value in ts)
  }

  /** The tables whose whole copies may be found as long as the first copy is not written again. */
  function Former<T>(s: State<T>): seq<T>
    requires Dated(s)
  {
    [Cur(s)] + s.failed
  }

  /** As it is from the beginning of a change until its first copy is written. */
  ghost predicate SecondHolds<T>(s: State<T>)
    requires Dated(s)
  {
    && s.lay.leb1.current == Mapped(Whole(Cur(s)))
    && (s.lay.leb0.current == Mapped(Whole(Cur(s))) || (s.lay.leb0.current.Unmapped? && ComesBack(s.lay.leb0.queue, Former(s))))
  }

  ghost predicate Inv<T>(s: State<T>) {
    && Dated(s) && Older(s.lay.leb0.queue, s.lay.leb0.sqnum) && Older(s.lay.leb1.queue, s.lay.leb1.sqnum)
    && (forall t :: t in s.failed ==> t in s.tables[s.age + 1..])
    && match s.phase
       case Steady => Holds(s.lay, Cur(s))
       case Stopped => SecondHolds(s) || (s.lay.leb0.current == Mapped(Whole(Cur(s))) && Settled(s.lay.leb1) && s.failed == [])
       case Attaching(Neither) => false
       case Attaching(First) =>
         && s.lay.leb1.current == Mapped(Whole(Cur(s))) && s.failed == []
         && if s.lay.leb0.current.Replacing? then s.lay.leb0.current == Replacing(Torn, Cur(s))
            else s.lay.leb0.current == Writing(Cur(s)) && s.lay.leb0.queue == []
       case Attaching(Second) =>
         && s.lay.leb0.current == Mapped(Whole(Cur(s))) && s.failed == []
         && (s.lay.leb1.current == Writing(Cur(s)) || (s.lay.leb1.current.Replacing? && s.lay.leb1.current.new_ == Cur(s)))
       case Changing(n) =>
         && s.age < |s.tables| - 1
         && if n == 0 then SecondHolds(s)
            else if n <= 2 then
              && ComesBack(s.lay.leb0.queue, if n == 1 then Former(s) else Former(s) + [Last(s)])
              && s.lay.leb1.current == Mapped(Whole(Cur(s)))
              && s.lay.leb0.current == if n == 1 then Unmapped else Writing(Last(s))
            else
              && n < 6 && s.lay.leb0.current == Mapped(Whole(Last(s)))
              && (n == 3 ==> s.lay.leb1.current == Mapped(Whole(Cur(s))))
              && (n == 4 ==> s.lay.leb1.current == Unmapped) && (n == 5 ==> s.lay.leb1.current == Writing(Last(s)))
  }

  /** The tables that may be found: once the first copy is written, only the new one. */
  function Candidates<T(==)>(s: State<T>): seq<T>
    requires Dated(s)
  {
    if s.phase.Changing? && s.phase.n == 2 then Former(s) + [Last(s)]
    else if s.phase.Changing? && s.phase.n > 2 then [Last(s)] else Former(s)
  }

  lemma ComesBackOnly<T(!new)>(queue: seq<Stale<T>>, ts: seq<T>, found: Option<Copy<T>>)
    requires ComesBack(queue, ts) && FromQueue(queue, found)
    ensures found == None || found == Some(Torn) || found.value.value in ts
  {
  }

  /** Wherever the power is cut, a whole table is found, and it is the right one. */
  lemma CutReturns<T(!new)>(s: State<T>, found0: Option<Copy<T>>, found1: Option<Copy<T>>)
    requires Inv(s) && LebCut(s.lay.leb0, found0) && LebCut(s.lay.leb1, found1)
    ensures Result(found0, found1).Some? && Result(found0, found1).value in Candidates(s)
  {
    var q := s.lay.leb0.queue;
    if FromQueue(q, found0) {
      if ComesBack(q, Candidates(s)) {
        ComesBackOnly(q, Candidates(s), found0);
      }
    }
  }

  /** A table that is found is not an older one than the one that held. */
  lemma AgeGrows<T>(s: State<T>, t: T)
    requires Inv(s) && t in Candidates(s)
    ensures s.age <= AgeOf(s, t) < |s.tables| && s.tables[AgeOf(s, t)] == t
  {
    if t in s.failed {
      var k :| s.age + 1 <= k < |s.tables| && s.tables[k] == t;
    }
  }

  lemma StepKeepsInv<T(!new)>(s: State<T>, a: Step<T>)
    requires Inv(s) && Enabled(s, a) && InOrder(a) && Careful(s, a)
    ensures Inv(Do(s, a)) && s.tables <= Do(s, a).tables && s.age <= Do(s, a).age
    ensures a.Cut? ==> Cur(Do(s, a)) == Result(a.found0, a.found1).value
  {
    match a
    case Begin(t) => BeginKeepsInv(s, t);
    case Cut(f0, f1, _, _, _) => CutKeepsInv(s, a);
    case Advance => AdvanceKeepsInv(s);
    case Retry(c) => RetryKeepsInv(s, c);
    case Fail => FailKeepsInv(s);
    case Erase(_, _) => EraseKeepsInv(s, a);
    case _ =>
  }

  lemma BeginKeepsInv<T(!new)>(s: State<T>, t: T)
    requires Inv(s) && Enabled(s, Begin(t)) && Careful(s, Begin(t))
    ensures Inv(Do(s, Begin(t))) && s.tables <= Do(s, Begin(t)).tables && s.age == Do(s, Begin(t)).age
  {
    hide ComesBack, Older;
    var r := Do(s, Begin(t));
    assert r.tables[s.age + 1..] == s.tables[s.age + 1..] + [t];
    assert Former(r) == Former(s);
  }

  lemma CutKeepsInv<T(!new)>(s: State<T>, a: Step<T>)
    requires Inv(s) && Enabled(s, a) && a.Cut?
    ensures Inv(Do(s, a)) && s.tables == Do(s, a).tables && s.age <= Do(s, a).age
    ensures Cur(Do(s, a)) == Result(a.found0, a.found1).value
  {
    CutReturns(s, a.found0, a.found1);
    AgeGrows(s, Result(a.found0, a.found1).value);
    hide LebCut, ComesBack, Former, AgeOf;
  }

  lemma AdvanceKeepsInv<T(!new)>(s: State<T>)
    requires Inv(s) && Enabled(s, Advance)
    ensures Inv(Do(s, Advance)) && s.tables == Do(s, Advance).tables && s.age <= Do(s, Advance).age
  {
  }

  lemma RetryKeepsInv<T(!new)>(s: State<T>, c: Copy<T>)
    requires Inv(s) && Enabled(s, Retry(c))
    ensures Inv(Do(s, Retry(c))) && s.tables == Do(s, Retry(c)).tables && s.age == Do(s, Retry(c)).age
  {
  }

  /** What is left of a failed change may be found as long as the second copy is as it was. */
  lemma FailKeepsInv<T(!new)>(s: State<T>)
    requires Inv(s) && Enabled(s, Fail)
    ensures Inv(Do(s, Fail)) && s.tables == Do(s, Fail).tables && s.age <= Do(s, Fail).age
  {
  }

  lemma EraseKeepsInv<T(!new)>(s: State<T>, a: Step<T>)
    requires Inv(s) && Enabled(s, a) && a.Erase? && InOrder(a)
    ensures Inv(Do(s, a)) && s.tables == Do(s, a).tables && s.age == Do(s, a).age
  {
    var l := Nth(s.lay, a.i);
    FirstErased(l);
    hide ComesBack, Older, EraseAt;
  }

  lemma FirstErased<T>(l: Leb<T>)
    requires l.queue != []
    ensures var r := EraseAt(l, 0);
            && r.current == l.current && r.sqnum == l.sqnum
            && (Older(l.queue, l.sqnum) ==> Older(r.queue, r.sqnum))
            && forall ts :: ComesBack(l.queue, ts) ==> ComesBack(r.queue, ts)
  {
    assert EraseAt(l, 0).queue == l.queue[1..];
  }

  ghost predicate IsRun<T(!new)>(run: seq<State<T>>, steps: seq<Step<T>>) {
    && |run| == |steps| + 1 && Dated(run[0]) && run[0].phase.Steady? && Holds(run[0].lay, Cur(run[0])) && run[0].failed == []
    && Older(run[0].lay.leb0.queue, run[0].lay.leb0.sqnum) && Older(run[0].lay.leb1.queue, run[0].lay.leb1.sqnum)
    && forall i :: 0 <= i < |steps| ==>
         Enabled(run[i], steps[i]) && InOrder(steps[i]) && Careful(run[i], steps[i]) && run[i + 1] == Do(run[i], steps[i])
  }

  lemma RunStarts<T(!new)>(run: seq<State<T>>, steps: seq<Step<T>>)
    requires IsRun(run, steps)
    ensures Inv(run[0])
  {
    hide LebCut, FromQueue, InOrder, Careful, Do;
  }

  /** Over any number of changes, one right after the other, failures, erasures, power cuts in the middle of
      the changes and in the middle of attaching: the table that holds never gets an older one. */
  lemma {:induction false} TablesNeverGoBack<T(!new)>(run: seq<State<T>>, steps: seq<Step<T>>, i: nat, j: nat)
    requires IsRun(run, steps) && i <= j < |run|
    ensures Inv(run[i]) && Inv(run[j]) && run[i].age <= run[j].age && run[i].tables <= run[j].tables
  {
    hide Inv, LebCut, FromQueue, InOrder, Careful, Do, Result, Holds;
    if i < j {
      TablesNeverGoBack(run, steps, i, j - 1);
      StepKeepsInv(run[j - 1], steps[j - 1]);
      assert run[j - 1 + 1] == Do(run[j - 1], steps[j - 1]);
    } else if j > 0 {
      TablesNeverGoBack(run, steps, j - 1, j - 1);
      StepKeepsInv(run[j - 1], steps[j - 1]);
      assert run[j - 1 + 1] == Do(run[j - 1], steps[j - 1]);
    } else {
      RunStarts(run, steps);
    }
  }

  /** And a cut at any moment finds the table that holds, or the one being written, or one whose change has
      failed since; what it finds is what holds from then on, in both copies as soon as attaching is complete. */
  lemma CutInRunReturns<T(!new)>(run: seq<State<T>>, steps: seq<Step<T>>, i: nat)
    requires IsRun(run, steps) && i < |steps| && steps[i].Cut?
    ensures var t := Result(steps[i].found0, steps[i].found1).value;
            && (t == Cur(run[i]) || t == Last(run[i]) || t in run[i].failed)
            && Dated(run[i + 1]) && Cur(run[i + 1]) == t && Inv(run[i + 1])
    ensures run[i + 1].phase.Steady? ==> Holds(run[i + 1].lay, Cur(run[i + 1]))
  {
    TablesNeverGoBack(run, steps, i, i);
    CutReturns(run[i], steps[i].found0, steps[i].found1);
    StepKeepsInv(run[i], steps[i]);
  }

  ghost predicate Returns<T(!new)>(s: Layout<T>, ts: seq<T>) {
    forall f0, f1 | LebCut(s.leb0, f0) && LebCut(s.leb1, f1) :: Result(f0, f1).Some? && Result(f0, f1).value in ts
  }

  // ---- Changing a table whose second copy is missing -----------------------------------------

  /** The first LEB has been unmapped, and in each LEB some erasures have gone through, in order. */
  function BegunTo<T>(s: Layout<T>, k0: nat, k1: nat): Layout<T>
    requires k0 <= |Dropped(s.leb0).queue| && k1 <= |s.leb1.queue|
  {
    var l := Dropped(s.leb0);
    Layout(l.(queue := l.queue[k0..]), s.leb1.(queue := s.leb1.queue[k1..]))
  }

  /** When the first copy has the table that holds, a change may begin safely if, and only if, the second
      one is there and has the same table, or the new one. */
  lemma BeginIsSafeIff<T(!new)>(s: Layout<T>, cur: T, t: T)
    requires s.leb0.current == Mapped(Whole(cur)) && Settled(s.leb1) && Older(s.leb0.queue, s.leb0.sqnum)
    ensures (forall k0: nat, k1: nat | k0 <= |Dropped(s.leb0).queue| && k1 <= |s.leb1.queue| :: Returns(BegunTo(s, k0, k1), [cur, t]))
      <==> s.leb1.current == Mapped(Whole(cur)) || s.leb1.current == Mapped(Whole(t))
  {
    var q := Dropped(s.leb0).queue;
    if s.leb1.current == Mapped(Whole(cur)) || s.leb1.current == Mapped(Whole(t)) {
      forall k0: nat, k1: nat, f0, f1 |
        k0 <= |q| && k1 <= |s.leb1.queue| && LebCut(BegunTo(s, k0, k1).leb0, f0) && LebCut(BegunTo(s, k0, k1).leb1, f1)
        ensures Result(f0, f1).Some? && Result(f0, f1).value in [cur, t]
      {
        assert ComesBack(q[k0..], [cur, t]);
        ComesBackOnly(q[k0..], [cur, t], f0);
      }
    } else {
      var b := BegunTo(s, |q|, |s.leb1.queue|);
      var f1 := if s.leb1.current.Mapped? then Some(s.leb1.current.copy) else None;
      assert LebCut(b.leb0, None) && LebCut(b.leb1, f1);
      assert !Returns(b, [cur, t]);
    }
  }

  /** A change from table 1 to table 2 that has failed after unmapping the second LEB, and a change to table 3:
      both copies that wait are erased, the power is cut, and no table is left. */
  lemma NoTableIsLeft(s: State<int>)
    requires Dated(s) && s.phase.Steady? && s.failed == [] && Cur(s) == 1
    requires s.lay == Layout(Leb([], Mapped(Whole(1)), 1), Leb([], Mapped(Whole(1)), 1))
    ensures var stopped := Do(Do(Do(Do(Do(Do(s, Begin(2)), Advance), Advance), Advance), Advance), Fail);
            && Inv(stopped) && stopped.phase.Stopped? && Enabled(stopped, Begin(3)) && !Careful(stopped, Begin(3))
            && var begun := Do(Do(stopped, Begin(3)), Advance);
               var once := Do(begun, Erase(0, 0));
               Enabled(begun, Erase(0, 0)) && Enabled(once, Erase(0, 0)) && Enabled(Do(once, Erase(0, 0)), Erase(1, 0))
               && var left := Do(Do(once, Erase(0, 0)), Erase(1, 0)).lay;
                  LebCut(left.leb0, None) && LebCut(left.leb1, None) && Result<int>(None, None) == None
  {
    var stopped := Do(Do(Do(Do(Do(Do(s, Begin(2)), Advance), Advance), Advance), Advance), Fail);
    assert stopped.lay == Layout(Leb([Stale(1, Whole(1))], Mapped(Whole(2)), 2), Leb([Stale(1, Whole(1))], Unmapped, 2));
    var begun := Do(Do(stopped, Begin(3)), Advance);
    assert begun.lay.leb0 == Leb([Stale(1, Whole(1)), Stale(2, Whole(2))], Unmapped, 3);
  }

  // ---- Erasures out of order -------------------------------------------------------------------

  /** What is left of the queue after some erasures; one that failed is tried again at the end of it,
      and a worker may be overtaken by another one. */
  ghost predicate Leaves<T(!new)>(queue: seq<Stale<T>>, left: seq<Stale<T>>)
    decreases |queue|
  {
    left == queue || exists k :: 0 <= k < |queue| && Leaves(queue[..k] + queue[k + 1..], left)
  }

  lemma {:induction false} LeftWasThere<T(!new)>(queue: seq<Stale<T>>, left: seq<Stale<T>>, c: Stale<T>)
    requires Leaves(queue, left) && c in left
    ensures c in queue
    decreases |queue|
  {
    if left != queue {
      var k :| 0 <= k < |queue| && Leaves(queue[..k] + queue[k + 1..], left);
      LeftWasThere(queue[..k] + queue[k + 1..], left, c);
    }
  }

  /** Any one of them may be the only one left. */
  lemma {:induction false} AnyMayBeLeft<T(!new)>(queue: seq<Stale<T>>, k: nat)
    requires k < |queue|
    ensures Leaves(queue, [queue[k]])
    decreases |queue|
  {
    if |queue| == 1 {
      assert queue == [queue[k]];
    } else {
      var d := if k == 0 then 1 else 0;
      var rest := queue[..d] + queue[d + 1..];
      var k' := if k == 0 then 0 else k - 1;
      assert rest[k'] == queue[k];
      AnyMayBeLeft(rest, k');
    }
  }

  /** The first LEB has been unmapped, and left is what the erasures have left. */
  function DroppedTo<T>(s: Layout<T>, left: seq<Stale<T>>): Layout<T> {
    Layout(Dropped(s.leb0).(queue := left), s.leb1)
  }

  lemma {:induction false} FoundIsQueued<T(!new)>(queue: seq<Stale<T>>, found: Option<Copy<T>>)
    requires FromQueue(queue, found) && found.Some? && found.value.Whole?
    ensures exists c :: c in queue && c.copy == found.value
  {
    if queue != [] {
      if k :| IsNewest(queue, k) && found == Some(queue[k].copy) {
        assert queue[k] in queue;
      } else {
        FoundIsQueued(queue[1..], found);
      }
    }
  }

  /** When erasures may finish in any order, a change that has begun is safe if, and only if, no copy of
      the first LEB waits for its erasure with a third table. */
  lemma AnyOrderIsSafeIff<T(!new)>(s: Layout<T>, cur: T, t: T)
    requires Holds(s, cur)
    ensures (forall left | Leaves(Dropped(s.leb0).queue, left) :: Returns(DroppedTo(s, left), [cur, t]))
      <==> forall c | c in s.leb0.queue && c.copy.Whole? :: c.copy.value in [cur, t]
  {
    var q := Dropped(s.leb0).queue;
    if c :| c in s.leb0.queue && c.copy.Whole? && c.copy.value !in [cur, t] {
      var k :| 0 <= k < |s.leb0.queue| && s.leb0.queue[k] == c;
      assert q[k] == c;
      AnyMayBeLeft(q, k);
      assert IsNewest([c], 0) && LebCut(DroppedTo(s, [c]).leb0, Some(c.copy));
      assert LebCut(s.leb1, Some(Whole(cur))) && Result(Some(c.copy), Some(Whole(cur))) == Some(c.copy.value);
      assert !Returns(DroppedTo(s, [c]), [cur, t]);
    } else {
      forall left, f0, f1 | Leaves(q, left) && LebCut(DroppedTo(s, left).leb0, f0) && LebCut(s.leb1, f1)
        ensures Result(f0, f1).Some? && Result(f0, f1).value in [cur, t]
      {
        if f0.Some? && f0.value.Whole? {
          FoundIsQueued(left, f0);
          var c: Stale<T> :| c in left && c.copy == f0.value;
          LeftWasThere(q, left, c);
        }
      }
    }
  }

  /** Three tables, two changes in a row.  The erasure of the first table's copy fails and is queued again,
      that of the second one goes through, and the power is cut: the first table is back. */
  lemma OvertakenErasureBringsBack()
    ensures var s := Layout(Leb([Stale(1, Whole(1))], Mapped(Whole(2)), 2), Leb([Stale(1, Whole(1))], Mapped(Whole(2)), 2));
            var dropped := Advanced(s, 0, 3);
            var overtaken := dropped.(leb0 := EraseAt(dropped.leb0, 1));
            && Holds(s, 2) && LebCut(overtaken.leb0, Some(Whole(1))) && LebCut(overtaken.leb1, Some(Whole(2)))
            && Result(Some(Whole(1)), Some(Whole(2))) == Some(1)
  {
    var q := [Stale(1, Whole(1))];
    assert IsNewest(q, 0);
  }

  /** With no copy waiting, as after a flush, any order will do. */
  lemma AnyOrderIsSafeAfterFlush<T(!new)>(s: Layout<T>, cur: T, t: T, left: seq<Stale<T>>)
    requires Holds(s, cur) && s.leb0.queue == [] && Leaves(Dropped(s.leb0).queue, left)
    ensures Returns(DroppedTo(s, left), [cur, t])
  {
    AnyOrderIsSafeIff(s, cur, t);
  }
}
