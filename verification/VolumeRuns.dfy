/** Whole runs of operations on volumes, with failing table writes, PEBs going bad and power cuts: what
    is attached is always sound, and every good PEB is accounted for. */
module VolumeRuns {
  import opened VolTable
  import opened Volumes
  import opened Renaming
  import LV = LayoutVolume

  datatype Op =
    | Create(req: CreateReq, fault: Fault)
    | Remove(id: nat, isBusy: bool, fault: Fault)
    | Resize(id: nat, pebs: nat, isBusy: bool, fault: Fault)
    | RenameMany(reqs: seq<Request>, busy: set<nat>, tableFails: bool, stuck: set<nat>)
    | Mark(id: nat, marker: bool, fails: bool)
    | BadPeb(badAllowed: bool, markFails: bool)

  /** The power is cut during the operation, or after it; pick: which of the tables that may be found is. */
  datatype Event = Event(op: Op, cut: bool, pick: nat, used: map<nat, nat>)

  /** What the callers of the operations see to, and names that are not empty. */
  predicate OpOk(g: Geometry, volumes: map<nat, Volume>, op: Op)
    requires GeometryOk(g)
  {
    match op
    case Create(req, fault) => RequestOk(g, req) && req.name != "" && fault != AfterTable
    case Remove(id, _, fault) => id in volumes && fault != BeforeTable
    case Resize(id, pebs, _, fault) => id in volumes && pebs > 0 && fault != BeforeTable
    case RenameMany(reqs, _, _, _) => forall i | 0 <= i < |reqs| :: NUL !in reqs[i].name && reqs[i].name != ""
    case Mark(id, _, _) => id in volumes
    case BadPeb(_, _) => true
  }

  /** The operation fails after the table was touched, if it gets that far. */
  predicate FailsLate(op: Op) {
    match op
    case Create(_, fault) => fault == InTable
    case Remove(_, _, fault) => fault == InTable || fault == AfterTable
    case Resize(_, _, _, fault) => fault == InTable || fault == AfterTable
    case RenameMany(_, _, tableFails, stuck) => tableFails || stuck != {}
    case Mark(_, _, fails) => fails
    case BadPeb(_, _) => false
  }

  /** What users see of a device. */
  datatype Snap = Snap(volumes: map<nat, Volume>, avail: int, roMode: bool)

  ghost function Seen(d: Device): Snap
    reads d
  {
    Snap(d.volumes, d.availPebs, d.roMode)
  }

  /** What an operation comes to: an error and no change, but for what a rename has removed when it stops,
      or exactly the change that was asked for. */
  ghost predicate Effect(g: Geometry, s: Snap, op: Op, err: Errno, t: Snap)
    requires GeometryOk(g) && OpOk(g, s.volumes, op)
  {
    match op
    case Create(req, fault) =>
      && err == CreateError(g, s.volumes, req, s.avail, s.roMode, fault)
      && (if err == Ok then exists id: nat :: id !in s.volumes && t.volumes == s.volumes[id := NewVolume(g.lebSize, req)] else t == s)
    case Remove(id, isBusy, fault) =>
      && err == (if s.roMode then ReadOnly else if isBusy then Busy else if fault != NoFault then IoError else Ok)
      && (if err == Ok then t.volumes == s.volumes - {id} else t == s)
    case Resize(id, pebs, isBusy, fault) =>
      if err == Ok then
        && !s.roMode && (s.volumes[id].isStatic ==> s.volumes[id].usedEbs <= pebs)
        && pebs - s.volumes[id].reservedPebs <= (if s.avail > 0 then s.avail else 0)
        && t.volumes == s.volumes[id := Resized(s.volumes[id], pebs)]
      else t == s
    case RenameMany(reqs, busy, tableFails, stuck) =>
      && (err == Ok <==>
           || |reqs| == 0
           || (&& Allowed(g.slots, s.volumes, reqs, busy)
               && (Effective(s.volumes, reqs) ==> !tableFails && forall id | Overwritten(s.volumes, reqs, id) :: id !in stuck)))
      && (if err == Ok then t.volumes == VolumesAfter(s.volumes, reqs) else t.volumes.Keys <= s.volumes.Keys)
    case Mark(_, _, fails) => (err == Ok <==> !fails) && t == s
    case BadPeb(_, _) => t.volumes == s.volumes && (err != Ok ==> t.roMode)
  }

  /** The table on flash is sound, and there is room for its volumes. */
  ghost predicate CanAttach(d: Device, t: seq<Record>)
    reads d
  {
    GeometryOk(d.g) && TableOk(d.g, d.goodPebs, t) && d.corrPebs >= 0 && Sum(t) + LAYOUT_EBS + SPARE_PEBS <= d.goodPebs - d.corrPebs
  }

  lemma RightCanAttach(d: Device)
    requires d.Sound()
    ensures CanAttach(d, d.right)
  {
  }

  /** There is room for the table in memory if, and only if, what it has too much is available. */
  lemma RoomIff(d: Device)
    requires d.Sound()
    ensures d.Fits() <==> Sum(d.vtbl) - Sum(d.right) <= d.availPebs + d.bebRsvdPebs
  {
    hide InSync, TableOk, Sum;
  }

  /** Attaching once more, with the table that is found: it works if, and only if, the table passes the
      check and there is room for it. */
  method Reattach(d: Device, t: seq<Record>, used: map<nat, nat>) returns (ok: bool)
    requires d.Sound() && |t| == d.g.slots
    modifies d
    ensures ok <==> old(CanAttach(d, t))
    ensures ok ==> d.Valid() && d.vtbl == t && !d.roMode && d.bebRsvdLevel == ReserveLevel(d.goodPebs)
    ensures ok ==> forall i | i in d.volumes && d.volumes[i].isStatic :: d.volumes[i].usedEbs == if i in used then used[i] else 0
  {
    assert GeometryOk(d.g) && d.corrPebs >= 0 && d.goodPebs >= 0;
    hide InSync, Sum, NamesDiffer, RecordOk;
    var r := CheckTable(d.g, d.goodPebs, t);
    if r != Fine {
      return false;
    }
    hide TableOk;
    d.vtbl := t;
    d.roMode := false;
    var err := d.Attach(true, used);
    ok := err == Ok;
  }

  /** How an operation leaves a device whose table in memory was right. */
  ghost predicate TablesFit(d: Device, before: seq<Record>, err: Errno)
    reads d
  {
    && CanAttach(d, d.vtbl) && CanAttach(d, before)
    && if err == Ok then d.Valid() else d.Valid() <==> d.vtbl == before
  }

  method DoCreate(d: Device, req: CreateReq, fault: Fault) returns (err: Errno)
    requires d.Sound() && RequestOk(d.g, req) && req.name != "" && fault != AfterTable
    modifies d
    ensures OpOk(d.g, old(d.volumes), Create(req, fault)) && Effect(d.g, old(Seen(d)), Create(req, fault), err, Seen(d))
    ensures d.Sound() && (old(d.Valid()) ==> TablesFit(d, old(d.vtbl), err))
    ensures err != Ok && d.vtbl != old(d.vtbl) ==> fault == InTable
  {
    RightCanAttach(d);
    hide TableOk, InSync, NamesDiffer, Sum, RequestOk, CanCreate, NewVolume, RecordAfter, VolumesAfter, ChosenId, RecordOf, Resized;
    var id;
    err, id := d.CreateVolume(req, fault);
    RightCanAttach(d);
  }

  method DoRemove(d: Device, id: nat, isBusy: bool, fault: Fault) returns (err: Errno)
    requires d.Sound() && id in d.volumes && fault != BeforeTable
    modifies d
    ensures OpOk(d.g, old(d.volumes), Remove(id, isBusy, fault)) && Effect(d.g, old(Seen(d)), Remove(id, isBusy, fault), err, Seen(d))
    ensures d.Sound() && (old(d.Valid()) ==> TablesFit(d, old(d.vtbl), err))
    ensures err != Ok && d.vtbl != old(d.vtbl) ==> fault != NoFault
  {
    RightCanAttach(d);
    hide TableOk, InSync, NamesDiffer, Sum, RequestOk, CanCreate, NewVolume, RecordAfter, VolumesAfter, ChosenId, RecordOf, Resized;
    err := d.RemoveVolume(id, isBusy, fault);
    RightCanAttach(d);
  }

  method DoResize(d: Device, id: nat, pebs: nat, isBusy: bool, fault: Fault) returns (err: Errno)
    requires d.Sound() && id in d.volumes && pebs > 0 && fault != BeforeTable
    modifies d
    ensures OpOk(d.g, old(d.volumes), Resize(id, pebs, isBusy, fault)) && Effect(d.g, old(Seen(d)), Resize(id, pebs, isBusy, fault), err, Seen(d))
    ensures d.Sound() && (old(d.Valid()) ==> TablesFit(d, old(d.vtbl), err))
    ensures err != Ok && d.vtbl != old(d.vtbl) ==> fault != NoFault
  {
    RightCanAttach(d);
    hide TableOk, InSync, NamesDiffer, Sum, RequestOk, CanCreate, NewVolume, RecordAfter, VolumesAfter, ChosenId, RecordOf, Resized;
    if pebs == d.volumes[id].reservedPebs {
      d.SameSize(id);
    }
    err := d.ResizeVolume(id, pebs, isBusy, fault);
    RightCanAttach(d);
  }

  method DoMark(d: Device, id: nat, marker: bool, fails: bool) returns (err: Errno)
    requires d.Sound() && id in d.volumes
    modifies d
    ensures OpOk(d.g, old(d.volumes), Mark(id, marker, fails)) && Effect(d.g, old(Seen(d)), Mark(id, marker, fails), err, Seen(d))
    ensures d.Sound() && (old(d.Valid()) ==> TablesFit(d, old(d.vtbl), err))
    ensures err != Ok ==> fails
  {
    RightCanAttach(d);
    hide TableOk, InSync, NamesDiffer, Sum;
    err := d.ChangeMarker(id, marker, fails);
    RightCanAttach(d);
  }

  lemma {:induction false} SumFalls(a: seq<Record>, b: seq<Record>)
    requires |a| == |b| && forall i | 0 <= i < |a| :: a[i].reservedPebs <= b[i].reservedPebs
    ensures Sum(a) <= Sum(b)
  {
    if a != [] {
      SumFalls(a[..|a| - 1], b[..|b| - 1]);
    }
  }

  /** A table that could be attached still can be once volumes are renamed in it. */
  lemma RenamedCanAttach(d: Device, volumes: map<nat, Volume>, vtbl: seq<Record>, reqs: seq<Request>, t: seq<Record>)
    requires CanAttach(d, vtbl) && InSync(volumes, vtbl) && Distinct(reqs) && Possible(volumes, reqs)
    requires forall i | 0 <= i < |reqs| :: |reqs[i].name| <= NAME_MAX && NUL !in reqs[i].name && reqs[i].name != ""
    requires |t| == |vtbl| && forall i: nat | i < |t| :: t[i] == RecordAfter(volumes, vtbl, reqs, i)
    ensures CanAttach(d, t)
  {
    TableAfter(d.g, d.goodPebs, volumes, vtbl, reqs, t);
    SumFalls(t, vtbl);
  }

  method DoRename(d: Device, reqs: seq<Request>, busy: set<nat>, tableFails: bool, stuck: set<nat>) returns (err: Errno)
    requires d.Sound() && forall i | 0 <= i < |reqs| :: NUL !in reqs[i].name && reqs[i].name != ""
    modifies d
    ensures OpOk(d.g, old(d.volumes), RenameMany(reqs, busy, tableFails, stuck)) && Effect(d.g, old(Seen(d)), RenameMany(reqs, busy, tableFails, stuck), err, Seen(d))
    ensures d.Sound() && (old(d.Valid()) ==> TablesFit(d, old(d.vtbl), err))
    ensures err != Ok && d.vtbl != old(d.vtbl) ==> tableFails || stuck != {}
  {
    RightCanAttach(d);
    assert InSync(d.volumes, d.right);
    hide TableOk, InSync, NamesDiffer, Sum, RecordAfter, VolumesAfter, Overwritten, Removed, Effective, Distinct, Possible;
    ghost var removed;
    err, removed := RenameVolumes(d, reqs, busy, tableFails, stuck);
    RightCanAttach(d);
    if old(d.Valid()) && err != Ok && d.vtbl != old(d.vtbl) {
      RenamedCanAttach(d, old(d.volumes), old(d.vtbl), reqs, d.vtbl);
    } else if old(d.Valid()) && err == Ok {
      RenamedIsRight(old(d.volumes), d.vtbl, d.right, old(d.vtbl), old(d.right), reqs);
    }
  }

  lemma RenamedIsRight(volumes: map<nat, Volume>, t: seq<Record>, right: seq<Record>, was: seq<Record>, wasRight: seq<Record>, reqs: seq<Request>)
    requires was == wasRight && |t| == |was| && |right| == |wasRight|
    requires forall i: nat | i < |t| :: t[i] == RecordAfter(volumes, was, reqs, i)
    requires forall i: nat | i < |right| :: right[i] == RecordAfter(volumes, wasRight, reqs, i)
    ensures t == right
  {
    hide RecordAfter;
  }

  /** One operation, on a device that may go on with a table in memory that is not right: the volumes and
      their accounting stay in order.  If the table was right, then, whatever fails, both the table before
      and the one in memory after the operation can be attached, and the table is right afterwards unless
      it was changed by an operation that failed. */
  method Execute(d: Device, op: Op) returns (err: Errno)
    requires d.Sound() && OpOk(d.g, d.volumes, op)
    modifies d
    ensures d.Sound() && |d.vtbl| == |old(d.vtbl)| && Effect(d.g, old(Seen(d)), op, err, Seen(d))
    ensures op.BadPeb? ==> d.vtbl == old(d.vtbl) && d.right == old(d.right)
    ensures old(d.Valid()) && !op.BadPeb? ==> TablesFit(d, old(d.vtbl), err)
    ensures err != Ok && d.vtbl != old(d.vtbl) ==> FailsLate(op)
  {
    hide TableOk, InSync, NamesDiffer, Sum, RequestOk, CanAttach;
    match op
    case Create(req, fault) => err := DoCreate(d, req, fault);
    case Remove(id, isBusy, fault) => err := DoRemove(d, id, isBusy, fault);
    case Resize(id, pebs, isBusy, fault) => err := DoResize(d, id, pebs, isBusy, fault);
    case RenameMany(reqs, busy, tableFails, stuck) => err := DoRename(d, reqs, busy, tableFails, stuck);
    case Mark(id, marker, fails) => err := DoMark(d, id, marker, fails);
    case BadPeb(badAllowed, markFails) => err := d.PebWentBad(badAllowed, markFails);
  }

  predicate MayRun(d: Device, op: Op)
    reads d
  {
    GeometryOk(d.g) && OpOk(d.g, d.volumes, op)
  }

  /** An operation before the last one has failed with the table touched, and there was no power cut since. */
  ghost predicate WentOn(events: seq<Event>, failed: set<nat>, n: nat)
    requires n <= |events|
  {
    exists k :: k in failed && k + 1 < n && forall j | k <= j < n - 1 :: !events[j].cut
  }

  /** An operation has failed with the table touched, and there was no power cut since. */
  ghost predicate Drifted(events: seq<Event>, failed: set<nat>, n: nat)
    requires n <= |events|
  {
    exists k :: k in failed && k < n && forall j | k <= j < n :: !events[j].cut
  }

  /** The tables a power cut may leave: the one last written, and those that could not be written since. */
  ghost predicate FoundCanAttach(d: Device, found: seq<seq<Record>>)
    reads d
  {
    forall t | t in found :: CanAttach(d, t)
  }

  /** One event leads from s to t by way of m: operations whose conditions do not hold are left out, and a
      cut rebuilds everything from the table that is found. */
  ghost predicate Happened(g: Geometry, s: Snap, e: Event, err: Errno, m: Snap, t: Snap)
    requires GeometryOk(g)
  {
    && (if OpOk(g, s.volumes, e.op) then Effect(g, s, e.op, err, m) else err == Ok && m == s)
    && (e.cut || t == m)
  }

  ghost predicate AllHappened(g: Geometry, events: seq<Event>, n: nat, errs: seq<Errno>, mids: seq<Snap>, trace: seq<Snap>)
    requires GeometryOk(g) && n <= |events|
  {
    |errs| == |mids| == n && |trace| == n + 1 && forall k | 0 <= k < n :: Happened(g, trace[k], events[k], errs[k], mids[k], trace[k + 1])
  }

  lemma NothingYet(d: Device, events: seq<Event>)
    requires d.Sound()
    ensures GeometryOk(d.g) && AllHappened(d.g, events, 0, [], [], [Seen(d)])
  {
  }

  lemma OneMore(g: Geometry, events: seq<Event>, n: nat, errs: seq<Errno>, mids: seq<Snap>, trace: seq<Snap>, err: Errno, m: Snap, t: Snap)
    requires GeometryOk(g) && n < |events| && AllHappened(g, events, n, errs, mids, trace) && Happened(g, trace[n], events[n], err, m, t)
    ensures AllHappened(g, events, n + 1, errs + [err], mids + [m], trace + [t])
  {
    hide Happened;
    forall k | 0 <= k < n + 1
      ensures Happened(g, (trace + [t])[k], events[k], (errs + [err])[k], (mids + [m])[k], (trace + [t])[k + 1])
    {
      assert k < n ==> Happened(g, trace[k], events[k], errs[k], mids[k], trace[k + 1]);
    }
  }

  /** Which tables may be on flash after an event, and what a cut finds: w is what was last in memory. */
  ghost predicate Finds(e: Event, err: Errno, attached: bool, before: seq<Record>, w: seq<Record>, t: seq<Record>,
                        found: seq<seq<Record>>, found': seq<seq<Record>>)
  {
    if !e.cut then t == w && found' == if w == before then found else if err == Ok then [w] else found + [w]
    else attached ==> t == (if e.pick < |found| then found[e.pick] else w) && found' == [t]
  }

  /** One event.  found are the tables that may be on flash. */
  method Happen(d: Device, e: Event, found: seq<seq<Record>>)
    returns (err: Errno, touched: bool, attached: bool, found': seq<seq<Record>>, ghost m: Snap, ghost w: seq<Record>)
    requires d.Sound() && |found| > 0 && forall t | t in found :: |t| == d.g.slots
    modifies d
    ensures GeometryOk(d.g) && Happened(d.g, old(Seen(d)), e, err, m, Seen(d)) && (attached ==> d.Sound())
    ensures |found'| > 0 && forall t | t in found' :: |t| == d.g.slots
    ensures err != Ok && touched ==> FailsLate(e.op)
    ensures Finds(e, err, attached, old(d.vtbl), w, d.vtbl, found, found') && (touched <==> w != old(d.vtbl))
    ensures !e.cut ==> attached
    ensures e.cut && attached ==> d.Valid() && found' == [d.vtbl]
    ensures old(d.Valid()) && found == [old(d.vtbl)] ==>
      attached && (e.cut || !(err != Ok && touched) ==> d.Valid() && found' == [d.vtbl])
  {
    assert GeometryOk(d.g);
    hide TableOk, InSync, NamesDiffer, Sum, RequestOk, CanAttach, Effect, OpOk;
    var before := d.vtbl;
    err, attached, found' := Ok, true, found;
    RightCanAttach(d);
    if MayRun(d, e.op) {
      err := Execute(d, e.op);
      RightCanAttach(d);
    }
    m, w := Seen(d), d.vtbl;
    touched := d.vtbl != before;
    if e.cut {
      found' := found + [d.vtbl];
      var t := if e.pick < |found'| then found'[e.pick] else d.vtbl;
      attached := Reattach(d, t, e.used);
      found' := [t];
    } else if touched {
      found' := if err == Ok then [d.vtbl] else found + [d.vtbl];
    }
  }

  /** Any number of operations, failures and power cuts; after a failure the device goes on with the table
      it has in memory, after a cut it is attached with one of the tables that may be on flash.  Volumes
      and accounting are always in order, and so is the table unless an operation has failed after
      touching it.  Attaching is refused only after a device has gone on in that state.  Every operation
      that could be done was done: trace is what was seen before each event and in the end. */
  method Run(d: Device, events: seq<Event>)
    returns (n: nat, attached: bool, failed: set<nat>, ghost errs: seq<Errno>, ghost mids: seq<Snap>, ghost trace: seq<Snap>)
    requires d.Valid()
    modifies d
    ensures n <= |events| && GeometryOk(d.g) && AllHappened(d.g, events, n, errs, mids, trace)
    ensures trace[0] == old(Seen(d)) && trace[n] == Seen(d) && (n < |events| ==> !attached)
    ensures n <= |events| && (attached ==> n == |events| && d.Sound())
    ensures forall k | k in failed :: k < n && FailsLate(events[k].op)
    ensures attached && !Drifted(events, failed, n) ==> d.Valid()
    ensures !attached ==> WentOn(events, failed, n) && n > 0 && events[n - 1].cut
  {
    hide TableOk, InSync, NamesDiffer, Sum, RequestOk, CanAttach, AllHappened, Effect, OpOk, Happened, Finds;
    NothingYet(d, events);
    errs, mids, trace := [], [], [Seen(d)];
    var found := [d.vtbl];
    n, attached, failed := 0, true, {};
    while n < |events|
      invariant n <= |events| && AllHappened(d.g, events, n, errs, mids, trace) && |trace| == n + 1
      invariant trace[0] == old(Seen(d)) && trace[n] == Seen(d)
      invariant attached && d.Sound() && (forall k | k in failed :: k < n && FailsLate(events[k].op))
      invariant |found| > 0 && forall t | t in found :: |t| == d.g.slots
      invariant !Drifted(events, failed, n) ==> d.Valid() && found == [d.vtbl]
    {
      var err, touched;
      ghost var m, w;
      err, touched, attached, found, m, w := Happen(d, events[n], found);
      if err != Ok && touched {
        failed := failed + {n};
      }
      OneMore(d.g, events, n, errs, mids, trace, err, m, Seen(d));
      errs, mids, trace := errs + [err], mids + [m], trace + [Seen(d)];
      n := n + 1;
      if !attached {
        return;
      }
    }
  }

  /** A power cut in the middle of a rename: the table that is found is the one before it or the one after
      it, never a mixture, and fits the volumes with all their old or all their new names.  Only if changes
      have failed just before, a table that one of them has left may be found instead. */
  lemma RenameIsAllOrNothing(run: seq<LV.State<seq<Record>>>, steps: seq<LV.Step<seq<Record>>>, i: nat,
                             g: Geometry, good: int, volumes: map<nat, Volume>, reqs: seq<Request>)
    requires LV.IsRun(run, steps) && i < |steps| && steps[i].Cut? && LV.Dated(run[i])
    requires var vtbl, t := LV.Cur(run[i]), LV.Last(run[i]);
      && GeometryOk(g) && InSync(volumes, vtbl) && TableOk(g, good, vtbl) && Sensible(g.slots, volumes, reqs)
      && (forall k | 0 <= k < |reqs| :: NUL !in reqs[k].name && reqs[k].name != "")
      && |t| == |vtbl| && forall k: nat | k < |t| :: t[k] == RecordAfter(volumes, vtbl, reqs, k)
    ensures var t := LV.Result(steps[i].found0, steps[i].found1).value;
      && LV.Dated(run[i + 1]) && LV.Cur(run[i + 1]) == t
      && (t in run[i].failed || TableOk(g, good, t))
      && (t in run[i].failed || (t == LV.Cur(run[i]) && InSync(volumes, t)) || (t == LV.Last(run[i]) && InSync(VolumesAfter(volumes, reqs), t)))
  {
    LV.CutInRunReturns(run, steps, i);
    TableAfter(g, good, volumes, LV.Cur(run[i]), reqs, LV.Last(run[i]));
  }
}
