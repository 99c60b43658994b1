/** The update marker: wherever an update of a volume is interrupted, the next attaching finds the
    marker, or the whole old volume, or the whole new one. */
module UpdateMarker {
  import opened Wrappers
  import opened LayoutVolume
  import opened Update
  import opened Flash

  type UserLeb = LayoutVolume.Leb<LebData>
  type Seen = Option<Copy<LebData>>

  /** Where the update stands.  Setting and Clearing: the volume table is just being changed.
      Unmapping(i), Filling(i): the LEBs before i are done.  Storing(i): LEB i is being written.
      Interrupted: the volume was attached with its marker set, or the update has failed. */
  datatype Phase = Steady | Setting | Unmapping(i: nat) | Filling(i: nat) | Storing(i: nat) | Clearing | Interrupted

  /** What the copies of the volume table on flash say about the marker. */
  datatype Mark = Clear | Set | Either

  /** volume: what the volume held before the update under way, or after the last one; data: what the
      update brings; marker: upd_marker of the volume and of the table in memory. */
  datatype State = State(phase: Phase, lebs: seq<UserLeb>, volume: seq<Seen>, data: seq<Byte>, marker: bool, flash: Mark)

  /** Flushed: all copies that were waiting have been erased; WlFlush says when ubi_wl_flush sees to that.
      SetFails, ClearFails: changing the table fails; what the volume says in memory has changed all the same.
      Abort: unmapping or writing a LEB fails, or the user gives up.  TableWritten: something else of the
      table is changed. */
  datatype Step =
    | Begin(d: seq<Byte>)
    | MarkerSet
    | SetFails
    | UnmapNext
    | AllUnmapped
    | StartNext
    | SkipNext
    | Stored_
    | Flushed
    | MarkerCleared
    | ClearFails
    | Abort
    | TableWritten(fails: bool)
    | Erase(i: nat, k: nat)
    | Cut(marked: bool, found: seq<Seen>, queues: seq<seq<Stale<LebData>>>, sqnum: nat)

  predicate Fits(v: Update.Layout, n: nat, d: seq<Byte>) {
    LayoutOk(v) && |d| <= n * v.usable
  }

  /** What the volume holds after a complete update. */
  function Image(v: Update.Layout, n: nat, d: seq<Byte>): (r: seq<Seen>)
    requires LayoutOk(v)
    ensures |r| == n && forall k | 0 <= k < n && r[k].Some? :: r[k].value.Whole?
  {
    seq(n, k requires 0 <= k < n =>
      if k < Update.Written(v, |d|, |d|) && Stored(v, Piece(v, d, k)).Some? then Some(Whole(Stored(v, Piece(v, d, k)).value)) else None)
  }

  /** What a reader sees of the LEBs. */
  function Contents(lebs: seq<UserLeb>): (r: seq<Seen>)
    ensures |r| == |lebs|
  {
    seq(|lebs|, i requires 0 <= i < |lebs| => Found(lebs[i]))
  }

  /** The LEB shows x, and no copy that waits for erasure can take the place of nothing. */
  predicate Shows(l: UserLeb, x: Seen) {
    match x
    case None => l.current == Unmapped && l.queue == []
    case Some(c) => l.current == Mapped(c)
  }

  ghost predicate LebsCut(lebs: seq<UserLeb>, found: seq<Seen>) {
    |found| == |lebs| && forall i | 0 <= i < |lebs| :: LebCut(lebs[i], found[i])
  }

  /** What may be found after a power cut. */
  ghost predicate IsCut(s: State, marked: bool, found: seq<Seen>) {
    (s.flash.Clear? ==> !marked) && (s.flash.Set? ==> marked) && LebsCut(s.lebs, found)
  }

  ghost predicate Enabled(v: Update.Layout, s: State, a: Step) {
    var n := |s.lebs|;
    match a
    case Begin(d) => (s.phase.Steady? || s.phase.Interrupted?) && Fits(v, n, d)
    case MarkerSet => s.phase.Setting?
    case SetFails => s.phase.Setting?
    case UnmapNext => s.phase.Unmapping? && s.phase.i < n
    case AllUnmapped => s.phase.Unmapping? && s.phase.i == n
    case StartNext => LayoutOk(v) && s.phase.Filling? && s.phase.i < n && Image(v, n, s.data)[s.phase.i].Some?
    case SkipNext => LayoutOk(v) && s.phase.Filling? && s.phase.i < n && Image(v, n, s.data)[s.phase.i].None?
    case Stored_ => s.phase.Storing? && s.phase.i < n && s.lebs[s.phase.i].current.Writing?
    case Flushed => s.phase.Filling? && s.phase.i == n && forall i | 0 <= i < n :: s.lebs[i].queue == []
    case MarkerCleared => s.phase.Clearing? && LayoutOk(v)
    case ClearFails => s.phase.Clearing? && LayoutOk(v)
    case Abort => s.phase.Unmapping? || s.phase.Filling? || s.phase.Storing?
    case TableWritten(_) => !s.phase.Setting? && !s.phase.Clearing?
    case Erase(i, k) => i < n && k < |s.lebs[i].queue|
    case Cut(marked, found, queues, _) => IsCut(s, marked, found) && |queues| == n
  }

  /** Once the marker could not be written, no update is started before it has reached flash with some
      other change of the table. */
  predicate Careful(s: State, a: Step) {
    a.Begin? && s.marker ==> s.flash.Set?
  }

  /** What writing the table makes of the marker on flash. */
  function Marked(s: State, fails: bool): Mark {
    var m := if s.marker then Set else Clear;
    if fails && s.flash != m then Either else m
  }

  function Put(s: State, i: nat, l: UserLeb): State
    requires i < |s.lebs|
  {
    s.(lebs := s.lebs[i := l])
  }

  /** The LEBs as they are found, with whatever older copies are left. */
  function Reattached(found: seq<Seen>, queues: seq<seq<Stale<LebData>>>, sqnum: nat): seq<UserLeb>
    requires |queues| == |found|
  {
    seq(|found|, i requires 0 <= i < |found| => FoundLeb(queues[i], found[i], sqnum))
  }

  function Do(v: Update.Layout, s: State, a: Step): State
    requires Enabled(v, s, a)
  {
    match a
    case Begin(d) => if s.marker then s.(phase := Unmapping(0), data := d) else s.(phase := Setting, data := d, flash := Either)
    case MarkerSet => s.(phase := Unmapping(0), marker := true, flash := Set)
    case SetFails => s.(phase := Phase.Steady, marker := true)
    case UnmapNext => Put(s, s.phase.i, Dropped(s.lebs[s.phase.i])).(phase := Unmapping(s.phase.i + 1))
    case AllUnmapped => s.(phase := Filling(0))
    case StartNext =>
      Put(s, s.phase.i, Started(s.lebs[s.phase.i], Image(v, |s.lebs|, s.data)[s.phase.i].value.value)).(phase := Storing(s.phase.i))
    case SkipNext => s.(phase := Filling(s.phase.i + 1))
    case Stored_ =>
      Put(s, s.phase.i, LayoutVolume.Written(s.lebs[s.phase.i], s.lebs[s.phase.i].current.new_)).(phase := Filling(s.phase.i + 1))
    case Flushed => s.(phase := Clearing, flash := Either)
    case MarkerCleared => s.(phase := Phase.Steady, volume := Image(v, |s.lebs|, s.data), marker := false, flash := Clear)
    case ClearFails => s.(phase := Phase.Steady, volume := Image(v, |s.lebs|, s.data), marker := false)
    case Abort => s.(phase := Interrupted, lebs := seq(|s.lebs|, i requires 0 <= i < |s.lebs| => GivenUp(s.lebs[i])))
    case TableWritten(fails) => s.(flash := Marked(s, fails))
    case Erase(i, k) => Put(s, i, EraseAt(s.lebs[i], k))
    case Cut(marked, found, queues, sqnum) =>
      s.(phase := if marked then Interrupted else Phase.Steady, lebs := Reattached(found, queues, sqnum), volume := found,
         marker := marked, flash := if marked then Set else Clear)
  }

  ghost predicate ShowsAll(lebs: seq<UserLeb>, volume: seq<Seen>) {
    |lebs| == |volume| && forall i | 0 <= i < |lebs| :: Shows(lebs[i], volume[i])
  }

  /** The LEBs before k show the new volume, but for copies of the old one, and the others are unmapped. */
  ghost predicate FilledTo(lebs: seq<UserLeb>, image: seq<Seen>, k: nat) {
    && |lebs| == |image| && k <= |lebs|
    && (forall i | 0 <= i < k :: Found(lebs[i]) == image[i] && (lebs[i].current.Mapped? || lebs[i].current.Unmapped?))
    && (forall i | k <= i < |lebs| :: lebs[i].current.Unmapped?)
  }

  ghost predicate Inv(v: Update.Layout, s: State) {
    && LayoutOk(v) && |s.volume| == |s.lebs|
    && (s.phase.Setting? || s.phase.Clearing? ==> s.flash.Either?)
    && (!s.phase.Steady? && !s.phase.Setting? && !s.phase.Clearing? ==> s.marker && s.flash.Set?)
    && match s.phase
       case Steady => ShowsAll(s.lebs, s.volume)
       case Setting => ShowsAll(s.lebs, s.volume)
       case Unmapping(i) => i <= |s.lebs| && forall j | 0 <= j < i :: s.lebs[j].current.Unmapped?
       case Filling(k) => FilledTo(s.lebs, Image(v, |s.lebs|, s.data), k)
       case Storing(k) =>
         var image := Image(v, |s.lebs|, s.data);
         && k < |s.lebs| && image[k].Some? && s.lebs[k].current == Writing(image[k].value.value)
         && FilledTo(s.lebs[k := s.lebs[k].(current := Unmapped)], image, k)
       case Clearing => ShowsAll(s.lebs, Image(v, |s.lebs|, s.data))
       case Interrupted => true
  }

  lemma CutOfShown(lebs: seq<UserLeb>, volume: seq<Seen>, found: seq<Seen>)
    requires ShowsAll(lebs, volume) && LebsCut(lebs, found)
    ensures found == volume
  {
    forall i | 0 <= i < |found|
      ensures found[i] == volume[i]
    {
      assert Shows(lebs[i], volume[i]) && LebCut(lebs[i], found[i]);
    }
  }

  /** The marker, or the whole old volume, or the whole new one; each of them where it is due. */
  lemma CutFinds(v: Update.Layout, s: State, marked: bool, found: seq<Seen>)
    requires Inv(v, s) && IsCut(s, marked, found)
    ensures !marked ==> found == if s.phase.Clearing? then Image(v, |s.lebs|, s.data) else s.volume
  {
    if !marked {
      CutOfShown(s.lebs, if s.phase.Clearing? then Image(v, |s.lebs|, s.data) else s.volume, found);
    }
  }

  lemma EraseKeepsShown(lebs: seq<UserLeb>, volume: seq<Seen>, i: nat, k: nat)
    requires ShowsAll(lebs, volume) && i < |lebs| && k < |lebs[i].queue|
    ensures ShowsAll(lebs[i := EraseAt(lebs[i], k)], volume)
  {
    assert Shows(lebs[i], volume[i]);
  }

  lemma EraseKeepsFilled(lebs: seq<UserLeb>, image: seq<Seen>, n: nat, i: nat, k: nat)
    requires FilledTo(lebs, image, n) && i < |lebs| && k < |lebs[i].queue|
    ensures FilledTo(lebs[i := EraseAt(lebs[i], k)], image, n)
  {
  }

  lemma EraseKeepsInv(v: Update.Layout, s: State, a: Step)
    requires Inv(v, s) && Enabled(v, s, a) && a.Erase?
    ensures Inv(v, Do(v, s, a))
  {
    hide Image, EraseAt, ShowsAll, FilledTo;
    var image := Image(v, |s.lebs|, s.data);
    match s.phase
    case Steady => EraseKeepsShown(s.lebs, s.volume, a.i, a.k);
    case Setting => EraseKeepsShown(s.lebs, s.volume, a.i, a.k);
    case Clearing => EraseKeepsShown(s.lebs, image, a.i, a.k);
    case Filling(n) => EraseKeepsFilled(s.lebs, image, n, a.i, a.k);
    case Storing(n) =>
      var was := s.lebs[n := s.lebs[n].(current := Unmapped)];
      EraseKeepsFilled(was, image, n, a.i, a.k);
      EraseIsQueueOnly(s.lebs[a.i], a.k);
      var r := Do(v, s, a);
      assert r.lebs[n := r.lebs[n].(current := Unmapped)] == was[a.i := EraseAt(was[a.i], a.k)];
    case Unmapping(n) => EraseIsQueueOnly(s.lebs[a.i], a.k);
    case Interrupted =>
  }

  lemma EraseIsQueueOnly(l: UserLeb, k: nat)
    requires k < |l.queue|
    ensures EraseAt(l, k).current == l.current && EraseAt(l, k).sqnum == l.sqnum
    ensures forall c :: EraseAt(l.(current := c), k) == EraseAt(l, k).(current := c)
  {
  }

  lemma FillKeepsInv(v: Update.Layout, s: State, a: Step)
    requires Inv(v, s) && Enabled(v, s, a) && (a.StartNext? || a.SkipNext? || a.Stored_? || a.Flushed?)
    ensures Inv(v, Do(v, s, a))
  {
    hide Image, FilledTo, ShowsAll, LebsCut, Started, LayoutVolume.Written;
    var image := Image(v, |s.lebs|, s.data);
    var k := s.phase.i;
    match a
    case StartNext => StartKeepsFilled(s.lebs, image, k);
    case SkipNext => SkipKeepsFilled(s.lebs, image, k);
    case Stored_ => StoredKeepsFilled(s.lebs, image, k);
    case Flushed => FlushedShows(s.lebs, image);
  }

  lemma StartKeepsFilled(lebs: seq<UserLeb>, image: seq<Seen>, k: nat)
    requires FilledTo(lebs, image, k) && k < |lebs| && image[k].Some? && image[k].value.Whole?
    ensures var r := lebs[k := Started(lebs[k], image[k].value.value)];
            r[k].current == Writing(image[k].value.value) && FilledTo(r[k := r[k].(current := Unmapped)], image, k)
  {
    var r := lebs[k := Started(lebs[k], image[k].value.value)];
    assert r[k := r[k].(current := Unmapped)] == lebs;
  }

  lemma SkipKeepsFilled(lebs: seq<UserLeb>, image: seq<Seen>, k: nat)
    requires FilledTo(lebs, image, k) && k < |lebs| && image[k].None?
    ensures FilledTo(lebs, image, k + 1)
  {
  }

  lemma StoredKeepsFilled(lebs: seq<UserLeb>, image: seq<Seen>, k: nat)
    requires k < |lebs| == |image| && image[k].Some? && image[k].value.Whole? && lebs[k].current == Writing(image[k].value.value)
    requires FilledTo(lebs[k := lebs[k].(current := Unmapped)], image, k)
    ensures FilledTo(lebs[k := LayoutVolume.Written(lebs[k], lebs[k].current.new_)], image, k + 1)
  {
    var r := lebs[k := LayoutVolume.Written(lebs[k], lebs[k].current.new_)];
    var was := lebs[k := lebs[k].(current := Unmapped)];
    forall i | 0 <= i < |lebs|
      ensures i != k ==> r[i] == was[i]
    {
    }
  }

  lemma FlushedShows(lebs: seq<UserLeb>, image: seq<Seen>)
    requires FilledTo(lebs, image, |lebs|) && forall i | 0 <= i < |lebs| :: lebs[i].queue == []
    ensures ShowsAll(lebs, image)
  {
    forall i | 0 <= i < |lebs|
      ensures Shows(lebs[i], image[i])
    {
      assert Found(lebs[i]) == image[i] && lebs[i].queue == [];
    }
  }

  lemma StepKeepsInv(v: Update.Layout, s: State, a: Step)
    requires Inv(v, s) && Enabled(v, s, a) && Careful(s, a)
    ensures Inv(v, Do(v, s, a)) && |Do(v, s, a).lebs| == |s.lebs|
  {
    if a.Erase? {
      EraseKeepsInv(v, s, a);
    } else if a.StartNext? || a.SkipNext? || a.Stored_? || a.Flushed? {
      FillKeepsInv(v, s, a);
    } else if a.Cut? {
      CutFinds(v, s, a.marked, a.found);
      CutReattaches(v, s, a);
    } else {
      hide Image;
    }
  }

  lemma CutReattaches(v: Update.Layout, s: State, a: Step)
    requires Inv(v, s) && Enabled(v, s, a) && a.Cut?
    ensures Inv(v, Do(v, s, a))
  {
    hide Image;
    var r := Do(v, s, a);
    if !a.marked {
      CutFinds(v, s, a.marked, a.found);
      forall i | 0 <= i < |r.lebs|
        ensures Shows(r.lebs[i], r.volume[i])
      {
        assert LebCut(s.lebs[i], a.found[i]);
      }
    }
  }

  ghost predicate IsRun(v: Update.Layout, run: seq<State>, steps: seq<Step>) {
    && |run| == |steps| + 1 && LayoutOk(v) && run[0].phase.Steady? && ShowsAll(run[0].lebs, run[0].volume)
    && !run[0].marker && run[0].flash.Clear?
    && forall i | 0 <= i < |steps| ::
         Enabled(v, run[i], steps[i]) && Careful(run[i], steps[i]) && run[i + 1] == Do(v, run[i], steps[i])
  }

  lemma {:induction false} RunKeepsInv(v: Update.Layout, run: seq<State>, steps: seq<Step>, i: nat)
    requires IsRun(v, run, steps) && i < |run|
    ensures Inv(v, run[i]) && |run[i].lebs| == |run[0].lebs|
  {
    if i > 0 {
      RunKeepsInv(v, run, steps, i - 1);
      assert run[i - 1 + 1] == Do(v, run[i - 1], steps[i - 1]);
      StepKeepsInv(v, run[i - 1], steps[i - 1]);
    }
  }

  /** What the volume held at the beginning, or exactly what some update has brought. */
  ghost predicate IsWhole(v: Update.Layout, run: seq<State>, steps: seq<Step>, i: nat, volume: seq<Seen>)
    requires LayoutOk(v) && i < |run| == |steps| + 1
  {
    volume == run[0].volume || exists j :: 0 <= j < i && steps[j].Begin? && volume == Image(v, |run[0].lebs|, steps[j].d)
  }

  /** What is being written is what some update of the run has brought. */
  lemma {:induction false} DataWasBegun(v: Update.Layout, run: seq<State>, steps: seq<Step>, i: nat)
    requires IsRun(v, run, steps) && i < |run| && !run[i].phase.Steady? && !run[i].phase.Interrupted?
    ensures exists j :: 0 <= j < i && steps[j].Begin? && steps[j].d == run[i].data
  {
    assert i > 0;
    assert run[i - 1 + 1] == Do(v, run[i - 1], steps[i - 1]);
    if !steps[i - 1].Begin? {
      DataWasBegun(v, run, steps, i - 1);
    }
  }

  lemma {:induction false} VolumeIsWhole(v: Update.Layout, run: seq<State>, steps: seq<Step>, i: nat)
    requires IsRun(v, run, steps) && i < |run| && (run[i].phase.Steady? || run[i].phase.Setting?)
    ensures IsWhole(v, run, steps, i, run[i].volume)
  {
    hide Image;
    if i > 0 {
      var a := steps[i - 1];
      assert run[i - 1 + 1] == Do(v, run[i - 1], a);
      RunKeepsInv(v, run, steps, i - 1);
      if a.Cut? {
        CutFinds(v, run[i - 1], a.marked, a.found);
      }
      if run[i - 1].phase.Clearing? {
        if !a.Erase? {
          DataWasBegun(v, run, steps, i - 1);
        }
      } else {
        VolumeIsWhole(v, run, steps, i - 1);
      }
    }
  }

  /** Over any number of updates, failures, power cuts and new attempts: wherever the power is cut, the marker
      is found, or the whole of the volume before, or exactly what the update has brought. */
  lemma UpdateIsSafe(v: Update.Layout, run: seq<State>, steps: seq<Step>, i: nat, marked: bool, found: seq<Seen>)
    requires IsRun(v, run, steps) && i < |run| && IsCut(run[i], marked, found)
    ensures marked || IsWhole(v, run, steps, i, found)
    ensures !marked ==> found == if run[i].phase.Clearing? then Image(v, |run[0].lebs|, run[i].data) else run[i].volume
  {
    RunKeepsInv(v, run, steps, i);
    CutFinds(v, run[i], marked, found);
    if !marked {
      if run[i].phase.Clearing? {
        DataWasBegun(v, run, steps, i);
      } else {
        VolumeIsWhole(v, run, steps, i);
      }
    }
  }

  // ---- An update whose marker is not on flash ------------------------------------------------

  /** Some of the copies that wait have been erased, in order. */
  ghost predicate SomeErased(l: UserLeb, r: UserLeb) {
    r.current == l.current && r.sqnum == l.sqnum && exists k :: 0 <= k <= |l.queue| && r.queue == l.queue[k..]
  }

  /** The LEBs before i have been unmapped, and some copies erased. */
  ghost predicate UnmappedTo(lebs: seq<UserLeb>, i: nat, r: seq<UserLeb>) {
    && |r| == |lebs| && i <= |lebs|
    && forall j | 0 <= j < |lebs| :: SomeErased(if j < i then Dropped(lebs[j]) else lebs[j], r[j])
  }

  /** While the volume is unmapped, a cut finds the marker or one of the two volumes. */
  ghost predicate UnmappingIsSafe(v: Update.Layout, s: State, d: seq<Byte>)
    requires LayoutOk(v)
  {
    forall i: nat, lebs, marked, found | UnmappedTo(s.lebs, i, lebs) && IsCut(s.(phase := Unmapping(i), lebs := lebs), marked, found) ::
      marked || found == s.volume || found == Image(v, |s.lebs|, d)
  }

  /** After the marker could not be written, it is set in memory, and the next update goes on without it.  As long
      as the volume is unmapped, that is safe if, and only if, the marker has reached flash all the same, or there
      is nothing to lose. */
  lemma UnmappingIsSafeIff(v: Update.Layout, s: State, d: seq<Byte>)
    requires Inv(v, s) && s.phase.Steady? && s.marker && forall j | 0 <= j < |s.volume| :: s.volume[j] != Some(Torn)
    ensures UnmappingIsSafe(v, s, d) <==> s.flash.Set? || forall j | 0 <= j < |s.volume| :: s.volume[j].None?
  {
    hide Image;
    if !s.flash.Set? {
      if j :| 0 <= j < |s.volume| && s.volume[j].Some? {
        TornIsFound(v, s, d, j);
      } else {
        forall i: nat, lebs, marked, found | UnmappedTo(s.lebs, i, lebs) && IsCut(s.(phase := Unmapping(i), lebs := lebs), marked, found)
          ensures found == s.volume
        {
          EmptyStaysEmpty(s, i, lebs, found);
        }
      }
    }
  }

  lemma EmptyStaysEmpty(s: State, i: nat, lebs: seq<UserLeb>, found: seq<Seen>)
    requires ShowsAll(s.lebs, s.volume) && (forall j | 0 <= j < |s.volume| :: s.volume[j].None?)
    requires UnmappedTo(s.lebs, i, lebs) && LebsCut(lebs, found)
    ensures found == s.volume
  {
    forall j | 0 <= j < |found|
      ensures found[j] == s.volume[j]
    {
      assert Shows(s.lebs[j], s.volume[j]) && LebCut(lebs[j], found[j]);
      assert SomeErased(if j < i then Dropped(s.lebs[j]) else s.lebs[j], lebs[j]);
    }
  }

  /** LEB j has been unmapped and is just being erased. */
  lemma TornIsFound(v: Update.Layout, s: State, d: seq<Byte>, j: nat)
    requires Inv(v, s) && s.phase.Steady? && !s.flash.Set? && j < |s.volume| && s.volume[j].Some? && s.volume[j] != Some(Torn)
    ensures !UnmappingIsSafe(v, s, d)
  {
    var l := Dropped(s.lebs[j]);
    assert Shows(s.lebs[j], s.volume[j]);
    var last := l.(queue := l.queue[|l.queue| - 1..]);
    assert IsNewest(last.queue, 0) && LebCut(last, Some(Torn)) && SomeErased(l, last);
    var lebs := seq(|s.lebs|, x requires 0 <= x < |s.lebs| => if x == j then last else if x < j then Dropped(s.lebs[x]) else s.lebs[x]);
    var found := seq(|s.lebs|, x requires 0 <= x < |s.lebs| => if x == j then Some(Torn) else AnyFound(lebs[x]));
    forall x | 0 <= x < |lebs|
      ensures SomeErased(if x < j + 1 then Dropped(s.lebs[x]) else s.lebs[x], lebs[x]) && LebCut(lebs[x], found[x])
    {
      if x != j {
        assert lebs[x].queue[0..] == lebs[x].queue && Shows(s.lebs[x], s.volume[x]);
      }
    }
    assert UnmappedTo(s.lebs, j + 1, lebs);
    assert IsCut(s.(phase := Unmapping(j + 1), lebs := lebs), false, found);
    assert found[j] == Some(Torn) && Image(v, |s.lebs|, d)[j] != Some(Torn);
  }

  /** A step of an update that has begun. */
  predicate OfUpdate(a: Step) {
    !a.Begin? && !a.Cut?
  }

  /** An update that is complete leaves the new volume and no marker, in memory or on flash: every cut finds
      just that, and whatever update follows may begin. */
  lemma CompleteIsFound(v: Update.Layout, s: State)
    requires Inv(v, s) && Enabled(v, s, MarkerCleared)
    ensures var t := Do(v, s, MarkerCleared);
      && t.phase.Steady? && (forall next :: Careful(t, next))
      && forall marked, found | IsCut(t, marked, found) :: !marked && found == Image(v, |s.lebs|, s.data)
  {
    var t := Do(v, s, MarkerCleared);
    forall marked, found | IsCut(t, marked, found)
      ensures !marked && found == Image(v, |s.lebs|, s.data)
    {
      CutOfShown(s.lebs, Image(v, |s.lebs|, s.data), found);
    }
  }

  ghost predicate Legal(v: Update.Layout, s: State, steps: seq<Step>)
    decreases |steps|
  {
    steps != [] ==> Enabled(v, s, steps[0]) && OfUpdate(steps[0]) && Legal(v, Do(v, s, steps[0]), steps[1..])
  }

  ghost function Run(v: Update.Layout, s: State, steps: seq<Step>): State
    requires Legal(v, s, steps)
    decreases |steps|
  {
    if steps == [] then s else Run(v, Do(v, s, steps[0]), steps[1..])
  }

  /** A cut at this moment finds the marker, or the volume as it was, or what the update brings. */
  ghost predicate CutIsSafe(v: Update.Layout, s: State, old_: seq<Seen>, d: seq<Byte>)
    requires LayoutOk(v)
  {
    forall marked, found | IsCut(s, marked, found) :: marked || found == old_ || found == Image(v, |s.lebs|, d)
  }

  /** Wherever the power is cut from here on, as long as nothing but this update is done to the volume. */
  ghost predicate UpdateIsSafeFrom(v: Update.Layout, s: State, old_: seq<Seen>, d: seq<Byte>)
    requires LayoutOk(v)
  {
    forall steps | Legal(v, s, steps) :: CutIsSafe(v, Run(v, s, steps), old_, d)
  }

  lemma UnsafeEarlier(v: Update.Layout, s: State, a: Step, old_: seq<Seen>, d: seq<Byte>)
    requires LayoutOk(v) && Enabled(v, s, a) && OfUpdate(a) && !UpdateIsSafeFrom(v, Do(v, s, a), old_, d)
    ensures !UpdateIsSafeFrom(v, s, old_, d)
  {
    hide Enabled, Do, CutIsSafe;
    var steps :| Legal(v, Do(v, s, a), steps) && !CutIsSafe(v, Run(v, Do(v, s, a), steps), old_, d);
    var all := [a] + steps;
    assert all[0] == a && all[1..] == steps;
    assert Legal(v, s, all) && Run(v, s, all) == Run(v, Do(v, s, a), steps);
  }

  lemma UnsafeNow(v: Update.Layout, s: State, old_: seq<Seen>, d: seq<Byte>)
    requires LayoutOk(v) && !CutIsSafe(v, s, old_, d)
    ensures !UpdateIsSafeFrom(v, s, old_, d)
  {
    hide CutIsSafe;
    assert Legal(v, s, []) && Run(v, s, []) == s;
  }

  /** Every LEB is mapped or unmapped, and nobody is writing it. */
  predicate AllSettled(lebs: seq<UserLeb>) {
    forall i | 0 <= i < |lebs| :: Settled(lebs[i])
  }

  /** LEB j may be found torn, and the others as they are. */
  lemma TornIsUnsafe(v: Update.Layout, s: State, j: nat, old_: seq<Seen>, d: seq<Byte>)
    requires LayoutOk(v) && !s.flash.Set? && j < |s.lebs| && LebCut(s.lebs[j], Some(Torn))
    requires forall i | 0 <= i < |s.lebs| && i != j :: Settled(s.lebs[i])
    requires |old_| == |s.lebs| && old_[j] != Some(Torn)
    ensures !UpdateIsSafeFrom(v, s, old_, d)
  {
    hide Image, LebCut;
    var found := seq(|s.lebs|, x requires 0 <= x < |s.lebs| => if x == j then Some(Torn) else AnyFound(s.lebs[x]));
    forall x | 0 <= x < |s.lebs|
      ensures LebCut(s.lebs[x], found[x])
    {
      if x != j {
        AnyIsFound(s.lebs[x]);
      }
    }
    assert LebsCut(s.lebs, found) && IsCut(s, false, found);
    assert found[j] == Some(Torn) && Image(v, |s.lebs|, d)[j] != Some(Torn);
    UnsafeNow(v, s, old_, d);
  }

  lemma AnyIsFound(l: UserLeb)
    requires Settled(l)
    ensures LebCut(l, AnyFound(l))
  {
  }

  /** The copies of LEB j are erased one by one, up to the last one. */
  lemma {:induction false} ErasedIsUnsafe(v: Update.Layout, s: State, j: nat, old_: seq<Seen>, d: seq<Byte>)
    requires LayoutOk(v) && !s.flash.Set? && AllSettled(s.lebs) && j < |s.lebs| == |old_| && old_[j] != Some(Torn)
    requires s.lebs[j].current.Unmapped? && s.lebs[j].queue != []
    ensures !UpdateIsSafeFrom(v, s, old_, d)
    decreases |s.lebs[j].queue|
  {
    if |s.lebs[j].queue| == 1 {
      assert IsNewest(s.lebs[j].queue, 0) && LebCut(s.lebs[j], Some(Torn));
      TornIsUnsafe(v, s, j, old_, d);
    } else {
      ErasedIsUnsafe(v, Do(v, s, Step.Erase(j, 0)), j, old_, d);
      UnsafeEarlier(v, s, Step.Erase(j, 0), old_, d);
    }
  }

  /** The LEBs are unmapped up to LEB j, which has contents. */
  lemma {:induction false} UnmappingIsUnsafe(v: Update.Layout, s: State, j: nat, old_: seq<Seen>, d: seq<Byte>)
    requires LayoutOk(v) && !s.flash.Set? && AllSettled(s.lebs) && j < |s.lebs| == |old_| && old_[j] != Some(Torn)
    requires s.phase.Unmapping? && s.phase.i <= j && s.lebs[j].current.Mapped?
    ensures !UpdateIsSafeFrom(v, s, old_, d)
    decreases j - s.phase.i
  {
    var t := Do(v, s, UnmapNext);
    if s.phase.i < j {
      UnmappingIsUnsafe(v, t, j, old_, d);
    } else {
      ErasedIsUnsafe(v, t, j, old_, d);
    }
    UnsafeEarlier(v, s, UnmapNext, old_, d);
  }

  /** Nothing is there yet, and the LEBs are filled up to the first one with data. */
  lemma {:induction false} FillingIsUnsafe(v: Update.Layout, s: State, j: nat, old_: seq<Seen>, d: seq<Byte>)
    requires LayoutOk(v) && !s.flash.Set? && AllSettled(s.lebs) && j < |s.lebs| == |old_|
    requires (forall i | 0 <= i < |old_| :: old_[i].None?) && s.data == d && Image(v, |s.lebs|, d)[j].Some?
    requires s.phase.Filling? && s.phase.i <= j
    ensures !UpdateIsSafeFrom(v, s, old_, d)
    decreases j - s.phase.i
  {
    hide Image;
    var i := s.phase.i;
    if Image(v, |s.lebs|, d)[i].Some? {
      var t := Do(v, s, StartNext);
      assert LebCut(t.lebs[i], Some(Torn));
      TornIsUnsafe(v, t, i, old_, d);
      UnsafeEarlier(v, s, StartNext, old_, d);
    } else {
      FillingIsUnsafe(v, Do(v, s, SkipNext), j, old_, d);
      UnsafeEarlier(v, s, SkipNext, old_, d);
    }
  }

  lemma {:induction false} EmptyFillingIsUnsafe(v: Update.Layout, s: State, j: nat, old_: seq<Seen>, d: seq<Byte>)
    requires LayoutOk(v) && !s.flash.Set? && AllSettled(s.lebs) && j < |s.lebs| == |old_|
    requires (forall i | 0 <= i < |old_| :: old_[i].None?) && s.data == d && Image(v, |s.lebs|, d)[j].Some?
    requires s.phase.Unmapping? && s.phase.i <= |s.lebs|
    ensures !UpdateIsSafeFrom(v, s, old_, d)
    decreases |s.lebs| - s.phase.i
  {
    hide Image;
    if s.phase.i < |s.lebs| {
      EmptyFillingIsUnsafe(v, Do(v, s, UnmapNext), j, old_, d);
      UnsafeEarlier(v, s, UnmapNext, old_, d);
    } else {
      FillingIsUnsafe(v, Do(v, s, AllUnmapped), j, old_, d);
      UnsafeEarlier(v, s, AllUnmapped, old_, d);
    }
  }

  /** The update goes on, and the volume is the old one or, once the marker is cleared, the new one. */
  ghost predicate GoesOn(v: Update.Layout, s: State, old_: seq<Seen>, d: seq<Byte>) {
    Inv(v, s) && s.data == d && (s.volume == old_ || s.volume == Image(v, |s.lebs|, d))
  }

  lemma {:induction false} MarkedIsSafe(v: Update.Layout, s: State, steps: seq<Step>, old_: seq<Seen>, d: seq<Byte>)
    requires GoesOn(v, s, old_, d) && Legal(v, s, steps)
    ensures CutIsSafe(v, Run(v, s, steps), old_, d)
    decreases |steps|
  {
    hide Image;
    if steps == [] {
      forall marked, found | IsCut(s, marked, found)
        ensures marked || found == old_ || found == Image(v, |s.lebs|, d)
      {
        CutFinds(v, s, marked, found);
      }
    } else {
      StepKeepsInv(v, s, steps[0]);
      hide Inv, CutIsSafe;
      MarkedIsSafe(v, Do(v, s, steps[0]), steps[1..], old_, d);
    }
  }

  /** There are no contents, none are waiting, and none are brought. */
  ghost predicate Bare(v: Update.Layout, s: State, d: seq<Byte>) {
    && LayoutOk(v) && s.data == d && !s.phase.Storing?
    && (forall i | 0 <= i < |s.lebs| :: s.lebs[i].current.Unmapped? && s.lebs[i].queue == [])
    && forall i | 0 <= i < |s.lebs| :: Image(v, |s.lebs|, d)[i].None?
  }

  lemma {:induction false} BareIsSafe(v: Update.Layout, s: State, steps: seq<Step>, old_: seq<Seen>, d: seq<Byte>)
    requires Bare(v, s, d) && Legal(v, s, steps) && |old_| == |s.lebs| && forall i | 0 <= i < |old_| :: old_[i].None?
    ensures CutIsSafe(v, Run(v, s, steps), old_, d)
    decreases |steps|
  {
    hide Image;
    if steps == [] {
      forall marked, found | IsCut(s, marked, found)
        ensures found == old_
      {
        forall i | 0 <= i < |found|
          ensures found[i] == old_[i]
        {
          assert LebCut(s.lebs[i], found[i]);
        }
      }
    } else {
      hide CutIsSafe, LebCut;
      BareIsSafe(v, Do(v, s, steps[0]), steps[1..], old_, d);
    }
  }

  /** The whole of such an update, from its beginning until the marker is cleared or the update is given up:
      every cut finds the marker or one of the two volumes, if, and only if, the marker has reached flash all
      the same, or the volume is empty and stays so. */
  lemma UnmarkedUpdateIsSafeIff(v: Update.Layout, s: State, d: seq<Byte>)
    requires Inv(v, s) && s.phase.Steady? && s.marker && Enabled(v, s, Step.Begin(d))
    requires forall j | 0 <= j < |s.volume| :: s.volume[j] != Some(Torn)
    ensures UpdateIsSafeFrom(v, Do(v, s, Step.Begin(d)), s.volume, d)
      <==> s.flash.Set? || forall j | 0 <= j < |s.volume| :: s.volume[j].None? && Image(v, |s.lebs|, d)[j].None?
  {
    hide Image, UpdateIsSafeFrom;
    var t := Do(v, s, Step.Begin(d));
    if s.flash.Set? {
      StepKeepsInv(v, s, Step.Begin(d));
      AllRunsMarked(v, t, s.volume, d);
    } else {
      forall i | 0 <= i < |s.lebs|
        ensures Shows(s.lebs[i], s.volume[i])
      {
      }
      if j :| 0 <= j < |s.volume| && s.volume[j].Some? {
        UnmappingIsUnsafe(v, t, j, s.volume, d);
      } else if j :| 0 <= j < |s.volume| && Image(v, |s.lebs|, d)[j].Some? {
        EmptyFillingIsUnsafe(v, t, j, s.volume, d);
      } else {
        AllRunsBare(v, t, s.volume, d);
      }
    }
  }

  lemma AllRunsMarked(v: Update.Layout, s: State, old_: seq<Seen>, d: seq<Byte>)
    requires LayoutOk(v) && GoesOn(v, s, old_, d)
    ensures UpdateIsSafeFrom(v, s, old_, d)
  {
    hide GoesOn, CutIsSafe;
    forall steps | Legal(v, s, steps)
      ensures CutIsSafe(v, Run(v, s, steps), old_, d)
    {
      MarkedIsSafe(v, s, steps, old_, d);
    }
  }

  lemma AllRunsBare(v: Update.Layout, s: State, old_: seq<Seen>, d: seq<Byte>)
    requires LayoutOk(v) && Bare(v, s, d) && |old_| == |s.lebs| && forall i | 0 <= i < |old_| :: old_[i].None?
    ensures UpdateIsSafeFrom(v, s, old_, d)
  {
    hide Bare, CutIsSafe;
    forall steps | Legal(v, s, steps)
      ensures CutIsSafe(v, Run(v, s, steps), old_, d)
    {
      BareIsSafe(v, s, steps, old_, d);
    }
  }

  /** A volume of one LEB.  Writing the marker fails, and so does nothing else: the next update unmaps the LEB,
      its copy is erased, the power is cut, and neither the marker nor one of the volumes is found. */
  lemma NeitherVolumeIsLeft(v: Update.Layout, s: State, d: seq<Byte>, x: LebData)
    requires s.phase.Steady? && !s.marker && s.flash.Clear? && s.lebs == [LayoutVolume.Leb([], Mapped(Whole(x)), 1)] && s.volume == [Some(Whole(x))]
    requires Fits(v, 1, d) && Image(v, 1, d)[0].Some?
    ensures Inv(v, s) && Enabled(v, s, Step.Begin(d)) && Careful(s, Step.Begin(d))
    ensures var set_ := Do(v, s, Step.Begin(d));
            Enabled(v, set_, SetFails)
            && var failed := Do(v, set_, SetFails);
               Inv(v, failed) && Enabled(v, failed, Step.Begin(d)) && !Careful(failed, Step.Begin(d))
               && var begun := Do(v, failed, Step.Begin(d));
                  Enabled(v, begun, UnmapNext)
                  && var gone := Do(v, begun, UnmapNext);
                     Enabled(v, gone, Step.Erase(0, 0))
                     && var left := Do(v, gone, Step.Erase(0, 0));
                        IsCut(left, false, [None]) && s.volume != [None] && Image(v, 1, d) != [None]
  {
    hide Image;
    var gone := Do(v, Do(v, Do(v, Do(v, s, Step.Begin(d)), SetFails), Step.Begin(d)), UnmapNext);
    assert gone.lebs[0].queue == [Stale(1, Whole(x))];
    assert gone.lebs == [LayoutVolume.Leb([Stale(1, Whole(x))], Unmapped, 2)];
  }

  /** What ubi_more_update_data stores is this image. */
  lemma StoredIsImage(v: Update.Layout, lebs: map<nat, LebData>, n: nat, d: seq<Byte>, k: nat)
    requires LayoutOk(v) && LebsFit(v, lebs, d, Update.Written(v, |d|, |d|)) && k < n
    ensures Image(v, n, d)[k] == if k in lebs then Some(Whole(lebs[k])) else None
  {
    hide Stored, Piece, Update.Written;
  }

  /** Clearing the marker is safe if, and only if, no LEB that has been left unmapped has a copy
      waiting for erasure. */
  lemma ClearingIsSafeIff(lebs: seq<UserLeb>, volume: seq<Seen>)
    requires volume == Contents(lebs) && forall i | 0 <= i < |lebs| :: lebs[i].current.Mapped? || lebs[i].current.Unmapped?
    ensures (forall found | LebsCut(lebs, found) :: found == volume)
      <==> forall i | 0 <= i < |lebs| && lebs[i].current.Unmapped? :: lebs[i].queue == []
  {
    if i :| 0 <= i < |lebs| && lebs[i].current.Unmapped? && lebs[i].queue != [] {
      var found := seq(|lebs|, j requires 0 <= j < |lebs| => AnyFound(lebs[j]));
      forall j | 0 <= j < |lebs|
        ensures LebCut(lebs[j], found[j])
      {
      }
      assert LebsCut(lebs, found) && found[i] != volume[i];
    } else {
      forall found | LebsCut(lebs, found)
        ensures found == volume
      {
        assert ShowsAll(lebs, volume);
        CutOfShown(lebs, volume, found);
      }
    }
  }

  function AnyFound(l: UserLeb): Seen {
    if l.current.Unmapped? && l.queue != [] then Some(l.queue[Newest(l.queue)].copy) else Found(l)
  }
}
