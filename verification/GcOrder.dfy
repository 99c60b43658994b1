/** When the garbage collector may unmap a LEB. Journal heads, the collector and the commit interleave
    freely; a power cut loses what is in the write-buffers. Nothing that ever reached flash is lost. */
module GcOrder {

  datatype Loc = Loc(lnum: nat, offs: nat)

  /** A node of some key; a newer one obsoletes the older ones, and a deletion is such a node as well. */
  datatype Copy = Copy(key: nat, ver: nat)

  datatype Entry = At(ver: nat, loc: Loc) | Gone(ver: nat)

  /** A journal head: its LEB, or -1, and what is in its write-buffer. */
  datatype Head = Head(lnum: int, pending: map<Loc, Copy>)

  /** Where ubifs_garbage_collect stands. */
  datatype Pc =
    | Off
    | Loop
    | Moving(l: nat)
    | HeadSynced(l: nat)
    | Syncing(l: nat, next: nat, freeable: bool)
    | Flushed(l: nat)
    | Exiting
    | ExitSynced

  /** What recovery goes by: an index and the LEBs that are replayed over it. */
  datatype View = View(ix: map<nat, Entry>, js: set<nat>)

  datatype Commit = NoCommit | Running(ix: map<nat, Entry>, closing: set<nat>)

  datatype State = State(
    flash: map<Loc, Copy>,
    heads: seq<Head>,
    tnc: map<nat, Entry>,
    disk: map<nat, Entry>,
    buds: set<nat>,
    gcLnum: int,
    pc: Pc,
    commit: Commit,
    durable: map<nat, nat>)

  const GC := 1

  // --- recovery ---

  predicate VisibleAt(flash: map<Loc, Copy>, v: View, k: nat, ver: nat, loc: Loc) {
    && loc in flash && flash[loc] == Copy(k, ver)
    && (loc.lnum in v.js || (k in v.ix && v.ix[k] == At(ver, loc)))
  }

  ghost predicate VisibleOutside(flash: map<Loc, Copy>, v: View, k: nat, ver: nat, l: int) {
    || (k in v.ix && v.ix[k] == Gone(ver))
    || exists loc :: VisibleAt(flash, v, k, ver, loc) && loc.lnum != l
  }

  /** Recovery finds this version of k. */
  ghost predicate Visible(flash: map<Loc, Copy>, v: View, k: nat, ver: nat) {
    VisibleOutside(flash, v, k, ver, -1)
  }

  function Now(s: State): View {
    View(s.disk, s.buds)
  }

  /** What recovery will go by once the running commit is complete. */
  function Next(s: State): View
    requires s.commit.Running?
  {
    View(s.commit.ix, s.buds - s.commit.closing)
  }

  /** The version of k that recovery takes is the one given. */
  ghost predicate Recovers(s: State, k: nat, ver: nat) {
    && Visible(s.flash, Now(s), k, ver)
    && forall w: nat :: Visible(s.flash, Now(s), k, w) ==> w <= ver
  }

  // --- the invariant ---

  predicate NotReferred(s: State, l: int) {
    forall k :: k in s.tnc && s.tnc[k].At? ==> s.tnc[k].loc.lnum != l
  }

  predicate PendingAt(s: State, h: nat, loc: Loc, c: Copy) {
    h < |s.heads| && loc in s.heads[h].pending && s.heads[h].pending[loc] == c
  }

  /** A version at least that new is in the buffer of one of the heads. */
  ghost predicate Covered(s: State, k: nat, hs: set<nat>)
    requires k in s.durable
  {
    exists h: nat, loc, ver: nat :: PendingAt(s, h, loc, Copy(k, ver)) && h in hs && s.durable[k] <= ver
  }

  /** l may be unmapped after the buffers of hs have gone to flash. */
  ghost predicate WaitsFor(s: State, v: View, l: int, hs: set<nat>) {
    forall k :: k in s.durable ==> VisibleOutside(s.flash, v, k, s.durable[k], l) || Covered(s, k, hs)
  }

  function LebOf(pc: Pc): int {
    match pc
    case Moving(l) => l
    case HeadSynced(l) => l
    case Syncing(l, _, _) => l
    case Flushed(l) => l
    case _ => -1
  }

  /** The LEB whose nodes are being moved. */
  function SourceOf(pc: Pc): int {
    if pc.Syncing? && pc.freeable then -1 else LebOf(pc)
  }

  /** The LEB that is being collected is not referred to any more. */
  predicate Emptied(pc: Pc) {
    pc.Syncing? || pc.Flushed?
  }

  predicate StillToSync(h: nat, next: nat, freeable: bool) {
    if h == GC then !freeable else next <= h
  }

  function Awaited(s: State): set<nat>
    requires Emptied(s.pc)
  {
    match s.pc
    case Syncing(_, i, freeable) => set h: nat | h < |s.heads| && StillToSync(h, i, freeable)
    case Flushed(_) => {}
  }

  function AwaitedByReserved(pc: Pc): set<nat> {
    if pc.HeadSynced? || pc.ExitSynced? then {} else {GC}
  }

  ghost predicate HeadsOk(s: State) {
    && GC < |s.heads|
    && (forall h :: 0 <= h < |s.heads| ==> -1 <= s.heads[h].lnum && (s.heads[h].lnum != -1 ==> s.heads[h].lnum in s.buds))
    && (forall h: nat, loc, c :: PendingAt(s, h, loc, c) ==> loc.lnum == s.heads[h].lnum && loc !in s.flash)
    && (forall h: nat, i: nat, loc, c, d :: PendingAt(s, h, loc, c) && PendingAt(s, i, loc, d) ==> h == i)
    && (s.pc in {Off, ExitSynced} || s.pc.Flushed? || s.pc.HeadSynced? ==> s.heads[GC].pending == map[])
  }

  ghost predicate VersionsOk(s: State) {
    && (forall loc :: loc in s.flash ==> s.flash[loc].key in s.durable && s.flash[loc].ver <= s.durable[s.flash[loc].key])
    && (forall k :: k in s.durable ==> k in s.tnc && s.durable[k] <= s.tnc[k].ver)
    && (forall h: nat, loc, c :: PendingAt(s, h, loc, c) ==> c.key in s.tnc && c.ver <= s.tnc[c.key].ver)
    && (forall loc, c :: PendingAt(s, GC, loc, c) ==> c.key in s.durable && c.ver <= s.durable[c.key])
  }

  /** The current version of k is on flash or in a buffer. */
  ghost predicate CurrentIs(s: State, k: nat)
    requires k in s.tnc
  {
    || (k in s.durable && s.durable[k] == s.tnc[k].ver && (s.tnc[k].At? ==> s.tnc[k].loc in s.flash && s.flash[s.tnc[k].loc] == Copy(k, s.tnc[k].ver)))
    || exists h: nat, loc :: PendingAt(s, h, loc, Copy(k, s.tnc[k].ver)) && (s.tnc[k].At? ==> s.tnc[k].loc == loc)
  }

  ghost predicate IndexOk(s: State) {
    && (forall k :: k in s.tnc ==> CurrentIs(s, k))
    && -1 <= s.gcLnum
    && (s.gcLnum != -1 ==> s.gcLnum !in s.buds && s.gcLnum != LebOf(s.pc) && NotReferred(s, s.gcLnum))
    && (LebOf(s.pc) != -1 ==> LebOf(s.pc) !in s.buds)
    && (Emptied(s.pc) ==> NotReferred(s, LebOf(s.pc)))
  }

  /** What was moved to the buffer of the GC head is still where it was moved from. */
  ghost predicate SourcesStay(s: State, v: View) {
    s.pc != Exiting ==>
      forall loc, c :: PendingAt(s, GC, loc, c) && c.key in s.durable && s.durable[c.key] == c.ver ==>
        exists from :: VisibleAt(s.flash, v, c.key, c.ver, from) && (from.lnum == s.gcLnum || from.lnum == SourceOf(s.pc))
  }

  /** The view finds what has to be found. */
  ghost predicate ViewFinds(s: State, v: View) {
    && v.js <= s.buds
    && (forall h :: 0 <= h < |s.heads| && s.heads[h].lnum != -1 ==> s.heads[h].lnum in v.js)
    && (forall k :: k in v.ix ==> k in s.tnc && k in s.durable && v.ix[k].ver <= s.durable[k] <= s.tnc[k].ver)
    && (forall k :: k in v.ix && s.tnc[k].Gone? && v.ix[k].ver == s.tnc[k].ver ==> v.ix[k] == s.tnc[k])
    && (forall k :: k in s.tnc && s.tnc[k].At? && s.tnc[k].loc in s.flash ==> s.tnc[k].loc.lnum in v.js || (k in v.ix && v.ix[k] == s.tnc[k]))
    && (forall k :: k in s.durable ==> Visible(s.flash, v, k, s.durable[k]))
  }

  ghost predicate ReservedWaits(s: State, v: View) {
    s.gcLnum != -1 ==> WaitsFor(s, v, s.gcLnum, AwaitedByReserved(s.pc))
  }

  ghost predicate CollectedWaits(s: State, v: View) {
    Emptied(s.pc) ==> WaitsFor(s, v, LebOf(s.pc), Awaited(s))
  }

  ghost predicate ViewOk(s: State, v: View) {
    ViewFinds(s, v) && ReservedWaits(s, v) && CollectedWaits(s, v) && SourcesStay(s, v)
  }

  ghost predicate Inv(s: State) {
    && HeadsOk(s) && VersionsOk(s) && IndexOk(s) && ViewOk(s, Now(s))
    && (s.commit.Running? ==> s.commit.closing <= s.buds && ViewOk(s, Next(s)))
  }

  // --- the steps ---

  datatype Step =
    | Write(h: nat, key: nat, loc: Loc)
    | Delete(h: nat, key: nat, loc: Loc)
    | FlushOne(h: nat, loc: Loc)
    | NewHead(h: nat, l: nat)
    | GcEnter
    | Pick(l: nat)
    | PickFreeable(l: nat)
    | MoveOne(key: nat, loc: Loc)
    | SwitchSync
    | Switch
    | SwitchFail
    | MoveDone
    | SyncNext
    | Retain
    | FlushGc
    | Unmap
    | UnmapFreeable
    | GcExit
    | ExitSync
    | ExitUnmap
    | CommitStart
    | CommitUnmap(l: nat)
    | CommitEnd

  /** The next place of a head that nothing has been written to. */
  predicate Fresh(s: State, h: nat, loc: Loc) {
    && h < |s.heads| && s.heads[h].lnum == loc.lnum && loc !in s.flash
    && (forall i :: 0 <= i < |s.heads| ==> loc !in s.heads[i].pending)
  }

  predicate Empty(s: State, l: nat) {
    forall loc :: loc in s.flash ==> loc.lnum != l
  }

  /** A data LEB that may be collected. */
  predicate Collectable(s: State, l: nat) {
    l !in s.buds && l != s.gcLnum
  }

  predicate AllSynced(s: State) {
    forall i :: 0 <= i < |s.heads| ==> s.heads[i].pending == map[]
  }

  predicate Enabled(s: State, a: Step) {
    match a
    case Write(h, key, loc) => h != GC && Fresh(s, h, loc)
    case Delete(h, key, loc) => h != GC && Fresh(s, h, loc) && key in s.tnc
    case FlushOne(h, loc) => h < |s.heads| && loc in s.heads[h].pending
    case NewHead(h, l) =>
      && h < |s.heads| && h != GC && s.heads[h].pending == map[] && Empty(s, l) && NotReferred(s, l)
      && Collectable(s, l) && l != LebOf(s.pc)
    case GcEnter => s.pc == Off
    case Pick(l) => s.pc == Loop && Collectable(s, l)
    case PickFreeable(l) => s.pc == Loop && Collectable(s, l) && NotReferred(s, l)
    case MoveOne(key, loc) =>
      && s.pc.Moving? && GC < |s.heads| && Fresh(s, GC, loc)
      && key in s.tnc && s.tnc[key].At? && s.tnc[key].loc.lnum == s.pc.l && s.tnc[key].loc in s.flash
    case SwitchSync => s.pc.Moving? && GC < |s.heads| && s.heads[GC].pending == map[] && s.gcLnum != -1
    case Switch => s.pc.HeadSynced? && GC < |s.heads| && s.heads[GC].pending == map[] && 0 <= s.gcLnum
    case SwitchFail => s.pc.HeadSynced? && GC < |s.heads| && 0 <= s.gcLnum
    case MoveDone => s.pc.Moving? && NotReferred(s, s.pc.l)
    case SyncNext => s.pc.Syncing? && s.pc.next < |s.heads| && (s.pc.next == GC || s.heads[s.pc.next].pending == map[])
    case Retain => s.pc.Syncing? && s.pc.next == |s.heads| && !s.pc.freeable && s.gcLnum == -1
    case FlushGc => s.pc.Syncing? && s.pc.next == |s.heads| && !s.pc.freeable && s.gcLnum != -1 && GC < |s.heads| && s.heads[GC].pending == map[]
    case Unmap => s.pc.Flushed?
    case UnmapFreeable => s.pc.Syncing? && s.pc.next == |s.heads| && s.pc.freeable
    case GcExit => s.pc == Loop
    case ExitSync => s.pc == Exiting && GC < |s.heads| && s.heads[GC].pending == map[]
    case ExitUnmap => s.pc == ExitSynced
    case CommitStart => s.pc == Off && s.commit.NoCommit? && AllSynced(s)
    case CommitUnmap(l) => s.pc == Off && s.commit.NoCommit? && AllSynced(s) && Collectable(s, l) && NotReferred(s, l)
    case CommitEnd => s.commit.Running?
  }

  function Unmapped(flash: map<Loc, Copy>, l: int): map<Loc, Copy> {
    map loc | loc in flash && loc.lnum != l :: flash[loc]
  }

  function Put(s: State, h: nat, loc: Loc, c: Copy): State
    requires h < |s.heads|
  {
    s.(heads := s.heads[h := s.heads[h].(pending := s.heads[h].pending[loc := c])])
  }

  function NextVer(s: State, key: nat): nat {
    if key in s.tnc then s.tnc[key].ver + 1 else 0
  }

  /** The newest version on flash. */
  function Newest(durable: map<nat, nat>, c: Copy): map<nat, nat> {
    if c.key in durable && c.ver <= durable[c.key] then durable else durable[c.key := c.ver]
  }

  function Do(s: State, a: Step): State
    requires Enabled(s, a)
  {
    match a
    case Write(h, key, loc) => Put(s, h, loc, Copy(key, NextVer(s, key))).(tnc := s.tnc[key := At(NextVer(s, key), loc)])
    case Delete(h, key, loc) => Put(s, h, loc, Copy(key, NextVer(s, key))).(tnc := s.tnc[key := Gone(NextVer(s, key))])
    case FlushOne(h, loc) =>
      var c := s.heads[h].pending[loc];
      s.(flash := s.flash[loc := c], durable := Newest(s.durable, c),
         heads := s.heads[h := s.heads[h].(pending := s.heads[h].pending - {loc})])
    case NewHead(h, l) => s.(heads := s.heads[h := Head(l, map[])], buds := s.buds + {l})
    case GcEnter => s.(pc := Loop)
    case Pick(l) => s.(pc := Moving(l))
    case PickFreeable(l) => s.(pc := Syncing(l, 0, true))
    case MoveOne(key, loc) =>
      Put(s, GC, loc, Copy(key, s.tnc[key].ver)).(tnc := s.tnc[key := At(s.tnc[key].ver, loc)])
    case SwitchSync => s.(pc := HeadSynced(s.pc.l))
    case Switch =>
      s.(flash := Unmapped(s.flash, s.gcLnum), heads := s.heads[GC := Head(s.gcLnum, map[])],
         buds := s.buds + {s.gcLnum}, gcLnum := -1, pc := Moving(s.pc.l))
    case SwitchFail => s.(flash := Unmapped(s.flash, s.gcLnum), pc := Exiting)
    case MoveDone => s.(pc := Syncing(s.pc.l, 0, false))
    case SyncNext => s.(pc := s.pc.(next := s.pc.next + 1))
    case Retain => s.(gcLnum := s.pc.l, pc := Loop)
    case FlushGc => s.(pc := Flushed(s.pc.l))
    case Unmap => s.(flash := Unmapped(s.flash, s.pc.l), pc := Loop)
    case UnmapFreeable =>
      s.(flash := Unmapped(s.flash, s.pc.l), gcLnum := if s.gcLnum == -1 then s.pc.l else s.gcLnum, pc := Loop)
    case GcExit => s.(pc := Exiting)
    case ExitSync => s.(pc := ExitSynced)
    case ExitUnmap => s.(flash := Unmapped(s.flash, s.gcLnum), pc := Off)
    case CommitStart => s.(commit := Running(s.tnc, s.buds - set i | 0 <= i < |s.heads| && 0 <= s.heads[i].lnum :: s.heads[i].lnum))
    case CommitUnmap(l) => s.(flash := Unmapped(s.flash, l))
    case CommitEnd => s.(disk := s.commit.ix, buds := s.buds - s.commit.closing, commit := NoCommit)
  }

  // --- every step keeps the invariant ---

  /** A version that is visible outside two LEBs which are not replayed is so even when one is unmapped. */
  lemma VisibleAfterUnmap(flash: map<Loc, Copy>, v: View, k: nat, ver: nat, l: int, other: int)
    requires l !in v.js && other !in v.js
    requires VisibleOutside(flash, v, k, ver, l) && VisibleOutside(flash, v, k, ver, other)
    ensures VisibleOutside(Unmapped(flash, l), v, k, ver, other)
  {
    if !(k in v.ix && v.ix[k] == Gone(ver)) {
      var a :| VisibleAt(flash, v, k, ver, a) && a.lnum != l;
      var b :| VisibleAt(flash, v, k, ver, b) && b.lnum != other;
      if a.lnum != other {
        assert VisibleAt(Unmapped(flash, l), v, k, ver, a);
      } else {
        assert v.ix[k] == At(ver, a);
        assert VisibleAt(Unmapped(flash, l), v, k, ver, b);
      }
    }
  }

  lemma VisibleInMore(flash: map<Loc, Copy>, flash': map<Loc, Copy>, v: View, v': View, k: nat, ver: nat, l: int)
    requires VisibleOutside(flash, v, k, ver, l) && v.ix == v'.ix && v.js <= v'.js
    requires forall loc :: loc in flash ==> loc in flash' && flash'[loc] == flash[loc]
    ensures VisibleOutside(flash', v', k, ver, l)
  {
    if !(k in v.ix && v.ix[k] == Gone(ver)) {
      var a :| VisibleAt(flash, v, k, ver, a) && a.lnum != l;
      assert VisibleAt(flash', v', k, ver, a);
    }
  }

  /** Waiting for no one, a LEB may be unmapped: everything stays visible. */
  lemma UnmapIsSafe(s: State, v: View, l: int)
    requires ViewOk(s, v) && l !in v.js && WaitsFor(s, v, l, {})
    ensures forall k :: k in s.durable ==> Visible(Unmapped(s.flash, l), v, k, s.durable[k])
  {
    forall k | k in s.durable ensures Visible(Unmapped(s.flash, l), v, k, s.durable[k]) {
      assert !Covered(s, k, {});
      VisibleAfterUnmap(s.flash, v, k, s.durable[k], l, -1);
    }
  }

  /** What else waits goes on waiting. */
  lemma UnmapKeepsWaiting(s: State, s': State, v: View, l: int, other: int, hs: set<nat>)
    requires WaitsFor(s, v, l, {}) && WaitsFor(s, v, other, hs) && l !in v.js && other !in v.js
    requires s'.flash == Unmapped(s.flash, l) && s'.durable == s.durable && s'.heads == s.heads
    ensures WaitsFor(s', v, other, hs)
  {
    forall k | k in s'.durable ensures VisibleOutside(s'.flash, v, k, s'.durable[k], other) || Covered(s', k, hs) {
      assert !Covered(s, k, {});
      if VisibleOutside(s.flash, v, k, s.durable[k], other) {
        VisibleAfterUnmap(s.flash, v, k, s.durable[k], l, other);
      } else {
        var h: nat, loc, ver: nat :| PendingAt(s, h, loc, Copy(k, ver)) && h in hs && s.durable[k] <= ver;
        assert PendingAt(s', h, loc, Copy(k, ver));
      }
    }
  }

  lemma WaitingGrows(s: State, s': State, v: View, l: int, hs: set<nat>)
    requires WaitsFor(s, v, l, hs) && s'.flash == s.flash && s'.durable == s.durable
    requires forall h: nat, loc, c :: PendingAt(s, h, loc, c) ==> PendingAt(s', h, loc, c)
    ensures WaitsFor(s', v, l, hs)
  {
    forall k | k in s'.durable ensures VisibleOutside(s'.flash, v, k, s'.durable[k], l) || Covered(s', k, hs) {
      if !VisibleOutside(s.flash, v, k, s.durable[k], l) {
        var h: nat, loc, ver: nat :| PendingAt(s, h, loc, Copy(k, ver)) && h in hs && s.durable[k] <= ver;
        assert PendingAt(s', h, loc, Copy(k, ver));
      }
    }
  }

  /** A LEB that nothing refers to waits for all heads. */
  lemma NotReferredWaits(s: State, v: View, l: int, hs: set<nat>)
    requires HeadsOk(s) && VersionsOk(s) && IndexOk(s) && ViewOk(s, v) && NotReferred(s, l) && l !in v.js
    requires forall h: nat :: h < |s.heads| ==> h in hs
    ensures WaitsFor(s, v, l, hs)
  {
    forall k | k in s.durable ensures VisibleOutside(s.flash, v, k, s.durable[k], l) || Covered(s, k, hs) {
      CurrentOutside(s, v, k, l, hs);
    }
  }

  lemma CurrentOutside(s: State, v: View, k: nat, l: int, hs: set<nat>)
    requires HeadsOk(s) && VersionsOk(s) && IndexOk(s) && ViewOk(s, v) && NotReferred(s, l) && l !in v.js
    requires forall h: nat :: h < |s.heads| ==> h in hs
    requires k in s.durable
    ensures VisibleOutside(s.flash, v, k, s.durable[k], l) || Covered(s, k, hs)
  {
    assert CurrentIs(s, k);
    var e := s.tnc[k];
    if h: nat, loc :| PendingAt(s, h, loc, Copy(k, e.ver)) && (e.At? ==> e.loc == loc) {
      assert Covered(s, k, hs);
    } else if e.At? {
      assert VisibleAt(s.flash, v, k, e.ver, e.loc);
    } else {
      assert Visible(s.flash, v, k, e.ver);
      if !(k in v.ix && v.ix[k] == Gone(e.ver)) {
        var a :| VisibleAt(s.flash, v, k, e.ver, a) && a.lnum != -1;
        assert a.lnum in v.js;
      }
    }
  }

  /** A free-able LEB needs no sync of the GC head: what is in there came from elsewhere. */
  lemma FreeableWaits(s: State, v: View, l: int, hs: set<nat>)
    requires HeadsOk(s) && VersionsOk(s) && IndexOk(s) && ViewOk(s, v) && NotReferred(s, l) && l !in v.js
    requires forall h: nat :: h < |s.heads| && h != GC ==> h in hs
    requires s.pc != Exiting && l != s.gcLnum && l != SourceOf(s.pc)
    ensures WaitsFor(s, v, l, hs)
  {
    forall k | k in s.durable ensures VisibleOutside(s.flash, v, k, s.durable[k], l) || Covered(s, k, hs) {
      CurrentOutside(s, v, k, l, hs + {GC});
      if h: nat, loc, ver: nat :| PendingAt(s, h, loc, Copy(k, ver)) && h in hs + {GC} && s.durable[k] <= ver {
        if h == GC {
          var from :| VisibleAt(s.flash, v, k, ver, from) && (from.lnum == s.gcLnum || from.lnum == SourceOf(s.pc));
          assert from.lnum != l;
        } else {
          assert Covered(s, k, hs);
        }
      }
    }
  }

  // steps of the collector that only move on

  predicate OnlyMovesOn(a: Step) {
    a.GcEnter? || a.Pick? || a.PickFreeable? || a.SwitchSync? || a.MoveDone? || a.SyncNext? || a.FlushGc? || a.GcExit? || a.ExitSync?
  }

  lemma PcKeepsReserved(s: State, a: Step, v: View)
    requires ReservedWaits(s, v) && Enabled(s, a) && OnlyMovesOn(a) && HeadsOk(s)
    ensures ReservedWaits(Do(s, a), v)
  {
    var s' := Do(s, a);
    if s.gcLnum != -1 {
      if a.SwitchSync? || a.ExitSync? {
        SyncedWaits(s, s', v, s.gcLnum, AwaitedByReserved(s.pc), {});
      } else {
        WaitingGrows(s, s', v, s.gcLnum, AwaitedByReserved(s.pc));
      }
    }
  }

  lemma PcKeepsCollected(s: State, a: Step, v: View)
    requires HeadsOk(s) && VersionsOk(s) && IndexOk(s) && ViewOk(s, v) && Enabled(s, a) && OnlyMovesOn(a)
    ensures CollectedWaits(Do(s, a), v)
  {
    hide HeadsOk, VersionsOk, IndexOk, WaitsFor, NotReferred, ViewFinds, ReservedWaits, SourcesStay;
    match a
    case PickFreeable(l) => PickKeepsCollected(s, l, v);
    case MoveDone => MovedKeepsCollected(s, v);
    case SyncNext => SyncKeepsCollected(s, a, v);
    case FlushGc => SyncKeepsCollected(s, a, v);
    case _ =>
  }

  lemma PickKeepsCollected(s: State, l: nat, v: View)
    requires HeadsOk(s) && VersionsOk(s) && IndexOk(s) && ViewOk(s, v) && Enabled(s, PickFreeable(l))
    ensures CollectedWaits(Do(s, PickFreeable(l)), v)
  {
    assert v.js <= s.buds;
    hide HeadsOk, VersionsOk, IndexOk, WaitsFor, NotReferred, ViewOk;
    var s' := Do(s, PickFreeable(l));
    FreeableWaits(s, v, l, Awaited(s'));
    WaitingGrows(s, s', v, l, Awaited(s'));
  }

  lemma MovedKeepsCollected(s: State, v: View)
    requires HeadsOk(s) && VersionsOk(s) && IndexOk(s) && ViewOk(s, v) && Enabled(s, MoveDone)
    ensures CollectedWaits(Do(s, MoveDone), v)
  {
    assert v.js <= s.buds;
    hide HeadsOk, VersionsOk, IndexOk, WaitsFor, NotReferred, ViewOk;
    var s' := Do(s, MoveDone);
    NotReferredWaits(s, v, s.pc.l, Awaited(s'));
    WaitingGrows(s, s', v, s.pc.l, Awaited(s'));
  }

  lemma SyncKeepsCollected(s: State, a: Step, v: View)
    requires CollectedWaits(s, v) && Enabled(s, a) && (a.SyncNext? || a.FlushGc?)
    ensures CollectedWaits(Do(s, a), v)
  {
    hide WaitsFor;
    var s' := Do(s, a);
    SyncedWaits(s, s', v, s.pc.l, Awaited(s), Awaited(s'));
  }

  lemma PcKeepsSources(s: State, a: Step, v: View)
    requires SourcesStay(s, v) && Enabled(s, a) && OnlyMovesOn(a) && HeadsOk(s)
    ensures SourcesStay(Do(s, a), v)
  {
    var s' := Do(s, a);
    if s'.pc != Exiting && s.pc != Exiting {
      forall loc, c | PendingAt(s', GC, loc, c) && c.key in s'.durable && s'.durable[c.key] == c.ver
        ensures exists from :: VisibleAt(s'.flash, v, c.key, c.ver, from) && (from.lnum == s'.gcLnum || from.lnum == SourceOf(s'.pc))
      {
        assert PendingAt(s, GC, loc, c);
        var from :| VisibleAt(s.flash, v, c.key, c.ver, from) && (from.lnum == s.gcLnum || from.lnum == SourceOf(s.pc));
        assert VisibleAt(s'.flash, v, c.key, c.ver, from);
      }
    }
  }

  lemma PcKeepsView(s: State, a: Step, v: View)
    requires HeadsOk(s) && VersionsOk(s) && IndexOk(s) && ViewOk(s, v) && Enabled(s, a) && OnlyMovesOn(a)
    ensures ViewOk(Do(s, a), v)
  {
    hide HeadsOk, VersionsOk, IndexOk, ReservedWaits, CollectedWaits, SourcesStay, Visible;
    PcKeepsReserved(s, a, v);
    PcKeepsCollected(s, a, v);
    PcKeepsSources(s, a, v);
  }

  /** A head whose buffer is empty need not be waited for. */
  lemma SyncedWaits(s: State, s': State, v: View, l: int, hs: set<nat>, hs': set<nat>)
    requires WaitsFor(s, v, l, hs) && s'.flash == s.flash && s'.durable == s.durable && s'.heads == s.heads
    requires forall h: nat :: h in hs && h < |s.heads| && h !in hs' ==> s.heads[h].pending == map[]
    ensures WaitsFor(s', v, l, hs')
  {
    forall k | k in s'.durable ensures VisibleOutside(s'.flash, v, k, s'.durable[k], l) || Covered(s', k, hs') {
      if !VisibleOutside(s.flash, v, k, s.durable[k], l) {
        var h: nat, loc, ver: nat :| PendingAt(s, h, loc, Copy(k, ver)) && h in hs && s.durable[k] <= ver;
        assert PendingAt(s', h, loc, Copy(k, ver)) && h in hs';
      }
    }
  }

  lemma PcKeepsBase(s: State, a: Step)
    requires HeadsOk(s) && VersionsOk(s) && IndexOk(s) && Enabled(s, a) && OnlyMovesOn(a)
    ensures HeadsOk(Do(s, a)) && VersionsOk(Do(s, a)) && IndexOk(Do(s, a))
  {
    var s' := Do(s, a);
    PcOnly(s, a);
    assert forall h: nat, loc, c :: PendingAt(s', h, loc, c) <==> PendingAt(s, h, loc, c);
    forall k | k in s'.tnc ensures CurrentIs(s', k) {
      CurrentStays(s, s', k);
    }
    hide CurrentIs, PendingAt, Do, OnlyMovesOn;
  }

  /** Such a step changes nothing else, and brings the collector where it may be. */
  lemma PcOnly(s: State, a: Step)
    requires HeadsOk(s) && IndexOk(s) && Enabled(s, a) && OnlyMovesOn(a)
    ensures var s' := Do(s, a); s' == s.(pc := s'.pc)
    ensures var pc' := Do(s, a).pc;
      && (pc' in {Off, ExitSynced} || pc'.Flushed? || pc'.HeadSynced? ==> s.heads[GC].pending == map[])
      && (LebOf(pc') != -1 ==> LebOf(pc') !in s.buds && LebOf(pc') != s.gcLnum)
      && (Emptied(pc') ==> NotReferred(s, LebOf(pc')))
  {
  }

  lemma CurrentStays(s: State, s': State, k: nat)
    requires k in s.tnc && CurrentIs(s, k) && k in s'.tnc && s'.tnc[k] == s.tnc[k]
    requires forall h: nat, loc, c :: PendingAt(s, h, loc, c) ==> PendingAt(s', h, loc, c)
    requires k in s.durable ==> k in s'.durable && s'.durable[k] == s.durable[k]
    requires s.tnc[k].At? && s.tnc[k].loc in s.flash ==> s.tnc[k].loc in s'.flash && s'.flash[s.tnc[k].loc] == s.flash[s.tnc[k].loc]
    ensures CurrentIs(s', k)
  {
    if h: nat, loc :| PendingAt(s, h, loc, Copy(k, s.tnc[k].ver)) && (s.tnc[k].At? ==> s.tnc[k].loc == loc) {
      assert PendingAt(s', h, loc, Copy(k, s.tnc[k].ver));
    }
  }

  // steps that unmap a LEB

  function Victim(s: State, a: Step): int {
    match a
    case Switch => s.gcLnum
    case SwitchFail => s.gcLnum
    case ExitUnmap => s.gcLnum
    case Unmap => LebOf(s.pc)
    case UnmapFreeable => LebOf(s.pc)
    case CommitUnmap(l) => l
    case _ => -1
  }

  predicate Unmaps(a: Step) {
    a.Switch? || a.SwitchFail? || a.ExitUnmap? || a.Unmap? || a.UnmapFreeable? || a.CommitUnmap?
  }

  /** A LEB is only unmapped when there is no buffer left to wait for. */
  lemma UnmapsWhenSafe(s: State, a: Step, v: View)
    requires HeadsOk(s) && VersionsOk(s) && IndexOk(s) && ViewOk(s, v) && Enabled(s, a) && Unmaps(a) && Victim(s, a) != -1
    ensures NotReferred(s, Victim(s, a)) && Victim(s, a) !in s.buds && WaitsFor(s, v, Victim(s, a), {})
  {
    match a
    case ExitUnmap =>
    case Switch =>
    case SwitchFail =>
    case Unmap =>
    case UnmapFreeable => assert Awaited(s) == {};
    case CommitUnmap(l) =>
      var hs := set h: nat | h < |s.heads| && StillToSync(h, 0, false);
      NotReferredWaits(s, v, l, hs);
      SyncedWaits(s, s, v, l, hs, {});
  }

  function LebUnmapped(s: State, l: int): State {
    s.(flash := Unmapped(s.flash, l))
  }

  lemma UnmapKeepsBase(s: State, l: int)
    requires HeadsOk(s) && VersionsOk(s) && IndexOk(s) && NotReferred(s, l)
    ensures HeadsOk(LebUnmapped(s, l)) && VersionsOk(LebUnmapped(s, l)) && IndexOk(LebUnmapped(s, l))
  {
    var s' := LebUnmapped(s, l);
    assert forall h: nat, loc, c :: PendingAt(s', h, loc, c) <==> PendingAt(s, h, loc, c);
    forall k | k in s'.tnc ensures CurrentIs(s', k) {
      CurrentStays(s, s', k);
    }
  }

  lemma UnmapKeepsView(s: State, v: View, l: int)
    requires HeadsOk(s) && ViewOk(s, v) && NotReferred(s, l) && l !in s.buds && WaitsFor(s, v, l, {})
    requires s.gcLnum !in s.buds && LebOf(s.pc) !in s.buds
    requires s.heads[GC].pending == map[] || (l != s.gcLnum && l != SourceOf(s.pc))
    ensures ViewOk(LebUnmapped(s, l), v) && WaitsFor(LebUnmapped(s, l), v, l, {})
  {
    var s' := LebUnmapped(s, l);
    UnmapIsSafe(s, v, l);
    UnmapKeepsWaiting(s, s', v, l, l, {});
    if s.gcLnum != -1 {
      UnmapKeepsWaiting(s, s', v, l, s.gcLnum, AwaitedByReserved(s.pc));
    }
    if Emptied(s.pc) {
      UnmapKeepsWaiting(s, s', v, l, LebOf(s.pc), Awaited(s));
      assert Awaited(s') == Awaited(s);
    }
    if s.pc != Exiting && s.heads[GC].pending != map[] {
      forall loc, c | PendingAt(s', GC, loc, c) && c.key in s'.durable && s'.durable[c.key] == c.ver
        ensures exists from :: VisibleAt(s'.flash, v, c.key, c.ver, from) && (from.lnum == s'.gcLnum || from.lnum == SourceOf(s'.pc))
      {
        assert PendingAt(s, GC, loc, c);
        var from :| VisibleAt(s.flash, v, c.key, c.ver, from) && (from.lnum == s.gcLnum || from.lnum == SourceOf(s.pc));
        assert VisibleAt(s'.flash, v, c.key, c.ver, from);
      }
    }
  }

  /** The view of the next state: a LEB that becomes a head's is replayed. */
  function Viewed(s: State, a: Step, v: View): View {
    match a
    case Switch => if s.gcLnum >= 0 then v.(js := v.js + {s.gcLnum}) else v
    case NewHead(_, l) => v.(js := v.js + {l})
    case _ => v
  }

  lemma UnmapStepKeepsView(s: State, a: Step, v: View)
    requires HeadsOk(s) && VersionsOk(s) && IndexOk(s) && ViewOk(s, v) && Enabled(s, a) && Unmaps(a) && Victim(s, a) != -1
    ensures ViewOk(Do(s, a), Viewed(s, a, v))
  {
    var l, s' := Victim(s, a), Do(s, a);
    UnmapsWhenSafe(s, a, v);
    UnmapKeepsView(s, v, l);
    AfterUnmap(s, a, v, LebUnmapped(s, l));
  }

  lemma AfterUnmap(s: State, a: Step, v: View, s1: State)
    requires Enabled(s, a) && Unmaps(a) && Victim(s, a) != -1 && s1 == LebUnmapped(s, Victim(s, a)) && HeadsOk(s)
    requires ViewOk(s1, v) && WaitsFor(s1, v, Victim(s, a), {})
    ensures ViewOk(Do(s, a), Viewed(s, a, v))
  {
    var l, s' := Victim(s, a), Do(s, a);
    if a.Switch? {
      SwitchKeepsView(s1, s', v);
    } else {
      AfterUnmapIs(s, a, s1);
      AfterUnmapSources(s, a, v, s1);
      AfterUnmapWaits(s', s1, v, l);
      hide Do, Enabled, Victim, Unmaps, SourcesStay, WaitsFor, VisibleOutside, Visible, VisibleAt, HeadsOk;
    }
  }

  lemma AfterUnmapIs(s: State, a: Step, s1: State)
    requires Enabled(s, a) && Unmaps(a) && !a.Switch? && s1 == LebUnmapped(s, Victim(s, a))
    ensures var s' := Do(s, a);
      && s' == s1.(pc := s'.pc, gcLnum := s'.gcLnum) && s'.gcLnum in {s1.gcLnum, Victim(s, a)}
      && (Emptied(s'.pc) ==> s'.pc == s1.pc) && s'.commit == s.commit
      && (s'.gcLnum == s1.gcLnum != Victim(s, a) ==> AwaitedByReserved(s1.pc) <= AwaitedByReserved(s'.pc))
    ensures forall v :: Viewed(s, a, v) == v
  {
  }

  /** A LEB that waits for no one does not do so after a step of the collector either. */
  lemma AfterUnmapWaits(s': State, s1: State, v: View, l: int)
    requires s' == s1.(pc := s'.pc, gcLnum := s'.gcLnum) && s'.gcLnum in {s1.gcLnum, l}
    requires s'.gcLnum == s1.gcLnum != l ==> AwaitedByReserved(s1.pc) <= AwaitedByReserved(s'.pc)
    requires WaitsFor(s1, v, l, {}) && ReservedWaits(s1, v)
    ensures ReservedWaits(s', v)
  {
    assert forall h: nat, loc, c :: PendingAt(s', h, loc, c) ==> PendingAt(s1, h, loc, c);
    hide WaitsFor;
    if s'.gcLnum == l {
      WaitingGrowsTo(s1, v, l, {}, AwaitedByReserved(s'.pc));
      WaitingGrows(s1, s', v, l, AwaitedByReserved(s'.pc));
    } else if s'.gcLnum != -1 {
      WaitingGrowsTo(s1, v, s'.gcLnum, AwaitedByReserved(s1.pc), AwaitedByReserved(s'.pc));
      WaitingGrows(s1, s', v, s'.gcLnum, AwaitedByReserved(s'.pc));
    }
  }

  lemma AfterUnmapSources(s: State, a: Step, v: View, s1: State)
    requires Enabled(s, a) && Unmaps(a) && !a.Switch? && s1 == LebUnmapped(s, Victim(s, a)) && HeadsOk(s) && SourcesStay(s1, v)
    ensures SourcesStay(Do(s, a), v)
  {
    var s' := Do(s, a);
    assert forall loc, c :: PendingAt(s', GC, loc, c) ==> PendingAt(s1, GC, loc, c);
    assert !a.UnmapFreeable? && !a.SwitchFail? ==> s.heads[GC].pending == map[];
  }

  lemma WaitingGrowsTo(s: State, v: View, l: int, hs: set<nat>, hs': set<nat>)
    requires WaitsFor(s, v, l, hs) && hs <= hs'
    ensures WaitsFor(s, v, l, hs')
  {
    forall k | k in s.durable ensures VisibleOutside(s.flash, v, k, s.durable[k], l) || Covered(s, k, hs') {
    }
  }

  lemma SwitchKeepsView(s: State, s': State, v: View)
    requires GC < |s.heads| && ViewFinds(s, v) && s.pc.HeadSynced? && s.gcLnum >= 0
    requires s' == s.(heads := s.heads[GC := Head(s.gcLnum, map[])], buds := s.buds + {s.gcLnum}, gcLnum := -1, pc := Moving(s.pc.l))
    ensures ViewOk(s', v.(js := v.js + {s.gcLnum}))
  {
    var v' := v.(js := v.js + {s.gcLnum});
    forall k | k in s'.durable ensures Visible(s'.flash, v', k, s'.durable[k]) {
      VisibleInMore(s.flash, s'.flash, v, v', k, s.durable[k], -1);
    }
  }

  lemma UnmapStepKeepsBase(s: State, a: Step)
    requires HeadsOk(s) && VersionsOk(s) && IndexOk(s) && Enabled(s, a) && Unmaps(a) && NotReferred(s, Victim(s, a))
    ensures HeadsOk(Do(s, a)) && VersionsOk(Do(s, a)) && IndexOk(Do(s, a))
  {
    UnmapKeepsBase(s, Victim(s, a));
    if a.Switch? {
      SwitchKeepsBase(LebUnmapped(s, Victim(s, a)), Do(s, a));
    } else {
      AfterUnmapBase(s, a, LebUnmapped(s, Victim(s, a)));
    }
  }

  lemma SwitchKeepsBase(s: State, s': State)
    requires HeadsOk(s) && VersionsOk(s) && IndexOk(s) && s.pc.HeadSynced? && s.gcLnum >= 0
    requires s' == s.(heads := s.heads[GC := Head(s.gcLnum, map[])], buds := s.buds + {s.gcLnum}, gcLnum := -1, pc := Moving(s.pc.l))
    ensures HeadsOk(s') && VersionsOk(s') && IndexOk(s')
  {
    assert forall h: nat, loc, c :: PendingAt(s', h, loc, c) <==> PendingAt(s, h, loc, c);
    forall k | k in s'.tnc ensures CurrentIs(s', k) {
      CurrentStays(s, s', k);
    }
  }

  lemma AfterUnmapBase(s: State, a: Step, s1: State)
    requires Enabled(s, a) && Unmaps(a) && !a.Switch? && s1 == LebUnmapped(s, Victim(s, a))
    requires HeadsOk(s1) && VersionsOk(s1) && IndexOk(s1)
    ensures HeadsOk(Do(s, a)) && VersionsOk(Do(s, a)) && IndexOk(Do(s, a))
  {
    hide Do, Enabled, CurrentIs, NotReferred, VisibleAt;
    var s' := Do(s, a);
    AfterUnmapIs(s, a, s1);
    AfterUnmapPc(s, a, s1);
    assert forall h: nat, loc, c :: PendingAt(s', h, loc, c) <==> PendingAt(s1, h, loc, c);
    forall k | k in s'.tnc ensures CurrentIs(s', k) {
      CurrentStays(s1, s', k);
    }
  }

  lemma AfterUnmapPc(s: State, a: Step, s1: State)
    requires Enabled(s, a) && Unmaps(a) && !a.Switch? && s1 == LebUnmapped(s, Victim(s, a)) && HeadsOk(s1) && IndexOk(s1)
    ensures var s' := Do(s, a);
      && (s'.pc in {Off, ExitSynced} || s'.pc.Flushed? || s'.pc.HeadSynced? ==> s'.heads[GC].pending == map[])
      && (LebOf(s'.pc) != -1 ==> s'.pc == s1.pc && s'.gcLnum == s1.gcLnum)
      && -1 <= s'.gcLnum && (s'.gcLnum != -1 ==> s'.gcLnum !in s'.buds && NotReferred(s', s'.gcLnum) && s'.gcLnum != LebOf(s'.pc))
  {
  }

  // steps that write to a buffer

  predicate Puts(a: Step) {
    a.Write? || a.Delete? || a.MoveOne?
  }

  lemma PutAt(s: State, s': State, h: nat, loc: Loc, c: Copy)
    requires Fresh(s, h, loc) && s'.heads == Put(s, h, loc, c).heads
    ensures PendingAt(s', h, loc, c)
    ensures forall i: nat, l, d :: PendingAt(s, i, l, d) ==> PendingAt(s', i, l, d)
    ensures forall i: nat, l, d :: PendingAt(s', i, l, d) ==> PendingAt(s, i, l, d) || (i == h && l == loc && d == c)
  {
  }

  lemma PutKeepsBase(s: State, a: Step)
    requires HeadsOk(s) && VersionsOk(s) && IndexOk(s) && Enabled(s, a) && Puts(a)
    ensures HeadsOk(Do(s, a)) && VersionsOk(Do(s, a)) && IndexOk(Do(s, a))
  {
    PutKeepsHeads(s, a);
    PutKeepsIndex(s, a);
    hide *;
  }

  /** The head and the node of such a step. */
  function PutHead(a: Step): nat
    requires Puts(a)
  {
    if a.MoveOne? then GC else a.h
  }

  function PutCopy(s: State, a: Step): Copy
    requires Puts(a) && Enabled(s, a)
  {
    Copy(a.key, if a.MoveOne? then s.tnc[a.key].ver else NextVer(s, a.key))
  }

  lemma PutOnly(s: State, a: Step)
    requires Enabled(s, a) && Puts(a)
    ensures var s', h, c := Do(s, a), PutHead(a), PutCopy(s, a);
      && s' == s.(heads := s'.heads, tnc := s'.tnc) && |s'.heads| == |s.heads| && Fresh(s, h, a.loc)
      && (forall i :: 0 <= i < |s.heads| ==> s'.heads[i].lnum == s.heads[i].lnum)
      && (h != GC && GC < |s.heads| ==> s'.heads[GC].pending == s.heads[GC].pending)
      && (h == GC ==> s.pc.Moving?)
      && (forall i: nat, l, d :: PendingAt(s', i, l, d) <==> PendingAt(s, i, l, d) || (i == h && l == a.loc && d == c))
      && a.key in s'.tnc && s'.tnc[a.key].ver == c.ver && (a.key in s.tnc ==> s.tnc[a.key].ver <= c.ver)
      && (forall k :: k != a.key ==> (k in s'.tnc <==> k in s.tnc) && (k in s.tnc ==> s'.tnc[k] == s.tnc[k]))
  {
    PutAt(s, Do(s, a), PutHead(a), a.loc, PutCopy(s, a));
  }

  lemma PutKeepsHeads(s: State, a: Step)
    requires HeadsOk(s) && VersionsOk(s) && IndexOk(s) && Enabled(s, a) && Puts(a)
    ensures HeadsOk(Do(s, a)) && VersionsOk(Do(s, a))
  {
    PutOnly(s, a);
    assert a.MoveOne? ==> CurrentIs(s, a.key);
    if a.MoveOne? {
      MovedIsDurable(s, a);
    }
    PutKeepsHeadsOk(s, a);
    PutKeepsVersions(s, a);
    hide *;
  }

  lemma MovedIsDurable(s: State, a: Step)
    requires HeadsOk(s) && a.MoveOne? && Enabled(s, a) && CurrentIs(s, a.key)
    ensures a.key in s.durable && s.durable[a.key] == s.tnc[a.key].ver
  {
  }

  lemma PutKeepsHeadsOk(s: State, a: Step)
    requires HeadsOk(s) && Enabled(s, a) && Puts(a)
    ensures HeadsOk(Do(s, a))
  {
    PutOnly(s, a);
    assert forall i: nat, d :: !PendingAt(s, i, a.loc, d);
    hide Do, Enabled, PendingAt;
  }

  lemma PutKeepsVersions(s: State, a: Step)
    requires VersionsOk(s) && Enabled(s, a) && Puts(a)
    requires a.MoveOne? ==> a.key in s.durable && s.durable[a.key] == s.tnc[a.key].ver
    ensures VersionsOk(Do(s, a))
  {
    PutOnly(s, a);
    assert a.MoveOne? || PutHead(a) != GC;
    hide Do, Enabled, PendingAt, Fresh;
  }

  lemma PutKeepsIndex(s: State, a: Step)
    requires HeadsOk(s) && VersionsOk(s) && IndexOk(s) && Enabled(s, a) && Puts(a)
    ensures IndexOk(Do(s, a))
  {
    var s' := Do(s, a);
    var h: nat := if a.MoveOne? then GC else a.h;
    var c := Copy(a.key, if a.MoveOne? then s.tnc[a.key].ver else NextVer(s, a.key));
    PutAt(s, s', h, a.loc, c);
    forall k | k in s'.tnc ensures CurrentIs(s', k) {
      if k != a.key {
        CurrentStays(s, s', k);
      }
    }
    hide VersionsOk;
  }

  lemma PutKeepsView(s: State, a: Step, v: View)
    requires HeadsOk(s) && VersionsOk(s) && IndexOk(s) && ViewOk(s, v) && Enabled(s, a) && Puts(a)
    ensures ViewOk(Do(s, a), v)
  {
    PutKeepsWaiting(s, a, v);
    PutKeepsSources(s, a, v);
    PutKeepsFinding(s, a, v);
    hide *;
  }

  lemma PutKeepsWaiting(s: State, a: Step, v: View)
    requires ReservedWaits(s, v) && CollectedWaits(s, v) && Enabled(s, a) && Puts(a)
    ensures ReservedWaits(Do(s, a), v) && CollectedWaits(Do(s, a), v)
  {
    var s' := Do(s, a);
    var h: nat := if a.MoveOne? then GC else a.h;
    var c := Copy(a.key, if a.MoveOne? then s.tnc[a.key].ver else NextVer(s, a.key));
    PutAt(s, s', h, a.loc, c);
    assert s'.pc == s.pc && s'.gcLnum == s.gcLnum && s'.flash == s.flash && s'.durable == s.durable && |s'.heads| == |s.heads|;
    hide Do, Enabled, WaitsFor, Put, Fresh;
    if s.gcLnum != -1 {
      WaitingGrows(s, s', v, s.gcLnum, AwaitedByReserved(s.pc));
    }
    if Emptied(s.pc) {
      WaitingGrows(s, s', v, LebOf(s.pc), Awaited(s));
      assert Awaited(s') == Awaited(s);
    }
  }

  lemma PutKeepsFinding(s: State, a: Step, v: View)
    requires HeadsOk(s) && VersionsOk(s) && ViewFinds(s, v) && Enabled(s, a) && Puts(a)
    ensures ViewFinds(Do(s, a), v)
  {
    PutOnly(s, a);
    PutEntryIs(s, a);
    hide VisibleOutside, HeadsOk, Do, Enabled, PendingAt, Fresh, Visible;
  }

  lemma PutEntryIs(s: State, a: Step)
    requires Enabled(s, a) && Puts(a)
    ensures var e := Do(s, a).tnc[a.key];
      && a.key in Do(s, a).tnc && (e.At? ==> e.loc !in s.flash)
      && (a.key in s.tnc ==> if a.MoveOne? then e.At? && e.ver == s.tnc[a.key].ver else s.tnc[a.key].ver < e.ver)
  {
  }

  /** What is moved is where the index says. */
  lemma MovedHasSource(s: State, a: Step, v: View)
    requires HeadsOk(s) && VersionsOk(s) && IndexOk(s) && ViewOk(s, v) && Enabled(s, a) && a.MoveOne?
    ensures var from := s.tnc[a.key].loc;
            VisibleAt(s.flash, v, a.key, s.tnc[a.key].ver, from) && from.lnum == SourceOf(s.pc)
  {
    assert CurrentIs(s, a.key);
  }

  lemma PutKeepsSources(s: State, a: Step, v: View)
    requires HeadsOk(s) && VersionsOk(s) && IndexOk(s) && ViewOk(s, v) && Enabled(s, a) && Puts(a)
    ensures SourcesStay(Do(s, a), v)
  {
    hide HeadsOk, VersionsOk, IndexOk, ViewFinds, ReservedWaits, CollectedWaits;
    var s' := Do(s, a);
    var h: nat := if a.MoveOne? then GC else a.h;
    var d := Copy(a.key, if a.MoveOne? then s.tnc[a.key].ver else NextVer(s, a.key));
    PutAt(s, s', h, a.loc, d);
    if s.pc != Exiting {
      forall loc, c | PendingAt(s', GC, loc, c) && c.key in s'.durable && s'.durable[c.key] == c.ver
        ensures exists from :: VisibleAt(s'.flash, v, c.key, c.ver, from) && (from.lnum == s'.gcLnum || from.lnum == SourceOf(s'.pc))
      {
        if PendingAt(s, GC, loc, c) {
          var from :| VisibleAt(s.flash, v, c.key, c.ver, from) && (from.lnum == s.gcLnum || from.lnum == SourceOf(s.pc));
          assert VisibleAt(s'.flash, v, c.key, c.ver, from);
        } else {
          assert a.MoveOne?;
          MovedHasSource(s, a, v);
        }
      }
    }
  }

  // a node of a buffer reaches flash

  lemma FlushedAt(s: State, h: nat, loc: Loc)
    requires HeadsOk(s) && Enabled(s, FlushOne(h, loc))
    ensures var s' := Do(s, FlushOne(h, loc));
            forall i: nat, l, d :: PendingAt(s', i, l, d) <==> PendingAt(s, i, l, d) && l != loc
  {
    var s' := Do(s, FlushOne(h, loc));
    assert PendingAt(s, h, loc, s.heads[h].pending[loc]);
    forall i: nat, l, d ensures PendingAt(s', i, l, d) <==> PendingAt(s, i, l, d) && l != loc {
      if l == loc && PendingAt(s, i, l, d) {
        assert i == h;
      }
    }
  }

  lemma FlushKeepsHeads(s: State, h: nat, loc: Loc)
    requires HeadsOk(s) && VersionsOk(s) && IndexOk(s) && Enabled(s, FlushOne(h, loc))
    ensures var s' := Do(s, FlushOne(h, loc)); HeadsOk(s') && VersionsOk(s')
  {
    hide IndexOk;
    var s' := Do(s, FlushOne(h, loc));
    FlushedAt(s, h, loc);
    var c := s.heads[h].pending[loc];
    assert PendingAt(s, h, loc, c);
    assert forall i :: 0 <= i < |s.heads| ==> s'.heads[i].lnum == s.heads[i].lnum;
  }

  lemma FlushKeepsBase(s: State, h: nat, loc: Loc)
    requires HeadsOk(s) && VersionsOk(s) && IndexOk(s) && Enabled(s, FlushOne(h, loc))
    ensures var s' := Do(s, FlushOne(h, loc)); HeadsOk(s') && VersionsOk(s') && IndexOk(s')
  {
    hide HeadsOk, VersionsOk, CurrentIs;
    var s' := Do(s, FlushOne(h, loc));
    FlushKeepsHeads(s, h, loc);
    forall k | k in s'.tnc ensures CurrentIs(s', k) {
      FlushKeepsCurrent(s, h, loc, k);
    }
  }

  lemma FlushKeepsCurrent(s: State, h: nat, loc: Loc, k: nat)
    requires HeadsOk(s) && VersionsOk(s) && IndexOk(s) && Enabled(s, FlushOne(h, loc)) && k in s.tnc
    ensures CurrentIs(Do(s, FlushOne(h, loc)), k)
  {
    var s' := Do(s, FlushOne(h, loc));
    FlushedAt(s, h, loc);
    var c := s.heads[h].pending[loc];
    assert PendingAt(s, h, loc, c);
    assert CurrentIs(s, k);
    if i: nat, l :| PendingAt(s, i, l, Copy(k, s.tnc[k].ver)) && (s.tnc[k].At? ==> s.tnc[k].loc == l) {
      if l != loc {
        assert PendingAt(s', i, l, Copy(k, s.tnc[k].ver));
      }
    }
  }

  /** The node that reaches flash is found where it was put. */
  lemma FlushedIsFound(s: State, h: nat, loc: Loc, v: View, l: int)
    requires HeadsOk(s) && ViewFinds(s, v) && Enabled(s, FlushOne(h, loc)) && l !in v.js
    ensures var c := s.heads[h].pending[loc]; VisibleOutside(Do(s, FlushOne(h, loc)).flash, v, c.key, c.ver, l)
  {
    hide Visible;
    var c := s.heads[h].pending[loc];
    assert PendingAt(s, h, loc, c);
    assert VisibleAt(Do(s, FlushOne(h, loc)).flash, v, c.key, c.ver, loc);
  }

  lemma FlushKeepsFinding(s: State, h: nat, loc: Loc, v: View, l: int, hs: set<nat>, k: nat)
    requires HeadsOk(s) && VersionsOk(s) && ViewFinds(s, v) && Enabled(s, FlushOne(h, loc)) && WaitsFor(s, v, l, hs) && l !in v.js
    requires k in Do(s, FlushOne(h, loc)).durable
    ensures var s' := Do(s, FlushOne(h, loc)); VisibleOutside(s'.flash, v, k, s'.durable[k], l) || Covered(s', k, hs)
  {
    hide HeadsOk, VersionsOk, ViewFinds, VisibleOutside;
    var s' := Do(s, FlushOne(h, loc));
    FlushedAt(s, h, loc);
    var c := s.heads[h].pending[loc];
    if k == c.key && (k in s.durable ==> s.durable[k] <= c.ver) {
      FlushedIsFound(s, h, loc, v, l);
    } else if VisibleOutside(s.flash, v, k, s.durable[k], l) {
      FlushOnlyAdds(s, h, loc);
      VisibleInMore(s.flash, s'.flash, v, v, k, s.durable[k], l);
    } else {
      var i: nat, at, ver: nat :| PendingAt(s, i, at, Copy(k, ver)) && i in hs && s.durable[k] <= ver;
      assert PendingAt(s, h, loc, c);
      assert PendingAt(s', i, at, Copy(k, ver));
    }
  }

  lemma FlushOnlyAdds(s: State, h: nat, loc: Loc)
    requires HeadsOk(s) && Enabled(s, FlushOne(h, loc))
    ensures var f := Do(s, FlushOne(h, loc)).flash; forall at :: at in s.flash ==> at in f && f[at] == s.flash[at]
  {
    assert PendingAt(s, h, loc, s.heads[h].pending[loc]);
  }

  lemma FlushKeepsWaiting(s: State, h: nat, loc: Loc, v: View, l: int, hs: set<nat>)
    requires HeadsOk(s) && VersionsOk(s) && ViewFinds(s, v) && Enabled(s, FlushOne(h, loc)) && WaitsFor(s, v, l, hs) && l !in v.js
    ensures WaitsFor(Do(s, FlushOne(h, loc)), v, l, hs)
  {
    hide Do, Enabled, HeadsOk, VersionsOk, ViewFinds, VisibleOutside, Covered;
    var s' := Do(s, FlushOne(h, loc));
    forall k | k in s'.durable ensures VisibleOutside(s'.flash, v, k, s'.durable[k], l) || Covered(s', k, hs) {
      FlushKeepsFinding(s, h, loc, v, l, hs, k);
    }
  }

  lemma FlushKeepsView(s: State, h: nat, loc: Loc, v: View)
    requires HeadsOk(s) && VersionsOk(s) && IndexOk(s) && ViewOk(s, v) && Enabled(s, FlushOne(h, loc))
    ensures ViewOk(Do(s, FlushOne(h, loc)), v)
  {
    var s' := Do(s, FlushOne(h, loc));
    if s.gcLnum != -1 {
      FlushKeepsWaiting(s, h, loc, v, s.gcLnum, AwaitedByReserved(s.pc));
    }
    if Emptied(s.pc) {
      FlushKeepsWaiting(s, h, loc, v, LebOf(s.pc), Awaited(s));
      assert Awaited(s') == Awaited(s);
    }
    FlushKeepsSources(s, h, loc, v);
    assert ViewFinds(s', v) by {
      var c := s.heads[h].pending[loc];
      assert PendingAt(s, h, loc, c);
      assert WaitsFor(s, v, -1, {});
      FlushKeepsWaiting(s, h, loc, v, -1, {});
      forall k | k in s'.durable ensures Visible(s'.flash, v, k, s'.durable[k]) {
        assert !Covered(s', k, {});
      }
    }
  }

  lemma FlushKeepsSources(s: State, h: nat, loc: Loc, v: View)
    requires HeadsOk(s) && VersionsOk(s) && SourcesStay(s, v) && Enabled(s, FlushOne(h, loc))
    ensures SourcesStay(Do(s, FlushOne(h, loc)), v)
  {
    var s' := Do(s, FlushOne(h, loc));
    FlushedAt(s, h, loc);
    var d := s.heads[h].pending[loc];
    assert PendingAt(s, h, loc, d);
    if s.pc != Exiting {
      forall at, c | PendingAt(s', GC, at, c) && c.key in s'.durable && s'.durable[c.key] == c.ver
        ensures exists from :: VisibleAt(s'.flash, v, c.key, c.ver, from) && (from.lnum == s'.gcLnum || from.lnum == SourceOf(s'.pc))
      {
        assert PendingAt(s, GC, at, c);
        var from :| VisibleAt(s.flash, v, c.key, c.ver, from) && (from.lnum == s.gcLnum || from.lnum == SourceOf(s.pc));
        assert VisibleAt(s'.flash, v, c.key, c.ver, from);
      }
    }
  }

  // a new bud, the reserved LEB, the commit

  lemma NewHeadKeepsBase(s: State, h: nat, l: nat)
    requires HeadsOk(s) && VersionsOk(s) && IndexOk(s) && Enabled(s, NewHead(h, l))
    ensures var s' := Do(s, NewHead(h, l)); HeadsOk(s') && VersionsOk(s') && IndexOk(s')
  {
    var s' := Do(s, NewHead(h, l));
    assert forall i: nat, at, c :: PendingAt(s', i, at, c) <==> PendingAt(s, i, at, c);
    forall k | k in s'.tnc ensures CurrentIs(s', k) {
      CurrentStays(s, s', k);
    }
  }

  lemma MoreIsReplayed(s: State, s': State, v: View, v': View, l: int, hs: set<nat>)
    requires WaitsFor(s, v, l, hs) && v'.ix == v.ix && v.js <= v'.js && s'.flash == s.flash && s'.durable == s.durable
    requires forall h: nat, loc, c :: PendingAt(s, h, loc, c) ==> PendingAt(s', h, loc, c)
    ensures WaitsFor(s', v', l, hs)
  {
    WaitingGrows(s, s', v, l, hs);
    forall k | k in s'.durable ensures VisibleOutside(s'.flash, v', k, s'.durable[k], l) || Covered(s', k, hs) {
      if VisibleOutside(s'.flash, v, k, s'.durable[k], l) {
        VisibleInMore(s'.flash, s'.flash, v, v', k, s'.durable[k], l);
      }
    }
  }

  lemma NewHeadKeepsView(s: State, h: nat, l: nat, v: View)
    requires HeadsOk(s) && VersionsOk(s) && IndexOk(s) && ViewOk(s, v) && Enabled(s, NewHead(h, l))
    ensures ViewOk(Do(s, NewHead(h, l)), v.(js := v.js + {l}))
  {
    var s', v' := Do(s, NewHead(h, l)), v.(js := v.js + {l});
    assert forall i: nat, at, c :: PendingAt(s', i, at, c) <==> PendingAt(s, i, at, c);
    assert s' == s.(heads := s'.heads, buds := s.buds + {l}) && |s'.heads| == |s.heads|;
    if s.gcLnum != -1 {
      MoreIsReplayed(s, s', v, v', s.gcLnum, AwaitedByReserved(s.pc));
    }
    if Emptied(s.pc) {
      MoreIsReplayed(s, s', v, v', LebOf(s.pc), Awaited(s));
      assert Awaited(s') == Awaited(s);
    }
    NewHeadKeepsFinding(s, s', v, l);
    NewHeadKeepsSources(s, s', v, v');
    hide WaitsFor, VisibleOutside, Visible, PendingAt, SourcesStay, Enabled, IndexOk, VersionsOk, ViewFinds;
  }

  lemma NewHeadKeepsFinding(s: State, s': State, v: View, l: nat)
    requires ViewFinds(s, v) && s' == s.(heads := s'.heads, buds := s.buds + {l}) && |s'.heads| == |s.heads|
    requires forall i :: 0 <= i < |s.heads| ==> s'.heads[i].lnum == s.heads[i].lnum || s'.heads[i].lnum == l
    ensures ViewFinds(s', v.(js := v.js + {l}))
  {
    var v' := v.(js := v.js + {l});
    forall k | k in s'.durable ensures Visible(s'.flash, v', k, s'.durable[k]) {
      VisibleInMore(s.flash, s'.flash, v, v', k, s.durable[k], -1);
    }
    hide Visible, VisibleOutside;
  }

  lemma NewHeadKeepsSources(s: State, s': State, v: View, v': View)
    requires SourcesStay(s, v) && v.ix == v'.ix && v.js <= v'.js
    requires s' == s.(heads := s'.heads, buds := s'.buds)
    requires forall i: nat, at, c :: PendingAt(s', i, at, c) ==> PendingAt(s, i, at, c)
    ensures SourcesStay(s', v')
  {
    if s.pc != Exiting {
      forall loc, c | PendingAt(s', GC, loc, c) && c.key in s'.durable && s'.durable[c.key] == c.ver
        ensures exists from :: VisibleAt(s'.flash, v', c.key, c.ver, from) && (from.lnum == s'.gcLnum || from.lnum == SourceOf(s'.pc))
      {
        assert PendingAt(s, GC, loc, c);
        var from :| VisibleAt(s.flash, v, c.key, c.ver, from) && (from.lnum == s.gcLnum || from.lnum == SourceOf(s.pc));
        assert VisibleAt(s'.flash, v', c.key, c.ver, from);
      }
    }
  }

  lemma RetainKeepsBase(s: State)
    requires HeadsOk(s) && VersionsOk(s) && IndexOk(s) && Enabled(s, Retain)
    ensures var s' := Do(s, Retain); HeadsOk(s') && VersionsOk(s') && IndexOk(s')
  {
    var s' := Do(s, Retain);
    assert forall i: nat, at, c :: PendingAt(s', i, at, c) <==> PendingAt(s, i, at, c);
    forall k | k in s'.tnc ensures CurrentIs(s', k) {
      CurrentStays(s, s', k);
    }
  }

  lemma RetainKeepsView(s: State, v: View)
    requires HeadsOk(s) && VersionsOk(s) && IndexOk(s) && ViewOk(s, v) && Enabled(s, Retain)
    ensures ViewOk(Do(s, Retain), v)
  {
    var s' := Do(s, Retain);
    RetainIs(s);
    RetainKeepsSources(s, s', v);
    hide Do, Enabled, HeadsOk, VersionsOk, IndexOk, SourcesStay, WaitsFor;
    assert WaitsFor(s, v, s.pc.l, {GC});
    WaitingGrows(s, s', v, s.pc.l, {GC});
    hide VisibleOutside, Visible, VisibleAt, PendingAt;
  }

  lemma RetainIs(s: State)
    requires HeadsOk(s) && Enabled(s, Retain)
    ensures Do(s, Retain) == s.(gcLnum := s.pc.l, pc := Loop) && Awaited(s) == {GC} && Emptied(s.pc) && s.gcLnum == -1
  {
  }

  lemma RetainKeepsSources(s: State, s': State, v: View)
    requires SourcesStay(s, v) && s.pc.Syncing? && !s.pc.freeable && s.gcLnum == -1 && s' == s.(gcLnum := s.pc.l, pc := Loop)
    ensures SourcesStay(s', v)
  {
    assert forall i: nat, at, c :: PendingAt(s', i, at, c) <==> PendingAt(s, i, at, c);
  }

  /** The index that a commit starts to write finds everything by itself. */
  lemma NothingPending(s: State)
    requires Enabled(s, CommitStart)
    ensures forall i: nat, at, c :: !PendingAt(s, i, at, c) && !PendingAt(Do(s, CommitStart), i, at, c)
  {
  }

  lemma CommitStartFinds(s: State, k: nat)
    requires HeadsOk(s) && VersionsOk(s) && IndexOk(s) && Enabled(s, CommitStart) && k in s.durable
    ensures var s' := Do(s, CommitStart); var v := Next(s');
      && Visible(s'.flash, v, k, s'.durable[k])
      && (s.gcLnum != -1 ==> VisibleOutside(s'.flash, v, k, s'.durable[k], s.gcLnum))
  {
    NothingPending(s);
    var s' := Do(s, CommitStart);
    assert CurrentIs(s, k);
    if s.tnc[k].At? {
      assert VisibleAt(s'.flash, Next(s'), k, s.durable[k], s.tnc[k].loc);
    }
  }

  lemma CommitStartViews(s: State)
    requires HeadsOk(s) && VersionsOk(s) && IndexOk(s) && Enabled(s, CommitStart)
    ensures ViewOk(Do(s, CommitStart), Next(Do(s, CommitStart)))
  {
    hide Visible, VisibleOutside, Covered;
    NothingPending(s);
    var s' := Do(s, CommitStart);
    forall k | k in s'.durable
      ensures Visible(s'.flash, Next(s'), k, s'.durable[k])
      ensures s.gcLnum != -1 ==> VisibleOutside(s'.flash, Next(s'), k, s'.durable[k], s.gcLnum)
    {
      CommitStartFinds(s, k);
    }
  }

  lemma CommitEndKeepsBase(s: State)
    requires HeadsOk(s) && VersionsOk(s) && IndexOk(s) && Enabled(s, CommitEnd) && ViewFinds(s, Next(s))
    ensures var s' := Do(s, CommitEnd); HeadsOk(s') && VersionsOk(s') && IndexOk(s')
  {
    var s' := Do(s, CommitEnd);
    assert forall i: nat, at, c :: PendingAt(s', i, at, c) <==> PendingAt(s, i, at, c);
    forall k | k in s'.tnc ensures CurrentIs(s', k) {
      CurrentStays(s, s', k);
    }
  }

  /** A change outside of what a view is about. */
  lemma SameView(s: State, s': State, v: View)
    requires ViewOk(s, v) && v.js <= s'.buds
    requires s' == s.(disk := s'.disk, commit := s'.commit, buds := s'.buds)
    ensures ViewOk(s', v)
  {
    assert forall i: nat, at, c :: PendingAt(s', i, at, c) <==> PendingAt(s, i, at, c);
    if s.gcLnum != -1 {
      WaitingGrows(s, s', v, s.gcLnum, AwaitedByReserved(s.pc));
    }
    if Emptied(s.pc) {
      WaitingGrows(s, s', v, LebOf(s.pc), Awaited(s));
      assert Awaited(s') == Awaited(s);
    }
  }

  lemma NegativeNotReferred(s: State)
    ensures NotReferred(s, -1)
  {
  }

  lemma StepKeepsBase(s: State, a: Step)
    requires HeadsOk(s) && VersionsOk(s) && IndexOk(s) && ViewOk(s, Now(s)) && (s.commit.Running? ==> ViewFinds(s, Next(s)))
    requires Enabled(s, a)
    ensures HeadsOk(Do(s, a)) && VersionsOk(Do(s, a)) && IndexOk(Do(s, a))
  {
    if Unmaps(a) && Victim(s, a) != -1 {
      UnmapsWhenSafe(s, a, Now(s));
    }
    NegativeNotReferred(s);
    hide HeadsOk, VersionsOk, IndexOk, ViewOk, ViewFinds, Do, Enabled, NotReferred;
    if Unmaps(a) {
      UnmapStepKeepsBase(s, a);
    } else if Puts(a) {
      PutKeepsBase(s, a);
    } else if OnlyMovesOn(a) {
      PcKeepsBase(s, a);
    } else if a.FlushOne? {
      FlushKeepsBase(s, a.h, a.loc);
    } else if a.NewHead? {
      NewHeadKeepsBase(s, a.h, a.l);
    } else if a.Retain? {
      RetainKeepsBase(s);
    } else if a.CommitStart? {
      CommitStartKeepsBase(s);
    } else {
      CommitEndKeepsBase(s);
    }
  }

  lemma CommitStartKeepsBase(s: State)
    requires HeadsOk(s) && VersionsOk(s) && IndexOk(s) && Enabled(s, CommitStart)
    ensures var s' := Do(s, CommitStart); HeadsOk(s') && VersionsOk(s') && IndexOk(s')
  {
    var s' := Do(s, CommitStart);
    assert forall i: nat, at, c :: PendingAt(s', i, at, c) <==> PendingAt(s, i, at, c);
    forall k | k in s'.tnc ensures CurrentIs(s', k) {
      CurrentStays(s, s', k);
    }
  }

  /** Without a reserved LEB there is nothing to unmap in the end. */
  lemma ExitWithoutReserve(s: State, v: View)
    requires HeadsOk(s) && ViewOk(s, v) && Enabled(s, ExitUnmap) && s.gcLnum == -1
    ensures ViewOk(Do(s, ExitUnmap), v)
  {
    assert Do(s, ExitUnmap).flash == s.flash;
  }

  lemma StepKeepsView(s: State, a: Step, v: View)
    requires HeadsOk(s) && VersionsOk(s) && IndexOk(s) && ViewOk(s, v) && Enabled(s, a) && !a.CommitEnd?
    ensures ViewOk(Do(s, a), Viewed(s, a, v))
  {
    assert a.CommitStart? ==> v.js <= s.buds && Do(s, a) == s.(commit := Do(s, a).commit);
    if Unmaps(a) {
      VictimIs(s, a);
    }
    hide HeadsOk, VersionsOk, IndexOk, ViewOk, Do, Enabled, Victim;
    if Unmaps(a) {
      if Victim(s, a) == -1 {
        ExitWithoutReserve(s, v);
      } else {
        UnmapStepKeepsView(s, a, v);
      }
    } else if Puts(a) {
      PutKeepsView(s, a, v);
    } else if OnlyMovesOn(a) {
      PcKeepsView(s, a, v);
    } else if a.FlushOne? {
      FlushKeepsView(s, a.h, a.loc, v);
    } else if a.NewHead? {
      NewHeadKeepsView(s, a.h, a.l, v);
    } else if a.Retain? {
      RetainKeepsView(s, v);
    } else {
      SameView(s, Do(s, a), v);
    }
  }

  lemma VictimIs(s: State, a: Step)
    requires IndexOk(s) && Enabled(s, a) && Unmaps(a)
    ensures Victim(s, a) == -1 ==> a.ExitUnmap? && s.gcLnum == -1
  {
  }

  lemma StepKeepsInv(s: State, a: Step)
    requires Inv(s) && Enabled(s, a)
    ensures Inv(Do(s, a))
  {
    StepKeepsBase(s, a);
    assert IndexOk(s) ==> s.gcLnum !in s.buds;
    NextViews(s, a);
    hide ViewOk, HeadsOk, VersionsOk, IndexOk, Do, Enabled;
    if a.CommitEnd? {
      CommitEndKeepsViews(s);
    } else {
      StepKeepsView(s, a, Now(s));
      if a.CommitStart? {
        CommitStartViews(s);
      } else if Do(s, a).commit.Running? {
        StepKeepsView(s, a, Next(s));
      }
    }
  }

  lemma CommitEndKeepsViews(s: State)
    requires Inv(s) && Enabled(s, CommitEnd)
    ensures ViewOk(Do(s, CommitEnd), Now(Do(s, CommitEnd)))
  {
    hide ViewOk, HeadsOk, VersionsOk, IndexOk;
    SameView(s, Do(s, CommitEnd), Next(s));
  }

  /** The views of the next state are those of this one. */
  lemma ReservedIsNoBud(s: State)
    requires Inv(s)
    ensures s.gcLnum !in s.buds && (s.commit.Running? ==> s.commit.closing <= s.buds)
  {
    hide HeadsOk, VersionsOk, CurrentIs, NotReferred, ViewOk;
  }

  lemma NextViews(s: State, a: Step)
    requires Inv(s) && Enabled(s, a)
    ensures a.CommitEnd? ==> Do(s, a).commit.NoCommit?
    ensures !a.CommitEnd? ==> Now(Do(s, a)) == Viewed(s, a, Now(s))
    ensures !a.CommitEnd? && !a.CommitStart? ==> (Do(s, a).commit.Running? <==> s.commit.Running?)
    ensures !a.CommitEnd? && !a.CommitStart? && s.commit.Running? ==>
      Next(Do(s, a)) == Viewed(s, a, Next(s)) && Do(s, a).commit.closing <= Do(s, a).buds
    ensures a.CommitStart? ==> Do(s, a).commit.Running? && Do(s, a).commit.closing <= Do(s, a).buds
  {
    hide Inv, Do, Enabled;
    ReservedIsNoBud(s);
    BudsGrow(s, a);
    if !a.CommitEnd? && !a.CommitStart? && s.commit.Running? {
      assert Next(Do(s, a)).js == Viewed(s, a, Next(s)).js;
    }
  }

  lemma BudsGrow(s: State, a: Step)
    requires Enabled(s, a)
    ensures var s' := Do(s, a);
      && (a.CommitEnd? ==> s'.commit.NoCommit?)
      && (a.CommitStart? ==> s'.commit.Running? && s'.commit.closing <= s'.buds && s'.buds == s.buds && s'.disk == s.disk)
      && (!a.CommitEnd? && !a.CommitStart? ==> s'.disk == s.disk && s'.commit == s.commit)
      && (a.Switch? ==> s.gcLnum >= 0 && s'.buds == s.buds + {s.gcLnum})
      && (a.NewHead? ==> a.l !in s.buds && s'.buds == s.buds + {a.l})
      && (!a.Switch? && !a.NewHead? && !a.CommitEnd? ==> s'.buds == s.buds)
  {
    hide Fresh, Empty, AllSynced, NotReferred;
  }

  // --- mounting ---

  /** What the replay makes of key k.  A node of the journal may be a deletion. */
  ghost predicate FoundAs(flash: map<Loc, Copy>, v: View, k: nat, e: Entry) {
    match e
    case At(ver, loc) => VisibleAt(flash, v, k, ver, loc)
    case Gone(ver) => (k in v.ix && v.ix[k] == e) || exists loc :: VisibleAt(flash, v, k, ver, loc) && loc.lnum in v.js
  }

  predicate SameDeletion(disk: map<nat, Entry>, k: nat, e: Entry) {
    e.Gone? && k in disk && disk[k].ver == e.ver ==> disk[k] == e
  }

  /** A file system that has just been mounted, whether it was unmounted cleanly or not. */
  ghost predicate Mounted(s: State) {
    && GC < |s.heads| && s.pc == Off && s.commit == NoCommit
    && (forall i :: 0 <= i < |s.heads| ==>
          s.heads[i].pending == map[] && -1 <= s.heads[i].lnum && (s.heads[i].lnum != -1 ==> s.heads[i].lnum in s.buds))
    && (forall k :: k in s.tnc ==> FoundAs(s.flash, Now(s), k, s.tnc[k]) && SameDeletion(s.disk, k, s.tnc[k]))
    && (forall loc :: loc in s.flash ==> s.flash[loc].key in s.tnc && s.flash[loc].ver <= s.tnc[s.flash[loc].key].ver)
    && (forall k :: k in s.disk ==> k in s.tnc && s.disk[k].ver <= s.tnc[k].ver)
    && s.durable == (map k | k in s.tnc :: s.tnc[k].ver)
    && -1 <= s.gcLnum && (s.gcLnum != -1 ==> s.gcLnum !in s.buds && NotReferred(s, s.gcLnum))
  }

  lemma FoundIsVisible(s: State, k: nat, l: int)
    requires Mounted(s) && k in s.tnc && (l == -1 || l == s.gcLnum)
    ensures VisibleOutside(s.flash, Now(s), k, s.tnc[k].ver, l)
  {
    var e := s.tnc[k];
    assert FoundAs(s.flash, Now(s), k, e);
    if e.At? {
      assert VisibleAt(s.flash, Now(s), k, e.ver, e.loc);
    }
  }

  lemma MountedEntry(s: State, k: nat)
    requires Mounted(s) && k in s.tnc
    ensures CurrentIs(s, k) && VisibleOutside(s.flash, Now(s), k, s.tnc[k].ver, s.gcLnum) && Visible(s.flash, Now(s), k, s.tnc[k].ver)
    ensures s.tnc[k].At? ==> VisibleAt(s.flash, Now(s), k, s.tnc[k].ver, s.tnc[k].loc)
  {
    hide VisibleOutside;
    FoundIsVisible(s, k, -1);
    FoundIsVisible(s, k, s.gcLnum);
    assert FoundAs(s.flash, Now(s), k, s.tnc[k]);
  }

  lemma MountedBase(s: State)
    requires Mounted(s)
    ensures HeadsOk(s) && VersionsOk(s) && IndexOk(s)
  {
    hide CurrentIs, FoundAs, SameDeletion, NotReferred;
    assert forall i: nat, at, c :: !PendingAt(s, i, at, c);
    forall k | k in s.tnc
      ensures CurrentIs(s, k)
    {
      MountedEntry(s, k);
    }
  }

  lemma MountedIsOk(s: State)
    requires Mounted(s)
    ensures Inv(s)
  {
    hide HeadsOk, VersionsOk, IndexOk, FoundAs, NotReferred, Visible, VisibleOutside, Covered;
    MountedBase(s);
    assert forall i: nat, at, c :: !PendingAt(s, i, at, c);
    forall k | k in s.tnc
      ensures VisibleOutside(s.flash, Now(s), k, s.tnc[k].ver, s.gcLnum) && Visible(s.flash, Now(s), k, s.tnc[k].ver)
      ensures s.tnc[k].At? ==> VisibleAt(s.flash, Now(s), k, s.tnc[k].ver, s.tnc[k].loc)
    {
      MountedEntry(s, k);
    }
  }

  /** The power may be cut at any moment: recovery finds exactly the newest version of each node that
      reached flash. */
  lemma CutFindsNewest(s: State, k: nat)
    requires Inv(s) && k in s.durable
    ensures Recovers(s, k, s.durable[k])
  {
    forall w: nat | Visible(s.flash, Now(s), k, w) ensures w <= s.durable[k] {
      if k in s.disk && s.disk[k] == Gone(w) {
        assert s.disk[k].ver <= s.durable[k];
      } else {
        var loc :| VisibleAt(s.flash, Now(s), k, w, loc) && loc.lnum != -1;
      }
    }
  }

  // --- runs ---

  /** The power was cut, and the file system is mounted again: the index is that of the last commit with
      the newest of what the journal holds, and nothing is in the buffers. */
  ghost predicate Remounted(s: State, r: State) {
    && r.flash == s.flash && r.disk == s.disk && r.buds == s.buds && r.durable == s.durable
    && r.pc == Off && r.commit == NoCommit
    && |r.heads| == |s.heads| && (forall i :: 0 <= i < |s.heads| ==> r.heads[i] == Head(s.heads[i].lnum, map[]))
    && (forall k :: k in r.tnc <==> exists ver :: Visible(s.flash, Now(s), k, ver))
    && (forall k :: k in r.tnc ==>
          Recovers(s, k, r.tnc[k].ver) && FoundAs(s.flash, Now(s), k, r.tnc[k]) && SameDeletion(s.disk, k, r.tnc[k]))
    && -1 <= r.gcLnum && (r.gcLnum != -1 ==> r.gcLnum !in r.buds && NotReferred(r, r.gcLnum))
  }

  lemma VisibleIsDurable(s: State, k: nat, ver: nat)
    requires Inv(s) && Visible(s.flash, Now(s), k, ver)
    ensures k in s.durable
  {
    if !(k in s.disk && s.disk[k] == Gone(ver)) {
      var loc :| VisibleAt(s.flash, Now(s), k, ver, loc) && loc.lnum != -1;
    }
  }

  /** Exactly what is durable is found again. */
  lemma FoundIsDurable(s: State, r: State, k: nat)
    requires Inv(s) && Remounted(s, r)
    ensures k in r.tnc <==> k in s.durable
    ensures k in r.tnc ==> r.tnc[k].ver == s.durable[k]
  {
    hide Inv, Visible, NotReferred, FoundAs, SameDeletion;
    if k in s.durable {
      CutFindsNewest(s, k);
      assert Visible(s.flash, Now(s), k, s.durable[k]);
    }
    if k in r.tnc {
      var ver :| Visible(s.flash, Now(s), k, ver);
      VisibleIsDurable(s, k, ver);
    }
  }

  lemma RemountedIsMounted(s: State, r: State)
    requires Inv(s) && Remounted(s, r)
    ensures Mounted(r)
  {
    hide Visible, FoundAs, SameDeletion, Recovers, WaitsFor, CurrentIs;
    forall k: nat
      ensures k in r.tnc <==> k in s.durable
      ensures k in r.tnc ==> r.tnc[k].ver == s.durable[k]
    {
      FoundIsDurable(s, r, k);
    }
    assert Now(r) == Now(s);
  }

  /** Some entry recovery may make of a key. */
  ghost function EntryFor(s: State, k: nat): (e: Entry)
    requires Inv(s) && k in s.durable
    ensures e.ver == s.durable[k] && FoundAs(s.flash, Now(s), k, e) && SameDeletion(s.disk, k, e)
  {
    CutFindsNewest(s, k);
    if k in s.disk && s.disk[k] == Gone(s.durable[k]) then Gone(s.durable[k])
    else
      var loc :| VisibleAt(s.flash, Now(s), k, s.durable[k], loc);
      At(s.durable[k], loc)
  }

  /** In every state the power may be cut: there is a state to go on from. */
  lemma CutIsAlwaysPossible(s: State) returns (r: State)
    requires Inv(s)
    ensures Remounted(s, r)
  {
    hide Visible, FoundAs, SameDeletion, Recovers, WaitsFor, CurrentIs;
    r := State(s.flash, seq(|s.heads|, i requires 0 <= i < |s.heads| => Head(s.heads[i].lnum, map[])),
               map k | k in s.durable :: EntryFor(s, k), s.disk, s.buds, -1, Off, NoCommit, s.durable);
    forall k: nat
      ensures k in s.durable <==> exists ver :: Visible(s.flash, Now(s), k, ver)
      ensures k in s.durable ==> Recovers(s, k, s.durable[k])
    {
      IsFoundIff(s, k);
    }
  }

  lemma IsFoundIff(s: State, k: nat)
    requires Inv(s)
    ensures k in s.durable <==> exists ver :: Visible(s.flash, Now(s), k, ver)
    ensures k in s.durable ==> Recovers(s, k, s.durable[k])
  {
    hide Inv, Visible;
    if k in s.durable {
      CutFindsNewest(s, k);
    } else if ver :| Visible(s.flash, Now(s), k, ver) {
      VisibleIsDurable(s, k, ver);
    }
  }

  datatype Event = Does(step: Step) | Cut

  ghost predicate Follows(s: State, e: Event, s': State) {
    match e
    case Does(a) => Enabled(s, a) && s' == Do(s, a)
    case Cut => Remounted(s, s')
  }

  lemma EventKeepsInv(s: State, e: Event, s': State)
    requires Inv(s) && Follows(s, e, s')
    ensures Inv(s')
  {
    hide Inv, Mounted, Do, Enabled, Remounted;
    if e.Cut? {
      RemountedIsMounted(s, s');
      MountedIsOk(s');
    } else {
      StepKeepsInv(s, e.step);
    }
  }

  ghost predicate IsRun(run: seq<State>, events: seq<Event>) {
    && |run| == |events| + 1 && Mounted(run[0])
    && forall i :: 0 <= i < |events| ==> Follows(run[i], events[i], run[i + 1])
  }

  lemma {:induction false} RunKeepsInv(run: seq<State>, events: seq<Event>, n: nat)
    requires IsRun(run, events) && n < |run|
    ensures Inv(run[n])
  {
    hide Inv, Mounted, Follows;
    if n == 0 {
      MountedIsOk(run[0]);
    } else {
      RunKeepsInv(run, events, n - 1);
      assert Follows(run[n - 1], events[n - 1], run[n - 1 + 1]);
      EventKeepsInv(run[n - 1], events[n - 1], run[n]);
    }
  }

  lemma RunStep(run: seq<State>, events: seq<Event>, i: nat)
    requires IsRun(run, events) && i + 1 < |run|
    ensures |run| == |events| + 1 && Follows(run[i], events[i], run[i + 1])
  {
    hide Follows, Mounted;
  }

  lemma StepDurable(s: State, a: Step, k: nat)
    requires Enabled(s, a) && k in s.durable
    ensures k in Do(s, a).durable && s.durable[k] <= Do(s, a).durable[k]
  {
  }

  lemma EventDurable(s: State, e: Event, s': State, k: nat)
    requires Follows(s, e, s') && k in s.durable
    ensures k in s'.durable && s.durable[k] <= s'.durable[k]
  {
    hide Enabled, Do;
    if e.Does? {
      StepDurable(s, e.step, k);
    }
  }

  lemma {:induction false} DurableGrows(run: seq<State>, events: seq<Event>, i: nat, j: nat, k: nat)
    requires IsRun(run, events) && i <= j < |run| && k in run[i].durable
    ensures k in run[j].durable && run[i].durable[k] <= run[j].durable[k]
  {
    hide *;
    if i < j {
      RunStep(run, events, j - 1);
      DurableGrows(run, events, i, j - 1, k);
      EventDurable(run[j - 1], events[j - 1], run[j], k);
    }
  }

  /** Over any number of steps and power cuts: whatever was on flash at some moment, from then on, wherever
      the power is cut, recovery takes it or a newer version. */
  lemma NothingIsLost(run: seq<State>, events: seq<Event>, i: nat, j: nat, loc: Loc) returns (ver: nat)
    requires IsRun(run, events) && i <= j < |run| && loc in run[i].flash
    ensures run[i].flash[loc].ver <= ver && Recovers(run[j], run[i].flash[loc].key, ver)
  {
    var k := run[i].flash[loc].key;
    RunKeepsInv(run, events, i);
    RunKeepsInv(run, events, j);
    DurableGrows(run, events, i, j, k);
    CutFindsNewest(run[j], k);
    ver := run[j].durable[k];
  }
}
