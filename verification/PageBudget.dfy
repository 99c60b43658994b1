/** Who holds the budget: at every moment the counters are the sum of what dirty pages, dirty inodes and
    the requests under way hold, however writers, mmap faults, write-back and truncation interleave. */
module PageBudget {
  import opened Budget

  /** The three counters: idx_growth, data_growth and dd_growth. */
  datatype Counter = Idx | Data | Dirty

  function Of(g: Growth, w: Counter): int {
    match w
    case Idx => g.idx
    case Data => g.data
    case Dirty => g.dd
  }

  /** owner is the thread that has the page, or the inode's ui_mutex, locked, or -1. */
  datatype Page = Page(ino: nat, private_: bool, checked: bool, uptodate: bool, owner: int)
  datatype Inode = Inode(dirty: bool, owner: int)

  /** Where a thread stands; appending says that the inode has to change, too. */
  datatype Pc =
    | Idle
    | Slow(p: nat, appending: bool)
    | SlowBudgeted(p: nat, appending: bool)
    | SlowAmended(p: nat, appending: bool)
    | Writing(p: nat, appending: bool)
    | MkBudgeted(p: nat, appending: bool)
    | MkAmended(p: nat)
    | InodeWritten(i: nat)

  datatype State = State(idx: int, data: int, dd: int, pages: seq<Page>, inodes: seq<Inode>, threads: seq<Pc>)

  // --- what is held ---

  function InodeIf(c: Consts, w: Counter, b: bool): int {
    if b then Of(DirtyInode(c), w) else 0
  }

  /** A new page's budget if the page is not on the media, and else an existing one's, provided b. */
  function PageIf(c: Consts, w: Counter, g: Page, b: bool): int {
    if !b then 0 else if g.checked then Of(NewPage(c), w) else Of(ExistingPage(c), w)
  }

  function PageHolds(c: Consts, w: Counter, g: Page): int {
    PageIf(c, w, g, g.private_)
  }

  function InodeHolds(c: Consts, w: Counter, i: Inode): int {
    InodeIf(c, w, i.dirty)
  }

  predicate InRange(pages: seq<Page>, inodes: seq<Inode>, pc: Pc) {
    if pc.Idle? then true else if pc.InodeWritten? then pc.i < |inodes| else pc.p < |pages| && pages[pc.p].ino < |inodes|
  }

  function Holds(c: Consts, w: Counter, pages: seq<Page>, inodes: seq<Inode>, pc: Pc): int
    requires InRange(pages, inodes, pc)
  {
    match pc
    case Idle => 0
    case Slow(_, _) => 0
    case SlowBudgeted(_, app) => Of(NewPage(c), w) + InodeIf(c, w, app)
    case MkBudgeted(_, time) => Of(NewPage(c), w) + InodeIf(c, w, time)
    case SlowAmended(p, app) => PageIf(c, w, pages[p], !pages[p].private_) + InodeIf(c, w, app)
    case Writing(p, app) => PageIf(c, w, pages[p], !pages[p].private_) + InodeIf(c, w, app && !inodes[pages[p].ino].dirty)
    case MkAmended(_) => InodeIf(c, w, true)
    case InodeWritten(_) => InodeIf(c, w, true)
  }

  function Total(xs: seq<int>): int {
    if xs == [] then 0 else xs[0] + Total(xs[1..])
  }

  lemma {:induction false} TotalUpdate(xs: seq<int>, i: nat, v: int)
    requires i < |xs|
    ensures Total(xs[i := v]) == Total(xs) - xs[i] + v
  {
    if i == 0 {
      assert xs[0 := v][1..] == xs[1..];
    } else {
      assert xs[i := v][1..] == xs[1..][i - 1 := v];
      TotalUpdate(xs[1..], i - 1, v);
    }
  }

  predicate WellFormed(s: State) {
    && (forall p :: 0 <= p < |s.pages| ==> s.pages[p].ino < |s.inodes|)
    && (forall t :: 0 <= t < |s.threads| ==> InRange(s.pages, s.inodes, s.threads[t]))
  }

  function PageSum(c: Consts, w: Counter, s: State): int {
    Total(seq(|s.pages|, p requires 0 <= p < |s.pages| => PageHolds(c, w, s.pages[p])))
  }

  function InodeSum(c: Consts, w: Counter, s: State): int {
    Total(seq(|s.inodes|, i requires 0 <= i < |s.inodes| => InodeHolds(c, w, s.inodes[i])))
  }

  function ThreadSum(c: Consts, w: Counter, s: State): int
    requires WellFormed(s)
  {
    Total(seq(|s.threads|, t requires 0 <= t < |s.threads| => Holds(c, w, s.pages, s.inodes, s.threads[t])))
  }

  /** The sum of everything that is held. */
  function Held(c: Consts, w: Counter, s: State): int
    requires WellFormed(s)
  {
    PageSum(c, w, s) + InodeSum(c, w, s) + ThreadSum(c, w, s)
  }

  /** Whoever works on a page, or on an inode, has it locked. */
  predicate Locked(s: State, t: nat)
    requires WellFormed(s) && t < |s.threads|
  {
    match s.threads[t]
    case SlowAmended(p, _) => s.pages[p].owner == t && s.pages[p].uptodate
    case Writing(p, app) => s.pages[p].owner == t && s.pages[p].uptodate && (app ==> s.inodes[s.pages[p].ino].owner == t)
    case MkAmended(p) => s.pages[p].owner == t && s.pages[p].uptodate
    case _ => true
  }

  predicate FlagsOk(g: Page) {
    !g.uptodate ==> !g.private_ && !g.checked
  }

  function Value(s: State, w: Counter): int {
    match w
    case Idx => s.idx
    case Data => s.data
    case Dirty => s.dd
  }

  predicate Inv(c: Consts, s: State) {
    && WellFormed(s) && (forall w :: Value(s, w) == Held(c, w, s))
    && (forall t :: 0 <= t < |s.threads| ==> Locked(s, t))
    && (forall p :: 0 <= p < |s.pages| ==> FlagsOk(s.pages[p]))
  }

  /** Free, or locked by t itself. */
  predicate Unlocked(owner: int, t: nat) {
    owner == -1 || owner == t
  }

  /** One thread, one page and one inode change at most. */
  predicate Touches(s: State, s': State, t: nat, p: nat, i: nat) {
    && t < |s.threads| && i < |s.inodes|
    && |s'.threads| == |s.threads| && |s'.pages| == |s.pages| && |s'.inodes| == |s.inodes|
    && s'.threads == s.threads[t := s'.threads[t]] && s'.inodes == s.inodes[i := s'.inodes[i]]
    && (if p < |s.pages| then s'.pages == s.pages[p := s'.pages[p]] else s'.pages == s.pages)
    && (p < |s.pages| ==> s'.pages[p].ino == s.pages[p].ino && (s'.pages[p] != s.pages[p] ==> Unlocked(s.pages[p].owner, t)))
    && (s'.inodes[i] != s.inodes[i] ==> Unlocked(s.inodes[i].owner, t))
    && InRange(s.pages, s.inodes, s'.threads[t])
  }

  function PageAt(c: Consts, w: Counter, s: State, p: nat): int {
    if p < |s.pages| then PageHolds(c, w, s.pages[p]) else 0
  }

  function Part(c: Consts, w: Counter, s: State, t: nat, p: nat, i: nat): int
    requires WellFormed(s) && t < |s.threads| && i < |s.inodes|
  {
    PageAt(c, w, s, p) + InodeHolds(c, w, s.inodes[i]) + Holds(c, w, s.pages, s.inodes, s.threads[t])
  }

  /** Then the sum changes by what these three hold. */
  lemma HeldChanges(c: Consts, w: Counter, s: State, s': State, t: nat, p: nat, i: nat)
    requires WellFormed(s) && Touches(s, s', t, p, i)
    requires forall u :: 0 <= u < |s.threads| ==> Locked(s, u)
    ensures WellFormed(s') && Held(c, w, s') == Held(c, w, s) - Part(c, w, s, t, p, i) + Part(c, w, s', t, p, i)
  {
    PagesChange(c, w, s, s', t, p, i);
    InodesChange(c, w, s, s', t, p, i);
    ThreadsChange(c, w, s, s', t, p, i);
    hide *;
    Rearrange(c, w, s, s', t, p, i);
  }

  lemma Rearrange(c: Consts, w: Counter, s: State, s': State, t: nat, p: nat, i: nat)
    requires WellFormed(s) && WellFormed(s') && t < |s.threads| == |s'.threads| && i < |s.inodes| == |s'.inodes|
    requires PageSum(c, w, s') == PageSum(c, w, s) - PageAt(c, w, s, p) + PageAt(c, w, s', p)
    requires InodeSum(c, w, s') == InodeSum(c, w, s) - InodeHolds(c, w, s.inodes[i]) + InodeHolds(c, w, s'.inodes[i])
    requires ThreadSum(c, w, s') == ThreadSum(c, w, s) - Holds(c, w, s.pages, s.inodes, s.threads[t]) + Holds(c, w, s'.pages, s'.inodes, s'.threads[t])
    ensures Held(c, w, s') == Held(c, w, s) - Part(c, w, s, t, p, i) + Part(c, w, s', t, p, i)
  {
    hide PageSum, InodeSum, ThreadSum, Holds, InRange, WellFormed, PageAt, InodeHolds;
  }

  lemma PagesChange(c: Consts, w: Counter, s: State, s': State, t: nat, p: nat, i: nat)
    requires Touches(s, s', t, p, i)
    ensures PageSum(c, w, s') == PageSum(c, w, s) - PageAt(c, w, s, p) + PageAt(c, w, s', p)
  {
    var a := seq(|s.pages|, p requires 0 <= p < |s.pages| => PageHolds(c, w, s.pages[p]));
    var a' := seq(|s'.pages|, p requires 0 <= p < |s'.pages| => PageHolds(c, w, s'.pages[p]));
    if p < |s.pages| {
      assert a' == a[p := PageHolds(c, w, s'.pages[p])];
      TotalUpdate(a, p, PageHolds(c, w, s'.pages[p]));
    }
  }

  lemma InodesChange(c: Consts, w: Counter, s: State, s': State, t: nat, p: nat, i: nat)
    requires Touches(s, s', t, p, i)
    ensures InodeSum(c, w, s') == InodeSum(c, w, s) - InodeHolds(c, w, s.inodes[i]) + InodeHolds(c, w, s'.inodes[i])
  {
    var b := seq(|s.inodes|, i requires 0 <= i < |s.inodes| => InodeHolds(c, w, s.inodes[i]));
    var b' := seq(|s'.inodes|, i requires 0 <= i < |s'.inodes| => InodeHolds(c, w, s'.inodes[i]));
    assert b' == b[i := InodeHolds(c, w, s'.inodes[i])];
    TotalUpdate(b, i, InodeHolds(c, w, s'.inodes[i]));
  }

  lemma ThreadsChange(c: Consts, w: Counter, s: State, s': State, t: nat, p: nat, i: nat)
    requires WellFormed(s) && Touches(s, s', t, p, i)
    requires forall u :: 0 <= u < |s.threads| ==> Locked(s, u)
    ensures WellFormed(s')
    ensures ThreadSum(c, w, s') == ThreadSum(c, w, s) - Holds(c, w, s.pages, s.inodes, s.threads[t]) + Holds(c, w, s'.pages, s'.inodes, s'.threads[t])
  {
    var a := seq(|s.threads|, t requires 0 <= t < |s.threads| => Holds(c, w, s.pages, s.inodes, s.threads[t]));
    var a' := seq(|s'.threads|, t requires 0 <= t < |s'.threads| => Holds(c, w, s'.pages, s'.inodes, s'.threads[t]));
    forall u | 0 <= u < |s.threads| && u != t ensures a'[u] == a[u] {
      assert Locked(s, u);
    }
    assert a' == a[t := Holds(c, w, s'.pages, s'.inodes, s'.threads[t])];
    TotalUpdate(a, t, Holds(c, w, s'.pages, s'.inodes, s'.threads[t]));
  }

  // --- the steps ---

  datatype Step =
    | FastBegin(t: nat, p: nat, appending: bool, whole: bool, hole: bool, granted: bool)
    | SlowBudget(t: nat, granted: bool)
    | SlowNoPage(t: nat)
    | SlowReadFails(t: nat)
    | SlowLock(t: nat, whole: bool, hole: bool)
    | SlowFinish(t: nat)
    | WriteEnd(t: nat)
    | ShortCopy(t: nat, hole: bool, readFails: bool)
    | MkBudget(t: nat, p: nat, time: bool, granted: bool)
    | MkTruncated(t: nat)
    | MkLock(t: nat)
    | MkFinish(t: nat)
    | Writeback(t: nat, p: nat)
    | Invalidate(t: nat, p: nat)
    | Drop(t: nat, p: nat)
    | WriteInode(t: nat, i: nat)
    | InodeRelease(t: nat)

  /** A request as allocate_budget and the others fill it in. */
  function Request(newPage: bool, dirtiedPage: bool, inode: bool): Req {
    Req(true, newPage, dirtiedPage, false, false, false, 0, if inode then 1 else 0, 0)
  }

  /** The page after it was looked up: read, unless all of it is going to be written. */
  function Loaded(g: Page, whole: bool, hole: bool): Page {
    if g.uptodate then g else g.(uptodate := true, checked := whole || hole)
  }

  /** What allocate_budget asks for. */
  function FastRequest(g: Page, appending: bool, dirty: bool): Req {
    Request(!g.private_ && g.checked, !g.private_ && !g.checked, appending && !dirty)
  }

  function SetPc(s: State, t: nat, pc: Pc): State
    requires t < |s.threads|
  {
    s.(threads := s.threads[t := pc])
  }

  function SetPage(s: State, p: nat, g: Page): State
    requires p < |s.pages|
  {
    s.(pages := s.pages[p := g])
  }

  function SetInode(s: State, i: nat, n: Inode): State
    requires i < |s.inodes|
  {
    s.(inodes := s.inodes[i := n])
  }

  function Charge(s: State, g: Growth): State {
    s.(idx := s.idx + g.idx, data := s.data + g.data, dd := s.dd + g.dd)
  }

  function Release(s: State, g: Growth): State {
    s.(idx := s.idx - g.idx, data := s.data - g.data, dd := s.dd - g.dd)
  }

  predicate Enabled(c: Consts, s: State, a: Step)
    requires WellFormed(s)
  {
    match a
    case FastBegin(t, p, app, _, _, granted) =>
      && t < |s.threads| && s.threads[t].Idle? && p < |s.pages| && s.pages[p].owner == -1
      && (app ==> s.inodes[s.pages[p].ino].owner == -1)
      && (!granted ==> !s.pages[p].private_ || (app && !s.inodes[s.pages[p].ino].dirty))
    case SlowBudget(t, _) => t < |s.threads| && s.threads[t].Slow?
    case SlowNoPage(t) => t < |s.threads| && s.threads[t].SlowBudgeted?
    case SlowReadFails(t) =>
      t < |s.threads| && s.threads[t].SlowBudgeted? && s.pages[s.threads[t].p].owner == -1 && !s.pages[s.threads[t].p].uptodate
    case SlowLock(t, _, _) => t < |s.threads| && s.threads[t].SlowBudgeted? && s.pages[s.threads[t].p].owner == -1
    case SlowFinish(t) =>
      && t < |s.threads| && s.threads[t].SlowAmended?
      && (s.threads[t].appending ==> s.inodes[s.pages[s.threads[t].p].ino].owner == -1)
    case WriteEnd(t) => t < |s.threads| && s.threads[t].Writing?
    case ShortCopy(t, _, _) => t < |s.threads| && s.threads[t].Writing?
    case MkBudget(t, p, _, _) => t < |s.threads| && s.threads[t].Idle? && p < |s.pages|
    case MkTruncated(t) => t < |s.threads| && s.threads[t].MkBudgeted?
    case MkLock(t) =>
      t < |s.threads| && s.threads[t].MkBudgeted? && s.pages[s.threads[t].p].owner == -1 && s.pages[s.threads[t].p].uptodate
    case MkFinish(t) => t < |s.threads| && s.threads[t].MkAmended? && s.inodes[s.pages[s.threads[t].p].ino].owner == -1
    case Writeback(t, p) => t < |s.threads| && p < |s.pages| && s.pages[p].owner == -1 && s.pages[p].private_
    case Invalidate(t, p) => t < |s.threads| && p < |s.pages| && s.pages[p].owner == -1 && s.pages[p].private_
    case Drop(t, p) => t < |s.threads| && p < |s.pages| && s.pages[p].owner == -1 && !s.pages[p].private_
    case WriteInode(t, i) => t < |s.threads| && s.threads[t].Idle? && i < |s.inodes| && s.inodes[i].owner == -1 && s.inodes[i].dirty
    case InodeRelease(t) => t < |s.threads| && s.threads[t].InodeWritten?
  }

  /** ubifs_write_begin up to where it returns or falls back to write_begin_slow */
  function DoFastBegin(c: Consts, s: State, a: Step): State
    requires WellFormed(s) && a.FastBegin? && Enabled(c, s, a)
  {
    var was := s.pages[a.p];
    var g := Loaded(was, a.whole, a.hole);
    var skipped := !was.uptodate && a.whole;
    var n := s.inodes[g.ino];
    if a.granted then
      var s1 := SetPage(Charge(s, CalcGrowth(c, FastRequest(g, a.appending, n.dirty))), a.p, g.(owner := a.t));
      SetPc(SetInode(s1, g.ino, n.(owner := if a.appending then a.t else n.owner)), a.t, Writing(a.p, a.appending))
    else
      SetPc(SetPage(s, a.p, if skipped then g.(checked := false, uptodate := false) else g), a.t, Slow(a.p, a.appending))
  }

  /** What release_new_page_budget and release_existing_page_budget give back, provided b. */
  function PageGrowth(c: Consts, g: Page, b: bool): Growth {
    Growth(if b && g.checked then c.maxIdxNodeSz else 0, if b && g.checked then c.pageBudget else 0,
           if b && !g.checked then c.pageBudget else 0)
  }

  function InodeGrowth(c: Consts, b: bool): Growth {
    Growth(0, 0, if b then c.inodeBudget else 0)
  }

  /** Once the page is known, the new page's budget is given back if the page is dirty already, and
      converted (ubifs_convert_page_budget) if it is on the media. */
  function Amend(c: Consts, s: State, g: Page): State {
    var back := g.private_ || !g.checked;
    var s1 := Release(s, Growth(if back then c.maxIdxNodeSz else 0, if back then c.pageBudget else 0, 0));
    Charge(s1, Growth(0, 0, if !g.private_ && !g.checked then c.pageBudget else 0))
  }

  /** write_begin_slow once it has the page */
  function DoSlowLock(c: Consts, s: State, a: Step): State
    requires WellFormed(s) && a.SlowLock? && Enabled(c, s, a)
  {
    var pc := s.threads[a.t];
    var g := Loaded(s.pages[pc.p], a.whole, a.hole);
    var s1 := Amend(c, s, g);
    SetPc(SetPage(s1, pc.p, g.(owner := a.t)), a.t, SlowAmended(pc.p, pc.appending))
  }

  function DoSlowFinish(c: Consts, s: State, a: Step): State
    requires WellFormed(s) && a.SlowFinish? && Enabled(c, s, a)
  {
    var pc := s.threads[a.t];
    var i := s.pages[pc.p].ino;
    var n := s.inodes[i];
    var s1 := SetInode(s, i, n.(owner := if pc.appending then a.t else n.owner));
    SetPc(Release(s1, InodeGrowth(c, pc.appending && n.dirty)), a.t, Writing(pc.p, pc.appending))
  }

  /** ubifs_write_end */
  function DoWriteEnd(c: Consts, s: State, a: Step): State
    requires WellFormed(s) && a.WriteEnd? && Enabled(c, s, a)
  {
    var pc := s.threads[a.t];
    var g := s.pages[pc.p];
    var n := s.inodes[g.ino];
    var s1 := SetPc(SetPage(s, pc.p, g.(private_ := true, owner := -1)), a.t, Idle);
    SetInode(s1, g.ino, Inode(n.dirty || pc.appending, if pc.appending then -1 else n.owner))
  }

  /** cancel_budget, and the page is read again */
  function DoShortCopy(c: Consts, s: State, a: Step): State
    requires WellFormed(s) && a.ShortCopy? && Enabled(c, s, a)
  {
    var pc := s.threads[a.t];
    var g := s.pages[pc.p];
    var n := s.inodes[g.ino];
    var s1 := Release(s, InodeGrowth(c, pc.appending && !n.dirty));
    var s2 := SetInode(s1, g.ino, n.(owner := if pc.appending then -1 else n.owner));
    var s3 := Release(s2, PageGrowth(c, g, !g.private_));
    var again := if a.readFails then g.(checked := false, uptodate := false, owner := -1) else g.(checked := a.hole, owner := -1);
    SetPc(SetPage(s3, pc.p, again), a.t, Idle)
  }

  /** ubifs_vm_page_mkwrite once it has the page */
  function DoMkLock(c: Consts, s: State, a: Step): State
    requires WellFormed(s) && a.MkLock? && Enabled(c, s, a)
  {
    var pc := s.threads[a.t];
    var g := s.pages[pc.p];
    var s1 := Amend(c, s, g);
    SetPc(SetPage(s1, pc.p, g.(private_ := true, owner := if pc.appending then a.t else -1)), a.t, if pc.appending then MkAmended(pc.p) else Idle)
  }

  function DoMkFinish(c: Consts, s: State, a: Step): State
    requires WellFormed(s) && a.MkFinish? && Enabled(c, s, a)
  {
    var p := s.threads[a.t].p;
    var i := s.pages[p].ino;
    var s1 := SetPage(SetInode(s, i, s.inodes[i].(dirty := true)), p, s.pages[p].(owner := -1));
    SetPc(Release(s1, InodeGrowth(c, s.inodes[i].dirty)), a.t, Idle)
  }

  function Do(c: Consts, s: State, a: Step): State
    requires WellFormed(s) && Enabled(c, s, a)
  {
    match a
    case FastBegin(_, _, _, _, _, _) => DoFastBegin(c, s, a)
    case SlowBudget(t, granted) =>
      var pc := s.threads[t];
      if granted then SetPc(Charge(s, CalcGrowth(c, Request(true, false, pc.appending))), t, SlowBudgeted(pc.p, pc.appending))
      else SetPc(s, t, Idle)
    case SlowNoPage(t) => SetPc(Release(s, CalcGrowth(c, Request(true, false, s.threads[t].appending))), t, Idle)
    case SlowReadFails(t) => SetPc(s, t, Idle)
    case SlowLock(_, _, _) => DoSlowLock(c, s, a)
    case SlowFinish(_) => DoSlowFinish(c, s, a)
    case WriteEnd(_) => DoWriteEnd(c, s, a)
    case ShortCopy(_, _, _) => DoShortCopy(c, s, a)
    case MkBudget(t, p, time, granted) =>
      if granted then SetPc(Charge(s, CalcGrowth(c, Request(true, false, time))), t, MkBudgeted(p, time)) else s
    case MkTruncated(t) => SetPc(Release(s, CalcGrowth(c, Request(true, false, s.threads[t].appending))), t, Idle)
    case MkLock(_) => DoMkLock(c, s, a)
    case MkFinish(_) => DoMkFinish(c, s, a)
    case Writeback(_, p) => SetPage(Release(s, PageGrowth(c, s.pages[p], true)), p, s.pages[p].(private_ := false, checked := false))
    case Invalidate(_, p) => SetPage(Release(s, PageGrowth(c, s.pages[p], true)), p, s.pages[p].(private_ := false, checked := false, uptodate := false))
    case Drop(_, p) => SetPage(s, p, s.pages[p].(checked := false, uptodate := false))
    case WriteInode(t, i) => SetPc(SetInode(s, i, s.inodes[i].(dirty := false)), t, InodeWritten(i))
    case InodeRelease(t) => SetPc(Release(s, InodeGrowth(c, true)), t, Idle)
  }

  // --- every step keeps the books ---

  lemma Conclude(c: Consts, s: State, s': State, t: nat, p: nat, i: nat)
    requires Inv(c, s) && Touches(s, s', t, p, i) && Locked(s', t) && (p < |s.pages| ==> FlagsOk(s'.pages[p]))
    ensures WellFormed(s')
    ensures Inv(c, s') <==> forall w :: Value(s', w) == Value(s, w) - Part(c, w, s, t, p, i) + Part(c, w, s', t, p, i)
  {
    forall w ensures WellFormed(s') && Held(c, w, s') == Held(c, w, s) - Part(c, w, s, t, p, i) + Part(c, w, s', t, p, i) {
      HeldChanges(c, w, s, s', t, p, i);
    }
    forall u | 0 <= u < |s'.threads| ensures Locked(s', u) {
      if u != t {
        assert Locked(s, u);
      }
    }
    hide Held, Part, Value;
  }

  lemma RequestIs(c: Consts, w: Counter, newPage: bool, dirtiedPage: bool, inode: bool)
    requires !newPage || !dirtiedPage
    ensures Of(CalcGrowth(c, Request(newPage, dirtiedPage, inode)), w)
         == (if newPage then Of(NewPage(c), w) else 0) + (if dirtiedPage then Of(ExistingPage(c), w) else 0) + InodeIf(c, w, inode)
  {
  }

  lemma FastGrantedKeeps(c: Consts, s: State, a: Step)
    requires Inv(c, s) && a.FastBegin? && a.granted && Enabled(c, s, a)
    ensures WellFormed(Do(c, s, a)) && Inv(c, Do(c, s, a))
  {
    hide Held, PageSum, InodeSum, ThreadSum, Total, CalcGrowth;
    var s', g := Do(c, s, a), Loaded(s.pages[a.p], a.whole, a.hole);
    var r := FastRequest(g, a.appending, s.inodes[g.ino].dirty);
    forall w { RequestIs(c, w, r.newPage, r.dirtiedPage, r.dirtiedIno == 1); }
    assert FlagsOk(s.pages[a.p]);
    Conclude(c, s, s', a.t, a.p, g.ino);
  }

  lemma FastRefusedKeeps(c: Consts, s: State, a: Step)
    requires Inv(c, s) && a.FastBegin? && !a.granted && Enabled(c, s, a)
    ensures WellFormed(Do(c, s, a)) && Inv(c, Do(c, s, a))
  {
    hide Held, PageSum, InodeSum, ThreadSum, Total, CalcGrowth;
    assert FlagsOk(s.pages[a.p]);
    Conclude(c, s, Do(c, s, a), a.t, a.p, s.pages[a.p].ino);
  }

  lemma SlowBudgetKeeps(c: Consts, s: State, a: Step)
    requires Inv(c, s) && Enabled(c, s, a) && a.SlowBudget?
    ensures WellFormed(Do(c, s, a)) && Inv(c, Do(c, s, a))
  {
    hide Held, PageSum, InodeSum, ThreadSum, Total, CalcGrowth;
    var s', pc := Do(c, s, a), s.threads[a.t];
    forall w { RequestIs(c, w, true, false, pc.appending); }
    assert FlagsOk(s.pages[pc.p]) && Locked(s, a.t);
    Conclude(c, s, s', a.t, pc.p, s.pages[pc.p].ino);
  }

  lemma SlowLockKeeps(c: Consts, s: State, a: Step)
    requires Inv(c, s) && Enabled(c, s, a) && a.SlowLock?
    ensures WellFormed(Do(c, s, a)) && Inv(c, Do(c, s, a))
  {
    hide Held, PageSum, InodeSum, ThreadSum, Total, CalcGrowth;
    var s', pc := Do(c, s, a), s.threads[a.t];
    assert FlagsOk(s.pages[pc.p]) && Locked(s, a.t);
    Conclude(c, s, s', a.t, pc.p, s.pages[pc.p].ino);
  }

  lemma SlowKeeps(c: Consts, s: State, a: Step)
    requires Inv(c, s) && Enabled(c, s, a) && (a.SlowNoPage? || a.SlowFinish?)
    ensures WellFormed(Do(c, s, a)) && Inv(c, Do(c, s, a))
  {
    hide Held, PageSum, InodeSum, ThreadSum, Total, CalcGrowth;
    var s', pc := Do(c, s, a), s.threads[a.t];
    forall w { RequestIs(c, w, true, false, pc.appending); }
    assert FlagsOk(s.pages[pc.p]) && Locked(s, a.t);
    Conclude(c, s, s', a.t, pc.p, s.pages[pc.p].ino);
  }

  lemma WriteEndKeeps(c: Consts, s: State, a: Step)
    requires Inv(c, s) && a.WriteEnd? && Enabled(c, s, a)
    ensures WellFormed(Do(c, s, a)) && Inv(c, Do(c, s, a))
  {
    hide Held, PageSum, InodeSum, ThreadSum, Total, CalcGrowth;
    var pc := s.threads[a.t];
    assert FlagsOk(s.pages[pc.p]) && Locked(s, a.t);
    Conclude(c, s, Do(c, s, a), a.t, pc.p, s.pages[pc.p].ino);
  }

  lemma ShortCopyTouches(c: Consts, s: State, a: Step)
    requires Inv(c, s) && a.ShortCopy? && Enabled(c, s, a)
    ensures var p := s.threads[a.t].p; Touches(s, Do(c, s, a), a.t, p, s.pages[p].ino) && Locked(Do(c, s, a), a.t)
    ensures WellFormed(Do(c, s, a))
  {
    hide Held, PageSum, InodeSum, ThreadSum, Total, CalcGrowth;
    var p := s.threads[a.t].p;
    assert Locked(s, a.t);
    HeldChanges(c, Data, s, Do(c, s, a), a.t, p, s.pages[p].ino);
  }

  /** When less was copied than announced, the books stay right if and only if the page was clean, or
      reading it again succeeds and finds it as it was. */
  lemma ShortCopyKeepsIff(c: Consts, s: State, a: Step)
    requires ConstsOk(c) && Inv(c, s) && a.ShortCopy? && Enabled(c, s, a)
    ensures WellFormed(Do(c, s, a))
    ensures var g := s.pages[s.threads[a.t].p];
            Inv(c, Do(c, s, a)) <==> !g.private_ || (!a.readFails && g.checked == a.hole)
  {
    hide Held, PageSum, InodeSum, ThreadSum, Total, CalcGrowth;
    var pc := s.threads[a.t];
    var s', g, i := Do(c, s, a), s.pages[pc.p], s.pages[pc.p].ino;
    ShortCopyTouches(c, s, a);
    if g.private_ && a.readFails {
      assert !FlagsOk(s'.pages[pc.p]);
    } else {
      assert FlagsOk(g) && Locked(s, a.t);
      Conclude(c, s, s', a.t, pc.p, i);
      assert Value(s', Data) == Value(s, Data) - Part(c, Data, s, a.t, pc.p, i) + Part(c, Data, s', a.t, pc.p, i)
        <==> !g.private_ || g.checked == a.hole;
    }
  }

  /** What a page that is dirty, but not read, leads to although the sums are still right: the next whole
      write of it takes it for a new one, without asking for a new one's budget. */
  lemma UnreadDirtyPageBreaks(c: Consts, s: State, a: Step)
    requires ConstsOk(c) && WellFormed(s) && a.FastBegin? && Enabled(c, s, a) && a.whole && a.granted
    requires (forall w :: Value(s, w) == Held(c, w, s)) && forall t :: 0 <= t < |s.threads| ==> Locked(s, t)
    requires s.pages[a.p].private_ && !s.pages[a.p].uptodate && !s.pages[a.p].checked
    ensures WellFormed(Do(c, s, a)) && Value(Do(c, s, a), Data) < Held(c, Data, Do(c, s, a))
  {
    hide Held, PageSum, InodeSum, ThreadSum, Total, CalcGrowth;
    var s', g := Do(c, s, a), s.pages[a.p];
    RequestIs(c, Data, false, false, a.appending && !s.inodes[g.ino].dirty);
    HeldChanges(c, Data, s, s', a.t, a.p, g.ino);
  }

  /** When the page cannot be read on the slow path, what was budgeted is never given back. */
  lemma SlowReadFailureLeaks(c: Consts, s: State, a: Step)
    requires ConstsOk(c) && Inv(c, s) && a.SlowReadFails? && Enabled(c, s, a)
    ensures WellFormed(Do(c, s, a)) && !Inv(c, Do(c, s, a))
    ensures forall w :: Value(Do(c, s, a), w) == Held(c, w, Do(c, s, a)) + Of(NewPage(c), w) + InodeIf(c, w, s.threads[a.t].appending)
  {
    hide Held, PageSum, InodeSum, ThreadSum, Total, CalcGrowth;
    var pc := s.threads[a.t];
    forall w { HeldChanges(c, w, s, Do(c, s, a), a.t, pc.p, s.pages[pc.p].ino); }
    assert Value(Do(c, s, a), Data) != Held(c, Data, Do(c, s, a));
  }

  lemma MkwriteKeeps(c: Consts, s: State, a: Step)
    requires Inv(c, s) && Enabled(c, s, a) && (a.MkTruncated? || a.MkLock? || a.MkFinish?)
    ensures WellFormed(Do(c, s, a)) && Inv(c, Do(c, s, a))
  {
    hide Held, PageSum, InodeSum, ThreadSum, Total, CalcGrowth;
    var s' := Do(c, s, a);
    var pc := s.threads[a.t];
    if a.MkTruncated? {
      forall w { RequestIs(c, w, true, false, pc.appending); }
    }
    assert FlagsOk(s.pages[pc.p]) && Locked(s, a.t);
    Conclude(c, s, s', a.t, pc.p, s.pages[pc.p].ino);
  }

  lemma MkBudgetKeeps(c: Consts, s: State, a: Step)
    requires Inv(c, s) && Enabled(c, s, a) && a.MkBudget?
    ensures WellFormed(Do(c, s, a)) && Inv(c, Do(c, s, a))
  {
    hide Held, PageSum, InodeSum, ThreadSum, Total, CalcGrowth;
    forall w { RequestIs(c, w, true, false, a.time); }
    if a.granted {
      Conclude(c, s, Do(c, s, a), a.t, |s.pages|, s.pages[a.p].ino);
    }
  }

  lemma PageStepKeeps(c: Consts, s: State, a: Step)
    requires Inv(c, s) && Enabled(c, s, a) && (a.Writeback? || a.Invalidate?)
    ensures WellFormed(Do(c, s, a)) && Inv(c, Do(c, s, a))
  {
    hide Held, PageSum, InodeSum, ThreadSum, Total, CalcGrowth;
    assert FlagsOk(s.pages[a.p]) && Locked(s, a.t);
    Conclude(c, s, Do(c, s, a), a.t, a.p, s.pages[a.p].ino);
  }

  lemma DropKeeps(c: Consts, s: State, a: Step)
    requires Inv(c, s) && Enabled(c, s, a) && a.Drop?
    ensures WellFormed(Do(c, s, a)) && Inv(c, Do(c, s, a))
  {
    hide Held, PageSum, InodeSum, ThreadSum, Total, CalcGrowth;
    assert FlagsOk(s.pages[a.p]) && Locked(s, a.t);
    Conclude(c, s, Do(c, s, a), a.t, a.p, s.pages[a.p].ino);
  }

  lemma InodeStepKeeps(c: Consts, s: State, a: Step)
    requires Inv(c, s) && Enabled(c, s, a) && (a.WriteInode? || a.InodeRelease?)
    ensures WellFormed(Do(c, s, a)) && Inv(c, Do(c, s, a))
  {
    hide Held, PageSum, InodeSum, ThreadSum, Total, CalcGrowth;
    assert Locked(s, a.t);
    if a.WriteInode? {
      Conclude(c, s, Do(c, s, a), a.t, |s.pages|, a.i);
    } else {
      Conclude(c, s, Do(c, s, a), a.t, |s.pages|, s.threads[a.t].i);
    }
  }

  /** Neither a failed read on the slow path, nor a short copy onto a dirty page that is not read
      again or not found as it was. */
  predicate Harmless(c: Consts, s: State, a: Step)
    requires WellFormed(s) && Enabled(c, s, a)
  {
    && !a.SlowReadFails?
    && (a.ShortCopy? ==> var g := s.pages[s.threads[a.t].p]; !g.private_ || (!a.readFails && g.checked == a.hole))
  }

  /** Every other step, by whatever thread, keeps the books right, and these do not. */
  lemma StepKeepsInvIff(c: Consts, s: State, a: Step)
    requires ConstsOk(c) && Inv(c, s) && Enabled(c, s, a)
    ensures WellFormed(Do(c, s, a)) && (Inv(c, Do(c, s, a)) <==> Harmless(c, s, a))
  {
    hide Do, Inv, WellFormed, Held;
    match a
    case FastBegin(_, _, _, _, _, granted) => if granted { FastGrantedKeeps(c, s, a); } else { FastRefusedKeeps(c, s, a); }
    case SlowBudget(_, _) => SlowBudgetKeeps(c, s, a);
    case SlowNoPage(_) => SlowKeeps(c, s, a);
    case SlowLock(_, _, _) => SlowLockKeeps(c, s, a);
    case SlowFinish(_) => SlowKeeps(c, s, a);
    case WriteEnd(_) => WriteEndKeeps(c, s, a);
    case ShortCopy(_, _, _) => ShortCopyKeepsIff(c, s, a);
    case SlowReadFails(_) => SlowReadFailureLeaks(c, s, a);
    case MkBudget(_, _, _, _) => MkBudgetKeeps(c, s, a);
    case MkTruncated(_) => MkwriteKeeps(c, s, a);
    case MkLock(_) => MkwriteKeeps(c, s, a);
    case MkFinish(_) => MkwriteKeeps(c, s, a);
    case Writeback(_, _) => PageStepKeeps(c, s, a);
    case Invalidate(_, _) => PageStepKeeps(c, s, a);
    case Drop(_, _) => DropKeeps(c, s, a);
    case WriteInode(_, _) => InodeStepKeeps(c, s, a);
    case InodeRelease(_) => InodeStepKeeps(c, s, a);
  }

  ghost predicate IsRun(c: Consts, run: seq<State>, steps: seq<Step>) {
    && |run| == |steps| + 1 && Inv(c, run[0])
    && forall i :: 0 <= i < |steps| ==>
         && WellFormed(run[i]) && Enabled(c, run[i], steps[i]) && run[i + 1] == Do(c, run[i], steps[i])
         && Harmless(c, run[i], steps[i])
  }

  lemma RunStep(c: Consts, run: seq<State>, steps: seq<Step>, i: nat)
    requires IsRun(c, run, steps) && i + 1 < |run|
    ensures |run| == |steps| + 1 && WellFormed(run[i]) && Enabled(c, run[i], steps[i])
    ensures run[i + 1] == Do(c, run[i], steps[i]) && Harmless(c, run[i], steps[i])
  {
    hide Enabled, Do, Inv, WellFormed, Harmless;
  }

  lemma {:induction false} RunKeepsInv(c: Consts, run: seq<State>, steps: seq<Step>, n: nat)
    requires ConstsOk(c) && IsRun(c, run, steps) && n < |run|
    ensures WellFormed(run[n]) && Inv(c, run[n])
  {
    if n == 0 {
      BooksAreFormed(c, run[0]);
    } else {
      hide Do, Inv, Enabled, WellFormed, Harmless, IsRun;
      RunKeepsInv(c, run, steps, n - 1);
      RunStep(c, run, steps, n - 1);
      StepKeepsInvIff(c, run[n - 1], steps[n - 1]);
    }
  }

  lemma BooksAreFormed(c: Consts, s: State)
    requires Inv(c, s)
    ensures WellFormed(s)
  {
    hide WellFormed;
  }

  lemma {:induction false} TotalNonNegative(xs: seq<int>)
    requires forall i :: 0 <= i < |xs| ==> xs[i] >= 0
    ensures Total(xs) >= 0 && forall i :: 0 <= i < |xs| ==> xs[i] <= Total(xs)
  {
    if xs != [] {
      TotalNonNegative(xs[1..]);
      forall i | 0 <= i < |xs| ensures xs[i] <= Total(xs) {
        assert i == 0 || xs[i] == xs[1..][i - 1];
      }
    }
  }

  /** So whatever a page holds can be given back at any time, and no counter becomes negative. */
  lemma WhatIsHeldIsThere(c: Consts, s: State, w: Counter, p: nat)
    requires Inv(c, s) && p < |s.pages|
    ensures 0 <= PageHolds(c, w, s.pages[p]) <= Value(s, w)
  {
    hide Total;
    var a := seq(|s.pages|, p requires 0 <= p < |s.pages| => PageHolds(c, w, s.pages[p]));
    TotalNonNegative(a);
    TotalNonNegative(seq(|s.inodes|, i requires 0 <= i < |s.inodes| => InodeHolds(c, w, s.inodes[i])));
    TotalNonNegative(seq(|s.threads|, t requires 0 <= t < |s.threads| => Holds(c, w, s.pages, s.inodes, s.threads[t])));
    assert PageSum(c, w, s) == Total(a) >= a[p] == PageHolds(c, w, s.pages[p]);
  }
}
