/** Dirty pages and the media: a page that has no data node yet holds the budget of a new page, index
    node included, from the moment it becomes dirty until it is written back. */
module PageMedia {
  import opened Budget
  import opened PageBudget

  predicate IsCached(s: State, p: nat) {
    p < |s.pages| && s.pages[p].uptodate
  }

  /** Reading page p finds a hole if, and only if, the page has no data node; stored are those that have. */
  predicate Honest(s: State, stored: set<nat>, a: Step)
    requires WellFormed(s)
  {
    match a
    case FastBegin(_, p, _, whole, hole, _) => !IsCached(s, p) && !whole ==> (hole <==> p !in stored)
    case SlowLock(t, whole, hole) =>
      t < |s.threads| && s.threads[t].SlowBudgeted? && !IsCached(s, s.threads[t].p) && !whole ==> (hole <==> s.threads[t].p !in stored)
    case ShortCopy(t, hole, readFails) =>
      t < |s.threads| && s.threads[t].Writing? && !readFails ==> (hole <==> s.threads[t].p !in stored)
    case _ => true
  }

  /** Only write-back creates a data node; truncation removes those of pages that are not cached. */
  ghost predicate MediaNext(s: State, s': State, stored: set<nat>, stored': set<nat>, a: Step) {
    forall p: nat ::
      if a.Writeback? && a.p == p then p in stored'
      else (p in stored' ==> p in stored) && (p in stored && p !in stored' ==> !IsCached(s, p) && !IsCached(s', p))
  }

  /** A cached page without data node is marked. */
  ghost predicate Known(s: State, stored: set<nat>) {
    forall p: nat :: IsCached(s, p) && p !in stored ==> s.pages[p].checked
  }

  lemma StepKeepsKnown(c: Consts, s: State, stored: set<nat>, stored': set<nat>, a: Step)
    requires WellFormed(s) && Enabled(c, s, a) && Known(s, stored) && Honest(s, stored, a)
    requires MediaNext(s, Do(c, s, a), stored, stored', a)
    ensures Known(Do(c, s, a), stored')
  {
    hide CalcGrowth, PageGrowth, InodeGrowth;
    var s' := Do(c, s, a);
    forall p: nat | IsCached(s', p) && p !in stored'
      ensures s'.pages[p].checked
    {
      FlagsAfter(c, s, a, p);
    }
  }

  /** What a step does to a page that is cached afterwards. */
  lemma FlagsAfter(c: Consts, s: State, a: Step, p: nat)
    requires WellFormed(s) && Enabled(c, s, a) && IsCached(Do(c, s, a), p)
    ensures p < |s.pages|
    ensures var g, g' := s.pages[p], Do(c, s, a).pages[p];
      || (g.uptodate && (g'.checked == g.checked || (a.Writeback? && a.p == p)))
      || (a.ShortCopy? && s.threads[a.t].p == p && !a.readFails && g'.checked == a.hole)
      || (a.FastBegin? && a.p == p && !g.uptodate && g'.checked == (a.whole || a.hole))
      || (a.SlowLock? && s.threads[a.t].p == p && !g.uptodate && g'.checked == (a.whole || a.hole))
  {
    hide CalcGrowth, PageGrowth, InodeGrowth;
  }

  /** What the fast path charges: nothing for a page that is dirty already, a new page for one that has no
      data node or is going to be overwritten unread, and otherwise an existing page. */
  lemma FastCharges(c: Consts, s: State, stored: set<nat>, a: Step)
    requires WellFormed(s) && Enabled(c, s, a) && Known(s, stored) && Honest(s, stored, a) && a.FastBegin? && a.granted
    ensures var g, s' := s.pages[a.p], Do(c, s, a);
      var inode := if a.appending && !s.inodes[g.ino].dirty then c.inodeBudget else 0;
      && (g.private_ ==> s'.idx == s.idx && s'.data == s.data && s'.dd == s.dd + inode)
      && (!g.private_ && (a.p !in stored || (!g.uptodate && a.whole)) ==>
          s'.idx == s.idx + c.maxIdxNodeSz && s'.data == s.data + c.pageBudget && s'.dd == s.dd + inode)
      && (!g.private_ && a.p in stored && (if g.uptodate then !g.checked else !a.whole) ==>
          s'.idx == s.idx && s'.data == s.data && s'.dd == s.dd + c.pageBudget + inode)
  {
    var g := Loaded(s.pages[a.p], a.whole, a.hole);
    var n := s.inodes[g.ino];
    var r := FastRequest(g, a.appending, n.dirty);
    forall w {
      RequestIs(c, w, r.newPage, r.dirtiedPage, r.dirtiedIno == 1);
    }
    assert CalcGrowth(c, r).idx == Of(CalcGrowth(c, r), Idx) && CalcGrowth(c, r).data == Of(CalcGrowth(c, r), Data);
    assert CalcGrowth(c, r).dd == Of(CalcGrowth(c, r), Dirty);
    hide CalcGrowth;
  }

  ghost predicate IsMediaRun(c: Consts, run: seq<State>, media: seq<set<nat>>, steps: seq<Step>) {
    && IsRun(c, run, steps) && |media| == |run| && Known(run[0], media[0])
    && forall i :: 0 <= i < |steps| ==>
         WellFormed(run[i]) && Honest(run[i], media[i], steps[i]) && MediaNext(run[i], run[i + 1], media[i], media[i + 1], steps[i])
  }

  lemma {:induction false} RunKnows(c: Consts, run: seq<State>, media: seq<set<nat>>, steps: seq<Step>, n: nat)
    requires ConstsOk(c) && IsMediaRun(c, run, media, steps) && n < |run|
    ensures Known(run[n], media[n])
  {
    if n > 0 {
      RunKnows(c, run, media, steps, n - 1);
      RunStep(c, run, steps, n - 1);
      assert Honest(run[n - 1], media[n - 1], steps[n - 1]);
      hide Do, Inv, Enabled, WellFormed, Harmless, Honest, MediaNext, Known;
      StepKeepsKnown(c, run[n - 1], media[n - 1], media[n], steps[n - 1]);
    }
  }

  /** In every run, a dirty page without data node holds what writing it back makes index and data grow
      by, and any other dirty page at least what overwriting its data node costs. */
  lemma DirtyPagesAreBudgeted(c: Consts, run: seq<State>, media: seq<set<nat>>, steps: seq<Step>, n: nat, p: nat)
    requires ConstsOk(c) && IsMediaRun(c, run, media, steps) && n < |run| && p < |run[n].pages| && run[n].pages[p].private_
    ensures p !in media[n] ==>
      PageHolds(c, Idx, run[n].pages[p]) == c.maxIdxNodeSz && PageHolds(c, Data, run[n].pages[p]) == c.pageBudget
    ensures PageHolds(c, Data, run[n].pages[p]) + PageHolds(c, Dirty, run[n].pages[p]) == c.pageBudget
    ensures forall w :: PageHolds(c, w, run[n].pages[p]) <= Value(run[n], w)
  {
    RunKeepsInv(c, run, steps, n);
    RunKnows(c, run, media, steps, n);
    assert FlagsOk(run[n].pages[p]);
    assert IsCached(run[n], p);
    forall w {
      WhatIsHeldIsThere(c, run[n], w, p);
    }
  }

  // --- locks ---

  predicate HasPage(pc: Pc, p: nat) {
    (pc.SlowAmended? || pc.Writing? || pc.MkAmended?) && pc.p == p
  }

  predicate HasInode(s: State, pc: Pc, i: nat) {
    pc.Writing? && pc.appending && pc.p < |s.pages| && s.pages[pc.p].ino == i
  }

  ghost predicate PageIsHeld(s: State, p: nat)
    requires p < |s.pages|
  {
    s.pages[p].owner == -1 || (0 <= s.pages[p].owner < |s.threads| && HasPage(s.threads[s.pages[p].owner], p))
  }

  ghost predicate InodeIsHeld(s: State, i: nat)
    requires i < |s.inodes|
  {
    s.inodes[i].owner == -1 || (0 <= s.inodes[i].owner < |s.threads| && HasInode(s, s.threads[s.inodes[i].owner], i))
  }

  /** Whatever is locked is locked by a thread that is working on it. */
  ghost predicate LocksAreHeld(s: State) {
    (forall p | 0 <= p < |s.pages| :: PageIsHeld(s, p)) && forall i | 0 <= i < |s.inodes| :: InodeIsHeld(s, i)
  }

  predicate IsWriting(a: Step) {
    a.FastBegin? || a.SlowLock? || a.SlowFinish? || a.WriteEnd? || a.ShortCopy?
  }

  lemma WritingKeepsPage(c: Consts, s: State, a: Step, p: nat)
    requires WellFormed(s) && Enabled(c, s, a) && p < |s.pages| && PageIsHeld(s, p) && IsWriting(a)
    requires a.t < |s.threads| ==> Locked(s, a.t)
    ensures p < |Do(c, s, a).pages| && PageIsHeld(Do(c, s, a), p)
  {
    hide CalcGrowth, PageGrowth, InodeGrowth;
  }

  lemma OthersKeepPage(c: Consts, s: State, a: Step, p: nat)
    requires WellFormed(s) && Enabled(c, s, a) && p < |s.pages| && PageIsHeld(s, p) && !IsWriting(a)
    requires a.t < |s.threads| ==> Locked(s, a.t)
    ensures p < |Do(c, s, a).pages| && PageIsHeld(Do(c, s, a), p)
  {
    hide CalcGrowth, PageGrowth, InodeGrowth;
  }

  lemma WritingKeepsInode(c: Consts, s: State, a: Step, i: nat)
    requires WellFormed(s) && Enabled(c, s, a) && i < |s.inodes| && InodeIsHeld(s, i) && IsWriting(a)
    requires a.t < |s.threads| ==> Locked(s, a.t)
    ensures i < |Do(c, s, a).inodes| && InodeIsHeld(Do(c, s, a), i)
  {
    hide CalcGrowth, PageGrowth, InodeGrowth;
  }

  lemma OthersKeepInode(c: Consts, s: State, a: Step, i: nat)
    requires WellFormed(s) && Enabled(c, s, a) && i < |s.inodes| && InodeIsHeld(s, i) && !IsWriting(a)
    requires a.t < |s.threads| ==> Locked(s, a.t)
    ensures i < |Do(c, s, a).inodes| && InodeIsHeld(Do(c, s, a), i)
  {
    hide CalcGrowth, PageGrowth, InodeGrowth;
  }

  lemma SameLengths(c: Consts, s: State, a: Step)
    requires WellFormed(s) && Enabled(c, s, a)
    ensures |Do(c, s, a).pages| == |s.pages| && |Do(c, s, a).inodes| == |s.inodes|
  {
    hide CalcGrowth, PageGrowth, InodeGrowth;
  }

  lemma StepKeepsLocks(c: Consts, s: State, a: Step)
    requires Inv(c, s) && WellFormed(s) && Enabled(c, s, a) && LocksAreHeld(s)
    ensures LocksAreHeld(Do(c, s, a))
  {
    assert a.t < |s.threads| ==> Locked(s, a.t);
    hide Do, Inv, WellFormed, Enabled, PageIsHeld, InodeIsHeld;
    SameLengths(c, s, a);
    forall p | 0 <= p < |s.pages|
      ensures PageIsHeld(Do(c, s, a), p)
    {
      if IsWriting(a) {
        WritingKeepsPage(c, s, a, p);
      } else {
        OthersKeepPage(c, s, a, p);
      }
    }
    forall i | 0 <= i < |s.inodes|
      ensures InodeIsHeld(Do(c, s, a), i)
    {
      if IsWriting(a) {
        WritingKeepsInode(c, s, a, i);
      } else {
        OthersKeepInode(c, s, a, i);
      }
    }
  }

  lemma {:induction false} RunKeepsLocks(c: Consts, run: seq<State>, steps: seq<Step>, n: nat)
    requires ConstsOk(c) && IsRun(c, run, steps) && n < |run| && LocksAreHeld(run[0])
    ensures LocksAreHeld(run[n])
  {
    if n > 0 {
      RunKeepsLocks(c, run, steps, n - 1);
      RunKeepsInv(c, run, steps, n - 1);
      RunStep(c, run, steps, n - 1);
      hide Do, Inv, Enabled, WellFormed, Harmless, LocksAreHeld;
      StepKeepsLocks(c, run[n - 1], steps[n - 1]);
    }
  }

  lemma LeftAlone(s: State)
    requires LocksAreHeld(s) && forall t | 0 <= t < |s.threads| :: !s.threads[t].SlowAmended? && !s.threads[t].Writing? && !s.threads[t].MkAmended?
    ensures forall p | 0 <= p < |s.pages| :: s.pages[p].owner == -1
    ensures forall i | 0 <= i < |s.inodes| :: s.inodes[i].owner == -1
  {
    forall p | 0 <= p < |s.pages|
      ensures s.pages[p].owner == -1
    {
      assert PageIsHeld(s, p);
    }
    forall i | 0 <= i < |s.inodes|
      ensures s.inodes[i].owner == -1
    {
      assert InodeIsHeld(s, i);
    }
  }

  /** However writers, faults and write-back interleave, nobody leaves a page or an inode locked: whenever no
      thread is between looking a page up and being done with it, none is. */
  lemma NoLockIsLeft(c: Consts, run: seq<State>, steps: seq<Step>, n: nat)
    requires ConstsOk(c) && IsRun(c, run, steps) && n < |run| && LocksAreHeld(run[0])
    requires forall t | 0 <= t < |run[n].threads| ::
      !run[n].threads[t].SlowAmended? && !run[n].threads[t].Writing? && !run[n].threads[t].MkAmended?
    ensures forall p | 0 <= p < |run[n].pages| :: run[n].pages[p].owner == -1
    ensures forall i | 0 <= i < |run[n].inodes| :: run[n].inodes[i].owner == -1
  {
    RunKeepsLocks(c, run, steps, n);
    hide *;
    LeftAlone(run[n]);
  }
}
