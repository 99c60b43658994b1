/** Exactly when the LEB layer keeps what its documentation promises without reservation. */
module LebLimits {
  import opened Flash
  import opened LebInvariant
  import opened LebLayer
  import opened LebRefinement
  import opened LebSteps
  import opened Misc
  import opened Wrappers

  /** A power cut that interrupts nothing. */
  lemma QuietCut(s: State)
    requires Inv(s)
    ensures CutImage(s, s.flash)
  {
    forall p | 0 <= p < |s.flash|
      ensures CutPeb(s, p, s.flash[p])
    {
      assert RoleFits(s, p);
      if s.role[p].Reserved? {
        assert OpFits(s, s.role[p].leb);
      }
    }
  }

  /** A mapped LEB nobody works on is found again in every case if, and only if, no copy waiting
      for erasure outranks the mapped one. */
  lemma IdleIsExactIff(s: State, l: Leb)
    requires Inv(s) && l in s.eba && l !in s.ops
    ensures (forall f | CutImage(s, f) :: Recovered(f, l) == s.eba[l] && f[s.eba[l]] == s.flash[s.eba[l]])
      <==> Unrivalled(s, l)
  {
    if Unrivalled(s, l) {
      forall f | CutImage(s, f)
        ensures Recovered(f, l) == s.eba[l] && f[s.eba[l]] == s.flash[s.eba[l]]
      {
        IdleLebSurvives(s, l, f);
      }
    } else {
      var q :| IsPeb(s, q) && s.role[q] == Pending && CopyOf(s.flash, q, l) && !Loses(s, l, q);
      QuietCut(s);
      OwnPebs(s, l);
      RecoveredBeatsTheOthers(s.flash, l);
    }
  }

  /** Giving up a move after its target has been written whole: the LEB is found again exactly in
      every case if, and only if, the target was left without a copy that can be trusted. */
  lemma CancelIsExactIff(s: State, l: Leb, left: Peb)
    requires Inv(s) && Enabled(s, Abandon(l, left)) && s.ops[l].kind == Move && Unrivalled(s, l)
    requires MapFits(s, l) && Trusted(s.flash[s.eba[l]])
    ensures var t := Apply(s, Abandon(l, left));
      (forall f | CutImage(t, f) :: Recovered(f, l) == t.eba[l] && f[t.eba[l]] == t.flash[t.eba[l]])
      <==> !(left.vid.Good? && Trusted(left))
  {
    hide Inv, KindFits, StageFits, Appends, VidFits, CutImage, Recovered;
    InvShapes(s);
    var t := Apply(s, Abandon(l, left));
    AbandonKeepsInv(s, l, left);
    IdleIsExactIff(t, l);
    OwnPebs(s, l);
    OwnPebs(t, l);
    var m, to := s.eba[l], s.ops[l].to;
    assert CopyOf(s.flash, m, l) && m != to;
    if left.vid.Good? {
      LeftLosesIff(s, l, left);
    }
    forall q | IsPeb(t, q) && t.role[q] == Pending && CopyOf(t.flash, q, l) && q != to
      ensures Loses(t, l, q)
    {
      assert Loses(s, l, q);
    }
  }

  lemma InvShapes(s: State)
    requires Inv(s)
    ensures Shapes(s)
  {
  }

  /** What a move leaves in its target loses against the mapped PEB unless it can be trusted. */
  lemma LeftLosesIff(s: State, l: Leb, left: Peb)
    requires Inv(s) && Enabled(s, Abandon(l, left)) && s.ops[l].kind == Move && left.vid.Good?
    requires MapFits(s, l) && Trusted(s.flash[s.eba[l]])
    ensures var t, to := Apply(s, Abandon(l, left)), s.ops[l].to;
      IsPeb(t, to) && t.role[to] == Pending && CopyOf(t.flash, to, l) && (Loses(t, l, to) <==> !Trusted(left))
  {
    OwnPebs(s, l);
    CutTargetHeader(s, l, left);
    GivenBackCopies(s, l, left, s.ops[l].to, l);
    hide KindFits, StageFits, Appends, VidFits, RoleFits;
    assert CopyOf(s.flash, s.eba[l], l) && s.eba[l] != s.ops[l].to;
  }

  // ---- What comes back of a LEB with a rival ---------------------------------------------------

  /** A copy that waits for its erasure and is preferred to the mapped one. */
  predicate IsRival(s: State, l: Leb, q: int) {
    IsPeb(s, q) && s.role[q] == Pending && CopyOf(s.flash, q, l) && !Loses(s, l, q)
  }

  /** Nothing else is found than the mapped copy or a rival, whose data nothing has happened to if it has a
      checksum. */
  lemma IdleFindsCopy(s: State, l: Leb, f: Image)
    requires Inv(s) && CutImage(s, f) && MapFits(s, l) && l !in s.ops && Trusted(s.flash[s.eba[l]])
    ensures CopyOf(f, s.eba[l], l) && f[s.eba[l]] == s.flash[s.eba[l]]
    ensures var r := Recovered(f, l);
      r == s.eba[l]
      || (r != -1 && IsRival(s, l, r) && CopyOf(f, r, l) && f[r].vid == s.flash[r].vid
          && |f[r].data| == s.size && (HasChecksum(f[r]) ==> f[r].data == s.flash[r].data))
  {
    hide Recovered, KindFits, StageFits, Appends;
    var m, r := s.eba[l], Recovered(f, l);
    assert CutPeb(s, m, f[m]) && CopyOf(f, m, l);
    CutKeepsDistinct(s, f);
    RecoveredBeatsTheOthers(f, l);
    if r != m {
      assert Beats(f[r], f[m]);
      CutKeepsHeaders(s, f, r);
      assert CutPeb(s, r, f[r]) && RoleFits(s, r);
    }
  }

  /** A cut that leaves nothing of LEB l but the mapped copy, and b of the rival in PEB q. */
  function LeftOnly(s: State, l: Leb, q: nat, b: Peb): (f: Image)
    requires l in s.eba
    ensures |f| == |s.flash|
    ensures forall p | 0 <= p < |f| ::
      f[p] == if p == q then b else if p != s.eba[l] && CopyOf(s.flash, p, l) then Erased(s.flash[p]) else s.flash[p]
  {
    seq(|s.flash|, p requires 0 <= p < |s.flash| =>
      if p == q then b else if p != s.eba[l] && CopyOf(s.flash, p, l) then Erased(s.flash[p]) else s.flash[p])
  }

  /** The copies of an idle LEB other than the mapped one wait for their erasure. */
  lemma IdleCopies(s: State, l: Leb, p: nat)
    requires Inv(s) && l in s.eba && l !in s.ops && CopyOf(s.flash, p, l) && p != s.eba[l]
    ensures p < |s.role| && s.role[p] == Pending && |s.flash[p].data| == s.size
  {
    assert RoleFits(s, p);
  }

  lemma LeftOnlyIsCut(s: State, l: Leb, q: nat, b: Peb)
    requires Inv(s) && l in s.eba && l !in s.ops && IsRival(s, l, q) && TornErase(s.flash[q], b) && b.ec == s.flash[q].ec
    ensures CutImage(s, LeftOnly(s, l, q, b))
  {
    hide Inv, Loses, KindFits, StageFits, LeftOnly;
    QuietCut(s);
    var f := LeftOnly(s, l, q, b);
    forall p | 0 <= p < |f|
      ensures CutPeb(s, p, f[p])
    {
      assert CutPeb(s, p, s.flash[p]);
      if p != s.eba[l] && CopyOf(s.flash, p, l) {
        IdleCopies(s, l, p);
      }
    }
  }

  lemma LeftOnlyIsFound(s: State, l: Leb, q: nat, b: Peb)
    requires Inv(s) && MapFits(s, l) && l !in s.ops && IsRival(s, l, q) && TornErase(s.flash[q], b) && b.ec == s.flash[q].ec
    requires Trusted(s.flash[s.eba[l]]) && b.vid == s.flash[q].vid && Trusted(b)
    ensures CutImage(s, LeftOnly(s, l, q, b)) && Recovered(LeftOnly(s, l, q, b), l) == q && LeftOnly(s, l, q, b)[q] == b
  {
    hide Inv, CutImage, Recovered, LeftOnly;
    LeftOnlyIsCut(s, l, q, b);
    var f, m := LeftOnly(s, l, q, b), s.eba[l];
    CutKeepsDistinct(s, f);
    RecoveredBeatsTheOthers(f, l);
    RivalIsNewer(s, l, q);
    assert m != q && CopyOf(f, m, l) && CopyOf(f, q, l);
    assert forall p :: CopyOf(f, p, l) ==> p == m || p == q;
  }

  lemma RivalIsNewer(s: State, l: Leb, q: nat)
    requires Inv(s) && MapFits(s, l) && l !in s.ops && IsRival(s, l, q) && Trusted(s.flash[s.eba[l]])
    ensures Trusted(s.flash[q]) && Sq(s.flash[s.eba[l]]) < Sq(s.flash[q])
  {
    hide Recovered, KindFits, StageFits;
  }

  /** A mapped LEB nobody works on shows its contents at every power cut if, and only if, each of its rivals
      has the same contents, and a checksum that tells whether it has been damaged by its erasure. */
  lemma ContentsAreExactIff(s: State, l: Leb)
    requires Inv(s) && MapFits(s, l) && l !in s.ops && Trusted(s.flash[s.eba[l]])
    ensures (forall f | CutImage(s, f) :: Recovered(f, l) != -1 && Payload(f[Recovered(f, l)]) == Payload(s.flash[s.eba[l]]))
      <==> forall q | IsRival(s, l, q) ::
             Payload(s.flash[q]) == Payload(s.flash[s.eba[l]]) && (HasChecksum(s.flash[q]) || Payload(s.flash[q]) == [])
  {
    hide Inv, CutImage, Recovered, Loses;
    var old_ := Payload(s.flash[s.eba[l]]);
    if q: nat :| IsRival(s, l, q) && !(Payload(s.flash[q]) == old_ && (HasChecksum(s.flash[q]) || Payload(s.flash[q]) == [])) {
      var f := RivalShows(s, l, q);
    } else {
      forall f: Image | CutImage(s, f)
        ensures Recovered(f, l) != -1 && Payload(f[Recovered(f, l)]) == old_
      {
        IdleFindsCopy(s, l, f);
        var r := Recovered(f, l);
        if r != s.eba[l] {
          assert IsRival(s, l, r);
          IdleSizes(s, l, r);
          SameOrEmpty(s.flash[r], f[r]);
        }
      }
    }
  }

  lemma IdleSizes(s: State, l: Leb, r: nat)
    requires Inv(s) && IsRival(s, l, r)
    ensures |s.flash[r].data| == s.size
  {
    assert RoleFits(s, r);
  }

  lemma SameOrEmpty(a: Peb, b: Peb)
    requires a.vid.Good? && b.vid == a.vid && |a.data| == |b.data|
    requires HasChecksum(a) ==> a.data == b.data
    requires HasChecksum(a) || Payload(a) == []
    ensures Payload(a) == Payload(b)
  {
  }

  /** The rival comes back, with its own contents or with what its erasure has made of them. */
  lemma RivalShows(s: State, l: Leb, q: nat) returns (f: Image)
    requires Inv(s) && MapFits(s, l) && l !in s.ops && Trusted(s.flash[s.eba[l]]) && IsRival(s, l, q)
    requires !(Payload(s.flash[q]) == Payload(s.flash[s.eba[l]]) && (HasChecksum(s.flash[q]) || Payload(s.flash[q]) == []))
    ensures CutImage(s, f) && Recovered(f, l) == q && Payload(f[q]) != Payload(s.flash[s.eba[l]])
    ensures Payload(s.flash[q]) != Payload(s.flash[s.eba[l]]) ==> f[q] == s.flash[q]
  {
    hide Inv, CutImage, Recovered, Loses, LeftOnly;
    RivalIsNewer(s, l, q);
    var b := s.flash[q];
    if Payload(b) == Payload(s.flash[s.eba[l]]) {
      b := b.(data := b.data[0 := if b.data[0] == FF then 0 else FF]);
      assert Payload(b)[0] != Payload(s.flash[q])[0];
    }
    LeftOnlyIsFound(s, l, q, b);
    f := LeftOnly(s, l, q, b);
  }

  /** The state after a move was given up and bytes have been written inside the LEB. */
  ghost predicate CancelledThenAppended(s: State, l: Leb, left: Peb, off: nat, buf: seq<Byte>, u: State) {
    && Enabled(s, Abandon(l, left)) && MapFits(s, l) && off + |buf| <= |s.flash[s.eba[l]].data|
    && var t, b := GiveUp(s, l, left), s.flash[s.eba[l]];
       t.eba[l] < |t.flash| && u == t.(flash := t.flash[t.eba[l] := b.(data := WriteAt(b.data, off, buf))])
  }

  lemma CancelledIsRival(s: State, l: Leb, left: Peb)
    requires Inv(s) && Enabled(s, Abandon(l, left)) && s.ops[l].kind == Move && MapFits(s, l)
    requires Trusted(s.flash[s.eba[l]]) && left.vid.Good? && Trusted(left)
    ensures var t := GiveUp(s, l, left);
      Inv(t) && MapFits(t, l) && l !in t.ops && t.eba == s.eba && t.flash[t.eba[l]] == s.flash[s.eba[l]]
      && IsRival(t, l, s.ops[l].to) && t.flash[s.ops[l].to] == left
    ensures Payload(left) == Payload(s.flash[s.eba[l]])
  {
    hide Inv, StageFits, Appends, VidFits, RoleFits;
    OwnPebs(s, l);
    AbandonKeepsInv(s, l, left);
    LeftLosesIff(s, l, left);
    OwnPebs(GiveUp(s, l, left), l);
    assert CopyOf(s.flash, s.eba[l], l) && s.eba[l] != s.ops[l].to;
    TrustedIsComplete(s, l, left);
  }

  /** The steps of the write inside the LEB. */
  lemma AppendedIs(t: State, l: Leb, off: nat, buf: seq<Byte>)
    requires Inv(t) && MapFits(t, l) && l !in t.ops && Appends(t.flash[t.eba[l]], off, |buf|)
    ensures var b := t.flash[t.eba[l]];
      var u := t.(flash := t.flash[t.eba[l] := b.(data := WriteAt(b.data, off, buf))]);
      && Enabled(t, BeginInPlace(l, off, buf)) && Inv(Apply(t, BeginInPlace(l, off, buf)))
      && Enabled(Apply(t, BeginInPlace(l, off, buf)), EndInPlace(l, u.flash[t.eba[l]]))
      && u == Apply(Apply(t, BeginInPlace(l, off, buf)), EndInPlace(l, u.flash[t.eba[l]])) && Inv(u)
  {
    hide Inv, KindFits, StageFits, RoleFits, VidFits;
    InvShapes(t);
    StartAppendKeepsInv(t, l, off, buf);
    var t1 := Apply(t, BeginInPlace(l, off, buf));
    OwnPebs(t1, l);
    InvShapes(t1);
    var b := t.flash[t.eba[l]];
    AppendKeepsInv(t1, l, b.(data := WriteAt(b.data, off, buf)));
    assert MapWithout(t1.ops, l) == t.ops;
  }

  /** A move is given up after its target was written, so that it can be trusted. */
  ghost predicate CancelledLate(s: State, l: Leb, left: Peb) {
    && Inv(s) && Enabled(s, Abandon(l, left)) && s.ops[l].kind == Move && MapFits(s, l)
    && Trusted(s.flash[s.eba[l]]) && left.vid.Good? && Trusted(left)
  }

  /** A move is given up after its target was written; then bytes are written inside the LEB.  At the next
      power cut they may be gone: the target of the move is newer, and comes back with what it was given. */
  lemma StaleContentsReturn(s: State, l: Leb, left: Peb, off: nat, buf: seq<Byte>) returns (u: State, f: Image)
    requires CancelledLate(s, l, left) && MapFits(s, l)
    requires Appends(s.flash[s.eba[l]], off, |buf|) && exists i :: 0 <= i < |buf| && buf[i] != FF
    ensures CancelledThenAppended(s, l, left, off, buf, u) && Inv(u) && MapFits(u, l)
    ensures Payload(u.flash[u.eba[l]]) == WriteAt(s.flash[s.eba[l]].data, off, buf) != s.flash[s.eba[l]].data
    ensures CutImage(u, f) && Recovered(f, l) != -1 && Payload(f[Recovered(f, l)]) == s.flash[s.eba[l]].data
  {
    hide Inv, CutImage, Recovered, KindFits, StageFits, RoleFits, VidFits;
    CancelledIsRival(s, l, left);
    var t, b := GiveUp(s, l, left), s.flash[s.eba[l]];
    u := t.(flash := t.flash[t.eba[l] := b.(data := WriteAt(b.data, off, buf))]);
    AppendedIs(t, l, off, buf);
    OwnPebs(u, l);
    var i :| 0 <= i < |buf| && buf[i] != FF;
    assert WriteAt(b.data, off, buf)[off + i] == buf[i] && b.data[off + i] == FF;
    var to := s.ops[l].to;
    RivalIsNewer(t, l, to);
    assert IsRival(u, l, to);
    f := RivalShows(u, l, to);
  }

  /** The target of a move is not erased first.  Writing the copied bytes into a PEB that reads d
      shows what the source shows if, and only if, d is all 0xFF beyond them; the bytes of a static
      volume are all copied. */
  lemma MoveKeepsIffBlankBeyond(from: Peb, minIo: nat, sqnum: nat, d: seq<Byte>)
    requires from.vid.Good? && minIo > 0 && |from.data| % minIo == 0 && from.vid.value.dataSize <= |from.data|
    requires |d| == |from.data|
    ensures var n := MoveLen(from, minIo);
      Payload(Peb(from.ec, Good(MoveVid(from, minIo, sqnum)), WriteAt(d, 0, from.data[..n]))) == Payload(from)
      <==> from.vid.value.vol.isStatic || AllFFFrom(d, n)
  {
    var n := MoveLen(from, minIo);
    var r := WriteAt(d, 0, from.data[..n]);
    if from.vid.value.vol.isStatic {
      var k := from.vid.value.dataSize;
      assert k <= n && r[..k] == from.data[..k];
    } else if AllFFFrom(d, n) {
      assert r == from.data;
    } else {
      var i :| n <= i < |d| && d[i] != FF;
      assert r[i] != from.data[i];
    }
  }

  // ---- Atomic change ------------------------------------------------------------------------

  function NewBytes(s: State, buf: seq<Byte>): seq<Byte> {
    if |buf| <= s.size then WriteAt(Blank(s.size), 0, buf) else []
  }

  /** A step that, as far as l is concerned, belongs to an atomic change of l to one of bufs.
      Other LEBs may be worked on at the same time, and PEBs erased. */
  predicate OfChange(l: Leb, bufs: set<seq<Byte>>, step: Step) {
    match step
    case BeginSwap(k, _, buf) => k == l ==> buf in bufs
    case BeginFresh(k, _, _, _, _) => k != l
    case BeginMove(k, _) => k != l
    case BeginInPlace(k, _, _) => k != l
    case WriteHeader(_) => true
    case WriteData(_) => true
    case Commit(_) => true
    case WriteError(_, _, _) => true
    case Abandon(k, _) => k != l
    case EndInPlace(k, _) => k != l
    case Unmap(k) => k != l
    case Erase(_) => true
    case WasteSqnum => true
    case PowerCut(_) => false
  }

  ghost predicate ChangesOnly(l: Leb, bufs: set<seq<Byte>>, steps: seq<Step>) {
    forall i | 0 <= i < |steps| :: OfChange(l, bufs, steps[i])
  }

  function News(s: State, bufs: set<seq<Byte>>): set<seq<Byte>> {
    set buf | buf in bufs :: NewBytes(s, buf)
  }

  /** l shows what it showed, or one of the new values. */
  ghost predicate Holding(a: Store, l: Leb, old_: seq<Byte>, news: set<seq<Byte>>) {
    && l in a.vals && l !in a.doubted && a.vals[l] in news + {old_}
    && (l in a.busy ==> a.busy[l].Changing? && a.busy[l].bytes in news)
  }

  /** What may happen to the simple map in the meantime. */
  ghost predicate Harmless(act: Act, l: Leb, news: set<seq<Byte>>) {
    match act
    case Begin(k, what) => k == l ==> what.Changing? && what.bytes in news
    case Finish(_) => true
    case Fail(k, _) => k != l
    case Tear(k, _) => k != l
    case Forget(k) => k != l
    case Internal => true
    case Doubt(k, _) => k != l
    case Cut => false
  }

  lemma HarmlessHolds(a: Store, act: Act, b: Store, l: Leb, old_: seq<Byte>, news: set<seq<Byte>>)
    requires Holding(a, l, old_, news) && Harmless(act, l, news) && SpecNext(a, act, b)
    ensures Holding(b, l, old_, news)
  {
  }

  ghost predicate OnlyChanged(s: State, l: Leb) {
    l in s.ops ==> s.ops[l].Target? && s.ops[l].kind == Swap
  }

  lemma ChangeIsHarmless(s: State, step: Step, l: Leb, bufs: set<seq<Byte>>)
    requires Inv(s) && Enabled(s, step) && OfChange(l, bufs, step) && OnlyChanged(s, l)
    ensures Harmless(ActOf(s, step), l, News(s, bufs))
    ensures OnlyChanged(Apply(s, step), l) && Apply(s, step).size == s.size
  {
    hide Inv, StageFits;
    if step.Commit? && step.leb == l {
      TargetIsTrusted(s, l);
    }
  }

  lemma {:induction false} ChangeHolds(s: State, steps: seq<Step>, l: Leb, bufs: set<seq<Byte>>, old_: seq<Byte>)
    requires Inv(s) && Legal(s, steps) && ChangesOnly(l, bufs, steps) && OnlyChanged(s, l)
    requires Holding(Abs(s), l, old_, News(s, bufs))
    ensures Inv(Run(s, steps)) && Holding(Abs(Run(s, steps)), l, old_, News(s, bufs))
    ensures OnlyChanged(Run(s, steps), l) && Run(s, steps).size == s.size
    decreases |steps|
  {
    hide Inv, Abs, SpecNext, OnlyChanged, Harmless, Holding, ActOf, Enabled, Apply, Shapes, OfChange;
    if steps != [] {
      var t := Apply(s, steps[0]);
      assert OfChange(l, bufs, steps[0]);
      StepKeepsInv(s, steps[0]);
      StepRefines(s, steps[0]);
      ChangeIsHarmless(s, steps[0], l, bufs);
      assert News(t, bufs) == News(s, bufs);
      HarmlessHolds(Abs(s), ActOf(s, steps[0]), Abs(t), l, old_, News(s, bufs));
      assert forall i | 0 <= i < |steps[1..]| :: steps[1..][i] == steps[i + 1];
      ChangeHolds(t, steps[1..], l, bufs, old_);
    }
  }

  /** At whatever moment of whatever run the power fails, with whatever failed writes tried again
      and whatever work going on elsewhere, a mapped LEB that is only changed atomically holds
      exactly what it held before or exactly the new contents; without a change (bufs == {}), it
      holds what it held. */
  lemma ChangeIsAtomicInEveryRun(s: State, steps: seq<Step>, l: Leb, bufs: set<seq<Byte>>, f: Image)
    requires Inv(s) && MapFits(s, l) && l !in s.ops && !Doubtful(s, l)
    requires Legal(s, steps) && ChangesOnly(l, bufs, steps) && CutImage(Run(s, steps), f)
    ensures Recovered(f, l) != -1
    ensures Payload(f[Recovered(f, l)]) in News(s, bufs) + {Payload(s.flash[s.eba[l]])}
  {
    var old_ := Payload(s.flash[s.eba[l]]);
    ChangeHolds(s, steps, l, bufs, old_);
    var t := Run(s, steps);
    CutShows(t, l, f);
  }

  /** After a cut the LEB holds what it held before, or buf followed by 0xFF bytes. */
  predicate OldOrNew(s: State, l: Leb, buf: seq<Byte>, f: Image) {
    var r := Recovered(f, l);
    || (r == -1 && l !in s.eba)
    || (r != -1 && (Payload(f[r]) == NewBytes(s, buf) ||
                    (l in s.eba && CopyOf(s.flash, s.eba[l], l) && Payload(f[r]) == Payload(s.flash[s.eba[l]]))))
  }

  ghost predicate AllOrNothing(s: State, l: Leb, buf: seq<Byte>) {
    forall steps, f | Legal(s, steps) && ChangesOnly(l, {buf}, steps) && CutImage(Run(s, steps), f) ::
      OldOrNew(s, l, buf, f)
  }

  /** The state once the header of the new copy has been written. */
  ghost function HalfWay(s: State, l: Leb, to: nat, buf: seq<Byte>): (t: State)
    requires Inv(s) && Enabled(s, BeginSwap(l, to, buf))
    ensures Inv(t) && AtStage(t, l, HeaderWritten) && t.ops[l] == Target(Swap, to, SwapVid(s, l, buf), 0, buf, HeaderWritten)
    ensures t.size == s.size && t.flash == s.flash[to := Erased(s.flash[to]).(vid := Good(SwapVid(s, l, buf)))]
    ensures var steps := [BeginSwap(l, to, buf), WriteHeader(l)]; Legal(s, steps) && Run(s, steps) == t
  {
    var begin, header := BeginSwap(l, to, buf), WriteHeader(l);
    StepKeepsInv(s, begin);
    var u := Apply(s, begin);
    OwnPebs(u, l);
    StepKeepsInv(u, header);
    var t := Apply(u, header);
    OwnPebs(t, l);
    assert [begin, header][1..] == [header] && [header][1..] == [];
    assert Legal(u, [header]) && Run(u, [header]) == t;
    t
  }

  /** Only a copy waiting for erasure may win over that of an idle LEB. */
  lemma OnlyPendingWins(t: State, l: Leb, f: Image)
    requires Inv(t) && CutImage(t, f) && l in t.eba && l !in t.ops
    ensures MapFits(t, l) && f[t.eba[l]] == t.flash[t.eba[l]] && Recovered(f, l) != -1
    ensures var r := Recovered(f, l);
      || r == t.eba[l]
      || (IsPeb(t, r) && t.role[r] == Pending && CopyOf(t.flash, r, l) && TornErase(t.flash[r], f[r])
          && Beats(f[r], t.flash[t.eba[l]]))
  {
    var m, r := t.eba[l], Recovered(f, l);
    assert MapFits(t, l) && CutPeb(t, m, f[m]) && CopyOf(f, m, l);
    CutKeepsDistinct(t, f);
    RecoveredBeatsTheOthers(f, l);
    if r != m {
      CutKeepsHeaders(t, f, r);
      assert CutPeb(t, r, f[r]) && RoleFits(t, r);
    }
  }

  /** A change given up because of write errors still shows the old or the new contents. */
  lemma AbandonedChangeIsOldOrNew(s: State, l: Leb, left: Peb, f: Image)
    requires Inv(s) && Enabled(s, Abandon(l, left)) && s.ops[l].kind == Swap && MapFits(s, l) && Unrivalled(s, l)
    requires CutImage(GiveUp(s, l, left), f)
    ensures Recovered(f, l) != -1
    ensures Payload(f[Recovered(f, l)]) == Payload(s.flash[s.eba[l]]) ||
            Payload(f[Recovered(f, l)]) == Payload(Complete(s.ops[l], s.size))
  {
    hide Inv, KindFits, StageFits, RoleFits, Kept, CutPeb;
    var t, r := GiveUp(s, l, left), Recovered(f, l);
    AbandonKeepsInv(s, l, left);
    AbandonFits(s, l, left, l);
    OnlyPendingWins(t, l, f);
    if r == s.ops[l].to {
      NewerAndTrusted(s, l, left, f[r]);
      TrustedIsComplete(s, l, left);
    } else if r != s.eba[l] {
      assert Loses(s, l, r);
      ErasedWinnerIsUntouched(s.flash[s.eba[l]], f[s.eba[l]], s.flash[r], f[r]);
    }
  }

  /** The target that was given up can only win untouched and with its checksum intact. */
  lemma NewerAndTrusted(s: State, l: Leb, left: Peb, after: Peb)
    requires Inv(s) && Enabled(s, Abandon(l, left)) && s.ops[l].kind == Swap && l in s.eba
    requires after.vid.Good? && TornErase(left, after) && Beats(after, s.flash[s.eba[l]])
    ensures left.vid.Good? && Trusted(left) && after.data == left.data && after.vid == left.vid
  {
    OwnPebs(s, l);
    CutTargetHeader(s, l, left);
    assert CopyOf(s.flash, s.eba[l], l);
  }

  /** All steps belong to a change of l to buf, which may be given up in the end. */
  ghost predicate ChangeRun(l: Leb, buf: seq<Byte>, steps: seq<Step>) {
    forall i | 0 <= i < |steps| ::
      OfChange(l, {buf}, steps[i]) || (i == |steps| - 1 && steps[i].Abandon? && steps[i].leb == l)
  }

  lemma GivenUpHolds(t: State, l: Leb, left: Peb, old_: seq<Byte>, news: set<seq<Byte>>, f: Image)
    requires Inv(t) && Holding(Abs(t), l, old_, news) && OnlyChanged(t, l)
    requires Enabled(t, Abandon(l, left)) && CutImage(Apply(t, Abandon(l, left)), f)
    ensures Recovered(f, l) != -1 && Payload(f[Recovered(f, l)]) in news + {old_}
  {
    hide Inv, CutImage, KindFits, StageFits, Recovered;
    OwnPebs(t, l);
    NoRivalLeft(t, l);
    BusyWithNew(t, l);
    AbandonedChangeIsOldOrNew(t, l, left, f);
  }

  lemma GivenUpIsOldOrNew(s: State, pre: seq<Step>, l: Leb, buf: seq<Byte>, left: Peb, f: Image)
    requires Inv(s) && MapFits(s, l) && l !in s.ops && !Doubtful(s, l)
    requires Legal(s, pre) && ChangesOnly(l, {buf}, pre) && Shapes(Run(s, pre)) && Enabled(Run(s, pre), Abandon(l, left))
    requires CutImage(Apply(Run(s, pre), Abandon(l, left)), f)
    ensures OldOrNew(s, l, buf, f)
  {
    hide Inv, Legal, Run, CutImage, Recovered, Enabled, Shapes, Apply;
    var old_ := Payload(s.flash[s.eba[l]]);
    ChangeHolds(s, pre, l, {buf}, old_);
    GivenUpHolds(Run(s, pre), l, left, old_, News(s, {buf}), f);
  }

  /** The atomic change as it is carried out: at every step the LEB holds its old or its new
      contents, even if every write fails and the change is given up. */
  lemma ChangeRunIsAtomic(s: State, l: Leb, buf: seq<Byte>, steps: seq<Step>, n: nat, f: Image)
    requires Inv(s) && MapFits(s, l) && l !in s.ops && !Doubtful(s, l)
    requires Legal(s, steps) && ChangeRun(l, buf, steps) && n <= |steps|
    requires Legal(s, steps[..n]) && CutImage(Run(s, steps[..n]), f)
    ensures OldOrNew(s, l, buf, f)
  {
    hide Inv, Run, CutImage, Recovered, Doubtful, Enabled, Apply, Shapes;
    if n == 0 || OfChange(l, {buf}, steps[n - 1]) {
      ChangeIsAtomicInEveryRun(s, steps[..n], l, {buf}, f);
    } else {
      LegalPrefix(s, steps, n - 1);
      GivenUpIsOldOrNew(s, steps[..n - 1], l, buf, steps[n - 1].left, f);
    }
  }

  /** The copy that a cut in the middle of writing the data of an unmapped LEB leaves behind:
      nothing competes with it, so the scan keeps it without looking at its checksum. */
  lemma TornChangeIsKept(s: State, l: Leb, to: nat, buf: seq<Byte>) returns (f: Image)
    requires Inv(s) && Enabled(s, BeginSwap(l, to, buf)) && l !in s.eba
    requires forall q :: !CopyOf(s.flash, q, l)
    ensures CutImage(HalfWay(s, l, to, buf), f) && !OldOrNew(s, l, buf, f)
  {
    var t := HalfWay(s, l, to, buf);
    var garbage: Byte := if buf[0] == 0 then 1 else 0;
    OwnPebs(t, l);
    var d := WriteAt(Blank(s.size), 0, [garbage]);
    f := t.flash[to := t.flash[to].(data := d)];
    TornHeaderOnly(t, l, d);
    OnlyTarget(s, l, to, buf);
    assert t.flash[to].vid == Good(SwapVid(s, l, buf));
    SameHeadersSameCopies(t.flash, f, to, d, l);
    GarbageIsNeither(s, l, to, buf, f, d);
  }

  lemma SameHeadersSameCopies(f: Image, g: Image, p: nat, d: seq<Byte>, l: Leb)
    requires p < |f| && g == f[p := f[p].(data := d)]
    ensures forall q :: CopyOf(g, q, l) <==> CopyOf(f, q, l)
  {
  }

  lemma GarbageIsNeither(s: State, l: Leb, to: nat, buf: seq<Byte>, f: Image, d: seq<Byte>)
    requires 0 < |buf| <= s.size == |d| && l !in s.eba && d[0] != buf[0]
    requires CopyOf(f, to, l) && f[to].data == d && !f[to].vid.value.vol.isStatic
    requires forall q :: CopyOf(f, q, l) ==> q == to
    ensures !OldOrNew(s, l, buf, f)
  {
    KeptBeatsAnyway(f, l, to);
    assert NewBytes(s, buf)[0] == buf[0];
  }

  /** Only the PEB being written differs from a quiet cut. */
  lemma TornHeaderOnly(t: State, l: Leb, d: seq<Byte>)
    requires Inv(t) && AtStage(t, l, HeaderWritten) && |d| == t.size
    requires forall i | |t.ops[l].buf| <= i < t.size :: d[i] == FF
    requires t.ops[l].off == 0
    ensures CutImage(t, t.flash[t.ops[l].to := t.flash[t.ops[l].to].(data := d)])
  {
    QuietCut(t);
  }

  lemma OnlyTarget(s: State, l: Leb, to: nat, buf: seq<Byte>)
    requires Inv(s) && Enabled(s, BeginSwap(l, to, buf)) && forall q :: !CopyOf(s.flash, q, l)
    ensures forall q :: CopyOf(HalfWay(s, l, to, buf).flash, q, l) <==> q == to
  {
    var u := HalfWay(s, l, to, buf);
    forall q: int
      ensures CopyOf(u.flash, q, l) <==> q == to
    {
      if q != to && 0 <= q < |s.flash| {
        assert u.flash[q] == s.flash[q] && !CopyOf(s.flash, q, l);
      }
    }
  }

  /** The atomic change of a LEB is atomic if, and only if, the LEB is mapped. */
  lemma ChangeIsAtomicIffMapped(s: State, l: Leb, to: nat, buf: seq<Byte>)
    requires Inv(s) && Enabled(s, BeginSwap(l, to, buf))
    requires if l in s.eba then !Doubtful(s, l) else forall q :: !CopyOf(s.flash, q, l)
    ensures AllOrNothing(s, l, buf) <==> l in s.eba
  {
    hide Inv, RoleFits, CutImage, Recovered;
    if l in s.eba {
      OwnPebs(s, l);
      forall steps, f | Legal(s, steps) && ChangesOnly(l, {buf}, steps) && CutImage(Run(s, steps), f)
        ensures OldOrNew(s, l, buf, f)
      {
        ChangeIsAtomicInEveryRun(s, steps, l, {buf}, f);
      }
    } else {
      var f := TornChangeIsKept(s, l, to, buf);
      var steps := [BeginSwap(l, to, buf), WriteHeader(l)];
      assert ChangesOnly(l, {buf}, steps);
    }
  }

  // ---- Changing a LEB to nothing ------------------------------------------------------------

  /** A power cut that finds every pending erasure either not begun or finished. */
  ghost predicate CleanCut(s: State, f: Image) {
    && |f| == |s.flash| == |s.role|
    && forall p | 0 <= p < |f| :: f[p] == s.flash[p] || (s.role[p] == Pending && f[p] == Erased(s.flash[p]))
  }

  /** The LEB holds what it held, or nothing. */
  predicate OldOrNothing(f: Image, l: Leb, old_: seq<Byte>) {
    Recovered(f, l) == -1 || Payload(f[Recovered(f, l)]) == old_
  }

  /** The cut after which only the copy in q is left. */
  function AllErasedBut(f: Image, l: Leb, q: int): (g: Image)
    ensures |g| == |f|
    ensures forall p | 0 <= p < |f| :: g[p] == if p != q && CopyOf(f, p, l) then Erased(f[p]) else f[p]
  {
    seq(|f|, p requires 0 <= p < |f| => if p != q && CopyOf(f, p, l) then Erased(f[p]) else f[p])
  }

  lemma OlderCopyReturns(s: State, l: Leb, q: int)
    requires Inv(s) && Enabled(s, Unmap(l)) && CopyOf(s.flash, q, l)
    ensures CleanCut(Drop(s, l), AllErasedBut(s.flash, l, q))
    ensures Recovered(AllErasedBut(s.flash, l, q), l) == q && AllErasedBut(s.flash, l, q)[q] == s.flash[q]
  {
    hide Inv, RoleFits, OpFits, AllErasedBut, Recovered, Enabled;
    UnmapIsMapped(s, l);
    var t, f := Drop(s, l), AllErasedBut(s.flash, l, q);
    forall p | 0 <= p < |f|
      ensures f[p] == s.flash[p] || (t.role[p] == Pending && f[p] == Erased(s.flash[p]))
    {
      if CopyOf(s.flash, p, l) {
        CopyOfUnmapped(s, l, p);
      }
    }
    assert CopyOf(f, q, l);
    assert forall p :: CopyOf(f, p, l) ==> p == q;
    KeptBeatsAnyway(f, l, q);
  }

  lemma UnmapIsMapped(s: State, l: Leb)
    requires Inv(s) && Enabled(s, Unmap(l))
    ensures MapFits(s, l) && |s.role| == |s.flash|
  {
  }

  /** Every copy of a LEB that has just been unmapped waits for its erasure. */
  lemma CopyOfUnmapped(s: State, l: Leb, p: nat)
    requires Inv(s) && Enabled(s, Unmap(l)) && CopyOf(s.flash, p, l)
    ensures MapFits(s, l) && p < |s.role| && Drop(s, l).role[p] == Pending
  {
    assert RoleFits(s, p);
    if s.role[p].Reserved? {
      OwnPebs(s, s.role[p].leb);
    }
  }

  /** A change to length zero is an unmapping first.  As long as no erasure is interrupted, it shows the old
      contents or none if, and only if, no copy of the LEB that awaits erasure has other contents: erasures may
      finish in any order. */
  lemma UninterruptedZeroLengthIff(s: State, l: Leb)
    requires Inv(s) && Enabled(s, Unmap(l))
    ensures (forall f | CleanCut(Drop(s, l), f) :: OldOrNothing(f, l, Payload(s.flash[s.eba[l]])))
      <==> forall q | CopyOf(s.flash, q, l) :: Payload(s.flash[q]) == Payload(s.flash[s.eba[l]])
  {
    hide Inv, Kept, Recovered;
    var t, old_ := Drop(s, l), Payload(s.flash[s.eba[l]]);
    if q :| CopyOf(s.flash, q, l) && Payload(s.flash[q]) != old_ {
      OlderCopyReturns(s, l, q);
      assert !OldOrNothing(AllErasedBut(s.flash, l, q), l, old_);
    } else {
      forall f | CleanCut(t, f)
        ensures OldOrNothing(f, l, old_)
      {
        var r := Recovered(f, l);
        if r != -1 {
          assert f[r] == s.flash[r] && CopyOf(s.flash, r, l);
        }
      }
    }
  }

  /** What an interrupted erasure may have made of a copy: it does not show what is given, and its checksum, if it
      has one, does not match. */
  function Damaged(b: Peb, v: seq<Byte>): (r: Peb)
    requires b.vid.Good? && Payload(b) != []
    ensures TornErase(b, r) && r.vid == b.vid && r.ec == b.ec && Payload(r) != v
  {
    var crc := b.vid.value.crc;
    var x: Byte := Unlike(if v == [] then FF else v[0], if crc == [] then FF else crc[0]);
    var r := b.(data := b.data[0 := x]);
    assert Payload(r)[0] == x;
    var n := b.vid.value.dataSize;
    assert 0 < n <= |r.data| ==> r.data[..n][0] == x;
    r
  }

  function Unlike(a: Byte, b: Byte): (x: Byte)
    ensures x != a && x != b
  {
    if a != 0 && b != 0 then 0 else if a != 1 && b != 1 then 1 else 2
  }

  /** Only the copy in q is left, and its erasure was interrupted. */
  lemma DamagedCopyReturns(s: State, l: Leb, q: nat) returns (f: Image)
    requires Inv(s) && Enabled(s, Unmap(l)) && CopyOf(s.flash, q, l) && Payload(s.flash[q]) != []
    ensures CutImage(Drop(s, l), f) && !OldOrNothing(f, l, Payload(s.flash[s.eba[l]]))
  {
    hide Inv, RoleFits, OpFits, AllErasedBut, Recovered, Enabled, TornErase, Payload, Damaged;
    UnmapIsMapped(s, l);
    UnmapKeepsInv(s, l);
    var t, old_ := Drop(s, l), Payload(s.flash[s.eba[l]]);
    QuietCut(t);
    f := AllErasedBut(s.flash, l, q)[q := Damaged(s.flash[q], old_)];
    forall p | 0 <= p < |f|
      ensures CutPeb(t, p, f[p])
    {
      assert CutPeb(t, p, s.flash[p]);
      if CopyOf(s.flash, p, l) {
        CopyOfUnmapped(s, l, p);
        ErasedIsTorn(s.flash[p]);
        CopySizes(t, p, f[p]);
      }
    }
    assert CopyOf(f, q, l);
    assert forall p :: CopyOf(f, p, l) ==> p == q;
    KeptBeatsAnyway(f, l, q);
  }

  lemma ErasedIsTorn(b: Peb)
    ensures TornErase(b, Erased(b))
  {
  }

  lemma CopySizes(t: State, p: nat, b: Peb)
    requires Inv(t) && p < |t.flash| && TornErase(t.flash[p], b)
    ensures |b.data| == t.size && (t.flash[p].vid.Good? ==> !t.flash[p].ec.AllFF?)
  {
    assert RoleFits(t, p);
  }

  /** When erasures may be interrupted as well, it shows the old contents or none if, and only if, no copy shows
      any byte at all, which is never so for a dynamic volume. */
  lemma ZeroLengthChangeIsAtomicIff(s: State, l: Leb)
    requires Inv(s) && Enabled(s, Unmap(l))
    ensures (forall f | CutImage(Drop(s, l), f) :: OldOrNothing(f, l, Payload(s.flash[s.eba[l]])))
      <==> forall q | CopyOf(s.flash, q, l) :: Payload(s.flash[q]) == []
  {
    hide Inv, Kept, Recovered, CutImage, CutPeb, Payload;
    UnmapIsMapped(s, l);
    if q: nat :| CopyOf(s.flash, q, l) && Payload(s.flash[q]) != [] {
      var f := DamagedCopyReturns(s, l, q);
    } else {
      UnmapKeepsInv(s, l);
      forall f | CutImage(Drop(s, l), f)
        ensures OldOrNothing(f, l, Payload(s.flash[s.eba[l]]))
      {
        if Recovered(f, l) != -1 {
          NothingIsShown(s, l, f, Recovered(f, l));
        }
      }
    }
  }

  lemma NothingIsShown(s: State, l: Leb, f: Image, r: nat)
    requires Inv(s) && Enabled(s, Unmap(l)) && Inv(Drop(s, l)) && CutImage(Drop(s, l), f) && CopyOf(f, r, l)
    requires forall q | CopyOf(s.flash, q, l) :: Payload(s.flash[q]) == []
    ensures Payload(f[r]) == []
  {
    hide Inv, RoleFits;
    var t := Drop(s, l);
    CutKeepsHeaders(t, f, r);
    assert CutPeb(t, r, f[r]);
    SameSizes(t, r, f[r]);
  }

  lemma SameSizes(t: State, p: nat, b: Peb)
    requires Inv(t) && CutPeb(t, p, b)
    ensures |b.data| == |t.flash[p].data|
  {
    assert RoleFits(t, p);
  }

  /** The only copy is kept. */
  lemma KeptBeatsAnyway(f: Image, l: Leb, q: nat)
    requires CopyOf(f, q, l) && forall p :: CopyOf(f, p, l) ==> p == q
    ensures Recovered(f, l) == q
  {
    OnlyCopyKept(f, l, q, Ascending(|f|));
  }

  lemma {:induction false} OnlyCopyKept(f: Image, l: Leb, q: nat, order: seq<nat>)
    requires Within(f, order) && CopyOf(f, q, l) && forall p :: CopyOf(f, p, l) ==> p == q
    ensures Kept(f, l, order) == if q in order then q else -1
    decreases |order|
  {
    if order != [] {
      OnlyCopyKept(f, l, q, order[..|order| - 1]);
    }
  }
}
