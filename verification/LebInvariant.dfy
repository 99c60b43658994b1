/** Every step keeps the invariant of the LEB layer. */
module LebInvariant {
  import opened Arith
  import opened Flash
  import opened LebLayer
  import opened LebSteps
  import opened Misc

  /** The invariant while LEB l has no operation, or one that has just lost its PEB. */
  ghost predicate InvExcept(s: State, l: Leb) {
    && Shapes(s)
    && (forall p | 0 <= p < |s.role| :: s.role[p] != Reserved(l))
    && (forall k | k in s.ops && k != l :: OpFits(s, k))
    && DistinctSq(s.flash)
    && (forall k, q | k in s.ops && k != l && s.ops[k].Target? && CopyOf(s.flash, q, k) && q != s.ops[k].to ::
         Sq(s.flash[q]) < s.ops[k].vid.sqnum)
    && MappedWins(s)
  }

  /** Two attempts of the same operation. */
  predicate SameAttempt(a: Op, b: Op) {
    && a.Target? && b.Target? && a.kind == b.kind && a.off == b.off && a.buf == b.buf
    && a.vid.(sqnum := 0) == b.vid.(sqnum := 0)
  }

  lemma IdleLeb(s: State, l: Leb)
    requires Inv(s) && l !in s.ops
    ensures InvExcept(s, l)
  {
    forall p | 0 <= p < |s.role|
      ensures s.role[p] != Reserved(l)
    {
      assert RoleFits(s, p);
    }
  }

  /** l can start (or start again) an operation on the free PEB to. */
  ghost predicate CanTake(s: State, l: Leb, op: Op) {
    && InvExcept(s, l) && op.Target? && op.stage == Allocated && IsFree(s, op.to)
    && op.vid.leb == l && op.vid.sqnum == s.sqnum && VidFits(s.(sqnum := s.sqnum + 1), op.vid)
    && op.off + |op.buf| <= s.size && KindFits(s, l, op)
    && (l in s.ops ==> SameAttempt(s.ops[l], op))
    && (op.kind == Move ==> IsBlank(s.flash[op.to], s.size))
  }

  function TakeOp(s: State, l: Leb, op: Op): State
    requires op.Target? && IsFree(s, op.to)
  {
    Take(s, l, op.kind, op.to, op.vid, op.off, op.buf)
  }

  lemma TakeShapes(s: State, l: Leb, op: Op)
    requires CanTake(s, l, op)
    ensures Shapes(TakeOp(s, l, op))
  {
    var t := TakeOp(s, l, op);
    assert RoleFits(s, op.to);
    forall p | 0 <= p < |t.flash|
      ensures RoleFits(t, p)
    {
      assert RoleFits(s, p);
    }
    forall k | k in t.eba
      ensures MapFits(t, k)
    {
      assert MapFits(s, k);
    }
  }

  lemma TakeOpFits(s: State, l: Leb, op: Op, k: Leb)
    requires CanTake(s, l, op) && k in s.ops.Keys + {l}
    ensures OpFits(TakeOp(s, l, op), k)
  {
    assert k in s.eba ==> MapFits(s, k);
    assert RoleFits(s, op.to);
    if k != l {
      assert OpFits(s, k);
    }
  }

  lemma TakeKeepsCopies(s: State, l: Leb, op: Op, q: int, k: Leb)
    requires CanTake(s, l, op) && CopyOf(TakeOp(s, l, op).flash, q, k)
    ensures q != op.to && CopyOf(s.flash, q, k) && RoleFits(s, q)
    ensures TakeOp(s, l, op).flash[q] == s.flash[q] && TakeOp(s, l, op).role[q] == s.role[q]
  {
  }

  lemma TakeLoses(s: State, l: Leb, op: Op, k: Leb, q: int)
    requires CanTake(s, l, op) && k in s.eba && Loses(s, k, q) && IsPeb(s, q) && s.role[q] == Pending
    ensures Loses(TakeOp(s, l, op), k, q)
  {
    hide InvExcept, KindFits, VidFits, IsBlank;
  }

  /** Replacing a free PEB by an erased one moves nothing else. */
  lemma TakeKeepsInv(s: State, l: Leb, op: Op)
    requires CanTake(s, l, op)
    ensures Inv(TakeOp(s, l, op))
  {
    var t := TakeOp(s, l, op);
    TakeShapes(s, l, op);
    forall k | k in t.ops
      ensures OpFits(t, k)
    {
      TakeOpFits(s, l, op, k);
    }
    forall k, q | CopyOf(t.flash, q, k)
      ensures q != op.to && CopyOf(s.flash, q, k) && RoleFits(s, q) && t.flash[q] == s.flash[q] && t.role[q] == s.role[q]
    {
      TakeKeepsCopies(s, l, op, q, k);
    }
    forall k, q | k in t.eba && CopyOf(t.flash, q, k) && IsPeb(t, q) && t.role[q] == Pending && q !in t.rivals
      ensures Loses(t, k, q)
    {
      TakeLoses(s, l, op, k, q);
    }
    assert DistinctSq(t.flash) by {
      forall p, q | 0 <= p < |t.flash| && 0 <= q < |t.flash| && p != q && t.flash[p].vid.Good? && t.flash[q].vid.Good?
        && t.flash[p].vid.value.leb == t.flash[q].vid.value.leb
        ensures Sq(t.flash[p]) != Sq(t.flash[q])
      {
        assert CopyOf(t.flash, p, t.flash[p].vid.value.leb) && CopyOf(t.flash, q, t.flash[p].vid.value.leb);
      }
    }
  }

  // ---- Beginning an operation, and beginning it again after a write error -------------------

  /** Copying only the data before the final 0xFF bytes loses nothing. */
  lemma MoveCopiesPayload(from: Peb, minIo: nat, sqnum: nat)
    requires from.vid.Good? && minIo > 0 && |from.data| % minIo == 0 && from.vid.value.dataSize <= |from.data|
    ensures var n := MoveLen(from, minIo);
      var to := Peb(Good(0), Good(MoveVid(from, minIo, sqnum)), WriteAt(Blank(|from.data|), 0, from.data[..n]));
      Payload(to) == Payload(from)
  {
    var n := MoveLen(from, minIo);
    var d := WriteAt(Blank(|from.data|), 0, from.data[..n]);
    if from.vid.value.vol.isStatic {
      var k := from.vid.value.dataSize;
      assert k <= n && d[..k] == from.data[..k];
    } else {
      assert d == from.data;
    }
  }

  /** The operation a step begins. */
  function BeginOp(s: State, step: Step): Op
    requires Shapes(s) && Enabled(s, step) && (step.BeginFresh? || step.BeginSwap? || step.BeginMove?)
  {
    match step
    case BeginFresh(l, to, off, buf, dataSize) => Target(Fresh, to, FreshVid(s, l, buf, dataSize), off, buf, Allocated)
    case BeginSwap(l, to, buf) => Target(Swap, to, SwapVid(s, l, buf), 0, buf, Allocated)
    case BeginMove(l, to) => MoveOp(s, l, to)
  }

  function MoveOp(s: State, l: Leb, to: nat): Op
    requires MapFits(s, l) && RoleFits(s, s.eba[l]) && s.minIo > 0 && s.size % s.minIo == 0
  {
    var from := s.flash[s.eba[l]];
    Target(Move, to, MoveVid(from, s.minIo, s.sqnum), 0, from.data[..MoveLen(from, s.minIo)], Allocated)
  }

  lemma MoveFits(s: State, l: Leb, to: nat)
    requires MapFits(s, l) && RoleFits(s, s.eba[l]) && s.minIo > 0 && s.size % s.minIo == 0 && IsFree(s, to)
    ensures var op := MoveOp(s, l, to);
      op.vid.leb == l && VidFits(s.(sqnum := s.sqnum + 1), op.vid) && op.off + |op.buf| <= s.size && KindFits(s, l, op)
  {
    var from := s.flash[s.eba[l]];
    MoveCopiesPayload(from, s.minIo, s.sqnum);
    var n, v := MoveLen(from, s.minIo), MoveVid(from, s.minIo, s.sqnum);
    assert n > 0 ==> v.crc == from.data[..n][..v.dataSize];
  }

  lemma BeginKeepsInv(s: State, step: Step)
    requires Inv(s) && Enabled(s, step) && (step.BeginFresh? || step.BeginSwap? || step.BeginMove?)
    ensures Inv(Apply(s, step)) && Apply(s, step) == TakeOp(s, step.leb, BeginOp(s, step))
  {
    hide InvExcept;
    IdleLeb(s, step.leb);
    if step.BeginMove? {
      MoveFits(s, step.leb, step.to);
    }
    TakeKeepsInv(s, step.leb, BeginOp(s, step));
  }

  /** Only the target of l changes owner and contents; its header can only be the one that was
      being written. */
  lemma GivenBackCopies(s: State, l: Leb, left: Peb, q: int, k: Leb)
    requires Inv(s) && OpFits(s, l) && s.ops[l].Target? && CutPeb(s, s.ops[l].to, left)
    requires CopyOf(GivenBack(s, l, left).flash, q, k)
    ensures q != s.ops[l].to ==> CopyOf(s.flash, q, k) && RoleFits(s, q)
    ensures q == s.ops[l].to ==> k == l && left.vid.Good? && left.vid.value == s.ops[l].vid && !left.ec.AllFF?
  {
    assert q != s.ops[l].to ==> RoleFits(s, q);
  }

  lemma GivenBackRoleFits(s: State, l: Leb, left: Peb, p: int)
    requires Inv(s) && OpFits(s, l) && s.ops[l].Target? && CutPeb(s, s.ops[l].to, left) && 0 <= p < |s.flash|
    ensures RoleFits(GivenBack(s, l, left), p) && GivenBack(s, l, left).role[p] != Reserved(l)
  {
    assert RoleFits(s, p);
    hide DistinctSq, TargetsNewest, MappedWins, Appends, KindFits, StageFits;
  }

  lemma GivenBackShapes(s: State, l: Leb, left: Peb)
    requires Inv(s) && OpFits(s, l) && s.ops[l].Target? && CutPeb(s, s.ops[l].to, left)
    ensures Shapes(GivenBack(s, l, left)) && DistinctSq(GivenBack(s, l, left).flash)
    ensures forall p | 0 <= p < |s.role| :: GivenBack(s, l, left).role[p] != Reserved(l)
  {
    var t := GivenBack(s, l, left);
    forall p | 0 <= p < |t.flash|
      ensures RoleFits(t, p) && t.role[p] != Reserved(l)
    {
      GivenBackRoleFits(s, l, left, p);
    }
    forall k | k in t.eba
      ensures MapFits(t, k)
    {
      assert MapFits(s, k);
    }
    GivenBackDistinct(s, l, left);
    hide DistinctSq, RoleFits, MapFits, TargetsNewest, MappedWins, CutPeb;
  }

  lemma GivenBackDistinct(s: State, l: Leb, left: Peb)
    requires Inv(s) && OpFits(s, l) && s.ops[l].Target? && CutPeb(s, s.ops[l].to, left)
    ensures DistinctSq(GivenBack(s, l, left).flash)
  {
    var t := GivenBack(s, l, left);
    forall p, q | 0 <= p < |t.flash| && 0 <= q < |t.flash| && p != q && t.flash[p].vid.Good? && t.flash[q].vid.Good?
      && t.flash[p].vid.value.leb == t.flash[q].vid.value.leb
      ensures Sq(t.flash[p]) != Sq(t.flash[q])
    {
      var k := t.flash[p].vid.value.leb;
      GivenBackCopies(s, l, left, p, k);
      GivenBackCopies(s, l, left, q, k);
    }
  }

  /** A failed attempt of an atomic change is either worthless or holds the new contents. */
  lemma LeftoverLoses(s: State, l: Leb, left: Peb)
    requires Inv(s) && OpFits(s, l) && s.ops[l].Target? && s.ops[l].kind == Swap && l in s.eba
    requires CutPeb(s, s.ops[l].to, left) && left.vid.Good?
    ensures Loses(GivenBack(s, l, left), l, s.ops[l].to)
  {
    var op, m := s.ops[l], s.eba[l];
    assert MapFits(s, l) && CopyOf(s.flash, m, l);
    if Trusted(left) {
      TrustedIsComplete(s, l, left);
    }
  }

  lemma LosesStill(s: State, t: State, l: Leb, q: int)
    requires Loses(s, l, q) && MapFits(t, l) && t.eba[l] == s.eba[l] && t.size == s.size
    requires t.flash[t.eba[l]] == s.flash[s.eba[l]] && q < |t.flash| && t.flash[q] == s.flash[q]
    requires l in s.ops ==> l in t.ops && (t.ops[l] == s.ops[l] || SameAttempt(s.ops[l], t.ops[l]))
    ensures Loses(t, l, q)
  {
  }

  lemma GivenBackLoses(s: State, l: Leb, left: Peb, k: Leb, q: int)
    requires Inv(s) && OpFits(s, l) && s.ops[l].Target? && s.ops[l].kind != Move && CutPeb(s, s.ops[l].to, left)
    requires var t := GivenBack(s, l, left);
      k in t.eba && CopyOf(t.flash, q, k) && IsPeb(t, q) && t.role[q] == Pending && q !in t.rivals
    ensures Loses(GivenBack(s, l, left), k, q)
  {
    GivenBackCopies(s, l, left, q, k);
    if q == s.ops[l].to {
      LeftoverLoses(s, l, left);
    } else {
      assert MapFits(s, k);
      LosesStill(s, GivenBack(s, l, left), k, q);
    }
  }

  lemma GivenBackSpares(s: State, l: Leb, left: Peb, k: Leb)
    requires Inv(s) && OpFits(s, l) && s.ops[l].Target? && k in s.ops && k != l
    ensures OpFits(GivenBack(s, l, left), k)
  {
    assert OpFits(s, k) && (k in s.eba ==> MapFits(s, k));
  }

  lemma GivenBackInv(s: State, l: Leb, left: Peb)
    requires Inv(s) && OpFits(s, l) && s.ops[l].Target? && s.ops[l].kind != Move && CutPeb(s, s.ops[l].to, left)
    ensures InvExcept(GivenBack(s, l, left), l)
  {
    hide KindFits, StageFits, Appends, VidFits, CutPeb, Loses;
    var t := GivenBack(s, l, left);
    GivenBackShapes(s, l, left);
    forall k | k in t.ops && k != l
      ensures OpFits(t, k)
    {
      GivenBackSpares(s, l, left, k);
    }
    forall k, q | k in t.ops && k != l && t.ops[k].Target? && CopyOf(t.flash, q, k) && q != t.ops[k].to
      ensures Sq(t.flash[q]) < t.ops[k].vid.sqnum
    {
      GivenBackCopies(s, l, left, q, k);
    }
    forall k, q | k in t.eba && CopyOf(t.flash, q, k) && IsPeb(t, q) && t.role[q] == Pending && q !in t.rivals
      ensures Loses(t, k, q)
    {
      GivenBackLoses(s, l, left, k, q);
    }
  }

  lemma RetryKeepsInv(s: State, l: Leb, left: Peb, to: nat)
    requires Inv(s) && Enabled(s, WriteError(l, left, to))
    ensures Inv(Apply(s, WriteError(l, left, to)))
  {
    hide InvExcept, StageFits, CutPeb;
    var t, op := GivenBack(s, l, left), s.ops[l];
    GivenBackInv(s, l, left);
    assert l in s.eba ==> MapFits(s, l);
    TakeKeepsInv(t, l, op.(to := to, vid := op.vid.(sqnum := s.sqnum), stage := Allocated));
  }

  // ---- What a step on one LEB leaves alone --------------------------------------------------

  /** The mapping and the operation of LEB k, and the PEBs they use, are the same in s and t. */
  ghost predicate Untouched(s: State, t: State, k: Leb) {
    && t.size == s.size && t.minIo == s.minIo && t.vols == s.vols && s.sqnum <= t.sqnum
    && |s.flash| == |s.role| == |t.flash| == |t.role|
    && (k in t.eba <==> k in s.eba)
    && (k in s.eba ==> t.eba[k] == s.eba[k] && SamePeb(s, t, s.eba[k]))
    && (k in t.ops <==> k in s.ops)
    && (k in s.ops ==> t.ops[k] == s.ops[k] && (s.ops[k].Target? ==> SamePeb(s, t, s.ops[k].to)))
  }

  predicate SamePeb(s: State, t: State, p: nat) {
    p < |s.flash| && IsPeb(s, p) && IsPeb(t, p) && t.flash[p] == s.flash[p] && t.role[p] == s.role[p]
  }

  lemma OwnPebs(s: State, k: Leb)
    requires Inv(s)
    ensures k in s.eba ==> MapFits(s, k)
    ensures k in s.ops ==> OpFits(s, k)
    ensures k in s.ops && s.ops[k].Target? ==> IsPeb(s, s.ops[k].to) && s.role[s.ops[k].to] == Reserved(k)
  {
  }

  lemma WorksOnMapped(s: State, l: Leb)
    requires OpFits(s, l) && (s.ops[l].InPlace? || s.ops[l].kind == Move)
    ensures MapFits(s, l)
  {
  }

  lemma UntouchedFits(s: State, t: State, k: Leb)
    requires Inv(s) && Untouched(s, t, k)
    ensures k in t.eba ==> MapFits(t, k)
    ensures k in t.ops ==> OpFits(t, k)
  {
    OwnPebs(s, k);
  }

  lemma UntouchedLoses(s: State, t: State, k: Leb, q: int)
    requires Inv(s) && Untouched(s, t, k) && Loses(s, k, q) && t.flash[q] == s.flash[q]
    ensures Loses(t, k, q)
  {
    OwnPebs(s, k);
    LosesStill(s, t, k, q);
  }

  // ---- Writing the target -------------------------------------------------------------------

  /** t differs from s in the target of l only, which now carries the header of its operation. */
  ghost predicate TargetAdvances(s: State, t: State, l: Leb) {
    && Inv(s) && l in s.ops && s.ops[l].Target? && l in t.ops && t.ops[l].Target?
    && SameAttempt(s.ops[l], t.ops[l]) && t.ops[l].vid == s.ops[l].vid && t.ops[l].to == s.ops[l].to
    && t == s.(flash := t.flash, ops := s.ops[l := t.ops[l]])
    && |t.flash| == |s.flash|
    && (forall p | 0 <= p < |s.flash| && p != s.ops[l].to :: t.flash[p] == s.flash[p])
    && 0 <= s.ops[l].to < |t.flash|
    && |t.flash[s.ops[l].to].data| == s.size && t.flash[s.ops[l].to].vid == Good(s.ops[l].vid)
    && !t.flash[s.ops[l].to].ec.AllFF?
    && OpFits(t, l)
  }

  lemma AdvancedCopies(s: State, t: State, l: Leb, q: int, k: Leb)
    requires TargetAdvances(s, t, l) && CopyOf(t.flash, q, k)
    ensures q != s.ops[l].to ==> CopyOf(s.flash, q, k) && t.flash[q] == s.flash[q]
    ensures q == s.ops[l].to ==> k == l && s.role[q] == Reserved(l)
  {
    assert OpFits(s, l);
  }

  lemma AdvanceFits(s: State, t: State, l: Leb, k: Leb)
    requires TargetAdvances(s, t, l)
    ensures k in t.eba ==> MapFits(t, k)
    ensures k in t.ops ==> OpFits(t, k)
  {
    OwnPebs(s, k);
    OwnPebs(s, l);
    if k != l {
      UntouchedFits(s, t, k);
    }
  }

  lemma AdvanceShapes(s: State, t: State, l: Leb)
    requires TargetAdvances(s, t, l)
    ensures Shapes(t) && DistinctSq(t.flash)
  {
    forall k | k in t.eba
      ensures MapFits(t, k)
    {
      AdvanceFits(s, t, l, k);
    }
    forall p | 0 <= p < |t.flash|
      ensures RoleFits(t, p)
    {
      assert RoleFits(s, p) && OpFits(t, l);
      OwnPebs(s, l);
    }
    forall p, q | 0 <= p < |t.flash| && 0 <= q < |t.flash| && p != q && t.flash[p].vid.Good? && t.flash[q].vid.Good?
      && t.flash[p].vid.value.leb == t.flash[q].vid.value.leb
      ensures Sq(t.flash[p]) != Sq(t.flash[q])
    {
      AdvancedCopies(s, t, l, p, t.flash[p].vid.value.leb);
      AdvancedCopies(s, t, l, q, t.flash[p].vid.value.leb);
    }
  }

  lemma AdvanceKeepsInv(s: State, t: State, l: Leb)
    requires TargetAdvances(s, t, l)
    ensures Inv(t)
  {
    AdvanceShapes(s, t, l);
    forall k | k in t.ops
      ensures OpFits(t, k)
    {
      AdvanceFits(s, t, l, k);
    }
    forall k, q | k in t.ops && t.ops[k].Target? && CopyOf(t.flash, q, k) && q != t.ops[k].to
      ensures Sq(t.flash[q]) < t.ops[k].vid.sqnum
    {
      AdvancedCopies(s, t, l, q, k);
    }
    forall k, q | k in t.eba && CopyOf(t.flash, q, k) && IsPeb(t, q) && t.role[q] == Pending && q !in t.rivals
      ensures Loses(t, k, q)
    {
      AdvancedCopies(s, t, l, q, k);
      AdvanceLoses(s, t, l, k, q);
    }
  }

  lemma AdvanceLoses(s: State, t: State, l: Leb, k: Leb, q: int)
    requires TargetAdvances(s, t, l) && k in s.eba && Loses(s, k, q) && q != s.ops[l].to
    ensures Loses(t, k, q)
  {
    OwnPebs(s, k);
    OwnPebs(s, l);
    LosesStill(s, t, k, q);
  }

  lemma HeaderKeepsInv(s: State, l: Leb)
    requires Inv(s) && Enabled(s, WriteHeader(l))
    ensures Inv(Apply(s, WriteHeader(l)))
  {
    OwnPebs(s, l);
    assert RoleFits(s, s.ops[l].to);
    AdvanceKeepsInv(s, PutHeader(s, l), l);
  }

  lemma DataKeepsInv(s: State, l: Leb)
    requires Inv(s) && Enabled(s, WriteData(l))
    ensures Inv(Apply(s, WriteData(l)))
  {
    DataAdvances(s, l);
    hide Inv, PutData, TargetAdvances;
    AdvanceKeepsInv(s, PutData(s, l), l);
  }

  lemma DataAdvances(s: State, l: Leb)
    requires Inv(s) && Enabled(s, WriteData(l))
    ensures Apply(s, WriteData(l)) == PutData(s, l) && TargetAdvances(s, PutData(s, l), l)
  {
    hide Inv, OpFits, KindFits, StageFits, Appends, WriteAt, Blank, SameAttempt;
    DataOpFits(s, l);
    HeaderIsThere(s, l);
    AttemptGoesOn(s.ops[l]);
  }

  lemma AttemptGoesOn(op: Op)
    requires op.Target?
    ensures SameAttempt(op, op.(stage := DataWritten))
  {
  }

  lemma HeaderIsThere(s: State, l: Leb)
    requires Inv(s) && Enabled(s, WriteData(l))
    ensures l in s.ops && s.ops[l].Target?
    ensures var op := s.ops[l]; 0 <= op.to < |s.flash| && |s.flash[op.to].data| == s.size && s.flash[op.to].vid == Good(op.vid)
    ensures !s.flash[s.ops[l].to].ec.AllFF? && s.ops[l].off + |s.ops[l].buf| <= s.size
  {
    hide KindFits, Appends, DistinctSq, TargetsNewest, MappedWins;
    OwnPebs(s, l);
    assert RoleFits(s, s.ops[l].to);
  }

  lemma DataOpFits(s: State, l: Leb)
    requires Inv(s) && Enabled(s, WriteData(l))
    ensures OpFits(PutData(s, l), l)
  {
    hide Inv, Appends, Blank;
    OwnPebs(s, l);
  }

  // ---- Ending an operation ------------------------------------------------------------------

  lemma CommitFits(s: State, l: Leb, k: Leb)
    requires Inv(s) && Enabled(s, Commit(l))
    ensures k in Remap(s, l).eba ==> MapFits(Remap(s, l), k)
    ensures k in Remap(s, l).ops ==> OpFits(Remap(s, l), k)
    ensures k != l ==> Untouched(s, Remap(s, l), k)
  {
    hide Inv, KindFits, StageFits, Appends, VidFits;
    if k == l {
      CommittedFits(s, l);
    } else {
      OwnPebs(s, l);
      CommitSpares(s, l, k);
      UntouchedFits(s, Remap(s, l), k);
    }
  }

  lemma CommittedFits(s: State, l: Leb)
    requires Inv(s) && Enabled(s, Commit(l))
    ensures l in Remap(s, l).eba && MapFits(Remap(s, l), l) && l !in Remap(s, l).ops
  {
    hide Inv, KindFits, Appends, VidFits;
    OwnPebs(s, l);
  }

  lemma CommitSpares(s: State, l: Leb, k: Leb)
    requires Inv(s) && Enabled(s, Commit(l)) && k != l
    ensures Untouched(s, Remap(s, l), k)
  {
    hide Inv, KindFits, StageFits, Appends, VidFits;
    OwnPebs(s, k);
    OwnPebs(s, l);
  }

  lemma CommitShapes(s: State, l: Leb)
    requires Inv(s) && Enabled(s, Commit(l))
    ensures Shapes(Remap(s, l))
  {
    var t, to := Remap(s, l), s.ops[l].to;
    OwnPebs(s, l);
    forall k | k in t.eba
      ensures MapFits(t, k)
    {
      CommitFits(s, l, k);
    }
    forall p | 0 <= p < |t.flash|
      ensures RoleFits(t, p)
    {
      assert RoleFits(s, p);
    }
    forall p | p in t.rivals
      ensures IsPeb(t, p) && t.role[p] == Pending
    {
      if p in OtherRivals(s, l) {
        assert IsPeb(s, p) && s.role[p] == Pending && p != to;
      }
    }
  }

  lemma CommitKeepsLosing(s: State, l: Leb, k: Leb, q: int)
    requires Inv(s) && Enabled(s, Commit(l))
    requires var t := Remap(s, l);
      k in t.eba && CopyOf(t.flash, q, k) && IsPeb(t, q) && t.role[q] == Pending && q !in t.rivals
    ensures Loses(Remap(s, l), k, q)
  {
    var t := Remap(s, l);
    OwnPebs(s, l);
    CommitFits(s, l, k);
    if k == l {
      assert q !in Winners(t.flash, t.role, l, s.ops[l].to);
    } else {
      hide OpFits, Appends, KindFits, StageFits, RoleFits, DistinctSq, TargetsNewest;
      assert q !in OtherRivals(s, l);
      assert l in s.eba ==> q != s.eba[l];
      UntouchedLoses(s, t, k, q);
    }
  }

  lemma CommitKeepsInv(s: State, l: Leb)
    requires Inv(s) && Enabled(s, Commit(l))
    ensures Inv(Apply(s, Commit(l)))
  {
    var t := Remap(s, l);
    CommitShapes(s, l);
    OwnPebs(s, l);
    hide Loses, KindFits, StageFits, RoleFits;
    forall k | k in t.ops
      ensures OpFits(t, k)
    {
      CommitFits(s, l, k);
    }
    forall k, q | k in t.eba && CopyOf(t.flash, q, k) && IsPeb(t, q) && t.role[q] == Pending && q !in t.rivals
      ensures Loses(t, k, q)
    {
      CommitKeepsLosing(s, l, k, q);
    }
  }

  lemma AbandonFits(s: State, l: Leb, left: Peb, k: Leb)
    requires Inv(s) && Enabled(s, Abandon(l, left))
    ensures k in GiveUp(s, l, left).eba ==> MapFits(GiveUp(s, l, left), k)
    ensures k in GiveUp(s, l, left).ops ==> OpFits(GiveUp(s, l, left), k)
    ensures k != l ==> Untouched(s, GiveUp(s, l, left), k)
  {
    hide Inv, KindFits, StageFits, Appends, VidFits, CutPeb;
    OwnPebs(s, l);
    if k != l {
      AbandonSpares(s, l, left, k);
      UntouchedFits(s, GiveUp(s, l, left), k);
    }
  }

  lemma AbandonSpares(s: State, l: Leb, left: Peb, k: Leb)
    requires Inv(s) && Enabled(s, Abandon(l, left)) && k != l
    ensures Untouched(s, GiveUp(s, l, left), k)
  {
    hide Inv, KindFits, StageFits, Appends, VidFits, CutPeb;
    InvSizes(s);
    OwnPebs(s, k);
    OwnPebs(s, l);
  }

  lemma InvSizes(s: State)
    requires Inv(s)
    ensures |s.role| == |s.flash|
  {
  }

  lemma AbandonKeepsInv(s: State, l: Leb, left: Peb)
    requires Inv(s) && Enabled(s, Abandon(l, left))
    ensures Inv(Apply(s, Abandon(l, left)))
  {
    var t, g := GiveUp(s, l, left), GivenBack(s, l, left);
    GivenBackShapes(s, l, left);
    OwnPebs(s, l);
    forall k | k in t.eba
      ensures MapFits(t, k)
    {
      AbandonFits(s, l, left, k);
    }
    forall p | 0 <= p < |t.flash|
      ensures RoleFits(t, p)
    {
      assert RoleFits(g, p);
    }
    forall k | k in t.ops
      ensures OpFits(t, k)
    {
      AbandonFits(s, l, left, k);
    }
    forall k, q | k in t.ops && t.ops[k].Target? && CopyOf(t.flash, q, k) && q != t.ops[k].to
      ensures Sq(t.flash[q]) < t.ops[k].vid.sqnum
    {
      GivenBackCopies(s, l, left, q, k);
    }
    forall k, q | k in t.eba && CopyOf(t.flash, q, k) && IsPeb(t, q) && t.role[q] == Pending && q !in t.rivals
      ensures Loses(t, k, q)
    {
      GivenBackCopies(s, l, left, q, k);
      AbandonLoses(s, l, left, k, q);
    }
  }

  lemma AbandonLoses(s: State, l: Leb, left: Peb, k: Leb, q: int)
    requires Inv(s) && Enabled(s, Abandon(l, left)) && k in s.eba && 0 <= q < |s.flash|
    requires if k == l then CopyOf(GiveUp(s, l, left).flash, q, l) && GiveUp(s, l, left).role[q] == Pending
      else q != s.ops[l].to && Loses(s, k, q)
    requires q !in GiveUp(s, l, left).rivals
    ensures Loses(GiveUp(s, l, left), k, q)
  {
    hide KindFits, StageFits, CutPeb, HoldsNew;
    OwnPebs(s, k);
    OwnPebs(s, l);
    AbandonFits(s, l, left, k);
    if k != l {
      LosesStill(s, GiveUp(s, l, left), k, q);
    }
  }

  lemma AppendKeepsTrust(b: Peb, c: Peb, off: nat, n: nat)
    requires Appends(b, off, n) && TornWrite(b, c, off, n)
    ensures Trusted(c) == Trusted(b)
  {
    if b.vid.value.copyFlag {
      var k := b.vid.value.dataSize;
      assert c.data[..k] == b.data[..k];
    }
  }

  lemma AppendFits(s: State, l: Leb, after: Peb, k: Leb)
    requires Inv(s) && Enabled(s, EndInPlace(l, after))
    ensures k in s.eba ==> MapFits(Append(s, l, after), k)
    ensures k in Append(s, l, after).ops ==> OpFits(Append(s, l, after), k)
    ensures k != l ==> Untouched(s, Append(s, l, after), k)
  {
    OwnPebs(s, k);
    OwnPebs(s, l);
    if k != l {
      UntouchedFits(s, Append(s, l, after), k);
    }
  }

  lemma AppendLoses(s: State, l: Leb, after: Peb, k: Leb, q: int)
    requires Inv(s) && Enabled(s, EndInPlace(l, after)) && k in s.eba && Loses(s, k, q) && q != s.eba[l]
    ensures Loses(Append(s, l, after), k, q)
  {
    AppendFits(s, l, after, k);
    OwnPebs(s, k);
    if k != l {
      LosesStill(s, Append(s, l, after), k, q);
    } else {
      AppendKeepsTrust(s.flash[s.eba[l]], after, s.ops[l].off, |s.ops[l].buf|);
    }
  }

  /** PEB p still looks the way its owner left it. */
  lemma AppendRoleFits(s: State, l: Leb, after: Peb, p: int)
    requires Inv(s) && Enabled(s, EndInPlace(l, after)) && 0 <= p < |s.flash|
    ensures RoleFits(Append(s, l, after), p)
  {
    hide KindFits, StageFits;
    assert RoleFits(s, p);
    if s.role[p].Mapped? {
      AppendFits(s, l, after, s.role[p].leb);
    }
  }

  lemma AppendShapes(s: State, l: Leb, after: Peb)
    requires Inv(s) && Enabled(s, EndInPlace(l, after))
    ensures Shapes(Append(s, l, after)) && DistinctSq(Append(s, l, after).flash)
    ensures forall k, q | CopyOf(Append(s, l, after).flash, q, k) ::
      CopyOf(s.flash, q, k) && Sq(Append(s, l, after).flash[q]) == Sq(s.flash[q])
  {
    WorksOnMapped(s, l);
    hide OpFits, Appends, DistinctSq, RoleFits;
    var t := Append(s, l, after);
    forall k | k in t.eba
      ensures MapFits(t, k)
    {
      AppendFits(s, l, after, k);
    }
    forall p | 0 <= p < |t.flash|
      ensures RoleFits(t, p)
    {
      AppendRoleFits(s, l, after, p);
    }
    SameHeaders(s.flash, t.flash);
  }

  lemma SameHeaders(f: Image, g: Image)
    requires |f| == |g| && (forall p | 0 <= p < |f| :: g[p].vid == f[p].vid) && DistinctSq(f)
    ensures DistinctSq(g) && forall k, q | CopyOf(g, q, k) :: CopyOf(f, q, k) && Sq(g[q]) == Sq(f[q])
  {
  }

  lemma AppendKeepsLosing(s: State, l: Leb, after: Peb, k: Leb, q: int)
    requires Inv(s) && Enabled(s, EndInPlace(l, after)) && k in s.eba
    requires var t := Append(s, l, after);
      CopyOf(t.flash, q, k) && IsPeb(t, q) && t.role[q] == Pending && q !in t.rivals
    ensures Loses(Append(s, l, after), k, q)
  {
    OwnPebs(s, l);
    hide OpFits, Appends, KindFits, StageFits, RoleFits, DistinctSq, Shapes, TargetsNewest;
    assert q != s.eba[l] && CopyOf(s.flash, q, k) && Loses(s, k, q);
    AppendLoses(s, l, after, k, q);
  }

  lemma AppendKeepsInv(s: State, l: Leb, after: Peb)
    requires Inv(s) && Enabled(s, EndInPlace(l, after))
    ensures Inv(Apply(s, EndInPlace(l, after)))
  {
    hide OpFits, Appends, Loses, KindFits, StageFits, RoleFits, MapFits, CutPeb, DistinctSq;
    WorksOnMapped(s, l);
    AppendShapes(s, l, after);
    var t := Append(s, l, after);
    forall k | k in t.ops
      ensures OpFits(t, k)
    {
      AppendFits(s, l, after, k);
    }
    forall k, q | k in t.eba && CopyOf(t.flash, q, k) && IsPeb(t, q) && t.role[q] == Pending && q !in t.rivals
      ensures Loses(t, k, q)
    {
      AppendKeepsLosing(s, l, after, k, q);
    }
  }

  lemma UnmapRoleFits(s: State, l: Leb, p: int)
    requires Inv(s) && Enabled(s, Unmap(l)) && 0 <= p < |s.flash|
    ensures RoleFits(Drop(s, l), p)
  {
    assert RoleFits(s, p);
    hide Inv;
  }

  lemma UnmapSpares(s: State, l: Leb, k: Leb)
    requires Inv(s) && Enabled(s, Unmap(l)) && k != l
    ensures Untouched(s, Drop(s, l), k)
    ensures k in Drop(s, l).eba ==> MapFits(Drop(s, l), k)
    ensures k in Drop(s, l).ops ==> OpFits(Drop(s, l), k)
  {
    hide Inv, KindFits, StageFits, Appends, VidFits;
    InvSizes(s);
    OwnPebs(s, k);
    UntouchedFits(s, Drop(s, l), k);
  }

  lemma UnmapShapes(s: State, l: Leb)
    requires Inv(s) && Enabled(s, Unmap(l))
    ensures Shapes(Drop(s, l))
  {
    hide OpFits, RoleFits, DistinctSq, TargetsNewest, MappedWins;
    var t := Drop(s, l);
    forall k | k in t.eba
      ensures MapFits(t, k)
    {
      UnmapSpares(s, l, k);
    }
    forall p | 0 <= p < |t.flash|
      ensures RoleFits(t, p)
    {
      UnmapRoleFits(s, l, p);
    }
  }

  lemma UnmapKeepsInv(s: State, l: Leb)
    requires Inv(s) && Enabled(s, Unmap(l))
    ensures Inv(Apply(s, Unmap(l)))
  {
    hide Shapes, OpFits, RoleFits, Loses, DistinctSq;
    var t := Drop(s, l);
    UnmapShapes(s, l);
    forall k | k in t.ops
      ensures OpFits(t, k)
    {
      UnmapSpares(s, l, k);
    }
    forall k, q | k in t.eba && CopyOf(t.flash, q, k) && IsPeb(t, q) && t.role[q] == Pending && q !in t.rivals
      ensures Loses(t, k, q)
    {
      assert CopyOf(s.flash, q, k) && q != s.eba[l];
      UnmapSpares(s, l, k);
      UntouchedLoses(s, t, k, q);
    }
  }

  lemma EraseRoleFits(s: State, p: nat, q: int)
    requires Inv(s) && Enabled(s, Erase(p)) && 0 <= q < |s.flash|
    ensures RoleFits(EraseOne(s, p), q)
  {
    assert RoleFits(s, q);
    hide OpFits, Appends, KindFits, StageFits, DistinctSq, TargetsNewest, MappedWins;
    if s.role[q].Mapped? {
      OwnPebs(s, s.role[q].leb);
      UntouchedFits(s, EraseOne(s, p), s.role[q].leb);
    }
  }

  lemma EraseKeepsLosing(s: State, p: nat, k: Leb, q: int)
    requires Inv(s) && Enabled(s, Erase(p))
    requires var t := EraseOne(s, p);
      k in t.eba && CopyOf(t.flash, q, k) && IsPeb(t, q) && t.role[q] == Pending && q !in t.rivals
    ensures Loses(EraseOne(s, p), k, q)
  {
    hide KindFits, StageFits, Appends, RoleFits, DistinctSq, TargetsNewest;
    OwnPebs(s, k);
    UntouchedFits(s, EraseOne(s, p), k);
    UntouchedLoses(s, EraseOne(s, p), k, q);
  }

  lemma EraseKeepsInv(s: State, p: nat)
    requires Inv(s) && Enabled(s, Erase(p))
    ensures Inv(Apply(s, Erase(p)))
  {
    hide KindFits, StageFits, Appends, RoleFits, Loses, VidFits;
    var t := EraseOne(s, p);
    forall k: Leb
      ensures k in t.eba ==> MapFits(t, k)
      ensures k in t.ops ==> OpFits(t, k)
      ensures Untouched(s, t, k)
    {
      OwnPebs(s, k);
      UntouchedFits(s, t, k);
    }
    forall q | 0 <= q < |t.flash|
      ensures RoleFits(t, q)
    {
      EraseRoleFits(s, p, q);
    }
    forall k, q | CopyOf(t.flash, q, k)
      ensures CopyOf(s.flash, q, k) && t.flash[q] == s.flash[q]
    {
    }
    forall k, q | k in t.eba && CopyOf(t.flash, q, k) && IsPeb(t, q) && t.role[q] == Pending && q !in t.rivals
      ensures Loses(t, k, q)
    {
      EraseKeepsLosing(s, p, k, q);
    }
  }

  lemma StartAppendFits(s: State, l: Leb, off: nat, buf: seq<Byte>, k: Leb)
    requires Inv(s) && Enabled(s, BeginInPlace(l, off, buf))
    ensures var t := s.(ops := s.ops[l := InPlace(off, buf)]);
      (k in t.eba ==> MapFits(t, k)) && (k in t.ops ==> OpFits(t, k))
  {
    OwnPebs(s, k);
    if k != l {
      UntouchedFits(s, s.(ops := s.ops[l := InPlace(off, buf)]), k);
    }
  }

  lemma StartAppendKeepsInv(s: State, l: Leb, off: nat, buf: seq<Byte>)
    requires Inv(s) && Enabled(s, BeginInPlace(l, off, buf))
    ensures Inv(Apply(s, BeginInPlace(l, off, buf)))
  {
    hide OpFits, Appends;
    var t := s.(ops := s.ops[l := InPlace(off, buf)]);
    forall k: Leb
      ensures k in t.eba ==> MapFits(t, k)
      ensures k in t.ops ==> OpFits(t, k)
    {
      StartAppendFits(s, l, off, buf, k);
    }
    forall p | 0 <= p < |t.flash|
      ensures RoleFits(t, p)
    {
      assert RoleFits(s, p);
    }
    forall k, q | k in t.eba && CopyOf(t.flash, q, k) && IsPeb(t, q) && t.role[q] == Pending && q !in t.rivals
      ensures Loses(t, k, q)
    {
      assert MapFits(s, k) && Loses(s, k, q);
      LosesStill(s, t, k, q);
    }
  }

  lemma WasteKeepsInv(s: State)
    requires Inv(s)
    ensures Inv(Wasted(s))
  {
    var t := Wasted(s);
    forall k: Leb
      ensures k in t.eba ==> MapFits(t, k)
      ensures k in t.ops ==> OpFits(t, k)
    {
      OwnPebs(s, k);
      UntouchedFits(s, t, k);
    }
    forall p | 0 <= p < |t.flash|
      ensures RoleFits(t, p)
    {
      assert RoleFits(s, p);
    }
    forall k, q | k in t.eba && CopyOf(t.flash, q, k) && IsPeb(t, q) && t.role[q] == Pending && q !in t.rivals
      ensures Loses(t, k, q)
    {
      assert MapFits(s, k) && Loses(s, k, q);
      LosesStill(s, t, k, q);
    }
  }

  // ---- Attaching after a power cut ----------------------------------------------------------

  predicate HeaderFits(size: nat, vols: map<nat, VolHdr>, v: Vid) {
    v.dataSize <= size && v.leb.vol in vols && v.vol == vols[v.leb.vol]
  }

  /** A flash the scan accepts: no two copies of a LEB with one sequence number, and headers that
      agree with the volumes. */
  ghost predicate Scannable(size: nat, minIo: nat, vols: map<nat, VolHdr>, f: Image) {
    && minIo > 0 && size % minIo == 0 && DistinctSq(f)
    && forall p | 0 <= p < |f| ::
         && |f[p].data| == size
         && (f[p].vid.Good? ==> !f[p].ec.AllFF? && HeaderFits(size, vols, f[p].vid.value))
  }

  lemma AttachRoleFits(s: State, f: Image, p: int)
    requires Scannable(s.size, s.minIo, s.vols, f) && 0 <= p < |f|
    ensures RoleFits(Attach(s, f), p)
  {
    var t := Attach(s, f);
    if f[p].vid.Good? {
      var l := f[p].vid.value.leb;
      assert l in LebsOn(f);
      assert t.role[p].Mapped? ==> MapFits(t, l);
    }
  }

  lemma AttachMapFits(s: State, f: Image, l: Leb)
    requires Scannable(s.size, s.minIo, s.vols, f) && l in Attach(s, f).eba
    ensures MapFits(Attach(s, f), l)
  {
  }

  /** Attaching to any such flash gives a state the invariant holds in. */
  lemma AttachGivesInv(s: State, f: Image)
    requires Scannable(s.size, s.minIo, s.vols, f)
    ensures Inv(Attach(s, f))
  {
    var t := Attach(s, f);
    forall p | 0 <= p < |f|
      ensures RoleFits(t, p)
    {
      AttachRoleFits(s, f, p);
    }
    forall l | l in t.eba
      ensures MapFits(t, l)
    {
      AttachMapFits(s, f, l);
    }
    forall l, q | l in t.eba && CopyOf(f, q, l) && IsPeb(t, q) && t.role[q] == Pending
      ensures Loses(t, l, q)
    {
      RecoveredBeatsTheOthers(f, l);
      AttachMapFits(s, f, l);
    }
  }

  lemma AttachKeepsInv(s: State, f: Image)
    requires Inv(s) && Enabled(s, PowerCut(f))
    ensures Inv(Apply(s, PowerCut(f)))
  {
    CutKeepsDistinct(s, f);
    forall p | 0 <= p < |f|
      ensures |f[p].data| == s.size && (f[p].vid.Good? ==> !f[p].ec.AllFF? && VidFits(s, f[p].vid.value))
    {
      assert CutPeb(s, p, f[p]);
      if f[p].vid.Good? {
        CutKeepsHeaders(s, f, p);
      }
    }
    AttachGivesInv(s, f);
  }

  /** Every step, power cuts included, keeps the invariant. */
  lemma StepKeepsInv(s: State, step: Step)
    requires Inv(s) && Enabled(s, step)
    ensures Inv(Apply(s, step))
  {
    match step
    case BeginFresh(_, _, _, _, _) => BeginKeepsInv(s, step);
    case BeginSwap(_, _, _) => BeginKeepsInv(s, step);
    case BeginMove(_, _) => BeginKeepsInv(s, step);
    case BeginInPlace(l, off, buf) => StartAppendKeepsInv(s, l, off, buf);
    case WriteHeader(l) => HeaderKeepsInv(s, l);
    case WriteData(l) => DataKeepsInv(s, l);
    case Commit(l) => CommitKeepsInv(s, l);
    case WriteError(l, left, to) => RetryKeepsInv(s, l, left, to);
    case Abandon(l, left) => AbandonKeepsInv(s, l, left);
    case EndInPlace(l, after) => AppendKeepsInv(s, l, after);
    case Unmap(l) => UnmapKeepsInv(s, l);
    case Erase(p) => EraseKeepsInv(s, p);
    case WasteSqnum => WasteKeepsInv(s);
    case PowerCut(image) => AttachKeepsInv(s, image);
  }
}
