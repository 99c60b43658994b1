/** The eraseblock association layer as a state machine over single flash operations.  Any
    number of LEBs may be worked on at once, each by the operation that holds its lock; pending
    erasures run in any order; and the power may fail at any moment, in the middle of every
    operation then under way. */
module LebLayer {
  import opened Arith
  import opened Flash
  import opened Misc

  /** Fresh: writing an unmapped LEB.  Swap: atomic change.  Move: wear-leveling copy. */
  datatype Kind = Fresh | Swap | Move

  /** How far the new PEB of an operation has come. */
  datatype Stage = Allocated | HeaderWritten | DataWritten

  /** The operation that holds the lock of a LEB. */
  datatype Op =
    | InPlace(off: nat, buf: seq<Byte>)
    | Target(kind: Kind, to: nat, vid: Vid, off: nat, buf: seq<Byte>, stage: Stage)

  /** Who owns a PEB.  Dead ones are preserved as corrupted and never used again. */
  datatype Role = Free | Pending | Dead | Mapped(leb: Leb) | Reserved(leb: Leb)

  /** size: data bytes per PEB; vols: what the headers of each volume say; rivals: PEBs waiting
      for erasure that would win over the mapped one, left by a move cancelled too late. */
  datatype State = State(
    size: nat,
    minIo: nat,
    vols: map<nat, VolHdr>,
    flash: Image,
    role: seq<Role>,
    eba: map<Leb, nat>,
    ops: map<Leb, Op>,
    rivals: set<nat>,
    sqnum: nat)

  /** The PEB of a target operation once everything is written. */
  function Complete(op: Op, size: nat): (b: Peb)
    requires op.Target? && op.off + |op.buf| <= size
    ensures b.vid == Good(op.vid) && |b.data| == size
  {
    Peb(Good(0), Good(op.vid), WriteAt(Blank(size), op.off, op.buf))
  }

  // ---- What holds in every reachable state -------------------------------------------------

  predicate IsPeb(s: State, p: int) {
    0 <= p < |s.flash| && |s.role| == |s.flash|
  }

  predicate VidFits(s: State, v: Vid) {
    v.dataSize <= s.size && v.sqnum < s.sqnum && v.leb.vol in s.vols && v.vol == s.vols[v.leb.vol]
  }

  /** The PEB l is mapped to belongs to it and carries its header. */
  predicate MapFits(s: State, l: Leb) {
    l in s.eba && IsPeb(s, s.eba[l]) && s.role[s.eba[l]] == Mapped(l) && CopyOf(s.flash, s.eba[l], l)
  }

  /** The PEB p looks the way its owner left it. */
  predicate RoleFits(s: State, p: int) {
    && IsPeb(s, p) && |s.flash[p].data| == s.size
    && (s.flash[p].vid.Good? ==> !s.flash[p].ec.AllFF? && VidFits(s, s.flash[p].vid.value))
    && match s.role[p]
       case Free => !s.flash[p].vid.Good?
       case Dead => !s.flash[p].vid.Good?
       case Pending => true
       case Mapped(l) => MapFits(s, l) && s.eba[l] == p
       case Reserved(l) => l in s.ops && s.ops[l].Target? && s.ops[l].to == p
  }

  ghost predicate Shapes(s: State) {
    && |s.role| == |s.flash| && s.minIo > 0 && s.size % s.minIo == 0
    && (forall p | 0 <= p < |s.flash| :: RoleFits(s, p))
    && (forall p | p in s.rivals :: IsPeb(s, p) && s.role[p] == Pending)
    && (forall l | l in s.eba :: MapFits(s, l))
  }

  /** Writes inside a LEB go to increasing offsets: nothing has been programmed from off on, not
      even trailing 0xFF bytes covered by a checksum. */
  predicate Appends(b: Peb, off: nat, n: nat) {
    && b.vid.Good? && off + n <= |b.data|
    && !b.vid.value.vol.isStatic
    && (b.vid.value.copyFlag ==> b.vid.value.dataSize <= off)
    && forall i | off <= i < |b.data| :: b.data[i] == FF
  }

  /** A swap, or a move with data, carries a checksum of everything it writes; a move writes what
      the mapped copy holds. */
  predicate KindFits(s: State, l: Leb, op: Op)
    requires op.Target? && op.off + |op.buf| <= s.size
  {
    match op.kind
    case Fresh => l !in s.eba && !op.vid.copyFlag
    case Swap => op.off == 0 && op.vid.copyFlag && op.vid.dataSize == |op.buf| && op.vid.crc == op.buf
                 && |op.buf| > 0 && !op.vid.vol.isStatic
    case Move => op.off == 0 && MapFits(s, l) && Payload(Complete(op, s.size)) == Payload(s.flash[s.eba[l]])
                 && (op.buf != [] ==>
                   && op.vid.copyFlag && op.vid.dataSize <= |op.buf| && op.vid.crc == op.buf[..op.vid.dataSize]
                   && (!op.vid.vol.isStatic ==> op.vid.dataSize == |op.buf|))
  }

  predicate StageFits(s: State, op: Op)
    requires op.Target? && op.off + |op.buf| <= s.size && 0 <= op.to < |s.flash|
  {
    var b := s.flash[op.to];
    match op.stage
    case Allocated => b.ec.Good? && b.vid == AllFF && b.data == Blank(s.size)
    case HeaderWritten => b.vid == Good(op.vid) && b.data == Blank(s.size)
    case DataWritten => b.vid == Good(op.vid) && b.data == Complete(op, s.size).data
  }

  predicate OpFits(s: State, l: Leb) {
    && l in s.ops
    && match s.ops[l]
       case InPlace(off, buf) => MapFits(s, l) && Appends(s.flash[s.eba[l]], off, |buf|)
       case Target(_, to, vid, off, buf, _) =>
         && vid.leb == l && VidFits(s, vid)
         && off + |buf| <= s.size
         && IsPeb(s, to) && s.role[to] == Reserved(l)
         && KindFits(s, l, s.ops[l]) && StageFits(s, s.ops[l])
  }

  /** The new PEB of an operation is newer than every other copy of the LEB. */
  ghost predicate TargetsNewest(s: State) {
    forall l, q | l in s.ops && s.ops[l].Target? && CopyOf(s.flash, q, l) && q != s.ops[l].to ::
      Sq(s.flash[q]) < s.ops[l].vid.sqnum
  }

  /** A copy left by a failed attempt of an atomic change: if it can be trusted, it holds
      exactly the new contents. */
  predicate HoldsNew(s: State, l: Leb, b: Peb) {
    && l in s.ops && s.ops[l].Target? && s.ops[l].kind == Swap && s.ops[l].off + |s.ops[l].buf| <= s.size
    && b.vid.Good? && HasChecksum(b) && Payload(b) == Payload(Complete(s.ops[l], s.size))
  }

  /** The copy in PEB q, waiting for erasure, loses against the mapped one, or is a newer one
      with the new contents of the atomic change under way. */
  predicate Loses(s: State, l: Leb, q: int) {
    && MapFits(s, l) && CopyOf(s.flash, q, l)
    && var m := s.flash[s.eba[l]];
       Beats(m, s.flash[q]) || (HoldsNew(s, l, s.flash[q]) && Sq(m) < Sq(s.flash[q]))
  }

  ghost predicate MappedWins(s: State) {
    forall l, q | l in s.eba && CopyOf(s.flash, q, l) && IsPeb(s, q) && s.role[q] == Pending && q !in s.rivals ::
      Loses(s, l, q)
  }

  ghost predicate Inv(s: State) {
    && Shapes(s) && (forall l | l in s.ops :: OpFits(s, l))
    && DistinctSq(s.flash) && TargetsNewest(s) && MappedWins(s)
  }

  // ---- Power cuts ---------------------------------------------------------------------------

  /** What may be found in PEB p after a power cut in state s, given every operation that may be
      under way on it at that moment.  A PEB without erase-counter header is not looked at any
      further: its VID header counts as missing. */
  ghost predicate CutPeb(s: State, p: int, after: Peb) {
    && IsPeb(s, p) && |after.data| == s.size && (after.vid.Good? ==> !after.ec.AllFF?)
    && var b := s.flash[p];
       match s.role[p]
       case Free => !after.vid.Good?
       case Dead => !after.vid.Good?
       case Pending => TornErase(b, after)
       case Mapped(l) =>
         if l in s.ops && s.ops[l].InPlace? then TornWrite(b, after, s.ops[l].off, |s.ops[l].buf|)
         else after == b
       case Reserved(l) =>
         && l in s.ops && s.ops[l].Target?
         && var op := s.ops[l];
            match op.stage
            case Allocated => !after.vid.Good? || TornHeader(after, op.vid, s.size)
            case HeaderWritten => TornWrite(b, after, op.off, |op.buf|)
            case DataWritten => after == b
  }

  ghost predicate CutImage(s: State, f: Image) {
    |f| == |s.flash| && forall p | 0 <= p < |f| :: CutPeb(s, p, f[p])
  }

  lemma CutKeepsHeaders(s: State, f: Image, p: int)
    requires Inv(s) && CutImage(s, f) && 0 <= p < |f| && f[p].vid.Good?
    ensures VidFits(s, f[p].vid.value) && !f[p].ec.AllFF?
    ensures var l := f[p].vid.value.leb;
      || (l in s.ops && s.ops[l].Target? && s.ops[l].to == p && s.role[p] == Reserved(l) && f[p].vid.value == s.ops[l].vid)
      || ((s.role[p] == Mapped(l) || s.role[p] == Pending) && f[p].vid == s.flash[p].vid && CopyOf(s.flash, p, l))
  {
    assert CutPeb(s, p, f[p]) && RoleFits(s, p);
    if s.role[p].Reserved? {
      assert OpFits(s, s.role[p].leb);
    }
  }

  lemma CutKeepsDistinct(s: State, f: Image)
    requires Inv(s) && CutImage(s, f)
    ensures DistinctSq(f)
  {
    forall p, q | 0 <= p < |f| && 0 <= q < |f| && p != q && f[p].vid.Good? && f[q].vid.Good?
      && f[p].vid.value.leb == f[q].vid.value.leb
      ensures Sq(f[p]) != Sq(f[q])
    {
      CutKeepsHeaders(s, f, p);
      CutKeepsHeaders(s, f, q);
    }
  }

  /** No copy waiting for erasure outranks the mapped one. */
  ghost predicate Unrivalled(s: State, l: Leb) {
    forall q | IsPeb(s, q) && s.role[q] == Pending && CopyOf(s.flash, q, l) :: Loses(s, l, q)
  }

  /** Only a move cancelled too late leaves a rival. */
  lemma NoRivalLeft(s: State, l: Leb)
    requires Inv(s) && l in s.eba && forall p | p in s.rivals :: !CopyOf(s.flash, p, l)
    ensures Unrivalled(s, l)
  {
  }

  /** A copy q whose erasure was interrupted beats the mapped copy m only if it is newer and
      has not been touched. */
  lemma ErasedWinnerIsUntouched(m: Peb, m': Peb, q: Peb, q': Peb)
    requires m.vid.Good? && m'.vid == m.vid && Trusted(m) == Trusted(m')
    requires q'.vid.Good? && TornErase(q, q') && Sq(m) != Sq(q)
    requires Beats(q', m') && (Beats(m, q) || (HasChecksum(q) && Sq(m) < Sq(q)))
    ensures HasChecksum(q) && q'.data == q.data && !Beats(m, q)
  {
  }

  /** The copies of l other than the mapped one that may win after a cut. */
  lemma WhoMayWin(s: State, l: Leb, f: Image)
    requires Inv(s) && CutImage(s, f) && l in s.eba && Unrivalled(s, l)
    ensures CopyOf(f, s.eba[l], l)
    ensures var r := Recovered(f, l);
      || r == s.eba[l]
      || (l in s.ops && s.ops[l].Target? && s.ops[l].to == r && CopyOf(f, r, l) && Trusted(f[r]))
      || (r != -1 && HoldsNew(s, l, s.flash[r]) && f[r].vid == s.flash[r].vid && f[r].data == s.flash[r].data)
  {
    var m, r := s.eba[l], Recovered(f, l);
    assert MapFits(s, l);
    TornAppendKeepsTrust(s, l, f);
    assert CopyOf(f, m, l);
    CutKeepsDistinct(s, f);
    RecoveredBeatsTheOthers(f, l);
    if r != m {
      assert Beats(f[r], f[m]);
      CutKeepsHeaders(s, f, r);
      if s.role[r] == Pending {
        assert CutPeb(s, r, f[r]) && Loses(s, l, r);
        ErasedWinnerIsUntouched(s.flash[m], f[m], s.flash[r], f[r]);
      } else {
        TargetWinnerIsTrusted(s, l, f);
      }
    }
  }

  lemma TargetWinnerIsTrusted(s: State, l: Leb, f: Image)
    requires Inv(s) && CutImage(s, f) && l in s.eba
    requires Recovered(f, l) != -1 && s.role[Recovered(f, l)] != Pending && Recovered(f, l) != s.eba[l]
    requires f[s.eba[l]].vid == s.flash[s.eba[l]].vid && CopyOf(f, s.eba[l], l)
    requires Beats(f[Recovered(f, l)], f[s.eba[l]])
    ensures l in s.ops && s.ops[l].Target? && s.ops[l].to == Recovered(f, l) && Trusted(f[Recovered(f, l)])
  {
    var r := Recovered(f, l);
    CutKeepsHeaders(s, f, r);
    assert RoleFits(s, r) && MapFits(s, l);
    assert CopyOf(s.flash, s.eba[l], l) && s.eba[l] != s.ops[l].to;
  }

  lemma TornAppendKeepsTrust(s: State, l: Leb, f: Image)
    requires Inv(s) && CutImage(s, f) && l in s.eba
    ensures f[s.eba[l]].vid == s.flash[s.eba[l]].vid && f[s.eba[l]].vid.Good?
    ensures Trusted(f[s.eba[l]]) == Trusted(s.flash[s.eba[l]])
  {
    var m := s.eba[l];
    assert MapFits(s, l) && CutPeb(s, m, f[m]);
    if l in s.ops && s.ops[l].InPlace? {
      assert OpFits(s, l);
      var n := s.flash[m].vid.value.dataSize;
      if s.flash[m].vid.value.copyFlag {
        assert f[m].data[..n] == s.flash[m].data[..n];
      }
    }
  }

  /** A swap or move target that can be trusted is complete, however its writing ended. */
  lemma TrustedIsComplete(s: State, l: Leb, after: Peb)
    requires OpFits(s, l) && s.ops[l].Target? && s.ops[l].kind != Fresh && CutPeb(s, s.ops[l].to, after)
    requires after.vid.Good? && Trusted(after)
    ensures Payload(after) == Payload(Complete(s.ops[l], s.size))
  {
    var op := s.ops[l];
    assert after.vid == Good(op.vid);
    assert forall i | |op.buf| <= i < s.size :: after.data[i] == FF;
    if op.buf != [] && op.stage != DataWritten {
      ChecksumFillsTheRange(after, Complete(op, s.size), op.buf);
    } else {
      assert after.data == Complete(op, s.size).data;
    }
  }

  /** Once the checksum over buf matches, the torn copy d shows what the complete copy c shows. */
  lemma ChecksumFillsTheRange(d: Peb, c: Peb, buf: seq<Byte>)
    requires d.vid.Good? && d.vid == c.vid && |d.data| == |c.data| && |buf| <= |c.data|
    requires c.data == WriteAt(Blank(|c.data|), 0, buf)
    requires forall i | |buf| <= i < |d.data| :: d.data[i] == FF
    requires CrcOk(d.vid.value, d.data) && d.vid.value.dataSize <= |buf|
    requires d.vid.value.crc == buf[..d.vid.value.dataSize]
    requires !d.vid.value.vol.isStatic ==> d.vid.value.dataSize == |buf|
    ensures Payload(d) == Payload(c)
  {
    var n := d.vid.value.dataSize;
    forall i | 0 <= i < n
      ensures d.data[i] == c.data[i]
    {
      assert d.data[i] == d.data[..n][i] && buf[i] == buf[..n][i];
    }
    assert d.data[..n] == c.data[..n];
    if !d.vid.value.vol.isStatic {
      assert d.data == c.data;
    }
  }

  // ---- The cut theorems ---------------------------------------------------------------------

  /** A mapped LEB nobody works on is found again, byte for byte. */
  lemma IdleLebSurvives(s: State, l: Leb, f: Image)
    requires Inv(s) && CutImage(s, f) && l in s.eba && l !in s.ops && Unrivalled(s, l)
    ensures Recovered(f, l) == s.eba[l] && f[s.eba[l]] == s.flash[s.eba[l]]
  {
    WhoMayWin(s, l, f);
    assert MapFits(s, l) && CutPeb(s, s.eba[l], f[s.eba[l]]);
  }

  /** A LEB being moved keeps its contents, whichever of the two copies is found. */
  lemma MovedLebSurvives(s: State, l: Leb, f: Image)
    requires Inv(s) && CutImage(s, f) && l in s.eba && Unrivalled(s, l)
    requires l in s.ops && s.ops[l].Target? && s.ops[l].kind == Move
    ensures Recovered(f, l) != -1 && Payload(f[Recovered(f, l)]) == Payload(s.flash[s.eba[l]])
  {
    WhoMayWin(s, l, f);
    assert OpFits(s, l) && MapFits(s, l) && CutPeb(s, s.eba[l], f[s.eba[l]]);
    if Recovered(f, l) != s.eba[l] {
      assert CutPeb(s, s.ops[l].to, f[s.ops[l].to]);
      TrustedIsComplete(s, l, f[s.ops[l].to]);
    }
  }

  /** An atomic change of a mapped LEB: exactly the old contents, or exactly the new ones. */
  lemma ChangeIsAtomic(s: State, l: Leb, f: Image)
    requires Inv(s) && CutImage(s, f) && l in s.eba && Unrivalled(s, l)
    requires l in s.ops && s.ops[l].Target? && s.ops[l].kind == Swap
    ensures Recovered(f, l) != -1
    ensures Payload(f[Recovered(f, l)]) == Payload(s.flash[s.eba[l]]) ||
            Payload(f[Recovered(f, l)]) == Payload(Complete(s.ops[l], s.size))
  {
    WhoMayWin(s, l, f);
    assert OpFits(s, l) && MapFits(s, l) && CutPeb(s, s.eba[l], f[s.eba[l]]);
    if Recovered(f, l) == s.ops[l].to {
      assert CutPeb(s, s.ops[l].to, f[s.ops[l].to]);
      TrustedIsComplete(s, l, f[s.ops[l].to]);
    }
  }

  /** A write inside a mapped LEB can only damage the range being written. */
  lemma WriteDamagesOnlyItsRange(s: State, l: Leb, f: Image)
    requires Inv(s) && CutImage(s, f) && l in s.eba && Unrivalled(s, l)
    requires l in s.ops && s.ops[l].InPlace?
    ensures Recovered(f, l) == s.eba[l]
    ensures TornWrite(s.flash[s.eba[l]], f[s.eba[l]], s.ops[l].off, |s.ops[l].buf|)
  {
    WhoMayWin(s, l, f);
    assert MapFits(s, l) && CutPeb(s, s.eba[l], f[s.eba[l]]);
  }
}
