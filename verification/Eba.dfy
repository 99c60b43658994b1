/** The eraseblock association sub-system: what it does for one caller that holds the lock of a
    LEB, flash write by flash write, every one of which may fail. */
module Eba {
  import opened Arith
  import opened Flash
  import opened LebInvariant
  import opened LebLayer
  import opened LebLimits
  import opened LebRefinement
  import opened LebSteps
  import opened Misc
  import opened Wrappers

  /** Failed attempts tolerated before the device is switched to read-only mode. */
  const IO_RETRIES: nat := 3

  /** What became of a move. */
  datatype MoveResult = Moved | CancelRace | CancelBitflips | SourceReadError | TargetReadError | TargetWriteError | MoveFailed

  datatype Errno = Ok | EIO | EROFS | ENOSPC | OtherError

  /** What writing to flash may return. */
  type Io = e: Errno | e == Ok || e == EIO || e == OtherError witness Ok

  /** How writing a header, and then data, to one PEB ends. */
  datatype Answer = Answer(header: Io, data: Io)

  /** What reading back finds: what was written, with or without bit-flips, or nothing that can be used. */
  datatype Back = Same | Bitflips | Unreadable | Different

  /** Everything the flash answers while a LEB is moved. */
  datatype MoveAnswer = MoveAnswer(sourceReads: bool, write: Answer, headerBack: Back, dataBack: Back)

  /** The error of an attempt to write that much data to a new PEB. */
  ghost function Attempted(a: Answer, len: nat): Io {
    if a.header == Ok && len > 0 then a.data else a.header
  }

  /** What becomes of a move that nobody is in the way of. */
  ghost function Outcome(a: MoveAnswer, hasData: bool): MoveResult {
    if !a.sourceReads then SourceReadError
    else if a.write.header == EIO || (a.write.header == Ok && a.headerBack == Same && hasData && a.write.data == EIO) then TargetWriteError
    else if a.write.header == OtherError then MoveFailed
    else
      match a.headerBack
      case Bitflips => CancelBitflips
      case Unreadable => TargetReadError
      case Different => MoveFailed
      case Same =>
        if !hasData then Moved
        else if a.write.data == OtherError then MoveFailed
        else
          match a.dataBack
          case Same => Moved
          case Bitflips => CancelBitflips
          case Unreadable => TargetReadError
          case Different => MoveFailed
  }

  /** What a failed write of a VID header may leave. */
  predicate HeaderLeft(before: Peb, after: Peb, v: Vid) {
    || after == before
    || (|after.data| == |before.data| && (after.vid.Good? ==> !after.ec.AllFF? && TornHeader(after, v, |before.data|)))
  }

  /** What a failed write of data may leave. */
  predicate DataLeft(before: Peb, after: Peb, off: nat, n: nat) {
    TornWrite(before, after, off, n) && after.ec == before.ec
  }

  /** The first step of writing l to a new PEB. */
  function BeginStep(l: Leb, kind: Kind, to: nat, off: nat, buf: seq<Byte>, dataSize: nat): Step {
    if kind == Swap then BeginSwap(l, to, buf) else BeginFresh(l, to, off, buf, dataSize)
  }

  /** A step of an operation on l that writes buf to a new PEB. */
  predicate OwnStep(l: Leb, kind: Kind, buf: seq<Byte>, step: Step) {
    match step
    case BeginFresh(k, _, _, b, _) => k == l && kind == Fresh && b == buf
    case BeginSwap(k, _, b) => k == l && kind == Swap && b == buf
    case BeginMove(k, _) => k == l && kind == Move
    case WriteHeader(k) => k == l
    case WriteData(k) => k == l
    case Commit(k) => k == l
    case WriteError(k, _, _) => k == l
    case WasteSqnum => true
    case _ => false
  }

  ghost predicate AllOwn(l: Leb, kind: Kind, buf: seq<Byte>, steps: seq<Step>) {
    forall i | 0 <= i < |steps| :: OwnStep(l, kind, buf, steps[i])
  }

  /** The steps of one such operation; it may be given up in the end. */
  ghost predicate OwnRun(l: Leb, kind: Kind, buf: seq<Byte>, steps: seq<Step>) {
    || AllOwn(l, kind, buf, steps)
    || (|steps| > 0 && AllOwn(l, kind, buf, steps[..|steps| - 1])
        && steps[|steps| - 1].Abandon? && steps[|steps| - 1].leb == l)
  }

  lemma AllOwnRun(l: Leb, kind: Kind, buf: seq<Byte>, steps: seq<Step>)
    requires AllOwn(l, kind, buf, steps)
    ensures OwnRun(l, kind, buf, steps)
  {
  }

  lemma OwnEnds(l: Leb, kind: Kind, buf: seq<Byte>, steps: seq<Step>, left: Peb)
    requires AllOwn(l, kind, buf, steps)
    ensures OwnRun(l, kind, buf, steps + [Abandon(l, left)])
  {
    assert (steps + [Abandon(l, left)])[..|steps|] == steps;
  }

  lemma OwnSnoc(l: Leb, kind: Kind, buf: seq<Byte>, steps: seq<Step>, step: Step)
    requires AllOwn(l, kind, buf, steps) && OwnStep(l, kind, buf, step)
    ensures AllOwn(l, kind, buf, steps + [step])
  {
  }

  lemma OwnRunIsChangeRun(l: Leb, buf: seq<Byte>, steps: seq<Step>)
    requires OwnRun(l, Swap, buf, steps)
    ensures ChangeRun(l, buf, steps)
  {
    assert |steps| > 0 ==> forall i | 0 <= i < |steps| - 1 :: steps[..|steps| - 1][i] == steps[i];
  }

  lemma OwnRunSparesOthers(l: Leb, kind: Kind, buf: seq<Byte>, steps: seq<Step>, k: Leb)
    requires OwnRun(l, kind, buf, steps) && k != l
    ensures ChangesOnly(k, {}, steps)
  {
    assert |steps| > 0 ==> forall i | 0 <= i < |steps| - 1 :: steps[..|steps| - 1][i] == steps[i];
  }

  /** The state mid is reached by steps, and the write the operation on l does next is allowed to
      leave the PEB p as left. */
  ghost predicate FailsAt(start: State, steps: seq<Step>, mid: State, l: Leb, p: nat, left: Peb) {
    && Legal(start, steps) && Run(start, steps) == mid && Inv(mid)
    && OpFits(mid, l) && mid.ops[l].Target? && mid.ops[l].to == p && CutPeb(mid, p, left)
  }

  /** Going on after a run. */
  lemma OneMore(start: State, steps: seq<Step>, step: Step)
    requires Legal(start, steps) && Inv(Run(start, steps)) && Enabled(Run(start, steps), step)
    ensures Legal(start, steps + [step]) && Run(start, steps + [step]) == Apply(Run(start, steps), step)
    ensures Inv(Run(start, steps + [step]))
  {
    RunSnoc(start, steps, step);
    StepKeepsInv(Run(start, steps), step);
  }

  /** hdr, but for the sequence number, is the header of a write of buf to l. */
  ghost predicate CanWrite(s: State, l: Leb, kind: Kind, hdr: Vid, off: nat, buf: seq<Byte>, dataSize: nat) {
    && l !in s.ops && l.vol in s.vols && off + |buf| <= s.size
    && match kind
       case Fresh =>
         && l !in s.eba && dataSize <= |buf| && hdr == FreshVid(s, l, buf, dataSize).(sqnum := hdr.sqnum)
         && (if s.vols[l.vol].isStatic then off == 0 else dataSize == 0)
       case Swap => off == 0 < |buf| && !s.vols[l.vol].isStatic && hdr == SwapVid(s, l, buf).(sqnum := hdr.sqnum)
       case Move => false
  }

  /** Wherever the power fails in the run, l holds what it held, or buf. */
  ghost predicate ChangeIsSafe(start: State, l: Leb, buf: seq<Byte>, steps: seq<Step>) {
    forall n, f | 0 <= n <= |steps| && Legal(start, steps[..n]) && CutImage(Run(start, steps[..n]), f) ::
      OldOrNew(start, l, buf, f)
  }

  lemma ChangeIsSafeWhenOwn(start: State, l: Leb, buf: seq<Byte>, steps: seq<Step>)
    requires Inv(start) && MapFits(start, l) && l !in start.ops && !Doubtful(start, l)
    requires Legal(start, steps) && OwnRun(l, Swap, buf, steps)
    ensures ChangeIsSafe(start, l, buf, steps)
  {
    hide Inv, Legal, Run, CutImage, OldOrNew;
    OwnRunIsChangeRun(l, buf, steps);
    forall n, f | 0 <= n <= |steps| && Legal(start, steps[..n]) && CutImage(Run(start, steps[..n]), f)
      ensures OldOrNew(start, l, buf, f)
    {
      ChangeRunIsAtomic(start, l, buf, steps, n, f);
    }
  }

  /** After a power cut in state t, l is found in its PEB, and differs from what it was in s only
      where buf was being written. */
  ghost predicate KeepsRest(s: State, t: State, l: Leb, off: nat, buf: seq<Byte>)
    requires MapFits(s, l)
  {
    forall f: Image | CutImage(t, f) ::
      Recovered(f, l) == s.eba[l] && SameOutside(s.flash[s.eba[l]].data, f[s.eba[l]].data, off, |buf|)
  }

  /** Wherever the power fails in the run, only the range that was being written may have changed. */
  ghost predicate WriteIsSafe(start: State, l: Leb, off: nat, buf: seq<Byte>, steps: seq<Step>)
    requires MapFits(start, l)
  {
    forall n | 0 <= n <= |steps| && Legal(start, steps[..n]) :: KeepsRest(start, Run(start, steps[..n]), l, off, buf)
  }

  lemma IdleKeepsRest(s: State, t: State, l: Leb, off: nat, buf: seq<Byte>)
    requires MapFits(s, l) && Inv(t) && l in t.eba && l !in t.ops && Unrivalled(t, l) && t.eba[l] == s.eba[l] < |t.flash|
    requires SameOutside(s.flash[s.eba[l]].data, t.flash[s.eba[l]].data, off, |buf|)
    ensures KeepsRest(s, t, l, off, buf)
  {
    hide Inv, CutImage, Recovered, Unrivalled;
    forall f: Image | CutImage(t, f)
      ensures Recovered(f, l) == s.eba[l] && SameOutside(s.flash[s.eba[l]].data, f[s.eba[l]].data, off, |buf|)
    {
      IdleLebSurvives(t, l, f);
    }
  }

  lemma WritingKeepsRest(s: State, t: State, l: Leb, off: nat, buf: seq<Byte>)
    requires MapFits(s, l) && Inv(t) && l in t.eba && l in t.ops && Unrivalled(t, l) && t.eba[l] == s.eba[l] < |t.flash|
    requires t.ops[l] == InPlace(off, buf) && t.flash[s.eba[l]] == s.flash[s.eba[l]]
    ensures KeepsRest(s, t, l, off, buf)
  {
    hide Inv, CutImage, Recovered, Unrivalled;
    forall f: Image | CutImage(t, f)
      ensures Recovered(f, l) == s.eba[l] && SameOutside(s.flash[s.eba[l]].data, f[s.eba[l]].data, off, |buf|)
    {
      WriteDamagesOnlyItsRange(t, l, f);
    }
  }

  lemma NothingIsSafe(s: State, l: Leb, off: nat, buf: seq<Byte>)
    requires Inv(s) && MapFits(s, l) && l !in s.ops && !Doubtful(s, l)
    ensures WriteIsSafe(s, l, off, buf, [])
  {
    UndoubtedStays(s, s, l);
    IdleKeepsRest(s, s, l, off, buf);
  }

  // ---- Moves ---------------------------------------------------------------------------------

  /** After a power cut in state t, l shows v. */
  ghost predicate Shows(t: State, l: Leb, v: seq<Byte>) {
    forall f | CutImage(t, f) :: Recovered(f, l) != -1 && Payload(f[Recovered(f, l)]) == v
  }

  /** Wherever the power fails in the run, l shows v. */
  ghost predicate MoveIsSafe(start: State, l: Leb, v: seq<Byte>, steps: seq<Step>) {
    forall n | 0 <= n <= |steps| && Legal(start, steps[..n]) :: Shows(Run(start, steps[..n]), l, v)
  }

  lemma SafeSnoc(start: State, l: Leb, v: seq<Byte>, steps: seq<Step>, step: Step)
    requires MoveIsSafe(start, l, v, steps) && Legal(start, steps + [step]) && Shows(Run(start, steps + [step]), l, v)
    ensures MoveIsSafe(start, l, v, steps + [step])
  {
    hide Shows, Legal, Run;
    forall n | 0 <= n <= |steps| + 1 && Legal(start, (steps + [step])[..n])
      ensures Shows(Run(start, (steps + [step])[..n]), l, v)
    {
      if n <= |steps| {
        assert (steps + [step])[..n] == steps[..n];
      } else {
        assert (steps + [step])[..n] == steps + [step];
      }
    }
  }

  lemma IdleShows(t: State, l: Leb)
    requires Inv(t) && l in t.eba && l !in t.ops && Unrivalled(t, l) && MapFits(t, l)
    ensures Shows(t, l, Payload(t.flash[t.eba[l]]))
  {
    hide Inv, CutImage, Recovered, Unrivalled;
    forall f: Image | CutImage(t, f)
      ensures Recovered(f, l) != -1 && Payload(f[Recovered(f, l)]) == Payload(t.flash[t.eba[l]])
    {
      IdleLebSurvives(t, l, f);
    }
  }

  lemma MovingShows(t: State, l: Leb)
    requires Inv(t) && MapFits(t, l) && Unrivalled(t, l) && l in t.ops && t.ops[l].Target? && t.ops[l].kind == Move
    ensures Shows(t, l, Payload(t.flash[t.eba[l]]))
  {
    hide Inv, CutImage, Recovered, Unrivalled;
    forall f: Image | CutImage(t, f)
      ensures Recovered(f, l) != -1 && Payload(f[Recovered(f, l)]) == Payload(t.flash[t.eba[l]])
    {
      MovedLebSurvives(t, l, f);
    }
  }

  /** The copy can be trusted if the original can. */
  lemma CopyIsTrusted(from: Peb, to: Peb, minIo: nat, sqnum: nat)
    requires from.vid.Good? && minIo > 0 && |from.data| % minIo == 0 && from.vid.value.dataSize <= |from.data|
    requires Trusted(from) && to.vid == Good(MoveVid(from, minIo, sqnum))
    requires to.data == WriteAt(Blank(|from.data|), 0, from.data[..MoveLen(from, minIo)])
    ensures Trusted(to)
  {
    var n := MoveLen(from, minIo);
    if n > 0 {
      var k := to.vid.value.dataSize;
      assert to.data[..k] == from.data[..k];
    } else if !from.vid.value.vol.isStatic {
      assert to.data == from.data;
    }
  }

  /** A move that has been completed is not noticed. */
  lemma CommittedPayload(t: State, l: Leb)
    requires AtStage(t, l, DataWritten) && t.ops[l].kind == Move && MapFits(t, l)
    ensures l in Remap(t, l).eba && Remap(t, l).eba[l] < |t.flash| && l !in Remap(t, l).ops
    ensures Remap(t, l).flash == t.flash && t.flash[Remap(t, l).eba[l]].vid.Good?
    ensures Payload(t.flash[Remap(t, l).eba[l]]) == Payload(t.flash[t.eba[l]])
  {
  }

  lemma CommittedIsCertain(t: State, l: Leb)
    requires Inv(t) && AtStage(t, l, DataWritten) && MapFits(t, l) && !Doubtful(t, l) && Trusted(t.flash[t.ops[l].to])
    ensures !Doubtful(Remap(t, l), l)
  {
    hide Inv, KindFits, StageFits, RoleFits;
    CommitDoubts(t, l);
    var u := Remap(t, l);
    assert l in Abs(u).doubted <==> Doubtful(u, l);
    assert l in Abs(t).doubted <==> Doubtful(t, l);
  }

  lemma CommittedShows(t: State, l: Leb)
    requires Inv(t) && AtStage(t, l, DataWritten) && t.ops[l].kind == Move && MapFits(t, l) && !Doubtful(t, l)
    requires Trusted(t.flash[t.ops[l].to])
    ensures Inv(Remap(t, l)) && Shows(Remap(t, l), l, Payload(t.flash[t.eba[l]]))
  {
    hide Inv, KindFits, StageFits, RoleFits, Shows, Doubtful, Remap, Payload;
    CommitIs(t, l);
    CommittedPayload(t, l);
    CommittedIsCertain(t, l);
    UndoubtedHere(Remap(t, l), l);
    OwnPebs(Remap(t, l), l);
    IdleShows(Remap(t, l), l);
  }

  lemma CommitIs(t: State, l: Leb)
    requires Inv(t) && AtStage(t, l, DataWritten)
    ensures (l in t.eba ==> MapFits(t, l)) && Inv(Remap(t, l))
  {
    hide Inv, KindFits, StageFits, RoleFits;
    OwnPebs(t, l);
    CommitKeepsInv(t, l);
  }

  lemma UndoubtedHere(t: State, l: Leb)
    requires Inv(t) && l in t.eba && !Doubtful(t, l)
    ensures Unrivalled(t, l)
  {
    NoRivalLeft(t, l);
  }

  /** A move cancelled before its header is on the flash leaves no trace. */
  lemma EarlyCancelShows(t: State, l: Leb, left: Peb)
    requires Inv(t) && Enabled(t, Abandon(l, left)) && t.ops[l].kind == Move && MapFits(t, l) && !Doubtful(t, l)
    requires !left.vid.Good?
    ensures Inv(GiveUp(t, l, left)) && Shows(GiveUp(t, l, left), l, Payload(t.flash[t.eba[l]]))
  {
    hide Inv, KindFits, StageFits, Shows, Beats, CutPeb, VidFits;
    var u := GiveUp(t, l, left);
    AbandonKeepsInv(t, l, left);
    AbandonFits(t, l, left, l);
    EarlyCancel(t, l, left);
    assert !Doubtful(u, l);
    UndoubtedHere(u, l);
    IdleShows(u, l);
  }

  lemma TwoSteps(s: State, a: Step, b: Step)
    requires Inv(s) && Enabled(s, a) && Inv(Apply(s, a)) && Enabled(Apply(s, a), b)
    ensures Legal(s, []) && Legal(s, [a]) && Legal(s, [a, b])
    ensures Run(s, []) == s && Run(s, [a]) == Apply(s, a) && Run(s, [a, b]) == Apply(Apply(s, a), b)
  {
    hide Enabled, Apply;
    RunSnoc(s, [], a);
    assert [] + [a] == [a] && [a] + [b] == [a, b];
    RunSnoc(s, [a], b);
  }

  lemma UndoubtedStays(s: State, t: State, l: Leb)
    requires Inv(t) && l in t.eba && t.rivals == s.rivals && !Doubtful(s, l)
    requires forall p | p in s.rivals :: CopyOf(t.flash, p, l) ==> CopyOf(s.flash, p, l)
    ensures Unrivalled(t, l)
  {
    NoRivalLeft(t, l);
  }

  lemma AfterInPlace(t: State, l: Leb, after: Peb)
    requires Inv(t) && Enabled(t, EndInPlace(l, after)) && !Doubtful(t, l) && MapFits(t, l)
    ensures Inv(Append(t, l, after)) && Unrivalled(Append(t, l, after), l)
  {
    hide Inv, Unrivalled, KindFits, StageFits, RoleFits;
    AppendKeepsInv(t, l, after);
    AppendFits(t, l, after, l);
    UndoubtedStays(t, Append(t, l, after), l);
  }

  lemma InPlaceStates(s: State, l: Leb, off: nat, buf: seq<Byte>, after: Peb)
    requires Inv(s) && MapFits(s, l) && l !in s.ops && !Doubtful(s, l)
    requires Enabled(s, BeginInPlace(l, off, buf))
    requires Enabled(Apply(s, BeginInPlace(l, off, buf)), EndInPlace(l, after))
    ensures var t := Apply(s, BeginInPlace(l, off, buf));
      Inv(t) && Inv(Append(t, l, after)) && Unrivalled(s, l) && Unrivalled(t, l) && Unrivalled(Append(t, l, after), l)
  {
    hide Shapes, DistinctSq, TargetsNewest, MappedWins, Unrivalled, OpFits;
    UndoubtedStays(s, s, l);
    StartAppendKeepsInv(s, l, off, buf);
    var t := Apply(s, BeginInPlace(l, off, buf));
    UndoubtedStays(s, t, l);
    AfterInPlace(t, l, after);
  }

  lemma BegunInPlace(s: State, l: Leb, off: nat, buf: seq<Byte>)
    requires Inv(s) && Enabled(s, BeginInPlace(l, off, buf))
    ensures var t := Apply(s, BeginInPlace(l, off, buf));
      && t == s.(ops := s.ops[l := InPlace(off, buf)]) && Inv(t) && OpFits(t, l)
      && l !in s.ops && MapFits(s, l) && TornFits(s.flash[s.eba[l]], off, buf)
  {
    StartAppendKeepsInv(s, l, off, buf);
    hide Inv, CutImage;
    OwnPebs(Apply(s, BeginInPlace(l, off, buf)), l);
  }

  predicate TornFits(b: Peb, off: nat, buf: seq<Byte>) {
    b.vid.Good? && off + |buf| <= |b.data|
  }

  lemma AppendIs(t: State, l: Leb, after: Peb)
    requires Inv(t) && Enabled(t, EndInPlace(l, after))
    ensures Append(t, l, after) == t.(flash := t.flash[t.eba[l] := after], ops := MapWithout(t.ops, l))
    ensures Inv(Append(t, l, after))
    ensures l in t.eba && t.eba[l] < |t.flash| && l in t.ops && t.ops[l].InPlace?
    ensures SameOutside(t.flash[t.eba[l]].data, after.data, t.ops[l].off, |t.ops[l].buf|)
  {
    AppendKeepsInv(t, l, after);
    hide Inv;
  }

  lemma OutsideIsSame(d: seq<Byte>, off: nat, n: nat)
    ensures SameOutside(d, d, off, n)
  {
  }

  lemma SafeAfterEach(s: State, l: Leb, off: nat, buf: seq<Byte>, a: Step, b: Step)
    requires Inv(s) && MapFits(s, l) && Legal(s, []) && Legal(s, [a]) && Legal(s, [a, b])
    requires KeepsRest(s, Run(s, []), l, off, buf) && KeepsRest(s, Run(s, [a]), l, off, buf)
    requires KeepsRest(s, Run(s, [a, b]), l, off, buf)
    ensures WriteIsSafe(s, l, off, buf, [a, b])
  {
    hide Legal, Run, KeepsRest;
    assert [a, b][..0] == [] && [a, b][..1] == [a] && [a, b][..2] == [a, b];
  }

  lemma InPlaceIsSafe(s: State, l: Leb, off: nat, buf: seq<Byte>, after: Peb)
    requires Inv(s) && MapFits(s, l) && l !in s.ops && !Doubtful(s, l)
    requires Enabled(s, BeginInPlace(l, off, buf))
    requires Enabled(Apply(s, BeginInPlace(l, off, buf)), EndInPlace(l, after))
    ensures WriteIsSafe(s, l, off, buf, [BeginInPlace(l, off, buf), EndInPlace(l, after)])
  {
    assert Shapes(s);
    var begin, end := BeginInPlace(l, off, buf), EndInPlace(l, after);
    InPlaceStates(s, l, off, buf, after);
    BegunInPlace(s, l, off, buf);
    var t := Apply(s, begin);
    AppendIs(t, l, after);
    var u := Append(t, l, after);
    hide Inv, Legal, Run, Unrivalled, Appends, KeepsRest, KindFits, StageFits, RoleFits, OpFits, MapFits, Enabled, Apply, SameOutside;
    TwoSteps(s, begin, end);
    IdleKeepsRest(s, s, l, off, buf) by {
      OutsideIsSame(s.flash[s.eba[l]].data, off, |buf|);
    }
    WritingKeepsRest(s, t, l, off, buf);
    IdleKeepsRest(s, u, l, off, buf);
    SafeAfterEach(s, l, off, buf, begin, end);
  }

  lemma EndIsEnabled(s: State, l: Leb, off: nat, buf: seq<Byte>, after: Peb)
    requires Inv(s) && Enabled(s, BeginInPlace(l, off, buf)) && DataLeft(s.flash[s.eba[l]], after, off, |buf|)
    ensures var t := Apply(s, BeginInPlace(l, off, buf));
      && Inv(t) && Enabled(t, EndInPlace(l, after)) && Inv(Append(t, l, after))
      && Append(t, l, after) == s.(flash := s.flash[s.eba[l] := after])
  {
    BegunInPlace(s, l, off, buf);
    var t := Apply(s, BeginInPlace(l, off, buf));
    hide Inv, KindFits, StageFits, RoleFits, Apply, MapFits, OpFits, Appends;
    assert Enabled(t, EndInPlace(l, after));
    AppendIs(t, l, after);
    assert MapWithout(t.ops, l) == s.ops;
  }

  lemma InPlaceRun(s: State, l: Leb, off: nat, buf: seq<Byte>, after: Peb)
    requires Inv(s) && Enabled(s, BeginInPlace(l, off, buf)) && DataLeft(s.flash[s.eba[l]], after, off, |buf|)
    ensures var steps, t := [BeginInPlace(l, off, buf), EndInPlace(l, after)], s.(flash := s.flash[s.eba[l] := after]);
      && Legal(s, steps) && Run(s, steps) == t && Inv(t)
      && (!Doubtful(s, l) ==> WriteIsSafe(s, l, off, buf, steps))
      && forall k | k != l :: ChangesOnly(k, {}, steps)
  {
    EndIsEnabled(s, l, off, buf, after);
    hide Inv, Legal, Run, Appends, WriteIsSafe, KindFits, StageFits, RoleFits, Appended, MapFits, OpFits;
    TwoSteps(s, BeginInPlace(l, off, buf), EndInPlace(l, after));
    if !Doubtful(s, l) {
      InPlaceIsSafe(s, l, off, buf, after);
    }
  }

  lemma {:induction false} RunConcat(s: State, a: seq<Step>, b: seq<Step>)
    requires Legal(s, a) && Legal(Run(s, a), b)
    ensures Legal(s, a + b) && Run(s, a + b) == Run(Run(s, a), b)
    decreases |a|
  {
    hide Enabled, Shapes, Apply;
    if a == [] {
      assert a + b == b;
    } else {
      RunConcat(Apply(s, a[0]), a[1..], b);
      assert (a + b)[1..] == a[1..] + b;
    }
  }

  lemma UnmapRun(s: State, l: Leb)
    requires Inv(s) && l in s.eba && l !in s.ops
    ensures MapFits(s, l) && Inv(s.(role := s.role[s.eba[l] := Pending], eba := MapWithout(s.eba, l)))
    ensures Drop(s, l) == s.(role := s.role[s.eba[l] := Pending], eba := MapWithout(s.eba, l))
  {
    OwnPebs(s, l);
    UnmapKeepsInv(s, l);
  }

  lemma UnmapsFirst(s: State, l: Leb)
    requires Inv(s) && l !in s.ops
    ensures var first := if l in s.eba then [Unmap(l)] else [];
      && (l in s.eba ==> MapFits(s, l)) && Legal(s, first) && Run(s, first) == if l in s.eba then Drop(s, l) else s
  {
    hide Inv, Legal, Run, OpFits, KindFits, StageFits, RoleFits;
    OwnPebs(s, l);
    Beginning(s);
    if l in s.eba {
      OneMore(s, [], Unmap(l));
      assert [] + [Unmap(l)] == [Unmap(l)];
    }
  }

  lemma WasteFails(start: State, steps: seq<Step>, mid: State, l: Leb, left: Peb)
    requires OpFits(mid, l) && mid.ops[l].Target? && FailsAt(start, steps, mid, l, mid.ops[l].to, left)
    ensures FailsAt(start, steps + [WasteSqnum], Wasted(mid), l, mid.ops[l].to, left)
  {
    OneMore(start, steps, WasteSqnum);
    OwnPebs(Wasted(mid), l);
  }

  lemma StartMoveIs(s: State, l: Leb, to: nat)
    requires Inv(s) && Enabled(s, BeginMove(l, to))
    ensures s.minIo > 0 && s.size % s.minIo == 0 && |s.flash[s.eba[l]].data| == s.size
    ensures s.flash[s.eba[l]].vid.value.dataSize <= s.size
    ensures var from := s.flash[s.eba[l]];
      var v := MoveVid(from, s.minIo, s.sqnum);
      var op := Target(Move, to, v, 0, from.data[..MoveLen(from, s.minIo)], Allocated);
      && Apply(s, BeginMove(l, to)) == s.(role := s.role[to := Reserved(l)], ops := s.ops[l := op], sqnum := s.sqnum + 1)
      && v.leb == l
  {
    hide DistinctSq, TargetsNewest, MappedWins, OpFits, MoveLen, IsBlank;
    assert RoleFits(s, s.eba[l]) && MapFits(s, l);
    assert s.flash == s.flash[to := s.flash[to]];
  }

  /** The operation on the first PEB that is tried. */
  lemma FirstAttempt(s: State, l: Leb, kind: Kind, p: nat, hdr: Vid, off: nat, buf: seq<Byte>, dataSize: nat)
    requires Inv(s) && CanWrite(s, l, kind, hdr, off, buf, dataSize) && IsFree(s, p)
    ensures var step, op := BeginStep(l, kind, p, off, buf, dataSize), Target(kind, p, hdr.(sqnum := s.sqnum), off, buf, Allocated);
      && Enabled(s, step) && OwnStep(l, kind, buf, step) && AtStage(Apply(s, step), l, Allocated)
      && Apply(s, step) == s.(flash := s.flash[p := Erased(s.flash[p])], role := s.role[p := Reserved(l)], ops := s.ops[l := op], sqnum := s.sqnum + 1)
  {
    var step := BeginStep(l, kind, p, off, buf, dataSize);
    assert Enabled(s, step);
    StepKeepsInv(s, step);
    hide Inv, KindFits, StageFits;
    OwnPebs(Apply(s, step), l);
  }

  lemma Wasting(s: State)
    requires Inv(s)
    ensures Shapes(s) && Enabled(s, WasteSqnum) && Apply(s, WasteSqnum) == s.(sqnum := s.sqnum + 1)
  {
  }

  lemma Beginning(s: State)
    ensures Legal(s, []) && Run(s, []) == s
  {
  }

  lemma BeginMoveRun(s: State, l: Leb, to: nat)
    requires Inv(s) && Enabled(s, BeginMove(l, to))
    ensures s.minIo > 0 && s.size % s.minIo == 0 && |s.flash[s.eba[l]].data| == s.size
    ensures s.flash[s.eba[l]].vid.value.dataSize <= s.size
    ensures var from, steps := s.flash[s.eba[l]], [BeginMove(l, to)];
      var v := MoveVid(from, s.minIo, s.sqnum);
      var op := Target(Move, to, v, 0, from.data[..MoveLen(from, s.minIo)], Allocated);
      var t := s.(role := s.role[to := Reserved(l)], ops := s.ops[l := op], sqnum := s.sqnum + 1);
      Legal(s, steps) && Run(s, steps) == t && Inv(t) && AtStage(t, l, Allocated) && v.leb == l
  {
    hide Inv, Legal, Run, MoveLen, MoveVid, Shapes, RoleFits, KindFits, MapFits, Enabled, Apply, StageFits;
    StartMoveIs(s, l, to);
    Beginning(s);
    OneMore(s, [], BeginMove(l, to));
    assert [] + [BeginMove(l, to)] == [BeginMove(l, to)];
    OwnPebs(Apply(s, BeginMove(l, to)), l);
  }

  /** t is reached from start by steps of the move of l from one PEB to another. */
  ghost predicate Moving(start: State, t: State, l: Leb, from: nat, to: nat, steps: seq<Step>) {
    && Legal(start, steps) && Run(start, steps) == t && Inv(t)
    && l in t.ops && t.ops[l].Target? && t.ops[l].kind == Move && t.ops[l].to == to && OpFits(t, l)
    && t.eba == start.eba && MapFits(t, l) && t.eba[l] == from
    && |t.flash| == |start.flash| && t.flash[from] == start.flash[from]
    && (!Doubtful(start, l) ==> !Doubtful(t, l) && MoveIsSafe(start, l, Payload(t.flash[from]), steps))
  }

  lemma MovingIs(start: State, t: State, l: Leb, from: nat, to: nat, steps: seq<Step>)
    requires Moving(start, t, l, from, to, steps)
    ensures Legal(start, steps) && Run(start, steps) == t && Inv(t) && t.eba == start.eba
    ensures from < |t.flash| == |start.flash| && t.flash[from] == start.flash[from]
    ensures l in t.ops && t.ops[l].Target? && t.ops[l].kind == Move && t.ops[l].to == to && OpFits(t, l)
  {
  }

  lemma WriteIsEnabled(s: State, l: Leb)
    ensures AtStage(s, l, Allocated) ==> Enabled(s, WriteHeader(l))
    ensures AtStage(s, l, HeaderWritten) ==> Enabled(s, WriteData(l))
  {
  }

  lemma SameLength(s: State)
    requires Inv(s)
    ensures |s.role| == |s.flash|
  {
  }

  lemma MoveVidNumber(from: Peb, minIo: nat, n: nat)
    requires from.vid.Good? && minIo > 0 && |from.data| % minIo == 0 && from.vid.value.dataSize <= |from.data|
    ensures MoveVid(from, minIo, n).sqnum == n && MoveVid(from, minIo, n).leb == from.vid.value.leb
  {
    hide MoveLen;
  }

  lemma PebFits(s: State, p: nat)
    requires Inv(s) && IsPeb(s, p)
    ensures RoleFits(s, p)
  {
  }

  predicate CanBeCopied(s: State, p: nat) {
    && s.minIo > 0 && p < |s.flash| && s.flash[p].vid.Good?
    && |s.flash[p].data| % s.minIo == 0 && s.flash[p].vid.value.dataSize <= |s.flash[p].data|
  }

  lemma CopyIsPossible(s: State, p: nat)
    requires Inv(s) && IsPeb(s, p) && s.flash[p].vid.Good?
    ensures CanBeCopied(s, p)
  {
    PebFits(s, p);
  }

  lemma MoveIsEnabled(s: State, from: nat, to: nat)
    requires Inv(s) && IsMappedTo(s, from) && IsFree(s, to) && IsBlank(s.flash[to], s.size)
    requires s.flash[from].vid.value.leb !in s.ops
    ensures var l := s.flash[from].vid.value.leb;
      Enabled(s, BeginMove(l, to)) && l in s.eba && s.eba[l] == from
  {
    hide DistinctSq, TargetsNewest, MappedWins, OpFits;
    OwnPebs(s, s.flash[from].vid.value.leb);
  }

  lemma CanWriteMeans(s: State, l: Leb, kind: Kind, hdr: Vid, off: nat, buf: seq<Byte>, dataSize: nat)
    requires CanWrite(s, l, kind, hdr, off, buf, dataSize)
    ensures l !in s.ops && kind != Move && off + |buf| <= s.size
  {
  }

  lemma StillMovingShows(t: State, l: Leb)
    requires Inv(t) && OpFits(t, l) && MapFits(t, l) && t.ops[l].Target? && t.ops[l].kind == Move && !Doubtful(t, l)
    ensures Shows(t, l, Payload(t.flash[t.eba[l]]))
  {
    UndoubtedHere(t, l);
    MovingShows(t, l);
  }

  lemma MoveBegins(start: State, l: Leb, to: nat)
    requires Inv(start) && Enabled(start, BeginMove(l, to))
    ensures Moving(start, Run(start, [BeginMove(l, to)]), l, start.eba[l], to, [BeginMove(l, to)])
  {
    hide Inv, Run, Legal, KindFits, StageFits, MoveVid, MoveLen, IsBlank;
    BeginMoveRun(start, l, to);
    var t := Run(start, [BeginMove(l, to)]);
    OwnPebs(t, l);
    if !Doubtful(start, l) {
      UndoubtedHere(start, l);
      IdleShows(start, l);
      StillMovingShows(t, l);
      hide Shows;
      EmptyIsSafe(start, l, Payload(start.flash[start.eba[l]]));
      assert [] + [BeginMove(l, to)] == [BeginMove(l, to)];
      SafeSnoc(start, l, Payload(start.flash[start.eba[l]]), [], BeginMove(l, to));
    }
  }

  lemma EmptyIsSafe(start: State, l: Leb, v: seq<Byte>)
    requires Shows(start, l, v)
    ensures MoveIsSafe(start, l, v, [])
  {
  }

  /** Writing to the target changes nothing else. */
  lemma OnlyTargetChanges(t: State, l: Leb, step: Step)
    requires Inv(t) && (step == WriteHeader(l) || step == WriteData(l)) && Enabled(t, step)
    ensures var u := Apply(t, step);
      && u.eba == t.eba && u.rivals == t.rivals && |u.flash| == |t.flash|
      && l in u.ops && u.ops[l] == t.ops[l].(stage := u.ops[l].stage)
      && forall p | 0 <= p < |t.flash| && p != t.ops[l].to :: u.flash[p] == t.flash[p]
  {
    hide Inv, KindFits, StageFits;
  }

  lemma NoNewDoubt(t: State, u: State, l: Leb)
    requires Inv(t) && l in t.ops && t.ops[l].Target? && u.rivals == t.rivals && |u.flash| == |t.flash|
    requires forall p | 0 <= p < |t.flash| && p != t.ops[l].to :: u.flash[p] == t.flash[p]
    ensures !Doubtful(t, l) ==> !Doubtful(u, l)
  {
    InvIsTidy(t);
    hide Inv;
  }

  lemma MoveGoesOn(start: State, t: State, l: Leb, from: nat, to: nat, steps: seq<Step>, step: Step)
    requires Moving(start, t, l, from, to, steps) && (step == WriteHeader(l) || step == WriteData(l)) && Enabled(t, step)
    ensures Moving(start, Apply(t, step), l, from, to, steps + [step])
  {
    assert Shapes(t) && MapFits(t, l) && t.role[to] == Reserved(l);
    hide Inv, Run, Legal, KindFits, StageFits, Shows, MoveIsSafe, Shapes, Doubtful;
    OneMore(start, steps, step);
    OnlyTargetChanges(t, l, step);
    var u := Apply(t, step);
    hide Apply, Enabled;
    NoNewDoubt(t, u, l);
    OwnPebs(u, l);
    if !Doubtful(start, l) {
      StillMovingShows(u, l);
      SafeSnoc(start, l, Payload(t.flash[from]), steps, step);
    }
  }

  /** The copy of l, once written, can be trusted if the original can. */
  ghost predicate TrustsCopy(t: State, l: Leb) {
    && l in t.eba && 0 <= t.eba[l] < |t.flash| && t.flash[t.eba[l]].vid.Good? && l in t.ops && t.ops[l].Target?
    && t.ops[l].off + |t.ops[l].buf| <= t.size
    && (Trusted(t.flash[t.eba[l]]) ==> Trusted(Complete(t.ops[l], t.size)))
  }

  lemma CopyWillBeTrusted(t: State, l: Leb, from: nat, v: Vid, buf: seq<Byte>)
    requires l in t.eba && t.eba[l] == from < |t.flash| && t.flash[from].vid.Good? && l in t.ops && t.ops[l].Target?
    requires t.minIo > 0 && |t.flash[from].data| == t.size && t.size % t.minIo == 0
    requires t.flash[from].vid.value.dataSize <= t.size && t.ops[l].vid == v && t.ops[l].off == 0 && t.ops[l].buf == buf
    requires v == MoveVid(t.flash[from], t.minIo, v.sqnum) && buf == t.flash[from].data[..MoveLen(t.flash[from], t.minIo)]
    ensures TrustsCopy(t, l)
  {
    if Trusted(t.flash[from]) {
      CopyIsTrusted(t.flash[from], Complete(t.ops[l], t.size), t.minIo, v.sqnum);
    }
  }

  lemma MoveCommits(start: State, t: State, l: Leb, from: nat, to: nat, steps: seq<Step>)
    requires IsMappedTo(start, from) && start.flash[from].vid.value.leb == l
    requires Moving(start, t, l, from, to, steps) && AtStage(t, l, DataWritten)
    requires TrustsCopy(t, l)
    ensures t.ops[l].to == to
    ensures Legal(start, steps + [Commit(l)]) && Run(start, steps + [Commit(l)]) == Remap(t, l)
    ensures |Remap(t, l).role| == |Remap(t, l).flash| == |start.flash|
    ensures MoveEnds(start, Remap(t, l), from, to, Moved, steps + [Commit(l)])
  {
    hide Inv, Run, Legal, Shows, MoveIsSafe;
    OneMore(start, steps, Commit(l));
    CommitFits(t, l, l);
    assert Payload(t.flash[to]) == Payload(t.flash[from]);
    assert Trusted(start.flash[from]) ==> Trusted(t.flash[to]);
    hide KindFits, StageFits;
    assert (steps + [Commit(l)])[..|steps|] == steps;
    if !Doubtful(start, l) && Trusted(start.flash[from]) {
      CommittedShows(t, l);
      SafeSnoc(start, l, Payload(t.flash[from]), steps, Commit(l));
    }
  }

  lemma MoveCancelled(start: State, t: State, l: Leb, from: nat, to: nat, steps: seq<Step>, left: Peb, r: MoveResult)
    requires IsMappedTo(start, from) && start.flash[from].vid.value.leb == l
    requires Moving(start, t, l, from, to, steps) && Enabled(t, Abandon(l, left)) && r != Moved
    ensures Legal(start, steps + [Abandon(l, left)]) && Run(start, steps + [Abandon(l, left)]) == GiveUp(t, l, left)
    ensures |GiveUp(t, l, left).role| == |GiveUp(t, l, left).flash| == |start.flash|
    ensures MoveEnds(start, GiveUp(t, l, left), from, to, r, steps + [Abandon(l, left)])
  {
    OneMore(start, steps, Abandon(l, left));
    hide Inv, Run, Legal, KindFits, StageFits, Shows, MoveIsSafe, CutPeb;
    assert (steps + [Abandon(l, left)])[..|steps|] == steps;
    if !Doubtful(start, l) && !left.vid.Good? {
      EarlyCancelShows(t, l, left);
      SafeSnoc(start, l, Payload(t.flash[from]), steps, Abandon(l, left));
    }
  }

  /** Nothing was wrong with what has been written, except that it cannot be read back. */
  lemma ReadBackFails(start: State, steps: seq<Step>, t: State, l: Leb, from: nat, to: nat)
    requires Moving(start, t, l, from, to, steps)
    ensures to < |t.flash| && t == t.(flash := t.flash[to := t.flash[to]])
    ensures FailsAt(start, steps, t, l, to, t.flash[to])
  {
    QuietCut(t);
    assert CutPeb(t, to, t.flash[to]);
    assert t.flash == t.flash[to := t.flash[to]];
  }

  /** What a move that ends in state t with result r has done to the LEB in PEB from. */
  ghost predicate MoveEnds(s: State, t: State, from: nat, to: nat, r: MoveResult, steps: seq<Step>)
    requires from < |s.flash| && s.flash[from].vid.Good? && to < |t.flash| && |t.flash| == |t.role| == |s.flash|
  {
    var l, v := s.flash[from].vid.value.leb, Payload(s.flash[from]);
    && (if r == Moved
        then MapFits(t, l) && t.eba == s.eba[l := to] && t.role[from] == Pending && Payload(t.flash[to]) == v
        else t.eba == s.eba)
    && (steps != [] && !Doubtful(s, l) ==>
      && MoveIsSafe(s, l, v, steps[..|steps| - 1])
      && ((if r == Moved then Trusted(s.flash[from]) else !t.flash[to].vid.Good?) ==> MoveIsSafe(s, l, v, steps)))
  }

  predicate IsMappedTo(s: State, p: nat) {
    p < |s.flash| && s.flash[p].vid.Good? && s.flash[p].vid.value.leb in s.eba && s.eba[s.flash[p].vid.value.leb] == p
  }

  class Device {
    const size: nat
    const minIo: nat
    const vols: map<nat, VolHdr>
    const badAllowed: bool
    var flash: Image
    var role: seq<Role>
    var eba: map<Leb, nat>
    var sqnum: nat
    var roMode: bool
    ghost var ops: map<Leb, Op>
    ghost var rivals: set<nat>

    ghost function Now(): State
      reads this
    {
      State(size, minIo, vols, flash, role, eba, ops, rivals, sqnum)
    }

    ghost predicate Valid()
      reads this
    {
      Inv(Now())
    }

    /** A device that has just been attached. */
    constructor (s: State, badAllowed: bool)
      requires Inv(s)
      ensures Valid() && Now() == s && !roMode
    {
      this.size, this.minIo, this.vols, this.badAllowed := s.size, s.minIo, s.vols, badAllowed;
      flash, role, eba, sqnum, roMode := s.flash, s.role, s.eba, s.sqnum, false;
      ops, rivals := s.ops, s.rivals;
    }

    /** l is mapped to a PEB with this header, but for its number, and buf written at off. */
    ghost predicate Holds(l: Leb, hdr: Vid, off: nat, buf: seq<Byte>)
      reads this
    {
      && MapFits(Now(), l) && off + |buf| <= size
      && flash[eba[l]].vid.value == hdr.(sqnum := Sq(flash[eba[l]]))
      && flash[eba[l]].data == WriteAt(Blank(size), off, buf)
    }

    method NextSqnum() returns (n: nat)
      modifies this`sqnum
      ensures n == old(sqnum) && sqnum == n + 1
    {
      n := sqnum;
      sqnum := sqnum + 1;
    }

    /** No PEB is free. */
    predicate Exhausted()
      reads this
    {
      forall p | 0 <= p < |role| :: role[p] != Free
    }

    /** When writing to new PEBs ends, and how, if n attempts fail: only an I/O error on a device that
        tolerates bad PEBs is answered by another attempt, and only so often; another failure makes the
        device read-only.  Running out of PEBs does not. */
    ghost predicate Retried(answers: seq<Answer>, len: nat, n: nat, err: Errno)
      requires |answers| > IO_RETRIES
      reads this
    {
      && n <= IO_RETRIES + 1
      && (forall i | 0 <= i < n :: Attempted(answers[i], len) != Ok)
      && (forall i | 0 <= i < n - 1 :: Attempted(answers[i], len) == EIO && badAllowed)
      && (roMode <==> n > 0 && (Attempted(answers[n - 1], len) != EIO || !badAllowed || n > IO_RETRIES))
      && (roMode ==> err == if Attempted(answers[n - 1], len) == EIO && badAllowed then Ok else Attempted(answers[n - 1], len))
      && (!roMode && err == Ok ==> n <= IO_RETRIES && Attempted(answers[n], len) == Ok)
      && (!roMode && err != Ok ==> err == ENOSPC && Exhausted())
    }

    /** Some free PEB, which is erased once more; the choice is up to wear-leveling. */
    method GetPeb(l: Leb) returns (p: int)
      requires |role| == |flash|
      modifies this`flash, this`role
      ensures p < 0 ==> flash == old(flash) && role == old(role) && Exhausted()
      ensures p >= 0 ==>
        && p < |old(flash)| && old(role)[p] == Free
        && flash == old(flash)[p := Erased(old(flash)[p])] && role == old(role)[p := Reserved(l)]
    {
      if q: nat :| q < |role| && role[q] == Free {
        flash := flash[q := Erased(flash[q])];
        role := role[q := Reserved(l)];
        return q;
      }
      return -1;
    }

    method PutPeb(p: nat)
      requires p < |role|
      modifies this`role
      ensures role == old(role)[p := Pending]
    {
      role := role[p := Pending];
    }

    /** ubi_io_write_vid_hdr, which may fail half-way. */
    method ProgramVidHdr(p: nat, v: Vid, answer: Io) returns (err: Errno)
      requires p < |flash|
      modifies this`flash
      ensures |flash| == |old(flash)| && flash == old(flash)[p := flash[p]]
      ensures err == answer
      ensures err == Ok ==> flash[p] == old(flash)[p].(vid := Good(v))
      ensures err != Ok ==> HeaderLeft(old(flash)[p], flash[p], v)
    {
      err := answer;
      if err == Ok {
        flash := flash[p := flash[p].(vid := Good(v))];
        return;
      }
      var left: Peb := *;
      if HeaderLeft(flash[p], left, v) {
        flash := flash[p := left];
      }
    }

    /** ubi_io_write_data, which may fail half-way. */
    method ProgramData(p: nat, off: nat, buf: seq<Byte>, answer: Io) returns (err: Errno)
      requires p < |flash| && off + |buf| <= |flash[p].data|
      modifies this`flash
      ensures |flash| == |old(flash)| && flash == old(flash)[p := flash[p]]
      ensures err == answer
      ensures err == Ok ==> flash[p] == old(flash)[p].(data := WriteAt(old(flash)[p].data, off, buf))
      ensures DataLeft(old(flash)[p], flash[p], off, |buf|)
    {
      err := answer;
      if err == Ok {
        flash := flash[p := flash[p].(data := WriteAt(flash[p].data, off, buf))];
        return;
      }
      var left: Peb := *;
      if DataLeft(flash[p], left, off, |buf|) {
        flash := flash[p := left];
      }
    }

    /** Writes the VID header of the operation on l. */
    method WriteHdr(l: Leb, p: nat, v: Vid, answer: Io, ghost start: State, ghost done: seq<Step>)
      returns (err: Errno, ghost steps: seq<Step>, ghost mid: State)
      requires Legal(start, done) && Run(start, done) == Now() && Valid() && AtStage(Now(), l, Allocated)
      requires ops[l].to == p && ops[l].vid == v
      modifies this`flash, this`ops
      ensures p < |flash| && err == answer
      ensures steps == if err == Ok then done + [WriteHeader(l)] else done
      ensures err == Ok ==> Valid() && Legal(start, steps) && Run(start, steps) == Now()
      ensures err == Ok ==> AtStage(Now(), l, HeaderWritten) && l in ops && ops[l] == old(ops[l]).(stage := HeaderWritten)
      ensures err != Ok ==> mid == old(Now()) && FailsAt(start, steps, mid, l, p, flash[p])
      ensures err != Ok ==> Now() == mid.(flash := mid.flash[p := flash[p]])
    {
      hide Inv, Legal, Run, KindFits;
      steps, mid := done, Now();
      OwnPebs(mid, l);
      err := ProgramVidHdr(p, v, answer);
      if err == Ok {
        OneMore(start, steps, WriteHeader(l));
        steps := steps + [WriteHeader(l)];
        ops := ops[l := ops[l].(stage := HeaderWritten)];
        assert Now() == PutHeader(mid, l);
        OwnPebs(Now(), l);
      }
    }

    /** Writes the data of the operation on l, if there is any. */
    method WriteBuf(l: Leb, p: nat, off: nat, buf: seq<Byte>, answer: Io, ghost start: State, ghost done: seq<Step>)
      returns (err: Errno, ghost steps: seq<Step>, ghost mid: State)
      requires Legal(start, done) && Run(start, done) == Now() && Valid() && AtStage(Now(), l, HeaderWritten)
      requires ops[l].to == p && ops[l].off == off && ops[l].buf == buf
      modifies this`flash, this`ops
      ensures p < |flash| && err == if |buf| > 0 then answer else Ok
      ensures steps == if err == Ok then done + [WriteData(l)] else done
      ensures err == Ok ==> Valid() && Legal(start, steps) && Run(start, steps) == Now()
      ensures err == Ok ==> AtStage(Now(), l, DataWritten) && l in ops && ops[l] == old(ops[l]).(stage := DataWritten)
      ensures err != Ok ==> mid == old(Now()) && FailsAt(start, steps, mid, l, p, flash[p])
      ensures err != Ok ==> Now() == mid.(flash := mid.flash[p := flash[p]])
    {
      hide Inv, Legal, Run, KindFits;
      PebFits(Now(), p);
      steps, mid, err := done, Now(), Ok;
      OwnPebs(mid, l);
      if |buf| > 0 {
        err := ProgramData(p, off, buf, answer);
      } else {
        assert WriteAt(flash[p].data, off, buf) == flash[p].data;
      }
      if err == Ok {
        OneMore(start, steps, WriteData(l));
        steps := steps + [WriteData(l)];
        ops := ops[l := ops[l].(stage := DataWritten)];
        assert Now() == PutData(mid, l);
        OwnPebs(Now(), l);
      }
    }

    /** One attempt to write the header and the data of an operation to its PEB. */
    method Attempt(l: Leb, p: nat, v: Vid, off: nat, buf: seq<Byte>, answer: Answer, ghost start: State, ghost done: seq<Step>)
      returns (err: Errno, ghost steps: seq<Step>, ghost mid: State)
      requires Legal(start, done) && Run(start, done) == Now() && Valid() && AtStage(Now(), l, Allocated)
      requires ops[l].to == p && ops[l].vid == v && ops[l].off == off && ops[l].buf == buf
      modifies this`flash, this`ops
      ensures p < |flash| && err == Attempted(answer, |buf|)
      ensures forall kind | AllOwn(l, kind, buf, done) :: AllOwn(l, kind, buf, steps)
      ensures err == Ok ==> Valid() && Legal(start, steps) && Run(start, steps) == Now()
      ensures err == Ok ==> AtStage(Now(), l, DataWritten) && l in ops && ops[l] == old(ops[l]).(stage := DataWritten)
      ensures err != Ok ==> FailsAt(start, steps, mid, l, p, flash[p]) && Now() == mid.(flash := mid.flash[p := flash[p]])
      ensures err != Ok ==> mid.ops[l] == old(ops[l]).(stage := mid.ops[l].stage)
    {
      hide Inv, Legal, Run, KindFits, StageFits;
      err, steps, mid := WriteHdr(l, p, v, answer.header, start, done);
      if err == Ok {
        err, steps, mid := WriteBuf(l, p, off, buf, answer.data, start, steps);
      }
    }

    /** The operation on l is given up; its PEB, in whatever state, is not used any more. */
    ghost method DropOp(l: Leb, start: State, steps: seq<Step>, mid: State, left: Peb) returns (all: seq<Step>)
      requires OpFits(mid, l) && mid.ops[l].Target? && FailsAt(start, steps, mid, l, mid.ops[l].to, left)
      requires Now() == GivenBack(mid, l, left)
      modifies this`ops, this`rivals
      ensures all == steps + [Abandon(l, left)] && Valid()
      ensures Legal(start, all) && Run(start, all) == Now() && ops == MapWithout(mid.ops, l)
    {
      hide Inv, Legal, Run, OpFits, CutPeb;
      OwnPebs(mid, l);
      OneMore(start, steps, Abandon(l, left));
      ops := MapWithout(ops, l);
      rivals := GiveUp(mid, l, left).rivals;
      all := steps + [Abandon(l, left)];
      assert Now() == GiveUp(mid, l, left);
    }

    /** A PEB for the first attempt. */
    method FirstPeb(l: Leb, kind: Kind, hdr: Vid, off: nat, buf: seq<Byte>, ghost dataSize: nat)
      returns (p: int, v: Vid, ghost steps: seq<Step>)
      requires Valid() && CanWrite(Now(), l, kind, hdr, off, buf, dataSize)
      modifies this`flash, this`role, this`sqnum, this`ops
      ensures Valid() && Legal(old(Now()), steps) && Run(old(Now()), steps) == Now()
      ensures v == hdr.(sqnum := v.sqnum)
      ensures AllOwn(l, kind, buf, steps) && (p < 0 ==> ops == old(ops) && Exhausted())
      ensures p >= 0 ==> p < |flash| && AtStage(Now(), l, Allocated) && l in ops && ops[l] == Target(kind, p, v, off, buf, Allocated)
    {
      hide Inv, Legal, Run, Enabled, Apply, CanWrite, AtStage;
      ghost var start := Now();
      Beginning(start);
      SameLength(start);
      var n := NextSqnum();
      v := hdr.(sqnum := n);
      p := GetPeb(l);
      if p < 0 {
        Wasting(start);
        steps := [WasteSqnum];
        OneMore(start, [], WasteSqnum);
      } else {
        FirstAttempt(start, l, kind, p, hdr, off, buf, dataSize);
        steps := [BeginStep(l, kind, p, off, buf, dataSize)];
        OneMore(start, [], steps[0]);
        ops := ops[l := Target(kind, p, v, off, buf, Allocated)];
      }
      assert [] + steps == steps;
    }

    /** The PEB of the failed attempt has been given back: another one is taken. */
    method AnotherPeb(l: Leb, v: Vid, ghost start: State, ghost done: seq<Step>, ghost mid: State, ghost left: Peb)
      returns (q: int, w: Vid, ghost steps: seq<Step>)
      requires OpFits(mid, l) && mid.ops[l].Target? && FailsAt(start, done, mid, l, mid.ops[l].to, left)
      requires Now() == GivenBack(mid, l, left) && mid.ops[l].kind != Move && mid.ops[l].vid == v
      requires AllOwn(l, mid.ops[l].kind, mid.ops[l].buf, done)
      modifies this`flash, this`role, this`sqnum, this`ops, this`rivals
      ensures Valid() && Legal(start, steps) && Run(start, steps) == Now()
      ensures w == v.(sqnum := w.sqnum)
      ensures q >= 0 ==> AllOwn(l, mid.ops[l].kind, mid.ops[l].buf, steps)
      ensures q >= 0 ==> q < |flash| && AtStage(Now(), l, Allocated)
      ensures q >= 0 ==> l in ops && ops[l] == mid.ops[l].(to := q, vid := w, stage := Allocated)
      ensures q < 0 ==> ops == MapWithout(mid.ops, l) && OwnRun(l, mid.ops[l].kind, mid.ops[l].buf, steps) && Exhausted()
    {
      hide Inv, Legal, Run, CutPeb, KindFits, StageFits;
      ghost var kind, buf := mid.ops[l].kind, mid.ops[l].buf;
      var n := NextSqnum();
      w := v.(sqnum := n);
      q := GetPeb(l);
      if q < 0 {
        WasteFails(start, done, mid, l, left);
        steps := DropOp(l, start, done + [WasteSqnum], Wasted(mid), left);
        OwnSnoc(l, kind, buf, done, WasteSqnum);
        OwnEnds(l, kind, buf, done + [WasteSqnum], left);
        return;
      }
      OneMore(start, done, WriteError(l, left, q));
      steps := done + [WriteError(l, left, q)];
      ops := ops[l := mid.ops[l].(to := q, vid := w, stage := Allocated)];
      assert Now() == Retry(mid, l, left, q);
      OwnPebs(Now(), l);
    }

    /** write_error: the PEB of the failed attempt is given back and another one taken, unless the
        operation is given up.  Then the device goes read-only; err is Ok, strangely, if it is only
        the number of attempts that was exceeded. */
    method NextPeb(l: Leb, p: nat, v: Vid, failure: Errno, tries: nat, ghost start: State, ghost done: seq<Step>, ghost mid: State)
      returns (q: int, w: Vid, err: Errno, ghost steps: seq<Step>)
      requires p < |flash| && FailsAt(start, done, mid, l, p, flash[p]) && Now() == mid.(flash := mid.flash[p := flash[p]])
      requires mid.ops[l].kind != Move && mid.ops[l].vid == v && (failure == EIO || failure == OtherError) && !roMode
      requires AllOwn(l, mid.ops[l].kind, mid.ops[l].buf, done)
      modifies this
      ensures Valid() && Legal(start, steps) && Run(start, steps) == Now() && eba == old(eba)
      ensures w == v.(sqnum := w.sqnum)
      ensures q >= 0 ==> AllOwn(l, mid.ops[l].kind, mid.ops[l].buf, steps)
      ensures q >= 0 ==> q < |flash| && AtStage(Now(), l, Allocated)
      ensures q >= 0 ==> l in ops && ops[l] == mid.ops[l].(to := q, vid := w, stage := Allocated)
      ensures q < 0 ==> ops == MapWithout(mid.ops, l)
      ensures roMode <==> failure == OtherError || !badAllowed || tries >= IO_RETRIES
      ensures roMode ==> q < 0 && err == if failure == EIO && badAllowed then Ok else failure
      ensures !roMode && q < 0 ==> err == ENOSPC && Exhausted()
      ensures q < 0 ==> OwnRun(l, mid.ops[l].kind, mid.ops[l].buf, steps)
    {
      hide Inv, Legal, Run, CutPeb, KindFits, StageFits;
      ghost var left, kind, buf := flash[p], mid.ops[l].kind, mid.ops[l].buf;
      w := v;
      var giveUp := failure != EIO || !badAllowed;
      err := if giveUp then failure else Ok;
      PutPeb(p);
      assert Now() == GivenBack(mid, l, left);
      if giveUp || tries + 1 > IO_RETRIES {
        steps := DropOp(l, start, done, mid, left);
        OwnEnds(l, kind, buf, done, left);
        roMode := true;
        q := -1;
        return;
      }
      q, w, steps := AnotherPeb(l, v, start, done, mid, left);
      if q < 0 {
        err := ENOSPC;
      }
    }

    /** The table is changed, and the PEB l was mapped to is given back. */
    method Remap(l: Leb, p: nat, ghost start: State, ghost done: seq<Step>) returns (ghost steps: seq<Step>)
      requires Valid() && Legal(start, done) && Run(start, done) == Now()
      requires AtStage(Now(), l, DataWritten) && ops[l].to == p
      modifies this`role, this`eba, this`ops, this`rivals
      ensures Valid() && steps == done + [Commit(l)] && Legal(start, steps) && Run(start, steps) == Now()
      ensures l !in ops && MapFits(Now(), l) && eba == old(eba)[l := p]
      ensures flash[p].vid.value == old(ops[l].vid)
      ensures flash[p].data == WriteAt(Blank(size), old(ops[l].off), old(ops[l].buf))
    {
      hide Inv, Legal, Run, KindFits;
      ghost var before := Now();
      OwnPebs(before, l);
      OneMore(start, done, Commit(l));
      steps := done + [Commit(l)];
      if l in eba {
        PutPeb(eba[l]);
      }
      role := role[p := Mapped(l)];
      eba := eba[l := p];
      ops := MapWithout(ops, l);
      rivals := LebSteps.Remap(before, l).rivals;
      assert Now() == LebSteps.Remap(before, l);
      OwnPebs(Now(), l);
    }

    /** The operation on l, whose PEB has just been taken, is to write buf. */
    ghost predicate Writing(l: Leb, kind: Kind, p: int, v: Vid, off: nat, buf: seq<Byte>, stage: Stage)
      reads this
    {
      && 0 <= p < |flash| && !roMode && AtStage(Now(), l, stage)
      && l in ops && ops[l] == Target(kind, p, v, off, buf, stage)
    }

    /** One attempt, and the PEB for the next one if it fails. */
    method AttemptOrNext(l: Leb, kind: Kind, p: nat, v: Vid, off: nat, buf: seq<Byte>, tries: nat, answer: Answer,
                         ghost start: State, ghost done: seq<Step>)
      returns (q: int, w: Vid, err: Errno, ghost steps: seq<Step>)
      requires Valid() && Legal(start, done) && Run(start, done) == Now() && AllOwn(l, kind, buf, done)
      requires Writing(l, kind, p, v, off, buf, Allocated) && kind != Move
      modifies this
      ensures Valid() && Legal(start, steps) && Run(start, steps) == Now() && eba == old(eba)
      ensures w == v.(sqnum := w.sqnum)
      ensures Attempted(answer, |buf|) == Ok ==> q == p && err == Ok && Writing(l, kind, p, w, off, buf, DataWritten)
      ensures Attempted(answer, |buf|) != Ok && q >= 0 ==> Writing(l, kind, q, w, off, buf, Allocated) && err == Attempted(answer, |buf|)
      ensures var failure := Attempted(answer, |buf|);
        && (roMode <==> failure != Ok && (failure == OtherError || !badAllowed || tries >= IO_RETRIES))
        && (roMode ==> q < 0 && err == if failure == EIO && badAllowed then Ok else failure)
      ensures !roMode && q < 0 ==> err == ENOSPC && Exhausted()
      ensures q >= 0 ==> AllOwn(l, kind, buf, steps)
      ensures q < 0 ==> l !in ops && OwnRun(l, kind, buf, steps)
    {
      hide Inv, Legal, Run, OpFits, FailsAt, AllOwn, OwnRun;
      ghost var mid;
      err, steps, mid := Attempt(l, p, v, off, buf, answer, start, done);
      if err == Ok {
        return p, v, Ok, steps;
      }
      q, w, err, steps := NextPeb(l, p, v, err, tries, start, steps, mid);
      if q >= 0 {
        err := EIO;
      }
    }

    /** Writing buf to a new PEB, which l is then mapped to.  The retry loop is the same for
        unmapped LEBs, static volumes and atomic changes; n attempts failed. */
    method WriteNew(l: Leb, kind: Kind, hdr: Vid, off: nat, buf: seq<Byte>, answers: seq<Answer>, ghost dataSize: nat)
      returns (err: Errno, ghost n: nat, ghost steps: seq<Step>)
      requires |answers| > IO_RETRIES
      requires Valid() && !roMode && CanWrite(Now(), l, kind, hdr, off, buf, dataSize)
      modifies this
      ensures Valid() && Legal(old(Now()), steps) && Run(old(Now()), steps) == Now() && OwnRun(l, kind, buf, steps)
      ensures l !in ops && Retried(answers, |buf|, n, err)
      ensures err == Ok && !roMode ==> Holds(l, hdr, off, buf)
      ensures !(err == Ok && !roMode) ==> eba == old(eba)
    {
      hide Inv, Legal, Run, OpFits, AllOwn, OwnRun, AtStage, CanWrite, MapFits;
      ghost var start := Now();
      CanWriteMeans(start, l, kind, hdr, off, buf, dataSize);
      var p, v;
      p, v, steps := FirstPeb(l, kind, hdr, off, buf, dataSize);
      if p < 0 {
        AllOwnRun(l, kind, buf, steps);
        return ENOSPC, 0, steps;
      }
      var tries := 0;
      err, n := EIO, 0;
      while err != Ok
        invariant Valid() && Legal(start, steps) && Run(start, steps) == Now() && AllOwn(l, kind, buf, steps)
        invariant Writing(l, kind, p, v, off, buf, if err == Ok then DataWritten else Allocated)
        invariant v == hdr.(sqnum := v.sqnum) && eba == old(eba) && n == tries <= IO_RETRIES
        invariant (forall i | 0 <= i < tries :: Attempted(answers[i], |buf|) == EIO) && (tries > 0 ==> badAllowed)
        invariant err == Ok ==> Attempted(answers[tries], |buf|) == Ok
        decreases if err == Ok then 0 else IO_RETRIES - tries + 1
      {
        n := if Attempted(answers[tries], |buf|) == Ok then tries else tries + 1;
        p, v, err, steps := AttemptOrNext(l, kind, p, v, off, buf, tries, answers[tries], start, steps);
        if p < 0 {
          return;
        }
        if err != Ok {
          tries := tries + 1;
        }
      }
      OwnSnoc(l, kind, buf, steps, Commit(l));
      steps := Remap(l, p, start, steps);
      NewlyMapped(l, p, hdr, v, off, buf);
      AllOwnRun(l, kind, buf, steps);
    }

    lemma NewlyMapped(l: Leb, p: nat, hdr: Vid, v: Vid, off: nat, buf: seq<Byte>)
      requires MapFits(Now(), l) && eba[l] == p && off + |buf| <= size && v == hdr.(sqnum := v.sqnum)
      requires flash[p].vid.value == v && flash[p].data == WriteAt(Blank(size), off, buf)
      ensures Holds(l, hdr, off, buf)
    {
    }

    /** ubi_eba_unmap_leb, by a caller that has the lock of l. */
    method UnmapLeb(l: Leb) returns (err: Errno)
      requires Valid() && l !in ops
      modifies this`role, this`eba
      ensures Valid() && (err == Ok <==> !roMode)
      ensures Now() == if !roMode && l in old(eba) then Drop(old(Now()), l) else old(Now())
    {
      if roMode {
        return EROFS;
      }
      if l in eba {
        UnmapRun(Now(), l);
        hide *;
        var p := eba[l];
        eba := MapWithout(eba, l);
        PutPeb(p);
      }
      return Ok;
    }

    /** The special case of a change to length zero: the LEB is unmapped and mapped elsewhere. */
    method ChangeToNothing(l: Leb, answers: seq<Answer>) returns (err: Errno, ghost n: nat, ghost steps: seq<Step>)
      requires Valid() && l !in ops && l.vol in vols && !vols[l.vol].isStatic && !roMode && |answers| > IO_RETRIES
      modifies this
      ensures Valid() && Legal(old(Now()), steps) && Run(old(Now()), steps) == Now()
      ensures Retried(answers, 0, n, err)
      ensures err == Ok && !roMode ==> Holds(l, Vid(l, 0, false, vols[l.vol], 0, []), 0, [])
      ensures !(err == Ok && !roMode) ==> eba == MapWithout(old(eba), l)
      ensures forall k | k != l :: ChangesOnly(k, {}, steps)
    {
      hide Inv, Legal, Run, OpFits, KindFits, StageFits, RoleFits, Appends;
      ghost var start, first: seq<Step> := Now(), if l in eba then [Unmap(l)] else [];
      UnmapsFirst(start, l);
      err := UnmapLeb(l);
      assert Now() == Run(start, first);
      ghost var more;
      err, n, more := WriteLeb(l, 0, [], answers);
      RunConcat(start, first, more);
      steps := first + more;
      forall k | k != l
        ensures ChangesOnly(k, {}, steps)
      {
        assert ChangesOnly(k, {}, first) && ChangesOnly(k, {}, more);
      }
    }

    /** ubi_eba_atomic_leb_change of a LEB of a dynamic volume. */
    method AtomicLebChange(l: Leb, buf: seq<Byte>, answers: seq<Answer>) returns (err: Errno, ghost n: nat, ghost steps: seq<Step>)
      requires Valid() && l !in ops && l.vol in vols && !vols[l.vol].isStatic && |buf| <= size && |answers| > IO_RETRIES
      modifies this
      ensures Valid() && Legal(old(Now()), steps) && Run(old(Now()), steps) == Now()
      ensures if old(roMode) then err == EROFS && Now() == old(Now()) && roMode else Retried(answers, |buf|, n, err)
      ensures err == Ok && !roMode ==> Holds(l, Vid(l, 0, |buf| > 0, vols[l.vol], |buf|, buf), 0, buf)
      ensures !(err == Ok && !roMode) ==> eba == if |buf| > 0 || old(roMode) then old(eba) else MapWithout(old(eba), l)
      ensures |buf| > 0 && l in old(eba) && !Doubtful(old(Now()), l) ==> ChangeIsSafe(old(Now()), l, buf, steps)
      ensures forall k | k != l :: ChangesOnly(k, {}, steps)
    {
      ghost var start := Now();
      if roMode {
        steps := [];
        if l in start.eba && !Doubtful(start, l) {
          OwnPebs(start, l);
          ChangeIsSafeWhenOwn(start, l, buf, steps);
        }
        return EROFS, 0, steps;
      }
      if |buf| == 0 {
        err, n, steps := ChangeToNothing(l, answers);
        return;
      }
      var hdr := Vid(l, 0, true, vols[l.vol], |buf|, buf);
      err, n, steps := WriteNew(l, Swap, hdr, 0, buf, answers, 0);
      forall k | k != l
        ensures ChangesOnly(k, {}, steps)
      {
        OwnRunSparesOthers(l, Swap, buf, steps, k);
      }
      if l in start.eba && !Doubtful(start, l) {
        OwnPebs(start, l);
        ChangeIsSafeWhenOwn(start, l, buf, steps);
      }
    }

    /** The part of ubi_eba_write_leb for mapped LEBs. */
    method WriteMapped(l: Leb, off: nat, buf: seq<Byte>, answer: Io) returns (err: Errno, ghost steps: seq<Step>)
      requires Valid() && !roMode && l !in ops && MapFits(Now(), l) && Appends(flash[eba[l]], off, |buf|)
      modifies this`flash, this`roMode
      ensures Valid() && Legal(old(Now()), steps) && Run(old(Now()), steps) == Now()
      ensures err == answer && (roMode <==> err != Ok)
      ensures err == Ok ==> flash[eba[l]].data == WriteAt(old(flash[eba[l]].data), off, buf)
      ensures !Doubtful(old(Now()), l) ==> WriteIsSafe(old(Now()), l, off, buf, steps)
      ensures forall k | k != l :: ChangesOnly(k, {}, steps)
    {
      hide Inv, Legal, Run, WriteIsSafe;
      ghost var start := Now();
      var p := eba[l];
      err := ProgramData(p, off, buf, answer);
      InPlaceRun(start, l, off, buf, flash[p]);
      steps := [BeginInPlace(l, off, buf), EndInPlace(l, flash[p])];
      assert Now() == start.(flash := start.flash[p := flash[p]]);
      if err != Ok {
        roMode := true;
      }
    }

    /** ubi_eba_write_leb: data is added to a mapped LEB, or an unmapped one gets a PEB first. */
    method WriteLeb(l: Leb, off: nat, buf: seq<Byte>, answers: seq<Answer>) returns (err: Errno, ghost n: nat, ghost steps: seq<Step>)
      requires Valid() && l !in ops && l.vol in vols && !vols[l.vol].isStatic && off + |buf| <= size && |answers| > IO_RETRIES
      requires l in eba ==> Appends(flash[eba[l]], off, |buf|)
      modifies this
      ensures Valid() && Legal(old(Now()), steps) && Run(old(Now()), steps) == Now()
      ensures old(roMode) ==> err == EROFS && Now() == old(Now()) && roMode
      ensures !old(roMode) && l in old(eba) ==> err == answers[0].data && (roMode <==> err != Ok)
      ensures !old(roMode) && l !in old(eba) ==> Retried(answers, |buf|, n, err)
      ensures l in old(eba) || !(err == Ok && !roMode) ==> eba == old(eba)
      ensures err == Ok && !roMode && l in old(eba) ==> flash[eba[l]].data == WriteAt(old(flash[eba[l]].data), off, buf)
      ensures err == Ok && !roMode && l !in old(eba) ==> Holds(l, Vid(l, 0, false, vols[l.vol], 0, []), off, buf)
      ensures l in old(eba) && !Doubtful(old(Now()), l) ==> WriteIsSafe(old(Now()), l, off, buf, steps)
      ensures forall k | k != l :: ChangesOnly(k, {}, steps)
    {
      if roMode {
        if l in eba && !Doubtful(Now(), l) {
          OwnPebs(Now(), l);
          NothingIsSafe(Now(), l, off, buf);
        }
        return EROFS, 0, [];
      }
      if l in eba {
        err, steps := WriteMapped(l, off, buf, answers[0].data);
        n := 0;
        return;
      }
      var hdr := Vid(l, 0, false, vols[l.vol], 0, []);
      err, n, steps := WriteNew(l, Fresh, hdr, off, buf, answers, 0);
      forall k | k != l
        ensures ChangesOnly(k, {}, steps)
      {
        OwnRunSparesOthers(l, Fresh, buf, steps, k);
      }
    }

    /** ubi_eba_write_leb_st: a LEB of a static volume is written once, size and checksum of its
        data going to the header; the buffer is padded to whole pages. */
    method WriteLebSt(l: Leb, buf: seq<Byte>, len: nat, usedEbs: nat, answers: seq<Answer>)
      returns (err: Errno, ghost n: nat, ghost steps: seq<Step>)
      requires Valid() && l !in ops && l !in eba && l.vol in vols && vols[l.vol].isStatic
      requires usedEbs == vols[l.vol].usedEbs && minIo > 0 && len <= |buf| <= size && |answers| > IO_RETRIES
      requires |buf| == if l.lnum == usedEbs - 1 then AlignUp(len, minIo) else len
      modifies this
      ensures Valid() && Legal(old(Now()), steps) && Run(old(Now()), steps) == Now()
      ensures if old(roMode) then err == EROFS && Now() == old(Now()) && roMode else Retried(answers, |buf|, n, err)
      ensures err == Ok && !roMode ==> Holds(l, Vid(l, 0, false, vols[l.vol], len, buf[..len]), 0, buf)
      ensures err == Ok && !roMode ==> Payload(flash[eba[l]]) == buf[..len]
      ensures !(err == Ok && !roMode) ==> eba == old(eba)
      ensures forall k | k != l :: ChangesOnly(k, {}, steps)
    {
      if roMode {
        return EROFS, 0, [];
      }
      var padded := if l.lnum == usedEbs - 1 then AlignUp(len, minIo) else len;
      var hdr := Vid(l, 0, false, vols[l.vol], len, buf[..len]);
      err, n, steps := WriteNew(l, Fresh, hdr, 0, buf[..padded], answers, len);
      assert buf[..padded] == buf;
      forall k | k != l
        ensures ChangesOnly(k, {}, steps)
      {
        OwnRunSparesOthers(l, Fresh, buf, steps, k);
      }
      if err == Ok && !roMode {
        assert WriteAt(Blank(size), 0, buf)[..len] == buf[..len];
      }
    }

    /** How much of PEB from is copied. */
    method CopyLength(from: nat) returns (n: nat)
      requires minIo > 0 && from < |flash| && flash[from].vid.Good?
      requires |flash[from].data| % minIo == 0 && flash[from].vid.value.dataSize <= |flash[from].data|
      ensures n == MoveLen(flash[from], minIo)
    {
      if flash[from].vid.value.vol.isStatic {
        n := AlignUp(flash[from].vid.value.dataSize, minIo);
      } else {
        n := CalcDataLen(flash[from].data, minIo);
      }
    }

    /** The header of the copy, and what is to be written after it.  Checksum, size and flag are only
        set when there is data. */
    method CopyHeader(from: nat) returns (v: Vid, buf: seq<Byte>)
      requires minIo > 0 && from < |flash| && flash[from].vid.Good?
      requires |flash[from].data| % minIo == 0 && flash[from].vid.value.dataSize <= |flash[from].data|
      modifies this`sqnum
      ensures v == MoveVid(flash[from], minIo, old(sqnum)) && sqnum == old(sqnum) + 1
      ensures buf == flash[from].data[..MoveLen(flash[from], minIo)]
    {
      hide MoveLen, MoveVid, AlignUp, DataLen;
      MoveVidIs(flash[from], minIo, sqnum);
      v := flash[from].vid.value;
      var n := CopyLength(from);
      var dataSize := if v.vol.isStatic then v.dataSize else n;
      buf := flash[from].data[..n];
      if dataSize > 0 {
        v := v.(copyFlag := true, dataSize := dataSize, crc := flash[from].data[..dataSize]);
      }
      var number := NextSqnum();
      v := v.(sqnum := number);
    }

    /** The target is reserved, with a new number for the copy. */
    method BeginCopy(from: nat, to: nat) returns (v: Vid, buf: seq<Byte>, ghost steps: seq<Step>)
      requires Valid() && IsMappedTo(Now(), from) && IsFree(Now(), to) && IsBlank(flash[to], size)
      requires flash[from].vid.value.leb !in ops
      modifies this`role, this`sqnum, this`ops
      ensures Valid() && steps == [BeginMove(v.leb, to)]
      ensures Legal(old(Now()), steps) && Run(old(Now()), steps) == Now() && v.leb == flash[from].vid.value.leb
      ensures minIo > 0 && |flash[from].data| == size && size % minIo == 0 && flash[from].vid.value.dataSize <= size
      ensures v == MoveVid(flash[from], minIo, v.sqnum) && buf == flash[from].data[..MoveLen(flash[from], minIo)]
      ensures AtStage(Now(), v.leb, Allocated) && v.leb in ops && ops[v.leb] == Target(Move, to, v, 0, buf, Allocated)
    {
      hide Inv, Legal, Run, KindFits, StageFits, OpFits, MoveVid, MoveLen, RoleFits, MapFits, Enabled, Apply, IsBlank, VidFits;
      ghost var start := Now();
      var l := flash[from].vid.value.leb;
      MoveIsEnabled(start, from, to);
      BeginMoveRun(start, l, to);
      MoveVidNumber(flash[from], minIo, sqnum);
      v, buf := CopyHeader(from);
      steps := [BeginMove(l, to)];
      role := role[to := Reserved(l)];
      ops := ops[l := Target(Move, to, v, 0, buf, Allocated)];
    }

    /** The target of the move is given up in whatever state it is. */
    method CancelMove(l: Leb, from: nat, to: nat, why: MoveResult, ghost start: State, ghost done: seq<Step>, ghost mid: State)
      returns (r: MoveResult, ghost steps: seq<Step>)
      requires to < |flash| && FailsAt(start, done, mid, l, to, flash[to]) && Now() == mid.(flash := mid.flash[to := flash[to]])
      requires IsMappedTo(start, from) && start.flash[from].vid.value.leb == l && why != Moved && why != CancelRace
      requires Moving(start, mid, l, from, to, done)
      modifies this`role, this`ops, this`rivals
      ensures Valid() && Legal(start, steps) && Run(start, steps) == Now() && |flash| == |role| == |start.flash| && r == why
      ensures MoveEnds(start, Now(), from, to, r, steps)
    {
      hide Inv, Legal, Run, CutPeb, KindFits, StageFits, Moving, MoveEnds;
      ghost var left := flash[to];
      PutPeb(to);
      assert Now() == GivenBack(mid, l, left);
      r := why;
      MoveCancelled(start, mid, l, from, to, done, left, r);
      steps := DropOp(l, start, done, mid, left);
    }

    /** The header of the copy is written and read back; done says that all is well. */
    method CopyHdr(l: Leb, from: nat, to: nat, v: Vid, a: MoveAnswer, ghost start: State, ghost before: seq<Step>)
      returns (r: MoveResult, ghost steps: seq<Step>, ghost mid: State)
      requires Moving(start, Now(), l, from, to, before) && AtStage(Now(), l, Allocated) && ops[l].vid == v
      modifies this`flash, this`ops
      ensures to < |flash| && r != CancelRace && Moving(start, mid, l, from, to, steps)
      ensures a.sourceReads ==> r == Outcome(a, false)
      ensures r == Moved ==> mid == Now() && AtStage(mid, l, HeaderWritten) && l in ops && ops[l] == old(ops[l]).(stage := HeaderWritten)
      ensures r != Moved ==> FailsAt(start, steps, mid, l, to, flash[to]) && Now() == mid.(flash := mid.flash[to := flash[to]])
    {
      hide Inv, Legal, Run, KindFits, StageFits, RoleFits, MapFits, Moving, OpFits, Apply, CutPeb;
      ghost var first := Now();
      MovingIs(start, first, l, from, to, before);
      WriteIsEnabled(first, l);
      var err;
      MoveGoesOn(start, first, l, from, to, before, WriteHeader(l));
      err, steps, mid := WriteHdr(l, to, v, a.write.header, start, before);
      if err == Ok {
        MovingIs(start, Apply(first, WriteHeader(l)), l, from, to, steps);
        mid := Now();
        r := ReadBack(a.headerBack);
        if r != Moved {
          ReadBackFails(start, steps, mid, l, from, to);
        }
      } else {
        r := if err == EIO then TargetWriteError else MoveFailed;
      }
    }

    /** The same for the data, if there is any. */
    method CopyData(l: Leb, from: nat, to: nat, buf: seq<Byte>, a: MoveAnswer, ghost start: State, ghost before: seq<Step>)
      returns (r: MoveResult, ghost steps: seq<Step>, ghost mid: State)
      requires Moving(start, Now(), l, from, to, before) && AtStage(Now(), l, HeaderWritten)
      requires ops[l].off == 0 && ops[l].buf == buf
      modifies this`flash, this`ops
      ensures to < |flash| && r != CancelRace && Moving(start, mid, l, from, to, steps)
      ensures a.sourceReads && Outcome(a, false) == Moved ==> r == Outcome(a, |buf| > 0)
      ensures r == Moved ==> mid == Now() && AtStage(mid, l, DataWritten) && l in ops && ops[l] == old(ops[l]).(stage := DataWritten)
      ensures r != Moved ==> FailsAt(start, steps, mid, l, to, flash[to]) && Now() == mid.(flash := mid.flash[to := flash[to]])
    {
      hide Inv, Legal, Run, KindFits, StageFits, RoleFits, MapFits, Moving, OpFits, Apply, CutPeb;
      ghost var first := Now();
      MovingIs(start, first, l, from, to, before);
      WriteIsEnabled(first, l);
      var err;
      MoveGoesOn(start, first, l, from, to, before, WriteData(l));
      err, steps, mid := WriteBuf(l, to, 0, buf, a.write.data, start, before);
      if err == Ok {
        MovingIs(start, Apply(first, WriteData(l)), l, from, to, steps);
        mid, r := Now(), Moved;
        if |buf| > 0 {
          r := ReadBack(a.dataBack);
        }
        if r != Moved {
          ReadBackFails(start, steps, mid, l, from, to);
        }
      } else {
        r := if err == EIO then TargetWriteError else MoveFailed;
      }
    }

    /** What was written is read back. */
    method ReadBack(back: Back) returns (r: MoveResult)
      ensures r == match back case Same => Moved case Bitflips => CancelBitflips case Unreadable => TargetReadError case Different => MoveFailed
    {
      match back
      case Same => r := Moved;
      case Bitflips => r := CancelBitflips;
      case Unreadable => r := TargetReadError;
      case Different => r := MoveFailed;
    }

    /** Header and data of the copy are written, read back and compared, and l is mapped to it. */
    method WriteCopy(l: Leb, from: nat, to: nat, v: Vid, buf: seq<Byte>, a: MoveAnswer, ghost start: State, ghost done: seq<Step>)
      returns (r: MoveResult, ghost steps: seq<Step>)
      requires Moving(start, Now(), l, from, to, done) && AtStage(Now(), l, Allocated)
      requires IsMappedTo(start, from) && start.flash[from].vid.value.leb == l
      requires ops[l].vid == v && ops[l].off == 0 && ops[l].buf == buf && TrustsCopy(Now(), l) && a.sourceReads
      modifies this
      ensures Valid() && Legal(start, steps) && Run(start, steps) == Now() && |flash| == |role| == |start.flash|
      ensures r == Outcome(a, |buf| > 0) && r != CancelRace && MoveEnds(start, Now(), from, to, r, steps)
    {
      hide Inv, Legal, Run, KindFits, StageFits, Moving, OpFits, MoveEnds, FailsAt;
      MovingIs(start, Now(), l, from, to, done);
      ghost var mid;
      r, steps, mid := CopyHdr(l, from, to, v, a, start, done);
      if r == Moved {
        r, steps, mid := CopyData(l, from, to, buf, a, start, steps);
      }
      if r != Moved {
        r, steps := CancelMove(l, from, to, r, start, steps, mid);
        return;
      }
      MovingIs(start, mid, l, from, to, steps);
      assert mid.flash[from] == old(flash[from]) && Complete(mid.ops[l], size) == Complete(old(ops[l]), size);
      MoveCommits(start, mid, l, from, to, steps);
      steps := Remap(l, to, start, steps);
    }

    /** ubi_eba_copy_leb, for a target that reads as erased.  It never waits for the lock of the
        LEB: contended says that somebody else has it. */
    method CopyLeb(from: nat, to: nat, contended: bool, a: MoveAnswer) returns (r: MoveResult, ghost steps: seq<Step>)
      requires Valid() && from < |flash| && flash[from].vid.Good? && IsFree(Now(), to) && IsBlank(flash[to], size)
      requires contended || flash[from].vid.value.leb !in ops
      modifies this
      ensures Valid() && Legal(old(Now()), steps) && Run(old(Now()), steps) == Now()
      ensures |flash| == |role| == |old(flash)|
      ensures r == CancelRace <==> contended || !IsMappedTo(old(Now()), from)
      ensures r != CancelRace ==> CanBeCopied(old(Now()), from) && r == Outcome(a, MoveLen(old(flash)[from], minIo) > 0)
      ensures MoveEnds(old(Now()), Now(), from, to, r, steps)
    {
      hide Inv, KindFits, StageFits, OpFits, MoveVid, MoveLen, Moving;
      ghost var start := Now();
      var l := flash[from].vid.value.leb;
      if contended || l !in eba || eba[l] != from {
        return CancelRace, [];
      }
      CopyIsPossible(start, from);
      if !a.sourceReads {
        return SourceReadError, [];
      }
      hide Legal, Run, MoveEnds;
      OwnPebs(start, l);
      MoveBegins(start, l, to);
      var v, buf;
      v, buf, steps := BeginCopy(from, to);
      CopyWillBeTrusted(Now(), l, from, v, buf);
      r, steps := WriteCopy(l, from, to, v, buf, a, start, steps);
    }
  }
}
