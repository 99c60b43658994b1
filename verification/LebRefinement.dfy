/** The LEB layer refines a map from LEBs to bytes whose changes are atomic and which keeps, over
    any number of power cuts, everything the operations promise to keep. */
module LebRefinement {
  import opened Flash
  import opened LebInvariant
  import opened LebLayer
  import opened LebSteps
  import opened Misc
  import opened Wrappers

  // ---- The simple map -----------------------------------------------------------------------

  /** What a user of the LEB knows to be under way on it. */
  datatype Busy =
    | Writing(bytes: seq<Byte>)
    | Changing(bytes: seq<Byte>)
    | Appending(off: nat, bytes: seq<Byte>)

  /** What another copy of a LEB may show: exactly this, or, without a checksum, anything. */
  datatype Alt = Exact(bytes: seq<Byte>) | Any

  /** doubted: LEBs with copies, left by moves or changes given up too late, that may come back. */
  datatype Store = Store(vals: map<Leb, seq<Byte>>, busy: map<Leb, Busy>, doubted: map<Leb, set<Alt>>)

  datatype Act =
    | Begin(leb: Leb, what: Busy)
    | Finish(leb: Leb)
    | Fail(leb: Leb, any: bool)
    | Tear(leb: Leb, left: seq<Byte>)
    | Forget(leb: Leb)
    | Internal
    | Doubt(leb: Leb, any: bool)
    | Cut

  predicate SameOutside(a: seq<Byte>, b: seq<Byte>, off: nat, n: nat) {
    |a| == |b| && forall i | 0 <= i < |a| && !(off <= i < off + n) :: a[i] == b[i]
  }

  /** What may be read after a power cut from a LEB that held v. */
  predicate Survives(a: Store, l: Leb, v': seq<Byte>)
    requires l in a.vals
  {
    if l !in a.busy then v' == a.vals[l]
    else match a.busy[l]
         case Writing(_) => v' == a.vals[l]
         case Changing(new_) => v' == a.vals[l] || v' == new_
         case Appending(off, buf) => SameOutside(a.vals[l], v', off, |buf|)
  }

  /** No LEB is doubted for another reason than before, but l for these. */
  ghost predicate DoubtsBut(b: map<Leb, set<Alt>>, a: map<Leb, set<Alt>>, l: Leb, more: set<Alt>) {
    forall k | k in b :: (k in a || k == l) && b[k] <= (if k in a then a[k] else {}) + (if k == l then more else {})
  }

  ghost predicate NoMoreDoubts(b: map<Leb, set<Alt>>, a: map<Leb, set<Alt>>) {
    forall k | k in b :: k in a && b[k] <= a[k]
  }

  /** What may be read of a doubted LEB instead. */
  predicate ComesBack(a: Store, l: Leb, v': seq<Byte>) {
    l in a.doubted && (Any in a.doubted[l] || Exact(v') in a.doubted[l])
  }

  /** any: a copy that is left has no checksum. */
  ghost predicate SpecNext(a: Store, act: Act, b: Store) {
    match act
    case Begin(l, what) =>
      l !in a.busy && b == a.(busy := a.busy[l := what])
    case Finish(l) =>
      && l in a.busy && b.busy == MapWithout(a.busy, l) && NoMoreDoubts(b.doubted, a.doubted)
      && (match a.busy[l]
          case Writing(v) => b.vals == a.vals[l := v] && l !in b.doubted
          case Changing(v) => b.vals == a.vals[l := v] && l !in b.doubted
          case Appending(off, buf) =>
            l in a.vals && off + |buf| <= |a.vals[l]| && b.vals == a.vals[l := WriteAt(a.vals[l], off, buf)])
    case Fail(l, any) =>
      && l in a.busy && !a.busy[l].Appending? && b.vals == a.vals && b.busy == MapWithout(a.busy, l)
      && DoubtsBut(b.doubted, a.doubted, l, {if any then Any else Exact(a.busy[l].bytes)})
    case Tear(l, v) =>
      && l in a.vals && l in a.busy && a.busy[l].Appending?
      && SameOutside(a.vals[l], v, a.busy[l].off, |a.busy[l].bytes|)
      && b.vals == a.vals[l := v] && b.busy == MapWithout(a.busy, l) && NoMoreDoubts(b.doubted, a.doubted)
    case Forget(l) => l !in a.busy && b.vals == MapWithout(a.vals, l) && b.busy == a.busy && NoMoreDoubts(b.doubted, a.doubted)
    case Internal => b.vals == a.vals && b.busy == a.busy && NoMoreDoubts(b.doubted, a.doubted)
    case Doubt(l, any) =>
      && l in a.vals && b.vals == a.vals && b.busy == a.busy
      && DoubtsBut(b.doubted, a.doubted, l, {if any then Any else Exact(a.vals[l])})
    case Cut =>
      && b.busy == map[] && b.doubted == map[] && a.vals.Keys <= b.vals.Keys
      && forall l | l in a.vals :: Survives(a, l, b.vals[l]) || ComesBack(a, l, b.vals[l])
  }

  // ---- The abstraction ----------------------------------------------------------------------

  predicate Visible(op: Op) {
    op.InPlace? || op.kind != Move
  }

  function BusyOf(op: Op, size: nat): Busy
    requires Visible(op)
  {
    match op
    case InPlace(off, buf) => Appending(off, buf)
    case Target(kind, _, _, off, buf, _) =>
      var bytes := if off + |buf| <= size then Payload(Complete(op, size)) else [];
      if kind == Fresh then Writing(bytes) else Changing(bytes)
  }

  predicate Doubtful(s: State, l: Leb) {
    exists p | p in s.rivals :: CopyOf(s.flash, p, l)
  }

  predicate MappedTrusted(s: State, l: Leb) {
    l in s.eba && CopyOf(s.flash, s.eba[l], l) && Trusted(s.flash[s.eba[l]])
  }

  function AltOf(s: State, l: Leb, p: nat): Alt {
    if MappedTrusted(s, l) && CopyOf(s.flash, p, l) && HasChecksum(s.flash[p]) then Exact(Payload(s.flash[p])) else Any
  }

  function Alts(s: State, l: Leb): set<Alt> {
    set p | p in s.rivals && CopyOf(s.flash, p, l) :: AltOf(s, l, p)
  }

  ghost function Abs(s: State): Store {
    Store(map l | l in s.eba && CopyOf(s.flash, s.eba[l], l) :: Payload(s.flash[s.eba[l]]),
          map l | l in s.ops && Visible(s.ops[l]) :: BusyOf(s.ops[l], s.size),
          map l | l in s.eba && Doubtful(s, l) :: Alts(s, l))
  }

  ghost function ActOf(s: State, step: Step): Act
    requires Enabled(s, step)
  {
    match step
    case BeginFresh(l, to, off, buf, size) =>
      Begin(l, BusyOf(Target(Fresh, to, FreshVid(s, l, buf, size), off, buf, Allocated), s.size))
    case BeginSwap(l, to, buf) => Begin(l, BusyOf(Target(Swap, to, SwapVid(s, l, buf), 0, buf, Allocated), s.size))
    case BeginMove(_, _) => Internal
    case BeginInPlace(l, off, buf) => Begin(l, Appending(off, buf))
    case WriteHeader(_) => Internal
    case WriteData(_) => Internal
    case WriteError(_, _, _) => Internal
    case Commit(l) =>
      if s.ops[l].kind != Move then Finish(l)
      else if Trusted(s.flash[s.ops[l].to]) then Internal else Doubt(l, true)
    case Abandon(l, left) =>
      if s.ops[l].kind != Move then Fail(l, !MappedTrusted(s, l))
      else if left.vid.Good? && !Beats(s.flash[s.eba[l]], left) then Doubt(l, !(MappedTrusted(s, l) && HasChecksum(left)))
      else Internal
    case EndInPlace(l, after) => if after == Whole(s, l) then Finish(l) else Tear(l, after.data)
    case Unmap(l) => Forget(l)
    case Erase(_) => Internal
    case WasteSqnum => Internal
    case PowerCut(_) => Cut
  }

  /** The part of the invariant the abstraction rests on. */
  ghost predicate Tidy(s: State) {
    && |s.role| == |s.flash|
    && (forall l | l in s.eba ::
         0 <= s.eba[l] < |s.flash| && s.role[s.eba[l]] == Mapped(l) && CopyOf(s.flash, s.eba[l], l))
    && (forall l | l in s.ops && s.ops[l].Target? :: s.ops[l].to < |s.flash| && s.role[s.ops[l].to] == Reserved(l))
    && (forall p | p in s.rivals :: p < |s.flash| && s.role[p] == Pending)
  }

  lemma InvIsTidy(s: State)
    requires Inv(s)
    ensures Tidy(s)
  {
    forall l | l in s.ops && s.ops[l].Target?
      ensures s.ops[l].to < |s.flash| && s.role[s.ops[l].to] == Reserved(l)
    {
      assert OpFits(s, l);
    }
    forall l | l in s.eba
      ensures 0 <= s.eba[l] < |s.flash| && s.role[s.eba[l]] == Mapped(l) && CopyOf(s.flash, s.eba[l], l)
    {
      assert MapFits(s, l);
    }
  }

  // ---- Power cuts ---------------------------------------------------------------------------

  lemma CutShows(s: State, l: Leb, f: Image)
    requires Inv(s) && CutImage(s, f) && l in s.eba && !Doubtful(s, l)
    ensures l in Abs(s).vals && Recovered(f, l) != -1 && Survives(Abs(s), l, Payload(f[Recovered(f, l)]))
  {
    hide Inv;
    OwnPebs(s, l);
    NoRivalLeft(s, l);
    if l !in s.ops {
      IdleLebSurvives(s, l, f);
    } else if s.ops[l].InPlace? {
      WriteDamagesOnlyItsRange(s, l, f);
    } else if s.ops[l].kind == Move {
      MovedLebSurvives(s, l, f);
    } else if s.ops[l].kind == Swap {
      ChangeIsAtomic(s, l, f);
    }
  }

  /** A copy that waits and is found has not been touched, if the mapped one can be trusted and it has a checksum
      or loses against the mapped one. */
  lemma WaitingCopyIsFound(s: State, l: Leb, f: Image)
    requires Inv(s) && CutImage(s, f) && MapFits(s, l) && Trusted(s.flash[s.eba[l]])
    requires Recovered(f, l) != -1 && Recovered(f, l) != s.eba[l] && s.role[Recovered(f, l)] == Pending
    requires CopyOf(f, s.eba[l], l) && Beats(f[Recovered(f, l)], f[s.eba[l]])
    ensures var r := Recovered(f, l);
      && CopyOf(s.flash, r, l) && f[r].vid == s.flash[r].vid
      && (HoldsNew(s, l, s.flash[r]) || r in s.rivals)
      && (HasChecksum(s.flash[r]) ==> f[r].data == s.flash[r].data)
  {
    var r, m := Recovered(f, l), s.eba[l];
    TornAppendKeepsTrust(s, l, f);
    CutKeepsHeaders(s, f, r);
    assert CutPeb(s, r, f[r]);
    if r !in s.rivals {
      assert Loses(s, l, r);
      ErasedWinnerIsUntouched(s.flash[m], f[m], s.flash[r], f[r]);
    }
  }

  /** Whichever copy is found of a LEB whose rivals all have checksums. */
  lemma DoubtedCutShows(s: State, l: Leb, f: Image)
    requires Inv(s) && CutImage(s, f) && MapFits(s, l) && Doubtful(s, l) && Any !in Alts(s, l)
    ensures Recovered(f, l) != -1
    ensures Survives(Abs(s), l, Payload(f[Recovered(f, l)])) || Exact(Payload(f[Recovered(f, l)])) in Alts(s, l)
  {
    hide Inv, CutImage, Recovered, KindFits, StageFits, Survives;
    var r, m := Recovered(f, l), s.eba[l];
    AllAreExact(s, l);
    OwnPebs(s, l);
    TornAppendKeepsTrust(s, l, f);
    CutSizes(s, f);
    CutKeepsDistinct(s, f);
    RecoveredBeatsTheOthers(f, l);
    assert CopyOf(f, m, l);
    if r == m {
      MappedSurvives(s, l, f);
    } else if s.role[r] != Pending {
      TargetWinnerIsTrusted(s, l, f);
      TargetSurvives(s, l, f);
    } else {
      WaitingCopyIsFound(s, l, f);
      WaitingSurvives(s, l, f[r], r);
    }
  }

  /** Without Any, the mapped copy can be trusted, and the rivals have checksums. */
  lemma AllAreExact(s: State, l: Leb)
    requires MapFits(s, l) && Doubtful(s, l) && Any !in Alts(s, l)
    ensures MappedTrusted(s, l)
    ensures forall p | p in s.rivals && CopyOf(s.flash, p, l) :: HasChecksum(s.flash[p]) && Exact(Payload(s.flash[p])) in Alts(s, l)
  {
    forall p | p in s.rivals && CopyOf(s.flash, p, l)
      ensures MappedTrusted(s, l) && HasChecksum(s.flash[p]) && Exact(Payload(s.flash[p])) in Alts(s, l)
    {
      assert AltOf(s, l, p) in Alts(s, l);
    }
  }

  lemma MappedSurvives(s: State, l: Leb, f: Image)
    requires Inv(s) && CutImage(s, f) && MapFits(s, l) && Trusted(s.flash[s.eba[l]]) && l in Abs(s).vals && CopyOf(f, s.eba[l], l)
    ensures Survives(Abs(s), l, Payload(f[s.eba[l]]))
  {
    hide Inv, CutImage, CutPeb, KindFits, StageFits, Trusted, Complete;
    CutOfMapped(s, l, f);
    OwnPebs(s, l);
  }

  lemma CutOfMapped(s: State, l: Leb, f: Image)
    requires CutImage(s, f) && MapFits(s, l)
    ensures s.eba[l] < |f|
    ensures if l in s.ops && s.ops[l].InPlace? then TornWrite(s.flash[s.eba[l]], f[s.eba[l]], s.ops[l].off, |s.ops[l].buf|)
            else f[s.eba[l]] == s.flash[s.eba[l]]
  {
    assert CutPeb(s, s.eba[l], f[s.eba[l]]);
  }

  lemma TargetSurvives(s: State, l: Leb, f: Image)
    requires Inv(s) && CutImage(s, f) && MapFits(s, l) && l in s.ops && s.ops[l].Target? && l in Abs(s).vals
    requires CopyOf(f, s.ops[l].to, l) && Trusted(f[s.ops[l].to])
    ensures Survives(Abs(s), l, Payload(f[s.ops[l].to]))
  {
    OwnPebs(s, l);
    assert CutPeb(s, s.ops[l].to, f[s.ops[l].to]);
    hide Inv, CutImage, StageFits;
    TrustedIsComplete(s, l, f[s.ops[l].to]);
  }

  lemma WaitingSurvives(s: State, l: Leb, b: Peb, r: nat)
    requires MapFits(s, l) && l in Abs(s).vals && CopyOf(s.flash, r, l) && b.vid == s.flash[r].vid
    requires HoldsNew(s, l, s.flash[r]) || (r in s.rivals && HasChecksum(s.flash[r]) && Exact(Payload(s.flash[r])) in Alts(s, l))
    requires HasChecksum(s.flash[r]) ==> b.data == s.flash[r].data
    ensures Survives(Abs(s), l, Payload(b)) || Exact(Payload(b)) in Alts(s, l)
  {
    hide Alts;
  }

  /** A power cut shows a user of the map nothing else than the map allows. */
  lemma CutKeepsVal(s: State, f: Image, l: Leb)
    requires Inv(s) && CutImage(s, f) && l in Abs(s).vals
    ensures l in Abs(Attach(s, f)).vals
    ensures var v := Abs(Attach(s, f)).vals[l]; Survives(Abs(s), l, v) || ComesBack(Abs(s), l, v)
  {
    hide Inv, CutImage, Survives, Alts, Recovered;
    CutKeepsLeb(s, f, l);
    OwnPebs(s, l);
    if !Doubtful(s, l) {
      CutShows(s, l, f);
    } else if Any !in Alts(s, l) {
      DoubtedCutShows(s, l, f);
    }
  }

  /** A mapped LEB is there again, be it with another copy of it. */
  lemma CutKeepsLeb(s: State, f: Image, l: Leb)
    requires Inv(s) && CutImage(s, f) && l in Abs(s).vals
    ensures l in Abs(Attach(s, f)).vals
  {
    hide Inv, CutImage;
    OwnPebs(s, l);
    TornAppendKeepsTrust(s, l, f);
    CutKeepsDistinct(s, f);
    RecoveredBeatsTheOthers(f, l);
    CutSizes(s, f);
    assert CopyOf(f, s.eba[l], l);
    assert f[Recovered(f, l)].vid.value.leb in LebsOn(f);
  }

  lemma CutSizes(s: State, f: Image)
    requires CutImage(s, f)
    ensures |f| == |s.flash|
  {
  }

  lemma CutRefines(s: State, f: Image)
    requires Inv(s) && CutImage(s, f)
    ensures SpecNext(Abs(s), Cut, Abs(Attach(s, f)))
  {
    hide Inv, CutImage, Survives;
    var b := Abs(Attach(s, f));
    forall l | l in Abs(s).vals
      ensures l in b.vals && (Survives(Abs(s), l, b.vals[l]) || ComesBack(Abs(s), l, b.vals[l]))
    {
      CutKeepsVal(s, f, l);
    }
    assert b.busy == map[] && b.doubted == map[];
  }

  // ---- The other steps ----------------------------------------------------------------------

  /** The contents of PEB p are the same in s and t. */
  predicate SameContents(s: State, t: State, p: int) {
    0 <= p < |s.flash| && |t.flash| == |s.flash| && t.flash[p] == s.flash[p]
  }

  lemma SameVals(s: State, t: State)
    requires t.eba == s.eba && forall k | k in s.eba :: SameContents(s, t, s.eba[k])
    ensures Abs(t).vals == Abs(s).vals
  {
  }

  /** Only what l is mapped to has changed. */
  lemma ValsChange(s: State, t: State, l: Leb, v: seq<Byte>)
    requires l in t.eba && CopyOf(t.flash, t.eba[l], l) && Payload(t.flash[t.eba[l]]) == v
    requires forall k | k != l :: k in t.eba <==> k in s.eba
    requires forall k | k != l && k in s.eba :: t.eba[k] == s.eba[k] && SameContents(s, t, s.eba[k])
    ensures Abs(t).vals == Abs(s).vals[l := v]
  {
    hide Doubtful, Payload, BusyOf;
    assert forall k | k in s.eba && k != l :: SameContents(s, t, s.eba[k]) && t.eba[k] == s.eba[k];
  }

  /** The mapped copy of k has the same header, and can be trusted as before. */
  predicate SameTrust(s: State, t: State, k: Leb) {
    && k in s.eba && k in t.eba && t.eba[k] == s.eba[k] && 0 <= s.eba[k] < |s.flash| == |t.flash|
    && var a, b := s.flash[s.eba[k]], t.flash[s.eba[k]];
       b.vid == a.vid && (a.vid.Good? ==> (Trusted(b) <==> Trusted(a)))
  }

  /** No rival of k has changed, and there are no others. */
  lemma SameAlts(s: State, t: State, k: Leb)
    requires SameTrust(s, t, k) && forall p | p in t.rivals && CopyOf(t.flash, p, k) :: p in s.rivals && SameContents(s, t, p)
    ensures Doubtful(t, k) ==> Doubtful(s, k)
    ensures Alts(t, k) <= Alts(s, k)
  {
    forall p | p in t.rivals && CopyOf(t.flash, p, k)
      ensures AltOf(t, k, p) == AltOf(s, k, p) && AltOf(t, k, p) in Alts(s, k)
    {
      assert CopyOf(s.flash, p, k);
    }
  }

  /** No PEB of s.rivals has changed, and there are no others. */
  lemma SameDoubts(s: State, t: State)
    requires t.eba == s.eba && t.rivals == s.rivals && forall p | p in s.rivals :: SameContents(s, t, p)
    requires forall k | k in s.eba :: SameTrust(s, t, k)
    ensures Abs(t).doubted == Abs(s).doubted
  {
    hide Alts, SameTrust;
    forall k | k in s.eba
      ensures Doubtful(t, k) <==> Doubtful(s, k)
      ensures Alts(t, k) == Alts(s, k)
    {
      SameTrustBack(s, t, k);
      SameAlts(s, t, k);
      SameAlts(t, s, k);
    }
  }

  lemma SameTrustBack(s: State, t: State, k: Leb)
    requires SameTrust(s, t, k)
    ensures SameTrust(t, s, k) && |s.flash| == |t.flash|
  {
  }

  /** The mapped PEBs have not changed. */
  lemma SameMapped(s: State, t: State)
    requires t.eba == s.eba && forall k | k in s.eba :: SameContents(s, t, s.eba[k])
    ensures forall k | k in s.eba :: SameTrust(s, t, k)
  {
  }

  lemma TakeRefines(s: State, l: Leb, op: Op)
    requires Tidy(s) && op.Target? && IsFree(s, op.to) && l !in s.ops
    ensures Abs(TakeOp(s, l, op)) ==
      if Visible(op) then Abs(s).(busy := Abs(s).busy[l := BusyOf(op.(stage := Allocated), s.size)]) else Abs(s)
  {
    hide Alts, Payload, Doubtful, Abs;
    var t := TakeOp(s, l, op);
    SameVals(s, t);
    SameMapped(s, t);
    SameDoubts(s, t);
    TakeBusy(s, l, op);
  }

  lemma TakeBusy(s: State, l: Leb, op: Op)
    requires op.Target? && IsFree(s, op.to) && l !in s.ops
    ensures Abs(TakeOp(s, l, op)).busy ==
      if Visible(op) then Abs(s).busy[l := BusyOf(op.(stage := Allocated), s.size)] else Abs(s).busy
  {
    hide Alts, Payload, Doubtful;
  }

  lemma BeginRefines(s: State, step: Step)
    requires Inv(s) && Enabled(s, step) && (step.BeginFresh? || step.BeginSwap? || step.BeginMove?)
    ensures SpecNext(Abs(s), ActOf(s, step), Abs(Apply(s, step)))
  {
    InvIsTidy(s);
    TakeRefines(s, step.leb, Apply(s, step).ops[step.leb]);
  }

  lemma AppendBeginRefines(s: State, l: Leb, off: nat, buf: seq<Byte>)
    requires Tidy(s) && l !in s.ops
    ensures Abs(s.(ops := s.ops[l := InPlace(off, buf)])) == Abs(s).(busy := Abs(s).busy[l := Appending(off, buf)])
  {
    var t := s.(ops := s.ops[l := InPlace(off, buf)]);
    SameVals(s, t);
    SameMapped(s, t);
    SameDoubts(s, t);
    assert Abs(t).busy == Abs(s).busy[l := Appending(off, buf)];
  }

  /** Progress of one operation is not visible. */
  lemma SameBusy(s: State, t: State, l: Leb)
    requires l in s.ops && l in t.ops && SameAttempt(s.ops[l], t.ops[l]) && t.size == s.size
    requires t.ops == s.ops[l := t.ops[l]]
    ensures Abs(t).busy == Abs(s).busy
  {
    if Visible(s.ops[l]) {
      assert BusyOf(s.ops[l], s.size) == BusyOf(t.ops[l], s.size);
    }
  }

  lemma TargetWriteRefines(s: State, t: State, l: Leb)
    requires Tidy(s) && l in s.ops && s.ops[l].Target? && l in t.ops && SameAttempt(s.ops[l], t.ops[l])
    requires t == s.(flash := t.flash, ops := s.ops[l := t.ops[l]]) && |t.flash| == |s.flash|
    requires forall p | 0 <= p < |s.flash| && p != s.ops[l].to :: t.flash[p] == s.flash[p]
    ensures Abs(t) == Abs(s)
  {
    SameVals(s, t);
    SameMapped(s, t);
    SameDoubts(s, t);
    SameBusy(s, t, l);
  }

  lemma RetryRefines(s: State, l: Leb, left: Peb, to: nat)
    requires Tidy(s) && OpFits(s, l) && s.ops[l].Target? && IsFree(s, to)
    ensures Abs(Retry(s, l, left, to)) == Abs(s)
  {
    var t := Retry(s, l, left, to);
    SameVals(s, t);
    SameMapped(s, t);
    SameDoubts(s, t);
    SameBusy(s, t, l);
  }

  lemma CommitVals(s: State, l: Leb)
    requires Tidy(s) && AtStage(s, l, DataWritten)
    ensures Abs(Remap(s, l)).vals == Abs(s).vals[l := Payload(Complete(s.ops[l], s.size))]
  {
    hide Complete;
    var t := Remap(s, l);
    assert CopyOf(t.flash, t.eba[l], l) && Payload(s.flash[s.ops[l].to]) == Payload(Complete(s.ops[l], s.size));
    hide Payload, KindFits, StageFits, Abs, Winners, OtherRivals;
    ValsChange(s, t, l, Payload(Complete(s.ops[l], s.size)));
  }

  lemma MoveShowsNothing(s: State, l: Leb)
    requires Tidy(s) && AtStage(s, l, DataWritten) && s.ops[l].kind == Move
    ensures Abs(s).vals == Abs(s).vals[l := Payload(Complete(s.ops[l], s.size))]
    ensures MapWithout(Abs(s).busy, l) == Abs(s).busy
  {
    assert Abs(s).vals[l] == Payload(Complete(s.ops[l], s.size));
  }

  lemma OpEnds(s: State, t: State, l: Leb)
    requires t.ops == MapWithout(s.ops, l) && t.size == s.size
    ensures Abs(t).busy == MapWithout(Abs(s).busy, l)
  {
  }

  lemma BusyWithNew(s: State, l: Leb)
    requires OpFits(s, l) && s.ops[l].Target? && s.ops[l].kind != Move
    ensures l in Abs(s).busy && !Abs(s).busy[l].Appending?
    ensures Abs(s).busy[l].bytes == Payload(Complete(s.ops[l], s.size))
  {
  }

  /** The mapped PEB of k and its rivals are left alone. */
  lemma OtherAlts(s: State, t: State, l: Leb, k: Leb)
    requires Tidy(s) && t.flash == s.flash && k != l && k in t.eba && k in s.eba && t.eba[k] == s.eba[k]
    requires forall p | p in t.rivals && CopyOf(t.flash, p, k) :: p in s.rivals
    ensures Doubtful(t, k) ==> Doubtful(s, k)
    ensures Alts(t, k) <= Alts(s, k)
  {
    hide Alts;
    SameAlts(s, t, k);
  }

  lemma UntrustedAlts(s: State, l: Leb)
    requires !MappedTrusted(s, l)
    ensures Alts(s, l) <= {Any}
  {
  }

  lemma CommitOthers(s: State, l: Leb, k: Leb)
    requires Tidy(s) && Enabled(s, Commit(l)) && (l in s.eba ==> MapFits(s, l)) && k != l && k in Remap(s, l).eba
    ensures var t := Remap(s, l); k in s.eba && (Doubtful(t, k) ==> Doubtful(s, k)) && Alts(t, k) <= Alts(s, k)
  {
    hide Alts, KindFits, StageFits, Winners, Payload;
    var t := Remap(s, l);
    forall p | p in t.rivals && CopyOf(t.flash, p, k)
      ensures p in s.rivals
    {
      RivalsOfOthers(s, l, k, p);
    }
    OtherAlts(s, t, l, k);
  }

  lemma RivalsOfOthers(s: State, l: Leb, k: Leb, p: nat)
    requires AtStage(s, l, DataWritten) && (l in s.eba ==> MapFits(s, l)) && k != l
    requires p in Remap(s, l).rivals && CopyOf(s.flash, p, k)
    ensures p in s.rivals
  {
    hide KindFits, StageFits;
  }

  lemma TrustedHasNoRival(s: State, l: Leb)
    requires AtStage(s, l, DataWritten) && (l in s.eba ==> MapFits(s, l)) && Inv(s) && Trusted(s.flash[s.ops[l].to])
    ensures !Doubtful(Remap(s, l), l)
  {
    hide KindFits;
    OwnPebs(s, l);
  }

  lemma UntrustedTarget(s: State, l: Leb)
    requires AtStage(s, l, DataWritten) && (l in s.eba ==> MapFits(s, l)) && !Trusted(s.flash[s.ops[l].to])
    ensures !MappedTrusted(Remap(s, l), l)
  {
    hide KindFits, Winners;
  }

  /** A new PEB that can be trusted wins over every other copy. */
  lemma CommitDoubts(s: State, l: Leb)
    requires Inv(s) && AtStage(s, l, DataWritten)
    ensures DoubtsBut(Abs(Remap(s, l)).doubted, Abs(s).doubted, l, {Any})
    ensures Trusted(s.flash[s.ops[l].to]) ==> NoMoreDoubts(Abs(Remap(s, l)).doubted, Abs(s).doubted) && l !in Abs(Remap(s, l)).doubted
  {
    hide Inv, Alts, Payload, KindFits, Remap, MappedTrusted, Doubtful;
    InvIsTidy(s);
    OwnPebs(s, l);
    var t := Remap(s, l);
    forall k | k in Abs(t).doubted && k != l
      ensures k in Abs(s).doubted && Alts(t, k) <= Alts(s, k)
    {
      CommitOthers(s, l, k);
    }
    if Trusted(s.flash[s.ops[l].to]) {
      TrustedHasNoRival(s, l);
    } else {
      UntrustedTarget(s, l);
      UntrustedAlts(t, l);
    }
  }

  lemma TargetIsTrusted(s: State, l: Leb)
    requires AtStage(s, l, DataWritten) && s.ops[l].kind != Move
    ensures Trusted(s.flash[s.ops[l].to])
  {
    var op := s.ops[l];
    if op.kind == Swap {
      assert s.flash[op.to].data[..|op.buf|] == op.buf;
    }
  }

  lemma CommitRefines(s: State, l: Leb)
    requires Inv(s) && Enabled(s, Commit(l))
    ensures SpecNext(Abs(s), ActOf(s, Commit(l)), Abs(Remap(s, l)))
  {
    InvIsTidy(s);
    CommitVals(s, l);
    CommitDoubts(s, l);
    OpEnds(s, Remap(s, l), l);
    if s.ops[l].kind == Move {
      MoveShowsNothing(s, l);
    } else {
      TargetIsTrusted(s, l);
      BusyWithNew(s, l);
    }
  }

  lemma CutTargetHeader(s: State, l: Leb, left: Peb)
    requires OpFits(s, l) && s.ops[l].Target? && CutPeb(s, s.ops[l].to, left) && left.vid.Good?
    ensures left.vid.value == s.ops[l].vid && left.vid.value.leb == l
  {
  }

  lemma AbandonVals(s: State, l: Leb, left: Peb)
    requires Tidy(s) && OpFits(s, l) && s.ops[l].Target? && (l in s.eba ==> MapFits(s, l))
    ensures Abs(GiveUp(s, l, left)).vals == Abs(s).vals
    ensures Abs(GiveUp(s, l, left)).busy == MapWithout(Abs(s).busy, l)
  {
    var t := GiveUp(s, l, left);
    SameVals(s, t);
    OpEnds(s, t, l);
  }

  /** What is given up of l is no rival of another LEB. */
  lemma AbandonOthers(s: State, l: Leb, left: Peb, k: Leb)
    requires Tidy(s) && Enabled(s, Abandon(l, left)) && (l in s.eba ==> MapFits(s, l)) && k != l && k in s.eba
    ensures var t := GiveUp(s, l, left); (Doubtful(t, k) ==> Doubtful(s, k)) && Alts(t, k) <= Alts(s, k)
  {
    hide Alts, KindFits, StageFits;
    var t := GiveUp(s, l, left);
    forall p | p in t.rivals && CopyOf(t.flash, p, k)
      ensures p in s.rivals && SameContents(s, t, p)
    {
      AbandonedCopy(s, l, left, k, p);
    }
    assert SameTrust(s, t, k);
    SameAlts(s, t, k);
  }

  lemma AbandonedCopy(s: State, l: Leb, left: Peb, k: Leb, p: nat)
    requires Tidy(s) && Enabled(s, Abandon(l, left)) && (l in s.eba ==> MapFits(s, l)) && k != l
    requires p in GiveUp(s, l, left).rivals && CopyOf(GiveUp(s, l, left).flash, p, k)
    ensures p in s.rivals && SameContents(s, GiveUp(s, l, left), p)
  {
    if left.vid.Good? {
      CutTargetHeader(s, l, left);
    }
  }

  /** What is left of l itself: another copy to be reckoned with shows x, or has no checksum. */
  lemma AbandonDoubts(s: State, l: Leb, left: Peb, x: Alt)
    requires Tidy(s) && Enabled(s, Abandon(l, left)) && (l in s.eba ==> MapFits(s, l))
    requires var t := GiveUp(s, l, left);
      l in s.eba ==> forall p | p in t.rivals && CopyOf(t.flash, p, l) :: (p in s.rivals && SameContents(s, t, p)) || AltOf(t, l, p) == x
    ensures DoubtsBut(Abs(GiveUp(s, l, left)).doubted, Abs(s).doubted, l, {x})
  {
    hide KindFits, StageFits, Payload, CutPeb;
    var t := GiveUp(s, l, left);
    forall k | k in Abs(t).doubted
      ensures (k in Abs(s).doubted || k == l)
      ensures Alts(t, k) <= (if k in Abs(s).doubted then Abs(s).doubted[k] else {}) + (if k == l then {x} else {})
    {
      if k != l {
        AbandonOthers(s, l, left, k);
      } else {
        AbandonedAlts(s, t, l, x);
      }
    }
  }

  lemma AbandonedAlts(s: State, t: State, l: Leb, x: Alt)
    requires SameTrust(s, t, l)
    requires forall p | p in t.rivals && CopyOf(t.flash, p, l) :: (p in s.rivals && SameContents(s, t, p)) || AltOf(t, l, p) == x
    ensures forall a | a in Alts(t, l) :: a == x || (Doubtful(s, l) && a in Alts(s, l))
  {
    forall p | p in t.rivals && CopyOf(t.flash, p, l)
      ensures AltOf(t, l, p) == x || (Doubtful(s, l) && AltOf(t, l, p) in Alts(s, l))
    {
      if p in s.rivals && SameContents(s, t, p) {
        assert CopyOf(s.flash, p, l) && AltOf(s, l, p) == AltOf(t, l, p);
      }
    }
  }

  /** A move that is cancelled early leaves no doubt. */
  lemma EarlyCancel(s: State, l: Leb, left: Peb)
    requires Inv(s) && Enabled(s, Abandon(l, left)) && s.ops[l].kind == Move
    requires left.vid.Good? ==> Beats(s.flash[s.eba[l]], left)
    ensures GiveUp(s, l, left).rivals == s.rivals
  {
    var t := GiveUp(s, l, left);
    OwnPebs(s, l);
    forall q | IsPeb(s, q) && s.role[q] == Pending && CopyOf(s.flash, q, l) && q !in s.rivals
      ensures Beats(s.flash[s.eba[l]], s.flash[q])
    {
      assert Loses(s, l, q);
    }
    forall q | q in Winners(t.flash, t.role, l, s.eba[l])
      ensures q in s.rivals
    {
      assert q == s.ops[l].to || CopyOf(s.flash, q, l);
    }
  }

  lemma MoveIsNotBusy(s: State, l: Leb)
    requires l in s.ops && s.ops[l].Target? && s.ops[l].kind == Move
    ensures MapWithout(Abs(s).busy, l) == Abs(s).busy
  {
    hide Payload, Complete;
  }

  lemma CancelIsInvisible(s: State, l: Leb, left: Peb)
    requires Inv(s) && Enabled(s, Abandon(l, left)) && s.ops[l].kind == Move && MapFits(s, l)
    requires left.vid.Good? ==> Beats(s.flash[s.eba[l]], left)
    ensures Abs(GiveUp(s, l, left)).doubted == Abs(s).doubted
  {
    hide Inv, KindFits, StageFits, CutPeb, Beats, Abs;
    InvIsTidy(s);
    EarlyCancel(s, l, left);
    SameMapped(s, GiveUp(s, l, left));
    SameDoubts(s, GiveUp(s, l, left));
  }

  /** A copy that becomes a rival when an operation on l is given up: its target, or one left by an earlier
      attempt. */
  lemma NewRival(s: State, l: Leb, left: Peb, p: nat)
    requires Inv(s) && Enabled(s, Abandon(l, left)) && MapFits(s, l)
    requires var t := GiveUp(s, l, left); p in t.rivals && CopyOf(t.flash, p, l) && !(p in s.rivals && SameContents(s, t, p))
    ensures p == s.ops[l].to || (CopyOf(s.flash, p, l) && HoldsNew(s, l, s.flash[p]) && SameContents(s, GiveUp(s, l, left), p))
    ensures p == s.ops[l].to ==> left.vid.Good? && !Beats(s.flash[s.eba[l]], left)
  {
    hide KindFits, StageFits, CutPeb;
    InvIsTidy(s);
    OwnPebs(s, l);
    var t := GiveUp(s, l, left);
    if p != s.ops[l].to && p !in s.rivals {
      assert p in Winners(t.flash, t.role, l, s.eba[l]);
      assert Loses(s, l, p);
    }
  }

  /** A change that is given up leaves its new contents at most, if the mapped copy can be trusted. */
  lemma FailedAlt(s: State, l: Leb, left: Peb, p: nat)
    requires Inv(s) && Enabled(s, Abandon(l, left)) && MapFits(s, l) && s.ops[l].kind != Move
    requires var t := GiveUp(s, l, left); p in t.rivals && CopyOf(t.flash, p, l) && !(p in s.rivals && SameContents(s, t, p))
    ensures AltOf(GiveUp(s, l, left), l, p) == if MappedTrusted(s, l) then Exact(Payload(Complete(s.ops[l], s.size))) else Any
  {
    NewRival(s, l, left, p);
    OwnPebs(s, l);
    var t := GiveUp(s, l, left);
    assert SameTrust(s, t, l);
    assert MappedTrusted(s, l) <==> MappedTrusted(t, l);
    hide Inv;
    if MappedTrusted(s, l) && p == s.ops[l].to {
      CutTargetHeader(s, l, left);
      TrustedIsComplete(s, l, left);
    }
  }

  /** And a move its contents. */
  lemma CancelledAlt(s: State, l: Leb, left: Peb, p: nat)
    requires Inv(s) && Enabled(s, Abandon(l, left)) && MapFits(s, l) && s.ops[l].kind == Move
    requires var t := GiveUp(s, l, left); p in t.rivals && CopyOf(t.flash, p, l) && !(p in s.rivals && SameContents(s, t, p))
    ensures AltOf(GiveUp(s, l, left), l, p) ==
      if MappedTrusted(s, l) && left.vid.Good? && HasChecksum(left) then Exact(Payload(s.flash[s.eba[l]])) else Any
  {
    NewRival(s, l, left, p);
    OwnPebs(s, l);
    var t := GiveUp(s, l, left);
    assert SameTrust(s, t, l);
    assert MappedTrusted(s, l) <==> MappedTrusted(t, l);
    hide Inv;
    if MappedTrusted(s, l) {
      TrustedIsComplete(s, l, left);
    }
  }

  lemma CancelDoubts(s: State, l: Leb, left: Peb)
    requires Inv(s) && Enabled(s, Abandon(l, left)) && s.ops[l].kind == Move && MapFits(s, l)
    ensures DoubtsBut(Abs(GiveUp(s, l, left)).doubted, Abs(s).doubted, l,
      {if MappedTrusted(s, l) && left.vid.Good? && HasChecksum(left) then Exact(Payload(s.flash[s.eba[l]])) else Any})
  {
    hide Inv, Abs, DoubtsBut, AltOf, KindFits, StageFits, CutPeb;
    InvIsTidy(s);
    var t := GiveUp(s, l, left);
    var x := if MappedTrusted(s, l) && left.vid.Good? && HasChecksum(left) then Exact(Payload(s.flash[s.eba[l]])) else Any;
    forall p | p in t.rivals && CopyOf(t.flash, p, l)
      ensures (p in s.rivals && SameContents(s, t, p)) || AltOf(t, l, p) == x
    {
      if !(p in s.rivals && SameContents(s, t, p)) {
        CancelledAlt(s, l, left, p);
      }
    }
    AbandonDoubts(s, l, left, x);
  }

  lemma ShowsMapped(s: State, l: Leb)
    requires MapFits(s, l)
    ensures l in Abs(s).vals && Abs(s).vals[l] == Payload(s.flash[s.eba[l]])
  {
  }

  lemma CancelSpec(a: Store, b: Store, l: Leb, any: bool)
    requires l in a.vals && b.vals == a.vals && b.busy == a.busy
    requires DoubtsBut(b.doubted, a.doubted, l, {if any then Any else Exact(a.vals[l])})
    ensures SpecNext(a, Doubt(l, any), b)
  {
  }

  lemma InternalSpec(a: Store, b: Store)
    requires b.vals == a.vals && b.busy == a.busy && b.doubted == a.doubted
    ensures SpecNext(a, Internal, b)
  {
  }

  lemma CancelRefines(s: State, l: Leb, left: Peb)
    requires Inv(s) && Enabled(s, Abandon(l, left)) && s.ops[l].kind == Move && MapFits(s, l)
    ensures SpecNext(Abs(s), ActOf(s, Abandon(l, left)), Abs(GiveUp(s, l, left)))
  {
    hide Inv, Tidy, Abs, SpecNext, DoubtsBut, KindFits, StageFits, CutPeb, Payload, Beats, MappedTrusted;
    InvIsTidy(s);
    AbandonVals(s, l, left);
    MoveIsNotBusy(s, l);
    ShowsMapped(s, l);
    var a, b := Abs(s), Abs(GiveUp(s, l, left));
    if left.vid.Good? && !Beats(s.flash[s.eba[l]], left) {
      CancelDoubts(s, l, left);
      CancelSpec(a, b, l, !(MappedTrusted(s, l) && HasChecksum(left)));
    } else {
      CancelIsInvisible(s, l, left);
      InternalSpec(a, b);
    }
  }

  lemma FailDoubts(s: State, l: Leb, left: Peb)
    requires Inv(s) && Enabled(s, Abandon(l, left)) && s.ops[l].kind != Move
    ensures DoubtsBut(Abs(GiveUp(s, l, left)).doubted, Abs(s).doubted, l,
      {if MappedTrusted(s, l) then Exact(Payload(Complete(s.ops[l], s.size))) else Any})
  {
    hide Inv, Abs, DoubtsBut, AltOf, KindFits, StageFits, CutPeb;
    InvIsTidy(s);
    OwnPebs(s, l);
    var t := GiveUp(s, l, left);
    var x := if MappedTrusted(s, l) then Exact(Payload(Complete(s.ops[l], s.size))) else Any;
    forall p | l in s.eba && p in t.rivals && CopyOf(t.flash, p, l)
      ensures (p in s.rivals && SameContents(s, t, p)) || AltOf(t, l, p) == x
    {
      if !(p in s.rivals && SameContents(s, t, p)) {
        FailedAlt(s, l, left, p);
      }
    }
    AbandonDoubts(s, l, left, x);
  }

  lemma AbandonSpec(a: Store, b: Store, l: Leb, any: bool)
    requires l in a.busy && !a.busy[l].Appending? && b.vals == a.vals && b.busy == MapWithout(a.busy, l)
    requires DoubtsBut(b.doubted, a.doubted, l, {if any then Any else Exact(a.busy[l].bytes)})
    ensures SpecNext(a, Fail(l, any), b)
  {
  }

  lemma AbandonRefines(s: State, l: Leb, left: Peb)
    requires Inv(s) && Enabled(s, Abandon(l, left)) && s.ops[l].kind != Move
    ensures SpecNext(Abs(s), ActOf(s, Abandon(l, left)), Abs(GiveUp(s, l, left)))
  {
    hide Inv, Abs, Tidy, KindFits, StageFits, RoleFits, CutPeb, SpecNext, DoubtsBut, MappedTrusted;
    InvIsTidy(s);
    OwnPebs(s, l);
    AbandonVals(s, l, left);
    BusyWithNew(s, l);
    FailDoubts(s, l, left);
    AbandonSpec(Abs(s), Abs(GiveUp(s, l, left)), l, !MappedTrusted(s, l));
  }

  lemma AppendVals(s: State, l: Leb, after: Peb)
    requires Tidy(s) && Enabled(s, EndInPlace(l, after))
    ensures l in Abs(s).busy && Abs(s).busy[l] == Appending(s.ops[l].off, s.ops[l].buf)
    ensures l in Abs(s).vals && Abs(s).vals[l] == s.flash[s.eba[l]].data
    ensures s.ops[l].off + |s.ops[l].buf| <= |Abs(s).vals[l]|
    ensures SameOutside(Abs(s).vals[l], after.data, s.ops[l].off, |s.ops[l].buf|)
  {
  }

  lemma NewVals(s: State, l: Leb, after: Peb)
    requires Tidy(s) && Enabled(s, EndInPlace(l, after))
    ensures Abs(Append(s, l, after)).vals == Abs(s).vals[l := after.data]
  {
    hide KindFits, StageFits, Abs;
    var t := Append(s, l, after);
    assert CopyOf(t.flash, t.eba[l], l) && t.flash[t.eba[l]] == after && Payload(after) == after.data;
    hide Appends, Payload;
    ValsChange(s, t, l, after.data);
  }

  lemma AppendSpec(a: Store, b: Store, l: Leb, v: seq<Byte>)
    requires l in a.vals && l in a.busy && a.busy[l].Appending?
    requires a.busy[l].off + |a.busy[l].bytes| <= |a.vals[l]|
    requires SameOutside(a.vals[l], v, a.busy[l].off, |a.busy[l].bytes|)
    requires b == Store(a.vals[l := v], MapWithout(a.busy, l), a.doubted)
    ensures SpecNext(a, Tear(l, v), b)
    ensures v == WriteAt(a.vals[l], a.busy[l].off, a.busy[l].bytes) ==> SpecNext(a, Finish(l), b)
  {
  }

  lemma AppendKeepsTrust(s: State, l: Leb, after: Peb)
    requires Tidy(s) && Enabled(s, EndInPlace(l, after))
    ensures SameTrust(s, Append(s, l, after), l)
  {
    var b := s.flash[s.eba[l]];
    if b.vid.value.copyFlag {
      assert after.data[..b.vid.value.dataSize] == b.data[..b.vid.value.dataSize];
    }
  }

  lemma AppendDoubts(s: State, l: Leb, after: Peb)
    requires Tidy(s) && Enabled(s, EndInPlace(l, after))
    ensures Abs(Append(s, l, after)).doubted == Abs(s).doubted
    ensures Abs(Append(s, l, after)).busy == MapWithout(Abs(s).busy, l)
  {
    hide Abs, KindFits, StageFits, BusyOf, Payload;
    var t := Append(s, l, after);
    OpEnds(s, t, l);
    AppendKeepsTrust(s, l, after);
    forall k | k in s.eba
      ensures SameTrust(s, t, k)
    {
    }
    SameDoubts(s, t);
  }

  lemma WholeIs(s: State, l: Leb, after: Peb)
    requires Tidy(s) && Enabled(s, EndInPlace(l, after)) && after == Whole(s, l)
    ensures after.data == WriteAt(s.flash[s.eba[l]].data, s.ops[l].off, s.ops[l].buf)
  {
  }

  lemma AppendRefines(s: State, l: Leb, after: Peb)
    requires Tidy(s) && Enabled(s, EndInPlace(l, after))
    ensures SpecNext(Abs(s), ActOf(s, EndInPlace(l, after)), Abs(Append(s, l, after)))
  {
    hide Abs, SpecNext, KindFits, StageFits, Appends, Payload, Tidy;
    AppendVals(s, l, after);
    NewVals(s, l, after);
    AppendDoubts(s, l, after);
    AppendSpec(Abs(s), Abs(Append(s, l, after)), l, after.data);
    if after == Whole(s, l) {
      WholeIs(s, l, after);
    }
  }

  lemma UnmapDoubts(s: State, l: Leb)
    requires Tidy(s) && MapFits(s, l)
    ensures NoMoreDoubts(Abs(Drop(s, l)).doubted, Abs(s).doubted)
  {
    hide Alts, Payload;
    var t := Drop(s, l);
    forall k | k in Abs(t).doubted
      ensures k in Abs(s).doubted && Alts(t, k) <= Alts(s, k)
    {
      SameAlts(s, t, k);
    }
  }

  lemma UnmapRefines(s: State, l: Leb)
    requires Tidy(s) && MapFits(s, l) && l !in s.ops
    ensures SpecNext(Abs(s), Forget(l), Abs(Drop(s, l)))
  {
    hide Alts, Payload, NoMoreDoubts, Doubtful;
    UnmapDoubts(s, l);
    assert Abs(Drop(s, l)).vals == MapWithout(Abs(s).vals, l);
  }

  lemma EraseDoubts(s: State, p: nat)
    requires Tidy(s) && IsPeb(s, p) && s.role[p] == Pending
    ensures NoMoreDoubts(Abs(EraseOne(s, p)).doubted, Abs(s).doubted)
  {
    hide Alts, Payload;
    var t := EraseOne(s, p);
    forall k | k in Abs(t).doubted
      ensures k in Abs(s).doubted && Alts(t, k) <= Alts(s, k)
    {
      SameAlts(s, t, k);
    }
  }

  lemma EraseRefines(s: State, p: nat)
    requires Tidy(s) && IsPeb(s, p) && s.role[p] == Pending
    ensures SpecNext(Abs(s), Internal, Abs(EraseOne(s, p)))
  {
    hide Alts, Payload, NoMoreDoubts, Doubtful;
    EraseDoubts(s, p);
    SameVals(s, EraseOne(s, p));
  }

  lemma WasteRefines(s: State)
    requires Tidy(s)
    ensures SpecNext(Abs(s), Internal, Abs(Wasted(s)))
  {
    SameVals(s, Wasted(s));
    SameMapped(s, Wasted(s));
    SameDoubts(s, Wasted(s));
  }

  lemma NotBusy(s: State, l: Leb)
    requires l !in s.ops
    ensures l !in Abs(s).busy
  {
  }

  lemma BeginSpec(a: Store, l: Leb, what: Busy)
    requires l !in a.busy
    ensures SpecNext(a, Begin(l, what), a.(busy := a.busy[l := what]))
  {
  }

  /** Each step of the LEB layer is a step of the map. */
  lemma StepRefines(s: State, step: Step)
    requires Inv(s) && Enabled(s, step)
    ensures SpecNext(Abs(s), ActOf(s, step), Abs(Apply(s, step)))
  {
    hide MapFits, Inv, SpecNext, Abs, Payload, Alts;
    InvIsTidy(s);
    match step
    case BeginFresh(_, _, _, _, _) => BeginRefines(s, step);
    case BeginSwap(_, _, _) => BeginRefines(s, step);
    case BeginMove(_, _) => BeginRefines(s, step);
    case BeginInPlace(l, off, buf) =>
      AppendBeginRefines(s, l, off, buf);
      NotBusy(s, l);
      BeginSpec(Abs(s), l, Appending(off, buf));
    case WriteHeader(l) =>
      TargetWriteRefines(s, PutHeader(s, l), l);
      InternalSpec(Abs(s), Abs(s));
    case WriteData(l) =>
      TargetWriteRefines(s, PutData(s, l), l);
      InternalSpec(Abs(s), Abs(s));
    case WriteError(l, left, to) =>
      RetryRefines(s, l, left, to);
      InternalSpec(Abs(s), Abs(s));
    case Commit(l) => CommitRefines(s, l);
    case Abandon(l, left) =>
      if s.ops[l].kind == Move {
        WorksOnMapped(s, l);
        CancelRefines(s, l, left);
      } else {
        AbandonRefines(s, l, left);
      }
    case EndInPlace(l, after) => AppendRefines(s, l, after);
    case Unmap(l) => UnmapRefines(s, l);
    case Erase(p) => EraseRefines(s, p);
    case WasteSqnum => WasteRefines(s);
    case PowerCut(f) => CutRefines(s, f);
  }

  // ---- Whole runs ---------------------------------------------------------------------------

  ghost predicate Legal(s: State, steps: seq<Step>)
    decreases |steps|
  {
    steps != [] ==> Shapes(s) && Enabled(s, steps[0]) && Legal(Apply(s, steps[0]), steps[1..])
  }

  ghost function Run(s: State, steps: seq<Step>): State
    requires Legal(s, steps)
    decreases |steps|
  {
    if steps == [] then s else Run(Apply(s, steps[0]), steps[1..])
  }

  lemma {:induction false} RunSnoc(s: State, steps: seq<Step>, step: Step)
    requires Legal(s, steps) && Shapes(Run(s, steps)) && Enabled(Run(s, steps), step)
    ensures Legal(s, steps + [step]) && Run(s, steps + [step]) == Apply(Run(s, steps), step)
    decreases |steps|
  {
    hide Enabled, Shapes, Apply;
    if steps == [] {
      assert steps + [step] == [step] && [step][1..] == [];
      assert Legal(Apply(s, step), []);
    } else {
      RunSnoc(Apply(s, steps[0]), steps[1..], step);
      assert (steps + [step])[1..] == steps[1..] + [step];
    }
  }

  lemma {:induction false} LegalPrefix(s: State, steps: seq<Step>, n: nat)
    requires Legal(s, steps) && n <= |steps|
    ensures Legal(s, steps[..n])
    ensures n < |steps| ==> Shapes(Run(s, steps[..n])) && Enabled(Run(s, steps[..n]), steps[n])
    ensures n < |steps| ==> Legal(s, steps[..n + 1]) && Run(s, steps[..n + 1]) == Apply(Run(s, steps[..n]), steps[n])
    decreases |steps|
  {
    hide Enabled, Shapes, Apply;
    if n == 0 {
      assert steps != [] ==> steps[..1] == [steps[0]] && [steps[0]][1..] == [];
    } else {
      LegalPrefix(Apply(s, steps[0]), steps[1..], n - 1);
      assert steps[..n][1..] == steps[1..][..n - 1];
      assert n < |steps| ==> steps[..n + 1][1..] == steps[1..][..n];
    }
  }

  ghost predicate SpecRun(a: Store, acts: seq<Act>, b: Store)
    decreases |acts|
  {
    if acts == [] then b == a else exists c: Store :: SpecNext(a, acts[0], c) && SpecRun(c, acts[1..], b)
  }

  ghost function ActsOf(s: State, steps: seq<Step>): seq<Act>
    requires Inv(s) && Legal(s, steps)
    decreases |steps|
  {
    if steps == [] then []
    else
      StepKeepsInv(s, steps[0]);
      [ActOf(s, steps[0])] + ActsOf(Apply(s, steps[0]), steps[1..])
  }

  /** Every run from every flash the scan accepts, with any number of power cuts at any moments,
      is a run of the map. */
  lemma {:induction false} RunRefines(s: State, steps: seq<Step>)
    requires Inv(s) && Legal(s, steps)
    ensures Inv(Run(s, steps))
    ensures SpecRun(Abs(s), ActsOf(s, steps), Abs(Run(s, steps)))
    decreases |steps|
  {
    if steps != [] {
      StepKeepsInv(s, steps[0]);
      StepRefines(s, steps[0]);
      var t := Apply(s, steps[0]);
      RunRefines(t, steps[1..]);
      assert ActsOf(s, steps)[1..] == ActsOf(t, steps[1..]);
      assert SpecNext(Abs(s), ActsOf(s, steps)[0], Abs(t));
    }
  }
}
