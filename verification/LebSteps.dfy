/** The flash operations of the eraseblock association layer, one by one, and the proof that
    each of them, and a power cut followed by attaching again, keeps the invariant. */
module LebSteps {
  import opened Arith
  import opened Flash
  import opened LebLayer
  import opened Misc
  import opened Wrappers

  datatype Step =
    | BeginFresh(leb: Leb, to: nat, off: nat, buf: seq<Byte>, dataSize: nat)
    | BeginSwap(leb: Leb, to: nat, buf: seq<Byte>)
    | BeginMove(leb: Leb, to: nat)
    | BeginInPlace(leb: Leb, off: nat, buf: seq<Byte>)
    | WriteHeader(leb: Leb)
    | WriteData(leb: Leb)
    | Commit(leb: Leb)
    | WriteError(leb: Leb, left: Peb, to: nat)
    | Abandon(leb: Leb, left: Peb)
    | EndInPlace(leb: Leb, after: Peb)
    | Unmap(leb: Leb)
    | Erase(pnum: nat)
    | WasteSqnum
    | PowerCut(image: Image)

  predicate IsFree(s: State, p: nat) {
    IsPeb(s, p) && s.role[p] == Free
  }

  /** Erased, and nothing written since but the erase-counter header. */
  predicate IsBlank(b: Peb, size: nat) {
    b.ec.Good? && b.vid == AllFF && b.data == Blank(size)
  }

  /** VID header of data written to an unmapped LEB: static volumes store size and checksum. */
  function FreshVid(s: State, l: Leb, buf: seq<Byte>, dataSize: nat): Vid
    requires l.vol in s.vols && dataSize <= |buf|
  {
    Vid(l, s.sqnum, false, s.vols[l.vol], dataSize, buf[..dataSize])
  }

  function SwapVid(s: State, l: Leb, buf: seq<Byte>): Vid
    requires l.vol in s.vols
  {
    Vid(l, s.sqnum, true, s.vols[l.vol], |buf|, buf)
  }

  /** How much of a PEB is copied: the stored size rounded up, or the data before the final 0xFF. */
  function MoveLen(from: Peb, minIo: nat): (n: nat)
    requires from.vid.Good? && minIo > 0 && |from.data| % minIo == 0 && from.vid.value.dataSize <= |from.data|
    ensures n <= |from.data|
  {
    if from.vid.value.vol.isStatic then
      AlignedBelow(from.vid.value.dataSize, |from.data|, minIo);
      AlignUp(from.vid.value.dataSize, minIo)
    else DataLen(from.data, minIo)
  }

  /** The checksum, the size and the copy flag are left alone when there is no data to copy. */
  function MoveVid(from: Peb, minIo: nat, sqnum: nat): Vid
    requires from.vid.Good? && minIo > 0 && |from.data| % minIo == 0 && from.vid.value.dataSize <= |from.data|
  {
    var v, n := from.vid.value, MoveLen(from, minIo);
    if n == 0 then v.(sqnum := sqnum)
    else
      var size := if v.vol.isStatic then v.dataSize else n;
      v.(sqnum := sqnum, copyFlag := true, dataSize := size, crc := from.data[..size])
  }

  lemma MoveVidIs(from: Peb, minIo: nat, number: nat)
    requires from.vid.Good? && minIo > 0 && |from.data| % minIo == 0 && from.vid.value.dataSize <= |from.data|
    ensures var v := from.vid.value;
      var size := if v.vol.isStatic then v.dataSize else MoveLen(from, minIo);
      && size <= |from.data|
      && MoveVid(from, minIo, number) ==
           if size > 0 then v.(sqnum := number, copyFlag := true, dataSize := size, crc := from.data[..size]) else v.(sqnum := number)
  {
    AlignUpZero(from.vid.value.dataSize, minIo);
    hide AlignUp, DataLen;
  }

  /** The operation on l has got as far as stage. */
  predicate AtStage(s: State, l: Leb, stage: Stage) {
    OpFits(s, l) && s.ops[l].Target? && s.ops[l].stage == stage
  }

  ghost predicate Enabled(s: State, step: Step) {
    match step
    case BeginFresh(l, to, off, buf, dataSize) =>
      && l !in s.eba && l !in s.ops && IsFree(s, to) && l.vol in s.vols && off + |buf| <= s.size
      && if s.vols[l.vol].isStatic then off == 0 && dataSize <= |buf| else dataSize == 0
    case BeginSwap(l, to, buf) =>
      && l !in s.ops && IsFree(s, to) && l.vol in s.vols && !s.vols[l.vol].isStatic && 0 < |buf| <= s.size
    case BeginMove(l, to) => MapFits(s, l) && l !in s.ops && IsFree(s, to) && IsBlank(s.flash[to], s.size)
    case BeginInPlace(l, off, buf) => MapFits(s, l) && l !in s.ops && Appends(s.flash[s.eba[l]], off, |buf|)
    case WriteHeader(l) => AtStage(s, l, Allocated)
    case WriteData(l) => AtStage(s, l, HeaderWritten)
    case Commit(l) => AtStage(s, l, DataWritten)
    case WriteError(l, left, to) =>
      && OpFits(s, l) && s.ops[l].Target? && s.ops[l].kind != Move && IsFree(s, to)
      && CutPeb(s, s.ops[l].to, left)
    case Abandon(l, left) => OpFits(s, l) && s.ops[l].Target? && CutPeb(s, s.ops[l].to, left)
    case EndInPlace(l, after) => OpFits(s, l) && s.ops[l].InPlace? && Appended(s, l, after)
    case Unmap(l) => MapFits(s, l) && l !in s.ops
    case Erase(p) => IsPeb(s, p) && s.role[p] == Pending
    case WasteSqnum => true
    case PowerCut(image) => CutImage(s, image)
  }

  /** Takes a free PEB.  It is erased again before it is used, but not when a LEB is moved to it. */
  function Take(s: State, l: Leb, kind: Kind, to: nat, vid: Vid, off: nat, buf: seq<Byte>): State
    requires IsFree(s, to)
  {
    s.(flash := s.flash[to := if kind == Move then s.flash[to] else Erased(s.flash[to])],
       role := s.role[to := Reserved(l)],
       ops := s.ops[l := Target(kind, to, vid, off, buf, Allocated)],
       sqnum := s.sqnum + 1)
  }

  /** Pending copies of l that win over PEB p. */
  function Winners(f: Image, role: seq<Role>, l: Leb, p: nat): (r: set<nat>)
    requires |f| == |role| && CopyOf(f, p, l)
  {
    set q | 0 <= q < |f| && role[q] == Pending && CopyOf(f, q, l) && !Beats(f[p], f[q])
  }

  function OtherRivals(s: State, l: Leb): (r: set<nat>) {
    set q | q in s.rivals && !CopyOf(s.flash, q, l)
  }

  function PutHeader(s: State, l: Leb): State
    requires AtStage(s, l, Allocated)
  {
    var op := s.ops[l];
    s.(flash := s.flash[op.to := s.flash[op.to].(vid := Good(op.vid))], ops := s.ops[l := op.(stage := HeaderWritten)])
  }

  function PutData(s: State, l: Leb): State
    requires AtStage(s, l, HeaderWritten)
  {
    var op := s.ops[l];
    s.(flash := s.flash[op.to := s.flash[op.to].(data := WriteAt(s.flash[op.to].data, op.off, op.buf))],
       ops := s.ops[l := op.(stage := DataWritten)])
  }

  /** The table now points to the new PEB; the old one waits for erasure. */
  function Remap(s: State, l: Leb): State
    requires AtStage(s, l, DataWritten) && (l in s.eba ==> MapFits(s, l))
  {
    var to := s.ops[l].to;
    var role := (if l in s.eba then s.role[s.eba[l] := Pending] else s.role)[to := Mapped(l)];
    s.(role := role, eba := s.eba[l := to], ops := MapWithout(s.ops, l),
       rivals := OtherRivals(s, l) + Winners(s.flash, role, l, to))
  }

  /** A failed write: the PEB is given back in whatever state, and another one is tried with a
      new sequence number. */
  function Retry(s: State, l: Leb, left: Peb, to: nat): State
    requires OpFits(s, l) && s.ops[l].Target? && IsFree(s, to)
  {
    var op := s.ops[l];
    Take(GivenBack(s, l, left), l, op.kind, to, op.vid.(sqnum := s.sqnum), op.off, op.buf)
  }

  /** The state in which the PEB of a failed attempt has just been given back. */
  function GivenBack(s: State, l: Leb, left: Peb): State
    requires OpFits(s, l) && s.ops[l].Target?
  {
    s.(flash := s.flash[s.ops[l].to := left], role := s.role[s.ops[l].to := Pending])
  }

  /** A cancelled move, or a change or a write that has failed too often, leaves its target, in
      whatever state, to be erased. */
  function GiveUp(s: State, l: Leb, left: Peb): State
    requires OpFits(s, l) && s.ops[l].Target? && (l in s.eba ==> MapFits(s, l))
  {
    var t := GivenBack(s, l, left);
    t.(ops := MapWithout(s.ops, l),
       rivals := s.rivals + (if l in s.eba then Winners(t.flash, t.role, l, s.eba[l]) else {}))
  }

  function StartMove(s: State, l: Leb, to: nat): State
    requires MapFits(s, l) && IsFree(s, to) && RoleFits(s, s.eba[l]) && s.minIo > 0 && s.size % s.minIo == 0
  {
    var from := s.flash[s.eba[l]];
    Take(s, l, Move, to, MoveVid(from, s.minIo, s.sqnum), 0, from.data[..MoveLen(from, s.minIo)])
  }

  /** What a write inside a mapped LEB may leave, whether it failed or not. */
  ghost predicate Appended(s: State, l: Leb, after: Peb)
    requires OpFits(s, l) && s.ops[l].InPlace?
  {
    TornWrite(s.flash[s.eba[l]], after, s.ops[l].off, |s.ops[l].buf|) && after.ec == s.flash[s.eba[l]].ec
  }

  /** The contents of the mapped PEB of l once the write is complete. */
  function Whole(s: State, l: Leb): Peb
    requires OpFits(s, l) && s.ops[l].InPlace?
  {
    var b := s.flash[s.eba[l]];
    b.(data := WriteAt(b.data, s.ops[l].off, s.ops[l].buf))
  }

  function Append(s: State, l: Leb, after: Peb): State
    requires OpFits(s, l) && s.ops[l].InPlace?
  {
    s.(flash := s.flash[s.eba[l] := after], ops := MapWithout(s.ops, l))
  }

  function Drop(s: State, l: Leb): State
    requires MapFits(s, l)
  {
    s.(role := s.role[s.eba[l] := Pending], eba := MapWithout(s.eba, l))
  }

  function EraseOne(s: State, p: nat): State
    requires IsPeb(s, p)
  {
    s.(flash := s.flash[p := Erased(s.flash[p])], role := s.role[p := Free], rivals := s.rivals - {p})
  }

  /** A sequence number drawn by an operation that then finds no free PEB. */
  function Wasted(s: State): State {
    s.(sqnum := s.sqnum + 1)
  }

  /** What the scan makes of PEB p: winners are mapped, clean ones are free, PEBs with a bad VID
      header and data are preserved, everything else is erased. */
  function ScannedRole(f: Image, p: nat): Role
    requires p < |f|
  {
    if f[p].vid.Good? then
      if Recovered(f, f[p].vid.value.leb) == p then Mapped(f[p].vid.value.leb) else Pending
    else if f[p].vid == AllFF then (if f[p].ec.Good? then Free else Pending)
    else if f[p].ec.Good? && f[p].data != Blank(|f[p].data|) then Dead
    else Pending
  }

  function MaxSqnum(f: Image): (n: nat)
    ensures forall p | 0 <= p < |f| && f[p].vid.Good? :: Sq(f[p]) <= n
    ensures n == 0 || exists p | 0 <= p < |f| :: f[p].vid.Good? && Sq(f[p]) == n
  {
    if f == [] then 0
    else
      var i := |f| - 1;
      var n := MaxSqnum(f[..i]);
      assert forall p | 0 <= p < i :: f[..i][p] == f[p];
      if f[i].vid.Good? && Sq(f[i]) > n then Sq(f[i]) else n
  }

  function LebsOn(f: Image): (r: set<Leb>) {
    set p | 0 <= p < |f| && f[p].vid.Good? :: f[p].vid.value.leb
  }

  /** Attaching: everything in memory is rebuilt from what is on the flash. */
  function Attach(s: State, f: Image): State {
    s.(flash := f, role := seq(|f|, p requires 0 <= p < |f| => ScannedRole(f, p)),
       eba := map l | l in LebsOn(f) && Recovered(f, l) != -1 :: Recovered(f, l) as nat,
       ops := map[], rivals := {}, sqnum := MaxSqnum(f) + 1)
  }

  function Apply(s: State, step: Step): State
    requires Shapes(s) && Enabled(s, step)
  {
    match step
    case BeginFresh(l, to, off, buf, dataSize) => Take(s, l, Fresh, to, FreshVid(s, l, buf, dataSize), off, buf)
    case BeginSwap(l, to, buf) => Take(s, l, Swap, to, SwapVid(s, l, buf), 0, buf)
    case BeginMove(l, to) => StartMove(s, l, to)
    case BeginInPlace(l, off, buf) => s.(ops := s.ops[l := InPlace(off, buf)])
    case WriteHeader(l) => PutHeader(s, l)
    case WriteData(l) => PutData(s, l)
    case Commit(l) => Remap(s, l)
    case WriteError(l, left, to) => Retry(s, l, left, to)
    case Abandon(l, left) => GiveUp(s, l, left)
    case EndInPlace(l, after) => Append(s, l, after)
    case Unmap(l) => Drop(s, l)
    case Erase(p) => EraseOne(s, p)
    case WasteSqnum => Wasted(s)
    case PowerCut(image) => Attach(s, image)
  }
}
