/** The flash as UBI sees it: physical eraseblocks (PEBs) with an erase-counter header, a
    volume identifier (VID) header and a data area.  Checksums are ideal: a header is either
    readable, corrupt or all 0xFF, and the data CRC stored in a VID header stands for the very
    bytes it was computed from, so a torn copy never matches it. */
module Flash {

  type Byte = b: int | 0 <= b < 256

  const FF: Byte := 255

  datatype Hdr<T> = AllFF | Corrupt | Good(value: T)

  /** A logical eraseblock. */
  datatype Leb = Leb(vol: nat, lnum: nat)

  /** The part of a VID header that all eraseblocks of one volume share. */
  datatype VolHdr = VolHdr(isStatic: bool, usedEbs: nat, dataPad: nat)

  datatype Vid = Vid(leb: Leb, sqnum: nat, copyFlag: bool, vol: VolHdr, dataSize: nat, crc: seq<Byte>)

  datatype Peb = Peb(ec: Hdr<nat>, vid: Hdr<Vid>, data: seq<Byte>)

  type Image = seq<Peb>

  function Blank(n: nat): (r: seq<Byte>)
    ensures |r| == n && forall i :: 0 <= i < n ==> r[i] == FF
  {
    seq(n, _ => FF)
  }

  predicate CrcOk(v: Vid, data: seq<Byte>) {
    v.dataSize <= |data| && data[..v.dataSize] == v.crc
  }

  /** A copy the scan accepts as the newest without looking further. */
  predicate Trusted(b: Peb)
    requires b.vid.Good?
  {
    b.vid.value.copyFlag ==> CrcOk(b.vid.value, b.data)
  }

  /** It has a checksum of at least one byte. */
  predicate HasChecksum(b: Peb)
    requires b.vid.Good?
  {
    b.vid.value.copyFlag && b.vid.value.dataSize > 0
  }

  predicate CopyOf(f: Image, p: int, l: Leb) {
    0 <= p < |f| && f[p].vid.Good? && f[p].vid.value.leb == l
  }

  function Sq(b: Peb): nat
    requires b.vid.Good?
  {
    b.vid.value.sqnum
  }

  /** Which of two copies of one LEB the scan prefers: trusted ones over the others, the newest
      of the trusted ones, and the oldest when none can be trusted. */
  predicate Beats(a: Peb, b: Peb)
    requires a.vid.Good? && b.vid.Good?
  {
    if Trusted(a) then Trusted(b) ==> Sq(b) < Sq(a) else !Trusted(b) && Sq(a) < Sq(b)
  }

  /** Two copies of the same LEB never carry the same sequence number. */
  ghost predicate DistinctSq(f: Image) {
    forall p, q | 0 <= p < |f| && 0 <= q < |f| && p != q && f[p].vid.Good? && f[q].vid.Good? ::
      f[p].vid.value.leb == f[q].vid.value.leb ==> Sq(f[p]) != Sq(f[q])
  }

  lemma BeatsIsTotal(a: Peb, b: Peb)
    requires a.vid.Good? && b.vid.Good? && Sq(a) != Sq(b)
    ensures Beats(a, b) <==> !Beats(b, a)
  {
  }

  predicate Within(f: Image, order: seq<nat>) {
    forall i | 0 <= i < |order| :: order[i] < |f|
  }

  /** The copy of l kept by the scan when the PEBs are read in the given order, or -1. */
  function Kept(f: Image, l: Leb, order: seq<nat>): (k: int)
    requires Within(f, order)
    ensures k == -1 || (k in order && CopyOf(f, k, l))
    decreases |order|
  {
    if order == [] then -1
    else
      var p := order[|order| - 1];
      var k := Kept(f, l, order[..|order| - 1]);
      if !CopyOf(f, p, l) then k
      else if k == -1 || Beats(f[p], f[k]) then p
      else k
  }

  lemma {:induction false} KeptBeatsTheOthers(f: Image, l: Leb, order: seq<nat>)
    requires Within(f, order) && DistinctSq(f)
    ensures Kept(f, l, order) == -1 ==> forall p :: p in order ==> !CopyOf(f, p, l)
    ensures Kept(f, l, order) != -1 ==>
      forall p :: p in order && p != Kept(f, l, order) && CopyOf(f, p, l) ==> Beats(f[Kept(f, l, order)], f[p])
    decreases |order|
  {
    if order != [] {
      var n := |order| - 1;
      var p := order[n];
      KeptBeatsTheOthers(f, l, order[..n]);
      var k := Kept(f, l, order[..n]);
      assert forall q | q in order :: q in order[..n] || q == p;
      if k != -1 && k != p && CopyOf(f, p, l) {
        BeatsIsTotal(f[k], f[p]);
      }
    }
  }

  /** The order in which PEBs are read. */
  function Ascending(n: nat): (r: seq<nat>)
    ensures |r| == n && (forall i :: 0 <= i < n ==> r[i] == i) && forall p :: p in r <==> 0 <= p < n
  {
    var r := seq(n, i => i);
    assert forall p: nat | p < n :: p in r by {
      forall p: nat | p < n
        ensures p in r
      {
        assert r[p] == p;
      }
    }
    r
  }

  /** What the scan rebuilds for LEB l, or -1. */
  function Recovered(f: Image, l: Leb): (r: int)
    ensures r == -1 || CopyOf(f, r, l)
  {
    Kept(f, l, Ascending(|f|))
  }

  lemma RecoveredBeatsTheOthers(f: Image, l: Leb)
    requires DistinctSq(f)
    ensures Recovered(f, l) == -1 ==> forall p :: !CopyOf(f, p, l)
    ensures Recovered(f, l) != -1 ==>
      forall p :: p != Recovered(f, l) && CopyOf(f, p, l) ==> Beats(f[Recovered(f, l)], f[p])
  {
    KeptBeatsTheOthers(f, l, Ascending(|f|));
    forall p: int | CopyOf(f, p, l)
      ensures p in Ascending(|f|)
    {
    }
  }

  /** The bytes a reader of the LEB sees: a static volume is never read beyond its data size. */
  function Payload(b: Peb): seq<Byte>
    requires b.vid.Good?
  {
    var v := b.vid.value;
    if v.vol.isStatic && v.dataSize <= |b.data| then b.data[..v.dataSize] else b.data
  }

  function WriteAt(d: seq<Byte>, off: nat, buf: seq<Byte>): (r: seq<Byte>)
    requires off + |buf| <= |d|
    ensures |r| == |d|
    ensures forall i :: 0 <= i < |d| ==> r[i] == if off <= i < off + |buf| then buf[i - off] else d[i]
  {
    d[..off] + buf + d[off + |buf|..]
  }

  /** What an interrupted write of n bytes at off may leave: anything inside the range, and
      every other byte untouched. */
  predicate TornWrite(before: Peb, after: Peb, off: nat, n: nat) {
    && after.vid == before.vid && |after.data| == |before.data|
    && forall i :: 0 <= i < |before.data| && !(off <= i < off + n) ==> after.data[i] == before.data[i]
  }

  /** What an interrupted erasure may leave: a header that survives is the old one, the data may
      be anything, but garbage never matches a checksum: a copy that can still be trusted has not
      been touched yet. */
  ghost predicate TornErase(before: Peb, after: Peb) {
    && |after.data| == |before.data|
    && (after.vid.Good? ==>
      && after.vid == before.vid
      && (HasChecksum(after) && Trusted(after) ==> after.data == before.data))
  }

  /** What an interrupted write of a VID header may leave in an erased PEB. */
  predicate TornHeader(after: Peb, v: Vid, size: nat) {
    && after.data == Blank(size)
    && (after.vid.Good? ==> after.vid.value == v)
  }

  /** Erased, with the next erase counter in a fresh header. */
  function Erased(b: Peb): Peb {
    Peb(Good(if b.ec.Good? then b.ec.value + 1 else 0), AllFF, Blank(|b.data|))
  }
}
