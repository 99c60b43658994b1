/** What ubi_eba_write_leb does when a write inside a LEB fails: what was there before is copied to a new
    PEB, with a higher number but without a checksum of its own. */
module RecoverPeb {
  import E = Eba
  import opened Flash

  /** What an attempt leaves in a PEB that was free: a copy with a new number, of which nothing beyond the
      first n bytes has been written. */
  predicate IsAttempt(v: Vid, n: nat, b: Peb) {
    b.vid.Good? ==> v.sqnum < Sq(b) && b.vid.value == v.(sqnum := Sq(b)) && forall i | n <= i < |b.data| :: b.data[i] == FF
  }

  /** The LEB is in PEB p, no other copy outranks it, and nothing that its header has a checksum of lies
      beyond off, where the write has failed. */
  ghost predicate IsThere(f: Image, p: nat, off: nat, n: nat) {
    && p < |f| && f[p].vid.Good? && !f[p].vid.value.vol.isStatic && off + n <= |f[p].data| && DistinctSq(f)
    && Trusted(f[p]) && (f[p].vid.value.copyFlag ==> f[p].vid.value.dataSize <= off)
    && forall x | 0 <= x < |f| && x != p && CopyOf(f, x, f[p].vid.value.leb) :: Beats(f[p], f[x])
  }

  /** What a cut may find in the midst of it, after any number of attempts: p is as it was, and so is
      everything else but PEBs that were free. */
  ghost predicate CutDuring(f: Image, p: nat, off: nat, n: nat, f': Image)
    requires IsThere(f, p, off, n)
  {
    && |f'| == |f| && f'[p] == f[p] && DistinctSq(f')
    && forall x | 0 <= x < |f| && x != p ::
         f'[x] == f[x] || (!f[x].vid.Good? && |f'[x].data| == |f[x].data| && IsAttempt(f[p].vid.value, off + n, f'[x]))
  }

  /** The LEB is found, and with it what it held before off. */
  ghost predicate StillThere(f: Image, p: nat, off: nat, n: nat, f': Image)
    requires IsThere(f, p, off, n)
  {
    var r := Recovered(f', f[p].vid.value.leb);
    0 <= r < |f'| && off <= |f'[r].data| && f'[r].data[..off] == f[p].data[..off]
  }

  ghost predicate IsSafe(f: Image, p: nat, off: nat, n: nat)
    requires IsThere(f, p, off, n)
  {
    forall f' | CutDuring(f, p, off, n, f') :: StillThere(f, p, off, n, f')
  }

  /** Some free PEB is as large as the others. */
  predicate CanAttempt(f: Image, p: nat, q: nat) {
    p < |f| && q < |f| && q != p && !f[q].vid.Good? && |f[q].data| == |f[p].data|
  }

  predicate SameSize(f: Image) {
    forall x, y | 0 <= x < y < |f| :: |f[x].data| == |f[y].data|
  }

  lemma WhoIsFound(f: Image, p: nat, off: nat, n: nat, f': Image)
    requires IsThere(f, p, off, n) && CutDuring(f, p, off, n, f')
    ensures var l := f[p].vid.value.leb;
      var r := Recovered(f', l);
      0 <= r < |f'| && (r == p || (CopyOf(f', r, l) && !f[r].vid.Good? && IsAttempt(f[p].vid.value, off + n, f'[r]) && Trusted(f'[r])))
  {
    var l := f[p].vid.value.leb;
    RecoveredBeatsTheOthers(f', l);
    assert CopyOf(f', p, l);
    var r := Recovered(f', l);
    assert r == p || Beats(f'[r], f'[p]);
  }

  /** A copy that can be trusted has what the checksum covers. */
  lemma ChecksumCovers(v: Vid, n: nat, a: Peb, b: Peb)
    requires a.vid == Good(v) && v.copyFlag && Trusted(a) && b.vid.Good? && IsAttempt(v, n, b) && Trusted(b)
    ensures v.dataSize <= |a.data| && v.dataSize <= |b.data| && a.data[..v.dataSize] == b.data[..v.dataSize]
  {
  }

  lemma CoveredIsSafe(f: Image, p: nat, off: nat, n: nat)
    requires IsThere(f, p, off, n) && SameSize(f)
    requires off == 0 || (f[p].vid.value.copyFlag && f[p].vid.value.dataSize == off)
    ensures IsSafe(f, p, off, n)
  {
    forall f' | CutDuring(f, p, off, n, f')
      ensures StillThere(f, p, off, n, f')
    {
      WhoIsFound(f, p, off, n, f');
      var r := Recovered(f', f[p].vid.value.leb);
      if r != p && off > 0 {
        ChecksumCovers(f[p].vid.value, off + n, f[p], f'[r]);
      }
    }
  }

  /** One byte before off is not written yet, or was damaged. */
  function Damaged(b: Peb, off: nat, number: nat): Peb
    requires b.vid.Good? && 0 < off <= |b.data|
  {
    var wrong: Byte := if b.data[off - 1] == 0 then 1 else 0;
    Peb(Good(0), Good(b.vid.value.(sqnum := number)), WriteAt(Blank(|b.data|), 0, b.data[..off - 1] + [wrong]))
  }

  function Highest(f: Image): (m: nat)
    ensures forall x | 0 <= x < |f| && f[x].vid.Good? :: Sq(f[x]) <= m
  {
    if f == [] then 0
    else
      var i := |f| - 1;
      var m := Highest(f[..i]);
      assert forall x | 0 <= x < i :: f[..i][x] == f[x];
      if f[i].vid.Good? && Sq(f[i]) > m then Sq(f[i]) else m
  }

  lemma DamageIsTrusted(b: Peb, off: nat, number: nat)
    requires b.vid.Good? && 0 < off <= |b.data| && Trusted(b) && (b.vid.value.copyFlag ==> b.vid.value.dataSize < off)
    ensures Trusted(Damaged(b, off, number)) && Damaged(b, off, number).data[off - 1] != b.data[off - 1]
  {
    var d, k := Damaged(b, off, number), b.vid.value.dataSize;
    if b.vid.value.copyFlag {
      assert d.data[..k] == b.data[..k];
    }
  }

  lemma UncoveredIsNotSafe(f: Image, p: nat, q: nat, off: nat, n: nat)
    requires IsThere(f, p, off, n) && CanAttempt(f, p, q)
    requires off > 0 && (f[p].vid.value.copyFlag ==> f[p].vid.value.dataSize < off)
    ensures !IsSafe(f, p, off, n)
  {
    var number, l := Highest(f) + 1, f[p].vid.value.leb;
    var d := Damaged(f[p], off, number);
    DamageIsTrusted(f[p], off, number);
    var f' := f[q := d];
    assert IsAttempt(f[p].vid.value, off + n, d);
    assert CutDuring(f, p, off, n, f');
    RecoveredBeatsTheOthers(f', l);
    assert CopyOf(f', q, l);
    assert Recovered(f', l) == q;
    assert f'[q].data[..off][off - 1] != f[p].data[..off][off - 1];
  }

  /** While the LEB is being recovered, every cut finds what it held before the write that failed, if and
      only if nothing was there before, or all of it is covered by the checksum of an earlier copy. */
  lemma RecoverIsSafeIff(f: Image, p: nat, q: nat, off: nat, n: nat)
    requires IsThere(f, p, off, n) && SameSize(f) && CanAttempt(f, p, q)
    ensures IsSafe(f, p, off, n) <==> off == 0 || (f[p].vid.value.copyFlag && f[p].vid.value.dataSize == off)
  {
    if off == 0 || (f[p].vid.value.copyFlag && f[p].vid.value.dataSize == off) {
      CoveredIsSafe(f, p, off, n);
    } else {
      UncoveredIsNotSafe(f, p, q, off, n);
    }
  }

  // ---- The code ------------------------------------------------------------------------------

  /** What was there before off, and then what could not be written. */
  function Rescued(b: Peb, off: nat, buf: seq<Byte>, number: nat): Peb
    requires b.vid.Good? && off + |buf| <= |b.data|
  {
    Peb(b.ec, Good(b.vid.value.(sqnum := number)), WriteAt(Blank(|b.data|), 0, b.data[..off] + buf))
  }

  /** Once the copy is complete, it is found whatever becomes of the older ones. */
  lemma RescuedIsFound(f: Image, p: nat, q: nat, off: nat, buf: seq<Byte>, f': Image)
    requires IsThere(f, p, off, |buf|) && q < |f'| && f'[q].vid.Good? && DistinctSq(f')
    requires f'[q].vid.value == f[p].vid.value.(sqnum := Sq(f'[q])) && f'[q].data == Rescued(f[p], off, buf, 0).data
    requires forall x | 0 <= x < |f'| && x != q && CopyOf(f', x, f[p].vid.value.leb) :: Sq(f'[x]) < Sq(f'[q])
    ensures Recovered(f', f[p].vid.value.leb) == q
  {
    var l, k := f[p].vid.value.leb, f[p].vid.value.dataSize;
    RecoveredBeatsTheOthers(f', l);
    assert CopyOf(f', q, l);
    if f[p].vid.value.copyFlag {
      assert f'[q].data[..k] == f[p].data[..k];
    }
    assert Trusted(f'[q]);
  }

  /** Another attempt that is not complete changes nothing of what matters. */
  lemma OneMoreAttempt(f: Image, p: nat, off: nat, n: nat, g: Image, q: nat, b: Peb)
    requires IsThere(f, p, off, n) && CutDuring(f, p, off, n, g) && q < |f| && q != p && !f[q].vid.Good?
    requires |b.data| == |f[q].data| && IsAttempt(f[p].vid.value, off + n, b)
    requires b.vid.Good? ==> forall x | 0 <= x < |g| && g[x].vid.Good? :: Sq(g[x]) < Sq(b)
    ensures CutDuring(f, p, off, n, g[q := b])
  {
  }

  lemma Begins(f: Image, p: nat, off: nat, n: nat)
    requires IsThere(f, p, off, n)
    ensures CutDuring(f, p, off, n, f)
  {
  }

  class Device {
    var flash: Image
    /** Where the LEB is. */
    var entry: nat
    var free: set<nat>
    var pending: set<nat>
    var sqnum: nat

    ghost predicate Valid()
      reads this
    {
      && SameSize(flash) && entry < |flash| && entry !in free && flash[entry].vid.Good? && Sq(flash[entry]) < sqnum
      && (forall x | x in free :: x < |flash| && !flash[x].vid.Good?)
      && forall x | 0 <= x < |flash| && flash[x].vid.Good? :: Sq(flash[x]) < sqnum
    }

    /** The header and then the data are written to an erased PEB. */
    method WriteCopy(q: nat, v: Vid, data: seq<Byte>, a: E.Answer) returns (err: E.Errno)
      requires q < |flash| && |data| <= |flash[q].data| && flash[q].data == Blank(|flash[q].data|) && flash[q].vid == AllFF
      modifies this`flash
      ensures |flash| == |old(flash)| && flash == old(flash)[q := flash[q]] && |flash[q].data| == |old(flash)[q].data|
      ensures err == E.Attempted(a, |data|)
      ensures err == E.Ok ==> flash[q] == Peb(old(flash)[q].ec, Good(v), WriteAt(Blank(|flash[q].data|), 0, data))
      ensures flash[q].vid.Good? ==> flash[q].vid.value == v && forall i | |data| <= i < |flash[q].data| :: flash[q].data[i] == FF
    {
      err := a.header;
      if err != E.Ok {
        var left: Peb := *;
        if left.data == flash[q].data && (left.vid.Good? ==> left.vid.value == v) {
          flash := flash[q := left];
        }
        return;
      }
      flash := flash[q := flash[q].(vid := Good(v))];
      if |data| == 0 {
        return;
      }
      err := a.data;
      if err == E.Ok {
        flash := flash[q := flash[q].(data := WriteAt(flash[q].data, 0, data))];
      } else {
        var left: Peb := *;
        if TornWrite(flash[q], left, 0, |data|) {
          flash := flash[q := left];
        }
      }
    }

    /** ubi_wl_get_peb */
    method TakePeb(off: nat, n: nat, ghost f: Image) returns (q: int)
      requires Valid() && IsThere(f, entry, off, n) && CutDuring(f, entry, off, n, flash)
      requires forall x | x in free :: x < |f| && !f[x].vid.Good?
      modifies this`flash, this`free
      ensures Valid() && CutDuring(f, entry, off, n, flash)
      ensures q < 0 ==> old(free) == {} == free && flash == old(flash)
      ensures q >= 0 ==> q in old(free) && free == old(free) - {q as nat} && q < |flash| == |f| && q != entry
      ensures q >= 0 ==> flash[q].vid == AllFF && flash[q].data == Blank(|flash[q].data|)
    {
      if free == {} {
        return -1;
      }
      var x :| x in free;
      free := free - {x};
      flash := flash[x := Erased(flash[x])];
      OneMoreAttempt(f, entry, off, n, old(flash), x, flash[x]);
      return x;
    }

    /** One turn of the loop; q is where the copy is now. */
    method Attempt(off: nat, buf: seq<Byte>, q: nat, a: E.Answer, ghost f: Image) returns (err: E.Errno)
      requires Valid() && IsThere(f, entry, off, |buf|) && CutDuring(f, entry, off, |buf|, flash) && SameSize(f)
      requires q < |flash| && q != entry && q !in free && !f[q].vid.Good? && flash[q].vid == AllFF && flash[q].data == Blank(|flash[q].data|)
      modifies this`flash, this`sqnum
      ensures Valid() && CutDuring(f, entry, off, |buf|, flash) && err == E.Attempted(a, off + |buf|)
      ensures flash == old(flash)[q := flash[q]] && sqnum == old(sqnum) + 1
      ensures err == E.Ok ==> flash[q] == Rescued(f[entry], off, buf, old(sqnum)).(ec := old(flash)[q].ec)
      ensures err == E.Ok ==> Sq(flash[q]) == old(sqnum) && forall x | 0 <= x < |flash| && x != q && flash[x].vid.Good? :: Sq(flash[x]) < old(sqnum)
    {
      assert flash[entry] == f[entry] && |flash[q].data| == |f[q].data| == |f[entry].data|;
      var v := flash[entry].vid.value.(sqnum := sqnum);
      sqnum := sqnum + 1;
      var data := flash[entry].data[..off] + buf;
      err := WriteCopy(q, v, data, a);
      OneMoreAttempt(f, entry, off, |buf|, old(flash), q, flash[q]);
    }

    /** recover_peb, of a LEB with bytes that could not be written at off; readable: what is there can be
        read. It is tried again after every failed write, whatever the error, but only so often. */
    method RecoverPeb(off: nat, buf: seq<Byte>, readable: bool, answers: seq<E.Answer>) returns (err: E.Errno, ghost n: nat)
      requires Valid() && IsThere(flash, entry, off, |buf|) && |answers| > E.IO_RETRIES
      modifies this
      ensures n <= E.IO_RETRIES + 1 && forall i | 0 <= i < n :: E.Attempted(answers[i], off + |buf|) != E.Ok
      ensures err == E.Ok <==> entry != old(entry)
      ensures err == E.Ok ==>
        && readable && n <= E.IO_RETRIES && E.Attempted(answers[n], off + |buf|) == E.Ok
        && entry in old(free) && entry < |flash| && flash[entry].vid.Good?
        && flash[entry] == Rescued(old(flash)[old(entry)], off, buf, Sq(flash[entry])).(ec := flash[entry].ec)
        && (forall x | 0 <= x < |flash| && x != entry && flash[x].vid.Good? :: Sq(flash[x]) < Sq(flash[entry]))
      ensures err != E.Ok ==>
        || (err == E.ENOSPC && free == {})
        || (err == E.EIO && !readable && n == 0)
        || (readable && n == E.IO_RETRIES + 1 && err == E.Attempted(answers[n - 1], off + |buf|))
      ensures free + pending + {entry} == old(free + pending + {entry}) && free <= old(free) && old(pending) <= pending
      ensures IsThere(old(flash), old(entry), off, |buf|) && CutDuring(old(flash), old(entry), off, |buf|, flash)
    {
      hide IsThere, CutDuring, IsAttempt, SameSize;
      ghost var f := flash;
      var p := entry;
      Begins(f, p, off, |buf|);
      var tries := 0;
      n := 0;
      while true
        invariant Valid() && entry == p && IsThere(f, p, off, |buf|) && CutDuring(f, p, off, |buf|, flash)
        invariant n == tries <= E.IO_RETRIES && (forall i | 0 <= i < n :: E.Attempted(answers[i], off + |buf|) != E.Ok) && (n > 0 ==> readable)
        invariant free <= old(free) && old(pending) <= pending && free + pending + {p} == old(free + pending + {entry})
        decreases E.IO_RETRIES - tries
      {
        var q := TakePeb(off, |buf|, f);
        if q < 0 {
          return E.ENOSPC, n;
        }
        if !readable {
          pending := pending + {q};
          return E.EIO, n;
        }
        err := Attempt(off, buf, q, answers[tries], f);
        if err == E.Ok {
          entry := q;
          pending := pending + {p};
          return;
        }
        pending := pending + {q};
        n := n + 1;
        tries := tries + 1;
        if tries > E.IO_RETRIES {
          return;
        }
      }
    }
  }
}
