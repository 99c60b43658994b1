/** The write-buffer of a journal head: whatever is still in memory, flash and buffer together are a
    log to which every node is appended. */
module WriteBuffer {
  import opened Arith
  import opened Flash

  datatype Geometry = Geometry(lebSize: nat, minIo: nat, maxWrite: nat)

  predicate GeometryOk(g: Geometry) {
    && 0 < g.minIo <= g.maxWrite && g.minIo % 8 == 0 && g.maxWrite % g.minIo == 0 && g.lebSize % g.minIo == 0
    && g.maxWrite <= g.lebSize
  }

  lemma {:induction false} MultipleOf(k: nat, a: nat, m: nat)
    requires m > 0 && a % m == 0
    ensures (k * a) % m == 0
  {
    if k > 0 {
      MultipleOf(k - 1, a, m);
      assert k * a == (k - 1) * a + a;
      SumOf((k - 1) * a, a, m);
    }
  }

  lemma SumOf(a: nat, b: nat, m: nat)
    requires m > 0 && a % m == 0 && b % m == 0
    ensures (a + b) % m == 0
  {
    QuotientAndRest(a, m);
    QuotientAndRest(b, m);
    assert (a / m + b / m) * m == a / m * m + b / m * m;
    ModUnique(a + b, m, a / m + b / m, 0);
  }

  lemma DifferenceOf(a: nat, b: nat, m: nat)
    requires m > 0 && a % m == 0 && b % m == 0 && b <= a
    ensures (a - b) % m == 0
  {
    QuotientAndRest(a, m);
    QuotientAndRest(b, m);
    if a / m < b / m {
      MulGap(a / m, b / m, m);
    }
    assert (a / m - b / m) * m == a / m * m - b / m * m;
    ModUnique(a - b, m, a / m - b / m, 0);
  }

  /** A multiple of a multiple. */
  lemma Chain(x: nat, a: nat, m: nat)
    requires m > 0 && a > 0 && a % m == 0 && x % a == 0
    ensures x % m == 0
  {
    QuotientAndRest(x, a);
    MultipleOf(x / a, a, m);
  }

  /** Where the buffer has to end: at the next boundary of a maximal write, or at the end of the LEB. */
  predicate SizeFits(g: Geometry, offs: nat, size: nat)
    requires GeometryOk(g)
  {
    && offs + size <= g.lebSize && size <= g.maxWrite && size % g.minIo == 0 && offs % g.minIo == 0
    && if g.lebSize - offs >= g.maxWrite then size > 0 && (offs + size) % g.maxWrite == 0 else size == g.lebSize - offs
  }

  /** The size of the empty buffer at offs. */
  function SizeAt(g: Geometry, offs: nat): (size: nat)
    requires GeometryOk(g) && offs <= g.lebSize && offs % g.minIo == 0
    ensures SizeFits(g, offs, size)
  {
    DifferenceOf(g.lebSize, offs, g.minIo);
    if g.lebSize - offs < g.maxWrite then g.lebSize - offs
    else if offs % g.maxWrite != 0 then
      var end := AlignUp(offs, g.maxWrite);
      Chain(end, g.maxWrite, g.minIo);
      DifferenceOf(end, offs, g.minIo);
      end - offs
    else
      SumOf(offs, g.maxWrite, g.maxWrite);
      g.maxWrite
  }

  lemma Multiple8(a: nat, b: nat)
    requires a % 8 == 0 && b % 8 == 0
    ensures (a + b) % 8 == 0
  {
  }

  lemma Multiple8'(a: nat, b: nat)
    requires a % 8 == 0 && b % 8 == 0 && b <= a
    ensures (a - b) % 8 == 0
  {
  }

  /** A full buffer is whole I/O units, and brings the offset to a boundary. */
  lemma Units(g: Geometry, offs: nat, size: nat)
    requires GeometryOk(g) && SizeFits(g, offs, size)
    ensures size % 8 == 0 && (offs + size) % g.minIo == 0 && g.maxWrite % 8 == 0
    ensures (offs + size) % g.maxWrite == 0 || offs + size == g.lebSize
  {
    Chain(size, g.minIo, 8);
    Chain(g.maxWrite, g.minIo, 8);
    SumOf(offs, size, g.minIo);
  }

  /** The whole units in n bytes. */
  function WholeUnits(n: nat, m: nat): (k: nat)
    requires m > 0
    ensures k <= n < k + m && k % m == 0
  {
    RoundedDown(n, m);
    n / m * m
  }

  /** Writing whole units keeps the offset on a boundary. */
  lemma UnitsKeepBoundary(g: Geometry, offs: nat, k: nat)
    requires GeometryOk(g) && offs % g.maxWrite == 0 && k % g.maxWrite == 0
    ensures k % g.minIo == 0 && k % 8 == 0 && (offs + k) % g.maxWrite == 0 && (offs + k) % g.minIo == 0
  {
    SumOf(offs, k, g.maxWrite);
    Chain(k, g.maxWrite, g.minIo);
    Chain(offs + k, g.maxWrite, g.minIo);
    Chain(k, g.minIo, 8);
  }

  /** ubifs_pad; what the padding looks like does not matter here. */
  function Padding(n: nat): (r: seq<Byte>)
    ensures |r| == n
  {
    seq(n, _ => 0xCE)
  }

  /** after is before with the node behind it; what follows the node up to its aligned length is arbitrary. */
  predicate Appended(before: seq<Byte>, after: seq<Byte>, node: seq<Byte>, len: nat)
    requires len <= |node|
  {
    |after| == |before| + |node| && after[..|before| + len] == before + node[..len]
  }

  /** The node may be written in two pieces. */
  lemma AppendedInPieces(before: seq<Byte>, tail: seq<Byte>, node: seq<Byte>, len: nat, written: nat)
    requires written <= |node| == written + |tail| && len <= |node|
    requires tail == [] || (written <= len && tail[..len - written] == node[written..len])
    ensures Appended(before, before + node[..written] + tail, node, len)
  {
    var after := before + node[..written] + tail;
    if tail != [] {
      assert after[..|before| + len] == before + node[..written] + tail[..len - written];
      assert node[..len] == node[..written] + node[written..len];
    }
  }

  /** A node is found where it was appended, whatever is appended after it. */
  lemma StaysReadable(before: seq<Byte>, after: seq<Byte>, node: seq<Byte>, len: nat, later: seq<Byte>)
    requires len <= |node| && Appended(before, after, node, len) && after <= later
    ensures |before| + len <= |later| && later[|before|..|before| + len] == node[..len]
  {
    assert later[|before|..|before| + len] == after[..|before| + len][|before|..];
  }

  datatype Errno = Ok | NoSpace

  class Wbuf {
    const g: Geometry
    const buf: array<Byte>
    var flash: map<nat, seq<Byte>>
    var lnum: nat
    var offs: nat
    var size: nat
    var avail: nat
    var used: nat

    ghost predicate Valid()
      reads this, buf
    {
      && GeometryOk(g) && buf.Length == g.maxWrite && lnum in flash && |flash[lnum]| == offs
      && SizeFits(g, offs, size) && used + avail == size && used % 8 == 0 && (avail == 0 ==> offs + size == g.lebSize)
    }

    /** What has been written to the LEB, as a reader finds it. */
    ghost function Log(): seq<Byte>
      requires Valid()
      reads this, buf
    {
      flash[lnum] + buf[..used]
    }

    /** ubi_leb_write: only whole I/O units, only at the end of what is there. */
    method LebWrite(data: seq<Byte>, at: nat)
      requires GeometryOk(g) && lnum in flash && |flash[lnum]| == at && at % g.minIo == 0
      requires |data| % g.minIo == 0 && at + |data| <= g.lebSize
      modifies this`flash
      ensures flash == old(flash)[lnum := old(flash[lnum]) + data]
    {
      flash := flash[lnum := flash[lnum] + data];
    }

    /** The fields of an empty buffer. */
    method Reset()
      requires GeometryOk(g) && offs <= g.lebSize && offs % g.minIo == 0
      modifies this`size, this`avail, this`used
      ensures SizeFits(g, offs, size) && avail == size && used == 0
    {
      if g.lebSize - offs < g.maxWrite {
        size := g.lebSize - offs;
      } else if offs % g.maxWrite != 0 {
        size := AlignUp(offs, g.maxWrite) - offs;
      } else {
        size := g.maxWrite;
      }
      assert size == SizeAt(g, offs);
      avail, used := size, 0;
    }

    /** ubifs_wbuf_sync_nolock: the minimum necessary number of I/O units is written. */
    method Sync()
      requires Valid()
      modifies this, buf
      ensures Valid() && used == 0 && lnum == old(lnum) && flash[lnum] == Log()
      ensures Log() == old(Log()) + Padding(AlignUp(old(used), g.minIo) - old(used))
      ensures flash == old(flash)[lnum := Log()]
    {
      if used == 0 {
        assert AlignUp(0, g.minIo) == 0 by { AlignedBelow(0, 0, g.minIo); }
        assert flash == flash[lnum := flash[lnum]];
        return;
      }
      AlignedBelow(used, size, g.minIo);
      var len := AlignUp(used, g.minIo);
      ghost var before := buf[..used];
      var pad := Padding(len - used);
      forall i | used <= i < len {
        buf[i] := pad[i - used];
      }
      assert buf[..len] == before + pad;
      LebWrite(buf[..len], offs);
      SumOf(offs, len, g.minIo);
      offs := offs + len;
      Reset();
    }

    /** ubifs_wbuf_seek_nolock, to the end of what has been written to another LEB. */
    method Seek(to: nat, at: nat)
      requires Valid() && used == 0 && to != lnum && to in flash && |flash[to]| == at <= g.lebSize && at % g.minIo == 0
      modifies this
      ensures Valid() && used == 0 && flash == old(flash) && lnum == to && Log() == flash[to]
    {
      lnum, offs := to, at;
      Reset();
    }

    /** memcpy into the buffer. */
    method Copy(to: nat, data: seq<Byte>)
      requires to + |data| <= buf.Length
      modifies buf
      ensures forall i {:trigger buf[i]} :: 0 <= i < buf.Length && !(to <= i < to + |data|) ==> buf[i] == old(buf[i])
      ensures buf[to..to + |data|] == data
    {
      forall i | to <= i < to + |data| {
        buf[i] := data[i - to];
      }
    }

    /** The size after the buffer went to flash whole: it did so at a boundary of a maximal write, or
        at the end of the LEB. */
    method NextUnit()
      requires GeometryOk(g) && offs <= g.lebSize && offs % g.minIo == 0
      requires offs % g.maxWrite == 0 || offs == g.lebSize
      modifies this`size
      ensures SizeFits(g, offs, size) && (size == g.maxWrite || size == g.lebSize - offs)
    {
      if g.lebSize - offs >= g.maxWrite {
        size := g.maxWrite;
      } else {
        size := g.lebSize - offs;
      }
      assert size == SizeAt(g, offs);
    }

    /** The buffer is full, and goes to flash whole. */
    method FlushFull()
      requires GeometryOk(g) && buf.Length == g.maxWrite && lnum in flash && |flash[lnum]| == offs && SizeFits(g, offs, size)
      modifies this`flash, this`offs, this`size, this`avail, this`used
      ensures Valid() && used == 0 && flash == old(flash)[lnum := old(flash[lnum]) + buf[..old(size)]]
    {
      Units(g, offs, size);
      LebWrite(buf[..size], offs);
      offs := offs + size;
      NextUnit();
      avail, used := size, 0;
    }

    /** The node fits into what is free of the buffer. */
    method WriteSmall(node: seq<Byte>, len: nat)
      requires Valid() && 0 < len <= |node| == AlignUp(len, 8) <= avail
      modifies this, buf
      ensures Valid() && lnum == old(lnum) && Appended(old(Log()), Log(), node, len)
      ensures flash == old(flash)[lnum := flash[lnum]] && old(flash[lnum]) <= flash[lnum]
    {
      assert |node| % 8 == 0;
      hide AlignUp, SizeFits, GeometryOk, SizeAt;
      ghost var log := Log();
      ghost var end := used + |node|;
      Copy(used, node[..len]);
      assert buf[..end][..used] == old(buf[..used]);
      assert flash[lnum] + buf[..end][..used + len] == log + node[..len];
      if |node| == avail {
        FlushFull();
      } else {
        avail := avail - |node|;
        Multiple8(used, |node|);
        used := used + |node|;
        assert flash == flash[lnum := flash[lnum]];
      }
      assert Log()[..|log| + len] == log + node[..len];
    }

    /** The buffer is filled from the node and flushed, or the gap up to the next boundary written. */
    method FillUp(node: seq<Byte>) returns (written: nat)
      requires Valid() && |node| % 8 == 0 && avail < |node| <= g.lebSize - offs - used
      modifies this`offs, this`flash, buf
      ensures written <= |node| && written % 8 == 0 && offs + |node| - written <= g.lebSize
      ensures offs % g.maxWrite == 0 && offs % g.minIo == 0
      ensures flash == old(flash)[lnum := old(Log()) + node[..written]] && |flash[lnum]| == offs
    {
      Units(g, offs, size);
      Multiple8'(size, used);
      if used > 0 {
        Copy(used, node[..avail]);
        assert buf[..size] == old(buf[..used]) + node[..avail];
        LebWrite(buf[..size], offs);
        assert flash[lnum] == old(Log()) + node[..avail];
        offs := offs + size;
        written := avail;
      } else if offs % g.maxWrite != 0 {
        LebWrite(node[..size], offs);
        offs := offs + size;
        written := size;
        assert flash[lnum] == old(Log()) + node[..written];
      } else {
        written := 0;
        assert flash[lnum] == old(Log()) + node[..written];
        assert flash == flash[lnum := flash[lnum]];
      }
    }

    /** Whole units go to flash directly. */
    method WriteUnits(node: seq<Byte>, from: nat) returns (written: nat)
      requires GeometryOk(g) && lnum in flash && |flash[lnum]| == offs && offs % g.maxWrite == 0 && offs % g.minIo == 0
      requires from <= |node| && offs + |node| - from <= g.lebSize
      modifies this`offs, this`flash
      ensures from <= written <= |node| < written + g.maxWrite && (written - from) % 8 == 0
      ensures offs == old(offs) + written - from && offs % g.maxWrite == 0 && offs % g.minIo == 0
      ensures flash == old(flash)[lnum := old(flash[lnum]) + node[from..written]]
    {
      var n := WholeUnits(|node| - from, g.maxWrite);
      UnitsKeepBoundary(g, offs, n);
      written := from + n;
      if n > 0 {
        LebWrite(node[from..written], offs);
        offs := offs + n;
      } else {
        assert flash[lnum] + node[from..written] == flash[lnum];
      }
    }

    /** What is left of the node goes to the buffer. */
    method Rest(node: seq<Byte>, len: nat, written: nat)
      requires GeometryOk(g) && buf.Length == g.maxWrite && lnum in flash && |flash[lnum]| == offs
      requires offs % g.maxWrite == 0 && offs % g.minIo == 0 && offs + |node| - written <= g.lebSize
      requires 0 < len <= |node| == AlignUp(len, 8) && written <= |node| < written + g.maxWrite
      requires (|node| - written) % 8 == 0
      modifies this`size, this`avail, this`used, buf
      ensures Valid() && used == |node| - written
      ensures used == 0 || (written <= len && buf[..used][..len - written] == node[written..len])
    {
      var rest := |node| - written;
      if rest > 0 {
        Copy(0, node[written..len]);
        assert buf[..rest][..len - written] == buf[..len - written];
      }
      NextUnit();
      avail := size - rest;
      used := rest;
    }

    /** The node is longer than what is free: the buffer is made to start at a boundary, whole units
        follow it, and the rest of the node goes to the buffer. */
    method WriteLarge(node: seq<Byte>, len: nat)
      requires Valid() && 0 < len <= |node| == AlignUp(len, 8) && avail < |node| <= g.lebSize - offs - used
      modifies this, buf
      ensures Valid() && lnum == old(lnum) && Appended(old(Log()), Log(), node, len)
      ensures flash == old(flash)[lnum := flash[lnum]] && old(flash[lnum]) <= flash[lnum]
    {
      var filled := FillUp(node);
      var written := WriteUnits(node, filled);
      assert flash[lnum] == old(Log()) + node[..written];
      Multiple8'(|node|, filled);
      Multiple8'(|node| - filled, written - filled);
      Rest(node, len, written);
      AppendedInPieces(old(Log()), buf[..used], node, len, written);
      assert old(flash[lnum]) <= old(Log()) <= flash[lnum];
    }

    /** ubifs_wbuf_write_nolock; node is as long as the aligned length, which the caller's buffer has. */
    method WriteNode(node: seq<Byte>, len: nat) returns (r: Errno)
      requires Valid() && 0 < len <= |node| == AlignUp(len, 8)
      modifies this, buf
      ensures Valid() && lnum == old(lnum)
      ensures r == NoSpace <==> g.lebSize < |old(Log())| + |node|
      ensures r == NoSpace ==> Log() == old(Log()) && flash == old(flash)
      ensures r == Ok ==> Appended(old(Log()), Log(), node, len)
      ensures flash == old(flash)[lnum := flash[lnum]] && old(flash[lnum]) <= flash[lnum]
    {
      if g.lebSize - offs - used < |node| {
        assert flash == flash[lnum := flash[lnum]];
        return NoSpace;
      }
      if |node| <= avail {
        WriteSmall(node, len);
      } else {
        WriteLarge(node, len);
      }
      r := Ok;
    }

    /** ubifs_read_node_wbuf, but for checking the node: the part that is still in the buffer comes
        from there. */
    method ReadNode(from: nat, at: nat, len: nat) returns (r: seq<Byte>)
      requires Valid() && from in flash
      requires if from == lnum then at + len <= |Log()| else at + len <= |flash[from]|
      ensures r == (if from == lnum then Log() else flash[from])[at..at + len]
    {
      if from != lnum || at + len <= offs {
        return flash[from][at..at + len];
      }
      var rlen := offs - at;
      if rlen < 0 {
        rlen := 0;
      }
      r := buf[at + rlen - offs..at + len - offs];
      if rlen > 0 {
        r := flash[from][at..at + rlen] + r;
      }
    }
  }
}
