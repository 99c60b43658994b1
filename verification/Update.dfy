/** Streaming new contents into a volume, in pieces of any size, and reading it back. */
module Update {
  import opened Arith
  import opened Flash
  import opened Misc
  import opened Wrappers

  /** What is stored in a mapped LEB; dataSize is only meaningful for static volumes. */
  datatype LebData = LebData(data: seq<Byte>, dataSize: nat)

  datatype Layout = Layout(usable: nat, minIo: nat, isStatic: bool)

  predicate LayoutOk(v: Layout) {
    v.usable > 0 && v.minIo > 0 && v.usable % v.minIo == 0
  }

  function Zeros(n: nat): (r: seq<Byte>)
    ensures |r| == n && forall i :: 0 <= i < n ==> r[i] == 0
  {
    seq(n, _ => 0)
  }

  /** What write_leb makes of a piece of data: trailing 0xFF bytes of dynamic volumes are not
      written, and nothing is if there is nothing else; static ones are padded with zeros. */
  function Stored(v: Layout, piece: seq<Byte>): (r: Option<LebData>)
    requires LayoutOk(v) && |piece| <= v.usable
    ensures r.Some? ==> |r.value.data| == v.usable
  {
    AlignedBelow(|piece|, v.usable, v.minIo);
    var whole := AlignUp(|piece|, v.minIo);
    if v.isStatic then
      Some(LebData(WriteAt(Blank(v.usable), 0, piece + Zeros(whole - |piece|)), |piece|))
    else
      var padded := piece + Blank(whole - |piece|);
      var n := DataLen(padded, v.minIo);
      if n == 0 then None else Some(LebData(WriteAt(Blank(v.usable), 0, padded[..n]), 0))
  }

  /** What a reader sees of a LEB. */
  function Shown(v: Layout, stored: Option<LebData>): (r: seq<Byte>)
    requires stored.Some? ==> |stored.value.data| == v.usable
    ensures |r| == v.usable
  {
    if stored.Some? then stored.value.data else Blank(v.usable)
  }

  lemma DynamicShows(v: Layout, piece: seq<Byte>)
    requires LayoutOk(v) && |piece| <= v.usable && !v.isStatic
    ensures Shown(v, Stored(v, piece)) == piece + Blank(v.usable - |piece|)
  {
    AlignedBelow(|piece|, v.usable, v.minIo);
    var whole := AlignUp(|piece|, v.minIo);
    var padded := piece + Blank(whole - |piece|);
    var n := DataLen(padded, v.minIo);
    assert forall i | n <= i < |padded| :: padded[i] == FF;
    var r := Shown(v, Stored(v, piece));
    forall i | 0 <= i < v.usable
      ensures r[i] == if i < |piece| then piece[i] else FF
    {
      assert i < |piece| ==> padded[i] == piece[i];
      assert n <= i < whole ==> padded[i] == FF;
    }
    hide *;
  }

  lemma StaticShows(v: Layout, piece: seq<Byte>)
    requires LayoutOk(v) && |piece| <= v.usable && v.isStatic
    ensures Stored(v, piece).Some? && Stored(v, piece).value.dataSize == |piece|
    ensures Stored(v, piece).value.data[..|piece|] == piece
  {
    AlignedBelow(|piece|, v.usable, v.minIo);
    hide AlignUp;
  }

  /** Nothing is lost by not writing 0xFF bytes. */
  lemma ShownIsPiece(v: Layout, piece: seq<Byte>)
    requires LayoutOk(v) && |piece| <= v.usable
    ensures Shown(v, Stored(v, piece))[..|piece|] == piece
    ensures !v.isStatic ==> Shown(v, Stored(v, piece)) == piece + Blank(v.usable - |piece|)
    ensures v.isStatic ==> Stored(v, piece).Some? && Stored(v, piece).value.dataSize == |piece|
  {
    if v.isStatic {
      StaticShows(v, piece);
    } else {
      DynamicShows(v, piece);
    }
    hide Stored;
  }

  /** The data that goes to LEB n. */
  function Piece(v: Layout, d: seq<Byte>, n: nat): (r: seq<Byte>)
    requires LayoutOk(v)
    ensures |r| <= v.usable
    ensures n * v.usable <= |d| ==> |r| == if (n + 1) * v.usable <= |d| then v.usable else |d| - n * v.usable
  {
    assert (n + 1) * v.usable == n * v.usable + v.usable;
    if n * v.usable > |d| then []
    else if (n + 1) * v.usable <= |d| then d[n * v.usable..(n + 1) * v.usable]
    else d[n * v.usable..]
  }

  /** The first k LEBs hold what belongs there, and there are no others. */
  ghost predicate LebsFit(v: Layout, lebs: map<nat, LebData>, d: seq<Byte>, k: nat)
    requires LayoutOk(v)
  {
    forall n: nat ::
      if n < k then (n in lebs <==> Stored(v, Piece(v, d, n)).Some?) && (n in lebs ==> Stored(v, Piece(v, d, n)) == Some(lebs[n]))
      else n !in lebs
  }

  /** How many LEBs have been written: the full ones, and the last one when everything has come. */
  function Written(v: Layout, received: nat, total: nat): nat
    requires LayoutOk(v) && received <= total
  {
    if received == total && received % v.usable != 0 then received / v.usable + 1 else received / v.usable
  }

  /** Where the next byte goes after another piece that fits into the current LEB. */
  lemma Advance(received: nat, u: nat, len: nat)
    requires u > 0 && received % u + len <= u
    ensures received == received / u * u + received % u
    ensures received % u + len < u ==> (received + len) / u == received / u && (received + len) % u == received % u + len
    ensures received % u + len == u ==> (received + len) / u == received / u + 1 && (received + len) % u == 0
  {
    QuotientAndRest(received, u);
    var n, offs := received / u, received % u;
    var base := n * u;
    assert received == base + offs;
    if offs + len < u {
      ModUnique(received + len, u, n, offs + len);
    } else {
      assert (n + 1) * u == base + u;
      ModUnique(received + len, u, n + 1, 0);
    }
  }

  /** Another piece adds to the data of the current LEB only. */
  lemma PieceGrows(v: Layout, d: seq<Byte>, piece: seq<Byte>, k: nat)
    requires LayoutOk(v) && |d| % v.usable + |piece| <= v.usable && k <= |d| / v.usable
    ensures k < |d| / v.usable ==> Piece(v, d + piece, k) == Piece(v, d, k)
    ensures k == |d| / v.usable ==> Piece(v, d + piece, k) == d[|d| - |d| % v.usable..] + piece
  {
    var n := |d| / v.usable;
    QuotientAndRest(|d|, v.usable);
    assert (k + 1) * v.usable == k * v.usable + v.usable;
    if k < n {
      MulGap(k, n, v.usable);
      assert (d + piece)[k * v.usable..(k + 1) * v.usable] == d[k * v.usable..(k + 1) * v.usable];
    } else if |d| % v.usable + |piece| == v.usable {
      assert (d + piece)[k * v.usable..(k + 1) * v.usable] == d[k * v.usable..] + piece;
    } else {
      assert (d + piece)[k * v.usable..] == d[k * v.usable..] + piece;
    }
  }

  /** The LEBs after another piece, depending on whether it completes one. */
  lemma LebsGrow(v: Layout, lebs: map<nat, LebData>, lebs': map<nat, LebData>, d: seq<Byte>, piece: seq<Byte>, total: nat)
    requires LayoutOk(v) && |d| + |piece| <= total && |d| < total && 0 < |piece| && |d| % v.usable + |piece| <= v.usable
    requires LebsFit(v, lebs, d, |d| / v.usable)
    requires var n, tail := |d| / v.usable, d[|d| - |d| % v.usable..] + piece;
      lebs' == if |tail| == v.usable || |d| + |piece| == total
               then (match Stored(v, tail) { case None => lebs case Some(x) => lebs[n := x] })
               else lebs
    ensures LebsFit(v, lebs', d + piece, Written(v, |d| + |piece|, total))
  {
    hide Stored;
    var n := |d| / v.usable;
    Advance(|d|, v.usable, |piece|);
    forall k: nat | k <= n
      ensures k < n ==> Piece(v, d + piece, k) == Piece(v, d, k)
      ensures k == n ==> Piece(v, d + piece, k) == d[|d| - |d| % v.usable..] + piece
    {
      PieceGrows(v, d, piece, k);
    }
    hide Piece;
  }

  predicate Position(u: nat, pos: nat, n: nat, off: nat)
    requires u > 0
  {
    pos / u == n && pos % u == off
  }

  /** The buffer begins with the data of the LEB that is not complete. */
  ghost predicate TailOf(v: Layout, b: seq<Byte>, d: seq<Byte>, total: nat)
    requires LayoutOk(v) && |b| == v.usable
  {
    |d| < total ==> b[..|d| % v.usable] == d[|d| - |d| % v.usable..]
  }

  lemma TailIs(v: Layout, b: seq<Byte>, d: seq<Byte>, total: nat, n: nat, offs: nat)
    requires LayoutOk(v) && |b| == v.usable && TailOf(v, b, d, total) && |d| < total && Position(v.usable, |d|, n, offs)
    ensures offs <= |d| && b[..offs] == d[|d| - offs..]
  {
  }

  /** The LEB is not complete yet, or the next one is begun. */
  lemma TailGoesOn(v: Layout, b: seq<Byte>, d: seq<Byte>, piece: seq<Byte>, total: nat, n: nat, offs: nat)
    requires LayoutOk(v) && |b| == v.usable && Position(v.usable, |d|, n, offs) && offs <= |d| && offs + |piece| <= v.usable
    requires b[..offs + |piece|] == d[|d| - offs..] + piece
    ensures TailOf(v, b, d + piece, total)
  {
    Advance(|d|, v.usable, |piece|);
    if offs + |piece| < v.usable {
      assert (d + piece)[|d| - offs..] == d[|d| - offs..] + piece;
    }
  }

  lemma LebsGrowAt(v: Layout, lebs: map<nat, LebData>, lebs': map<nat, LebData>, d: seq<Byte>, piece: seq<Byte>, total: nat, n: nat, offs: nat)
    requires LayoutOk(v) && Position(v.usable, |d|, n, offs) && |d| + |piece| <= total && |d| < total && 0 < |piece| && offs + |piece| <= v.usable
    requires offs <= |d| && LebsFit(v, lebs, d, Written(v, |d|, total))
    requires var tail := d[|d| - offs..] + piece;
      lebs' == if |tail| == v.usable || |d| + |piece| == total
               then (match Stored(v, tail) { case None => lebs case Some(x) => lebs[n := x] })
               else lebs
    ensures LebsFit(v, lebs', d + piece, Written(v, |d| + |piece|, total))
  {
    hide Stored, LebsFit;
    LebsGrow(v, lebs, lebs', d, piece, total);
  }

  class Volume {
    const v: Layout
    const buf: array<Byte>
    const reservedPebs: nat
    var lebs: map<nat, LebData>
    var received: nat
    var total: nat
    var updating: bool
    var usedBytes: nat
    var usedEbs: nat
    var lastEbBytes: nat
    ghost var data: seq<Byte>

    ghost predicate Valid()
      reads this, buf
    {
      && LayoutOk(v) && buf.Length == v.usable && received <= total && |data| == received
      && LebsFit(v, lebs, data, Written(v, received, total))
      && TailOf(v, buf[..], data, total)
    }

    /** A volume of which nothing has been written yet. */
    constructor (v: Layout, reservedPebs: nat)
      requires LayoutOk(v)
      ensures Valid() && fresh(buf) && this.v == v && this.reservedPebs == reservedPebs && data == [] && total == 0
    {
      this.v, this.reservedPebs := v, reservedPebs;
      buf := new Byte[v.usable];
      lebs, received, total, data, updating := map[], 0, 0, [], false;
      usedBytes, usedEbs, lastEbBytes := if v.isStatic then 0 else reservedPebs * v.usable, reservedPebs, v.usable;
    }

    /** ubi_start_update, but for the marker: everything is unmapped first. */
    method StartUpdate(bytes: nat)
      requires Valid()
      modifies this
      ensures Valid() && data == [] && total == bytes && received == 0 && lebs == map[] && (updating <==> bytes > 0)
      ensures bytes == 0 ==> Finished()
    {
      lebs, received, total, data, updating := map[], 0, bytes, [], bytes > 0;
      if bytes == 0 {
        Finish();
      }
    }

    /** The sizes are what they have to be after an update with data. */
    predicate Finished()
      reads this
    {
      && received == total && LayoutOk(v)
      && (v.isStatic ==>
           && usedBytes == total && usedEbs == Written(v, total, total)
           && lastEbBytes == if total % v.usable == 0 then v.usable else total % v.usable)
    }

    /** The accounting of clear_update_marker; the size of dynamic volumes does not change. */
    method Finish()
      requires LayoutOk(v) && received == total
      modifies this`updating, this`usedBytes, this`usedEbs, this`lastEbBytes
      ensures !updating && Finished() && (!v.isStatic ==> usedBytes == old(usedBytes))
    {
      if v.isStatic {
        usedBytes := total;
        usedEbs := total / v.usable;
        lastEbBytes := total % v.usable;
        if lastEbBytes != 0 {
          usedEbs := usedEbs + 1;
        } else {
          lastEbBytes := v.usable;
        }
      }
      updating := false;
    }

    /** write_leb; fails says that the LEB cannot be written, and is left unmapped. */
    method WriteLeb(n: nat, len: nat, fails: bool) returns (ok: bool)
      requires LayoutOk(v) && buf.Length == v.usable && len <= v.usable
      modifies this`lebs, buf
      ensures buf[..len] == old(buf[..len])
      ensures ok <==> !fails || Stored(v, old(buf[..len])).None?
      ensures lebs == if fails then old(lebs) else match Stored(v, old(buf[..len])) { case None => old(lebs) case Some(x) => old(lebs)[n := x] }
    {
      AlignedBelow(len, v.usable, v.minIo);
      var whole := AlignUp(len, v.minIo);
      ghost var piece := buf[..len];
      if !v.isStatic {
        forall i | len <= i < whole {
          buf[i] := FF;
        }
        assert buf[..whole] == piece + Blank(whole - len);
        var l := CalcDataLen(buf[..whole], v.minIo);
        if l == 0 {
          return true;
        }
        if fails {
          return false;
        }
        assert buf[..l] == buf[..whole][..l];
        lebs := lebs[n := LebData(WriteAt(Blank(v.usable), 0, buf[..l]), 0)];
      } else {
        forall i | len <= i < v.usable {
          buf[i] := 0;
        }
        assert buf[..whole] == piece + Zeros(whole - len);
        if fails {
          return false;
        }
        lebs := lebs[n := LebData(WriteAt(Blank(v.usable), 0, buf[..whole]), len)];
      }
      return true;
    }

    method Fill(offs: nat, piece: seq<Byte>)
      requires offs + |piece| <= buf.Length
      modifies buf
      ensures buf[..offs + |piece|] == old(buf[..offs]) + piece && buf[..offs] == old(buf[..offs])
    {
      forall i | 0 <= i < |piece| {
        buf[offs + i] := piece[i];
      }
    }

    /** Part of the data is put into the buffer, which is written when it is full or when everything
        has come. */
    method Take(piece: seq<Byte>, bad: int) returns (ok: bool)
      requires Valid() && 0 < |piece| && received + |piece| <= total && received % v.usable + |piece| <= v.usable
      modifies this`lebs, this`received, this`data, buf
      ensures Valid() && (ok ==> data == old(data) + piece && received == old(received) + |piece|)
      ensures !ok ==> data == old(data) && received == old(received) && received / v.usable == bad
    {
      ok := TakeAt(piece, received / v.usable, received % v.usable, bad);
    }

    method TakeAt(piece: seq<Byte>, n: nat, offs: nat, bad: int) returns (ok: bool)
      requires Valid() && 0 < |piece| && received + |piece| <= total && offs + |piece| <= v.usable && Position(v.usable, received, n, offs)
      modifies this`lebs, this`received, this`data, buf
      ensures Valid() && (ok ==> data == old(data) + piece && received == old(received) + |piece|)
      ensures !ok ==> data == old(data) && received == old(received) && n == bad
    {
      hide LebsFit, Stored, Written, TailOf, Position;
      ghost var was, d := lebs, data;
      TailIs(v, buf[..], d, total, n, offs);
      assert buf[..][..offs] == buf[..offs];
      Fill(offs, piece);
      ok := true;
      if offs + |piece| == v.usable || received + |piece| == total {
        ok := WriteLeb(n, offs + |piece|, n == bad);
        assert buf[..][..offs] == buf[..offs + |piece|][..offs];
        if !ok {
          TailGoesOn(v, buf[..], d, [], total, n, offs);
          assert d + [] == d && buf[..][..offs + 0] == d[|d| - offs..] + [];
          return;
        }
      }
      assert buf[..][..offs + |piece|] == buf[..offs + |piece|];
      LebsGrowAt(v, was, lebs, d, piece, total, n, offs);
      TailGoesOn(v, buf[..], d, piece, total, n, offs);
      received := received + |piece|;
      data := data + piece;
    }

    /** ubi_more_update_data: whatever the pieces are, what is stored only depends on all the data
        that has come.  If LEB bad cannot be written, exactly the data of the LEBs before it has been taken. */
    method MoreUpdateData(bytes: seq<Byte>, bad: int) returns (written: nat, ok: bool)
      requires Valid() && updating && received < total
      modifies this, buf
      ensures total == old(total) && old(received) <= received
      ensures ok ==> received == if old(received) + |bytes| <= total then old(received) + |bytes| else total
      ensures !ok ==> received < old(received) + |bytes| && received < total && received / v.usable == bad
      ensures Valid() && data == old(data) + bytes[..received - old(received)]
      ensures received == total ==> !updating && Finished() && written == received - old(received)
      ensures received < total ==> updating && written == 0
      ensures !v.isStatic ==> usedBytes == old(usedBytes)
    {
      assert LayoutOk(v);
      hide *;
      var count := if received + |bytes| > total then total - received else |bytes|;
      var done;
      ok, done := TakeAll(bytes[..count], bad);
      assert bytes[..count][..done] == bytes[..done];
      written := 0;
      if received == total {
        Finish();
        written := count;
      }
    }

    method TakeAll(bytes: seq<Byte>, bad: int) returns (ok: bool, done: nat)
      requires Valid() && received + |bytes| <= total
      modifies this`lebs, this`received, this`data, buf
      ensures done <= |bytes| && Valid() && data == old(data) + bytes[..done] && received == old(received) + done
      ensures if ok then done == |bytes| else done < |bytes| && received / v.usable == bad
    {
      assert LayoutOk(v);
      hide *;
      ok, done := TakeFirst(bytes, bad);
      if ok {
        var more;
        ok, more := TakeUnits(bytes[done..], bad);
        assert bytes[..done + more] == bytes[..done] + bytes[done..][..more];
        done := done + more;
      }
    }

    /** A write to the middle of a LEB: as much as fits into it. */
    method TakeFirst(bytes: seq<Byte>, bad: int) returns (ok: bool, done: nat)
      requires Valid() && received + |bytes| <= total
      modifies this`lebs, this`received, this`data, buf
      ensures done <= |bytes| && received == old(received) + done && (ok && done < |bytes| ==> received % v.usable == 0)
      ensures !ok ==> done < |bytes| && received / v.usable == bad
      ensures Valid() && data == old(data) + bytes[..done]
    {
      hide LebsFit, Written, Stored;
      var offs := received % v.usable;
      ok, done := true, 0;
      if offs != 0 && |bytes| > 0 {
        var len := v.usable - offs;
        if len > |bytes| {
          len := |bytes|;
        }
        Advance(received, v.usable, len);
        ok := Take(bytes[..len], bad);
        done := if ok then len else 0;
      }
    }

    /** The loop of ubi_more_update_data, which begins at the beginning of a LEB. */
    method TakeUnits(bytes: seq<Byte>, bad: int) returns (ok: bool, done: nat)
      requires Valid() && received + |bytes| <= total && (bytes != [] ==> received % v.usable == 0)
      modifies this`lebs, this`received, this`data, buf
      ensures done <= |bytes| && Valid() && data == old(data) + bytes[..done] && received == old(received) + done
      ensures if ok then done == |bytes| else done < |bytes| && received / v.usable == bad
    {
      assert LayoutOk(v);
      hide Valid;
      var count := |bytes|;
      ok, done := true, 0;
      assert Has(old(data), bytes, done);
      while count > 0
        invariant Valid() && done + count == |bytes| && received == old(received) + done && Has(old(data), bytes, done)
        invariant count > 0 ==> received % v.usable == 0
        decreases count
      {
        var len := if count > v.usable then v.usable else count;
        Advance(received, v.usable, len);
        ok := Take(bytes[done..done + len], bad);
        if !ok {
          return;
        }
        assert bytes[..done] + bytes[done..done + len] == bytes[..done + len];
        count, done := count - len, done + len;
      }
      assert bytes[..done] == bytes;
    }

    ghost predicate Has(before: seq<Byte>, bytes: seq<Byte>, done: int)
      reads this
    {
      0 <= done <= |bytes| && data == before + bytes[..done]
    }

    /** ubi_eba_read_leb; an unmapped LEB of a dynamic volume reads as 0xFF bytes. */
    method ReadLeb(n: nat, off: nat, len: nat) returns (r: seq<Byte>)
      requires off + len <= v.usable && (n in lebs ==> |lebs[n].data| == v.usable)
      ensures |r| == len && forall i | 0 <= i < len :: r[i] == ShownAt(v, lebs, n, off + i)
    {
      if n in lebs {
        r := lebs[n].data[off..off + len];
      } else {
        r := Blank(len);
      }
    }

    /** The bytes of the volume from pos on, all in LEB n. */
    method ReadPiece(pos: nat, n: nat, off: nat, len: nat) returns (r: seq<Byte>)
      requires LayoutOk(v) && Position(v.usable, pos, n, off) && off + len <= v.usable
      requires n in lebs ==> |lebs[n].data| == v.usable
      ensures |r| == len && forall i | 0 <= i < len :: r[i] == ByteAt(v, lebs, pos + i)
    {
      r := ReadLeb(n, off, len);
      forall i | 0 <= i < len
        ensures r[i] == ByteAt(v, lebs, pos + i)
      {
        ByteAfter(v, lebs, pos, n, off, i);
      }
    }

    /** The loop of vol_cdev_read: LEB by LEB, in pieces no bigger than the temporary buffer. */
    method ReadPieces(start: nat, all: nat, room: nat, first: nat, from: nat) returns (r: seq<Byte>)
      requires LayoutOk(v) && 0 < room && Position(v.usable, start, first, from) && from < v.usable
      requires forall n | n in lebs :: |lebs[n].data| == v.usable
      ensures |r| == all && forall i | 0 <= i < |r| :: r[i] == ByteAt(v, lebs, start + i)
    {
      hide ByteAt, Position;
      r := [];
      var n: nat, off: nat, count: nat := first, from, all;
      while count > 0
        invariant |r| + count == all && off < v.usable
        invariant Position(v.usable, start + |r|, n, off)
        invariant forall i | 0 <= i < |r| :: r[i] == ByteAt(v, lebs, start + i)
        decreases count
      {
        var len := if count > room then room else count;
        if off + len >= v.usable {
          len := v.usable - off;
        }
        var piece := ReadPiece(start + |r|, n, off, len);
        NextPosition(v.usable, start + |r|, n, off, len);
        r := r + piece;
        off := off + len;
        if off == v.usable {
          n, off := n + 1, off - v.usable;
        }
        count := count - len;
      }
    }

    /** vol_cdev_read, from an offset within the volume. */
    method Read(start: nat, wanted: nat) returns (r: seq<Byte>)
      requires LayoutOk(v) && start <= usedBytes && forall n | n in lebs :: |lebs[n].data| == v.usable
      ensures |r| == if start + wanted <= usedBytes then wanted else usedBytes - start
      ensures forall i | 0 <= i < |r| :: r[i] == ByteAt(v, lebs, start + i)
    {
      hide ByteAt;
      if start == usedBytes || wanted == 0 {
        return [];
      }
      var count := if start + wanted > usedBytes then usedBytes - start else wanted;
      var room := v.usable;
      if count < room {
        room := AlignUp(count, v.minIo);
      }
      StartPosition(v.usable, start);
      r := ReadPieces(start, count, room, start / v.usable, start % v.usable);
    }
  }

  lemma StartPosition(u: nat, pos: nat)
    requires u > 0
    ensures Position(u, pos, pos / u, pos % u)
  {
  }

  lemma NextPosition(u: nat, pos: nat, n: nat, off: nat, len: nat)
    requires u > 0 && Position(u, pos, n, off) && off + len <= u
    ensures if off + len == u then Position(u, pos + len, n + 1, 0) else Position(u, pos + len, n, off + len)
  {
    Advance(pos, u, len);
  }

  function ShownAt(v: Layout, lebs: map<nat, LebData>, n: nat, i: nat): Byte {
    if n in lebs && i < |lebs[n].data| then lebs[n].data[i] else FF
  }

  /** The byte of the volume at that offset. */
  function ByteAt(v: Layout, lebs: map<nat, LebData>, i: nat): Byte
    requires LayoutOk(v)
  {
    ShownAt(v, lebs, i / v.usable, i % v.usable)
  }

  lemma ByteAfter(v: Layout, lebs: map<nat, LebData>, pos: nat, n: nat, off: nat, i: nat)
    requires LayoutOk(v) && pos / v.usable == n && pos % v.usable == off && off + i < v.usable
    ensures ByteAt(v, lebs, pos + i) == ShownAt(v, lebs, n, off + i)
  {
    Advance(pos, v.usable, i);
  }

  lemma PieceAt(v: Layout, d: seq<Byte>, n: nat, o: nat)
    requires LayoutOk(v) && o < v.usable
    ensures n * v.usable + o < |d| ==> o < |Piece(v, d, n)| && Piece(v, d, n)[o] == d[n * v.usable + o]
    ensures n * v.usable + o >= |d| ==> |Piece(v, d, n)| <= o
  {
    assert (n + 1) * v.usable == n * v.usable + v.usable;
  }

  /** LEB n has been written when any of its bytes has come. */
  lemma WrittenCovers(v: Layout, len: nat, n: nat, o: nat)
    requires LayoutOk(v) && o < v.usable && n * v.usable + o < len
    ensures n < Written(v, len, len)
  {
    QuotientAndRest(len, v.usable);
    if len / v.usable < n {
      MulGap(len / v.usable, n, v.usable);
    }
  }

  /** Reading back what a complete update has stored gives the data, and 0xFF bytes behind it in a
      dynamic volume. */
  lemma ReadsBack(v: Layout, lebs: map<nat, LebData>, d: seq<Byte>, i: nat)
    requires LayoutOk(v) && LebsFit(v, lebs, d, Written(v, |d|, |d|))
    ensures i < |d| ==> ByteAt(v, lebs, i) == d[i]
    ensures i >= |d| && !v.isStatic ==> ByteAt(v, lebs, i) == FF
  {
    var n, o := i / v.usable, i % v.usable;
    QuotientAndRest(i, v.usable);
    assert i == n * v.usable + o;
    PieceAt(v, d, n, o);
    ShownIsPiece(v, Piece(v, d, n));
    if i < |d| {
      WrittenCovers(v, |d|, n, o);
    }
    hide Written, Piece, Stored;
    var x := Shown(v, Stored(v, Piece(v, d, n)));
    if n < Written(v, |d|, |d|) {
      assert ByteAt(v, lebs, i) == x[o];
      assert i < |d| ==> x[..|Piece(v, d, n)|][o] == x[o];
    }
  }

  /** The size init_volumes computes from the LEBs of a static volume is the one that was written. */
  lemma StaticSizeIsFound(v: Layout, lebs: map<nat, LebData>, d: seq<Byte>)
    requires LayoutOk(v) && v.isStatic && LebsFit(v, lebs, d, Written(v, |d|, |d|)) && d != []
    ensures var k := Written(v, |d|, |d|);
      && k > 0 && (forall n: nat :: n in lebs <==> n < k)
      && (k - 1) * v.usable + lebs[k - 1].dataSize == |d|
      && forall n: nat | n < k - 1 :: lebs[n].dataSize == v.usable
  {
    hide Written, Piece, Stored;
    var k := Written(v, |d|, |d|);
    LastPiece(v, d);
    forall n: nat | n < k
      ensures n in lebs && lebs[n].dataSize == |Piece(v, d, n)|
    {
      ShownIsPiece(v, Piece(v, d, n));
    }
    forall n: nat | n < k - 1
      ensures lebs[n].dataSize == v.usable
    {
      WholePiece(v, d, n);
    }
  }

  /** All pieces but the last one fill a LEB. */
  lemma WholePiece(v: Layout, d: seq<Byte>, n: nat)
    requires LayoutOk(v) && n + 1 < Written(v, |d|, |d|)
    ensures |Piece(v, d, n)| == v.usable
  {
    QuotientAndRest(|d|, v.usable);
    MulGap(n, |d| / v.usable, v.usable);
  }

  lemma LastPiece(v: Layout, d: seq<Byte>)
    requires LayoutOk(v) && d != []
    ensures var k := Written(v, |d|, |d|);
            k > 0 && (k - 1) * v.usable + |Piece(v, d, k - 1)| == |d|
  {
    var k := Written(v, |d|, |d|);
    QuotientAndRest(|d|, v.usable);
    assert k * v.usable == (k - 1) * v.usable + v.usable;
  }
}
