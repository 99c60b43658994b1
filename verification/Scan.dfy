/** Attaching: every PEB is read once, and what is found is sorted into the volumes, the newest
    copy of each LEB winning, and into the lists of free, erasable and corrupted PEBs. */
module Scan {
  import opened Flash
  import opened Misc

  const UNKNOWN_EC: int := -1
  const MAX_ERASECOUNTER: nat := 0x7FFFFFFF

  /** What the scan notes about the PEB a LEB is kept in. */
  datatype Seb = Seb(pnum: nat, ec: int, scrub: bool, copyFlag: bool, sqnum: nat)

  /** What the scan notes about a volume. */
  datatype Sv = Sv(hdr: VolHdr, lebCount: nat, highestLnum: nat, lastDataSize: nat, lebs: map<nat, Seb>)

  /** An element of the free, erase or corr list. */
  datatype Entry = Entry(pnum: nat, ec: int)

  /** PEBs without an erase-counter header are not looked at any further. */
  function Seen(f: Image): (g: Image)
    ensures |g| == |f|
    ensures forall p | 0 <= p < |f| :: g[p] == if f[p].ec.AllFF? then f[p].(vid := AllFF) else f[p]
  {
    seq(|f|, p requires 0 <= p < |f| => if f[p].ec.AllFF? then f[p].(vid := AllFF) else f[p])
  }

  function EcOf(b: Peb): int {
    if b.ec.Good? then b.ec.value else UNKNOWN_EC
  }

  function SebOf(f: Image, p: nat): Seb
    requires p < |f| && f[p].vid.Good?
  {
    Seb(p, EcOf(f[p]), f[p].ec.Corrupt?, f[p].vid.value.copyFlag, f[p].vid.value.sqnum)
  }

  /** p is the copy of its LEB that is kept once the PEBs in done have been read. */
  predicate Wins(f: Image, done: seq<nat>, p: nat)
    requires Within(f, done)
  {
    p < |f| && f[p].vid.Good? && Kept(f, f[p].vid.value.leb, done) == p
  }

  /** Where the scan puts a PEB that is not used for a LEB. */
  datatype Fate = Used | ToErase | ToKeep | Clean

  function FateOf(f: Image, done: seq<nat>, p: nat): Fate
    requires Within(f, done) && p < |f|
  {
    if f[p].vid.Good? then (if Wins(f, done, p) then Used else ToErase)
    else if !f[p].ec.Good? then ToErase
    else if f[p].vid.AllFF? then Clean
    else if f[p].data != Blank(|f[p].data|) then ToKeep else ToErase
  }

  // ---- What the scanning information says after the PEBs in done -----------------------------

  function EntryOf(f: Image, p: nat): Entry
    requires p < |f|
  {
    Entry(p, EcOf(f[p]))
  }

  predicate Listed(f: Image, done: seq<nat>, e: Entry, fate: Fate)
    requires Within(f, done)
  {
    e.pnum in done && e == EntryOf(f, e.pnum) && FateOf(f, done, e.pnum) == fate
  }

  /** The list holds exactly the PEBs of done with that fate, each once. */
  ghost predicate Lists(list: seq<Entry>, f: Image, done: seq<nat>, fate: Fate)
    requires Within(f, done)
  {
    && (forall i, j | 0 <= i < j < |list| :: list[i] != list[j])
    && (forall e :: e in list <==> Listed(f, done, e, fate))
  }

  /** The volume holds exactly the kept copies of its LEBs; all their headers agree; and the data
      size is that of the kept copy of the highest LEB. */
  ghost predicate Describes(sv: Sv, f: Image, done: seq<nat>, v: nat)
    requires Within(f, done)
  {
    && (forall n :: n in sv.lebs <==> Kept(f, Leb(v, n), done) != -1)
    && (forall n | n in sv.lebs :: sv.lebs[n] == SebOf(f, Kept(f, Leb(v, n), done)))
    && (forall n | n in sv.lebs :: f[Kept(f, Leb(v, n), done)].vid.value.vol == sv.hdr)
    && sv.lebCount == |sv.lebs| && sv.highestLnum in sv.lebs
    && (forall n | n in sv.lebs :: n <= sv.highestLnum)
    && sv.lastDataSize == f[Kept(f, Leb(v, sv.highestLnum), done)].vid.value.dataSize
  }

  ghost predicate Volumes(volumes: map<nat, Sv>, f: Image, done: seq<nat>)
    requires Within(f, done)
  {
    && (forall v | v in volumes :: Describes(volumes[v], f, done, v))
    && (forall l: Leb | l.vol !in volumes :: Kept(f, l, done) == -1)
  }

  ghost predicate Newest(maxSqnum: nat, f: Image, done: seq<nat>)
    requires Within(f, done)
  {
    && (forall p | p in done && f[p].vid.Good? :: Sq(f[p]) <= maxSqnum)
    && (maxSqnum == 0 || exists p | p in done :: f[p].vid.Good? && Sq(f[p]) == maxSqnum)
  }

  // ---- Which PEBs make the scan fail ---------------------------------------------------------

  /** The header of p contradicts that of a copy which is kept. */
  ghost predicate Clashes(f: Image, done: seq<nat>, p: nat)
    requires Within(f, done) && p < |f| && f[p].vid.Good?
  {
    exists q | q in done :: Wins(f, done, q) && f[q].vid.value.leb.vol == f[p].vid.value.leb.vol
      && f[q].vid.value.vol != f[p].vid.value.vol
  }

  /** Headers are only compared for a copy that is going to be kept. */
  ghost predicate Refused(f: Image, done: seq<nat>, p: nat)
    requires Within(f, done) && p < |f|
  {
    || EcOf(f[p]) > MAX_ERASECOUNTER
    || (f[p].vid.Good? &&
        var k := Kept(f, f[p].vid.value.leb, done);
        if k == -1 then Clashes(f, done, p)
        else Sq(f[k]) == Sq(f[p]) || (Beats(f[p], f[k]) && Clashes(f, done, p)))
  }

  /** No PEB is refused when they are read in this order. */
  ghost predicate Accepts(f: Image, order: seq<nat>)
    requires Within(f, order)
  {
    forall n | 0 <= n < |order| :: !Refused(f, order[..n], order[n])
  }

  // ---- The scan ------------------------------------------------------------------------------

  datatype Verdict = Unsupported | Newer(second: bool, corrupted: bool)

  /** compare_lebs: the copy with the higher number is newer, unless it is a copy whose checksum
      does not match. */
  method CompareLebs(f: Image, seb: Seb, p: nat, v: Vid) returns (r: Verdict)
    requires seb.pnum < |f| && f[seb.pnum].vid.Good? && seb == SebOf(f, seb.pnum)
    requires p < |f| && f[p].vid == Good(v)
    ensures r.Unsupported? <==> Sq(f[p]) == Sq(f[seb.pnum])
    ensures r.Newer? ==> (r.second <==> Beats(f[p], f[seb.pnum])) && (!r.second <==> Beats(f[seb.pnum], f[p]))
    ensures r.Newer? ==> (r.corrupted <==> !Trusted(f[if Sq(f[seb.pnum]) < Sq(f[p]) then p else seb.pnum]))
  {
    if v.sqnum == seb.sqnum {
      return Unsupported;
    }
    var second := v.sqnum > seb.sqnum;
    var copy := p;
    if second {
      if !v.copyFlag {
        return Newer(true, false);
      }
    } else {
      if !seb.copyFlag {
        return Newer(false, false);
      }
      copy := seb.pnum;
    }
    var hdr := f[copy].vid.value;
    if !CrcOk(hdr, f[copy].data) {
      return Newer(!second, true);
    }
    return Newer(second, false);
  }

  /** The copy of l that is kept once p has been read after the others. */
  function KeptNext(f: Image, l: Leb, done: seq<nat>, p: nat): int
    requires Within(f, done) && p < |f|
  {
    var k := Kept(f, l, done);
    if CopyOf(f, p, l) && (k == -1 || Beats(f[p], f[k])) then p else k
  }

  lemma KeptSnoc(f: Image, l: Leb, done: seq<nat>, p: nat)
    requires Within(f, done) && p < |f|
    ensures Within(f, done + [p])
    ensures Kept(f, l, done + [p]) == KeptNext(f, l, done, p)
  {
    assert (done + [p])[..|done|] == done;
  }

  /** The copy that p replaces, or -1. */
  function Replaced(f: Image, done: seq<nat>, p: nat): (k: int)
    requires Within(f, done) && p < |f|
    ensures k != -1 ==> k in done && f[k].vid.Good? && Wins(f, done, k)
  {
    if !f[p].vid.Good? then -1
    else
      var k := Kept(f, f[p].vid.value.leb, done);
      if k != -1 && Beats(f[p], f[k]) then k else -1
  }

  /** Reading p changes the fate of no PEB but p and the copy it replaces. */
  lemma FateSnoc(f: Image, done: seq<nat>, p: nat, q: nat)
    requires Within(f, done) && p < |f| && p !in done && q in done
    ensures Within(f, done + [p])
    ensures FateOf(f, done + [p], q) ==
      if q == Replaced(f, done, p) then ToErase else FateOf(f, done, q)
  {
    KeptSnoc(f, Leb(0, 0), done, p);
    if f[q].vid.Good? {
      KeptSnoc(f, f[q].vid.value.leb, done, p);
    }
  }

  lemma ListedSnoc(f: Image, done: seq<nat>, p: nat, e: Entry, fate: Fate)
    requires Within(f, done) && p < |f| && p !in done && fate != Used
    ensures Within(f, done + [p])
    ensures Listed(f, done + [p], e, fate) <==>
      || Listed(f, done, e, fate)
      || (e == EntryOf(f, p) && FateOf(f, done + [p], p) == fate)
      || (Replaced(f, done, p) != -1 && e == EntryOf(f, Replaced(f, done, p)) && fate == ToErase)
  {
    KeptSnoc(f, Leb(0, 0), done, p);
    if e.pnum in done {
      FateSnoc(f, done, p, e.pnum);
    }
  }

  /** The PEB, if any, that reading p adds to the list of that fate. */
  function Added(f: Image, done: seq<nat>, p: nat, fate: Fate): (k: int)
    requires Within(f, done) && Within(f, done + [p]) && p < |f|
    ensures k == -1 || 0 <= k < |f|
  {
    if FateOf(f, done + [p], p) == fate then p
    else if fate == ToErase then Replaced(f, done, p)
    else -1
  }

  predicate Extends(list': seq<Entry>, list: seq<Entry>, f: Image, k: int)
    requires k == -1 || 0 <= k < |f|
  {
    if k == -1 then list' == list
    else list' == list + [EntryOf(f, k)] || list' == [EntryOf(f, k)] + list
  }

  lemma ListsSnoc(list: seq<Entry>, list': seq<Entry>, f: Image, done: seq<nat>, p: nat, fate: Fate)
    requires Within(f, done) && p < |f| && p !in done && fate != Used && Lists(list, f, done, fate)
    requires Within(f, done + [p]) && Extends(list', list, f, Added(f, done, p, fate))
    ensures Lists(list', f, done + [p], fate)
  {
    KeptSnoc(f, if f[p].vid.Good? then f[p].vid.value.leb else Leb(0, 0), done, p);
    var k := Added(f, done, p, fate);
    forall e: Entry
      ensures e in list' <==> Listed(f, done + [p], e, fate)
    {
      ListedSnoc(f, done, p, e, fate);
      assert e in list' <==> e in list || (k != -1 && e == EntryOf(f, k));
    }
    assert k != -1 ==> EntryOf(f, k) !in list by {
      assert k != -1 && k in done ==> FateOf(f, done, k) == Used;
    }
  }

  lemma NewestSnoc(m: nat, f: Image, done: seq<nat>, p: nat)
    requires Within(f, done) && p < |f| && Newest(m, f, done)
    ensures Within(f, done + [p])
    ensures Newest(if f[p].vid.Good? && m < Sq(f[p]) then Sq(f[p]) else m, f, done + [p])
  {
    KeptSnoc(f, Leb(0, 0), done, p);
    if p' :| p' in done && f[p'].vid.Good? && Sq(f[p']) == m {
      assert p' in done + [p];
    }
    assert p in done + [p];
  }

  lemma DescribesStill(sv: Sv, f: Image, done: seq<nat>, done': seq<nat>, v: nat)
    requires Within(f, done) && Within(f, done') && Describes(sv, f, done, v)
    requires forall n: nat :: Kept(f, Leb(v, n), done') == Kept(f, Leb(v, n), done)
    ensures Describes(sv, f, done', v)
  {
    hide Kept;
  }

  lemma VolumesKeep(vols: map<nat, Sv>, f: Image, done: seq<nat>, done': seq<nat>)
    requires Within(f, done) && Within(f, done') && Volumes(vols, f, done)
    requires forall l: Leb :: Kept(f, l, done') == Kept(f, l, done)
    ensures Volumes(vols, f, done')
  {
    hide Kept, Describes;
    forall v | v in vols
      ensures Describes(vols[v], f, done', v)
    {
      DescribesStill(vols[v], f, done, done', v);
    }
  }

  /** The volume sv once its LEB n is kept in PEB p. */
  function WithLeb(sv: Sv, n: nat, seb: Seb, dataSize: nat): Sv {
    var lebs := sv.lebs[n := seb];
    Sv(sv.hdr, |lebs|, if sv.highestLnum <= n then n else sv.highestLnum,
       if sv.highestLnum <= n then dataSize else sv.lastDataSize, lebs)
  }

  /** p becomes the kept copy of LEB l. */
  lemma DescribesPut(sv: Sv, f: Image, done: seq<nat>, done': seq<nat>, l: Leb, p: nat)
    requires Within(f, done) && Within(f, done') && CopyOf(f, p, l) && f[p].vid.value.vol == sv.hdr
    requires Describes(sv, f, done, l.vol) ||
      (sv == Sv(sv.hdr, 0, 0, 0, map[]) && forall n: nat :: Kept(f, Leb(l.vol, n), done) == -1)
    requires forall n: nat :: Kept(f, Leb(l.vol, n), done') == if n == l.lnum then p else Kept(f, Leb(l.vol, n), done)
    ensures Describes(WithLeb(sv, l.lnum, SebOf(f, p), f[p].vid.value.dataSize), f, done', l.vol)
  {
    hide Kept;
  }

  lemma VolumesPut(vols: map<nat, Sv>, f: Image, done: seq<nat>, done': seq<nat>, l: Leb, p: nat, sv: Sv)
    requires Within(f, done) && Within(f, done') && Volumes(vols, f, done)
    requires CopyOf(f, p, l) && f[p].vid.value.vol == sv.hdr
    requires sv == if l.vol in vols then vols[l.vol] else Sv(sv.hdr, 0, 0, 0, map[])
    requires forall k: Leb :: Kept(f, k, done') == if k == l then p else Kept(f, k, done)
    ensures Volumes(vols[l.vol := WithLeb(sv, l.lnum, SebOf(f, p), f[p].vid.value.dataSize)], f, done')
  {
    hide Kept, Describes;
    DescribesPut(sv, f, done, done', l, p);
    forall v | v in vols && v != l.vol
      ensures Describes(vols[v], f, done', v)
    {
      DescribesStill(vols[v], f, done, done', v);
    }
  }

  lemma KeptSnocAll(f: Image, done: seq<nat>, p: nat)
    requires Within(f, done) && p < |f|
    ensures Within(f, done + [p])
    ensures forall l: Leb :: Kept(f, l, done + [p]) == KeptNext(f, l, done, p)
  {
    forall l: Leb
      ensures Within(f, done + [p])
      ensures Kept(f, l, done + [p]) == KeptNext(f, l, done, p)
    {
      KeptSnoc(f, l, done, p);
    }
    KeptSnoc(f, Leb(0, 0), done, p);
  }

  /** validate_vid_hdr: nothing to compare with before the first LEB of the volume. */
  predicate HeaderMatches(v: Vid, sv: Sv) {
    sv.lebCount != 0 ==> v.vol == sv.hdr
  }

  /** Comparing with what is noted about the volume finds every contradiction. */
  lemma ClashIsWithVolume(vols: map<nat, Sv>, f: Image, done: seq<nat>, p: nat)
    requires Within(f, done) && p < |f| && f[p].vid.Good? && Volumes(vols, f, done)
    ensures var vol := f[p].vid.value.leb.vol;
      Clashes(f, done, p) <==> vol in vols && f[p].vid.value.vol != vols[vol].hdr
  {
    var vol := f[p].vid.value.leb.vol;
    if vol in vols {
      var q := Kept(f, Leb(vol, vols[vol].highestLnum), done);
      assert Describes(vols[vol], f, done, vol) && Wins(f, done, q);
    }
  }

  /** The LEB l in the volumes, and the copy of it that is kept. */
  lemma VolumeKnows(vols: map<nat, Sv>, f: Image, done: seq<nat>, l: Leb)
    requires Within(f, done) && Volumes(vols, f, done)
    ensures Kept(f, l, done) != -1 <==> l.vol in vols && l.lnum in vols[l.vol].lebs
    ensures Kept(f, l, done) != -1 ==>
      && vols[l.vol].lebs[l.lnum] == SebOf(f, Kept(f, l, done)) && l.lnum <= vols[l.vol].highestLnum
    ensures l.vol in vols ==> vols[l.vol].lebCount == |vols[l.vol].lebs| > 0
  {
    assert l.vol in vols ==> Describes(vols[l.vol], f, done, l.vol);
  }

  /** e is put at the head of the list, or at its end. */
  function Listing(list: seq<Entry>, e: Entry, toHead: bool): seq<Entry> {
    if toHead then [e] + list else list + [e]
  }

  /** Of two copies of a LEB, one is to be erased: first of all if it is the newer one, since its data
      then is corrupted. */
  ghost predicate OneIsErased(f: Image, p: nat, q: nat, before: seq<Entry>, after: seq<Entry>)
    requires p < |f| && q < |f| && f[p].vid.Good? && f[q].vid.Good?
  {
    if Beats(f[p], f[q]) then after == Listing(before, EntryOf(f, q), Sq(f[p]) < Sq(f[q]))
    else after == Listing(before, EntryOf(f, p), Sq(f[q]) < Sq(f[p]))
  }

  class ScanInfo {
    var volumes: map<nat, Sv>
    var maxSqnum: nat
    var free: seq<Entry>
    var erase: seq<Entry>
    var corr: seq<Entry>

    ghost predicate Knows(f: Image, done: seq<nat>)
      requires Within(f, done)
      reads this
    {
      && Volumes(volumes, f, done) && Newest(maxSqnum, f, done)
      && Lists(free, f, done, Clean) && Lists(erase, f, done, ToErase) && Lists(corr, f, done, ToKeep)
    }

    constructor ()
      ensures forall f :: Knows(f, [])
    {
      volumes, maxSqnum, free, erase, corr := map[], 0, [], [], [];
    }

    /** add_volume: the first header met says what the volume is like. */
    method AddVolume(v: Vid) returns (sv: Sv)
      modifies this`volumes
      ensures v.leb.vol in volumes && volumes[v.leb.vol] == sv
      ensures volumes == if v.leb.vol in old(volumes) then old(volumes)
        else old(volumes)[v.leb.vol := Sv(v.vol, 0, 0, 0, map[])]
    {
      if v.leb.vol !in volumes {
        volumes := volumes[v.leb.vol := Sv(v.vol, 0, 0, 0, map[])];
      }
      sv := volumes[v.leb.vol];
    }

    /** ubi_scan_add_used for a LEB of which a copy is known: the newer one is kept, and the other
        one waits for erasure, at the head of the list if its data turned out to be corrupted. */
    method AddCopy(f: Image, p: nat, ec: int, v: Vid, bitflips: bool, ghost done: seq<nat>) returns (ok: bool)
      requires p < |f| && p !in done && Within(Seen(f), done) && !f[p].ec.AllFF?
      requires Volumes(volumes, Seen(f), done) && Lists(erase, Seen(f), done, ToErase)
      requires f[p].vid == Good(v) && ec == EcOf(f[p]) <= MAX_ERASECOUNTER && bitflips == f[p].ec.Corrupt?
      requires v.leb.vol in volumes && v.leb.lnum in volumes[v.leb.vol].lebs
      modifies this`volumes, this`erase
      ensures ok <==> !Refused(Seen(f), done, p)
      ensures ok ==> Within(Seen(f), done + [p])
      ensures ok ==> Volumes(volumes, Seen(f), done + [p]) && Lists(erase, Seen(f), done + [p], ToErase)
      ensures var q := old(volumes)[v.leb.vol].lebs[v.leb.lnum].pnum;
        ok ==> q < |f| && f[q].vid.Good? && OneIsErased(f, p, q, old(erase), erase)
    {
      hide Volumes, Describes, Lists, Listed, Trusted;
      ghost var g, done', vols := Seen(f), done + [p], volumes;
      VolumeKnows(volumes, g, done, v.leb);
      ClashIsWithVolume(volumes, g, done, p);
      KeptSnocAll(g, done, p);
      hide Kept;
      var lnum, sv := v.leb.lnum, volumes[v.leb.vol];
      var seb := sv.lebs[lnum];
      var cmp := CompareLebs(f, seb, p, v);
      if cmp.Unsupported? {
        return false;
      }
      if cmp.second {
        if !HeaderMatches(v, sv) {
          return false;
        }
        var loser := Entry(seb.pnum, seb.ec);
        erase := if cmp.corrupted then [loser] + erase else erase + [loser];
        sv := sv.(lebs := sv.lebs[lnum := Seb(p, ec, bitflips, v.copyFlag, v.sqnum)]);
        if sv.highestLnum == lnum {
          sv := sv.(lastDataSize := v.dataSize);
        }
        volumes := volumes[v.leb.vol := sv];
        VolumesPut(vols, g, done, done', v.leb, p, vols[v.leb.vol]);
      } else {
        erase := if cmp.corrupted then [Entry(p, ec)] + erase else erase + [Entry(p, ec)];
        VolumesKeep(vols, g, done, done');
      }
      ListsSnoc(old(erase), erase, g, done, p, ToErase);
      return true;
    }

    /** ubi_scan_add_used for the first copy of a LEB. */
    method AddFirst(f: Image, p: nat, ec: int, v: Vid, bitflips: bool, ghost done: seq<nat>) returns (ok: bool)
      requires p < |f| && p !in done && Within(Seen(f), done) && !f[p].ec.AllFF?
      requires Volumes(volumes, Seen(f), done) && Lists(erase, Seen(f), done, ToErase)
      requires f[p].vid == Good(v) && ec == EcOf(f[p]) <= MAX_ERASECOUNTER && bitflips == f[p].ec.Corrupt?
      requires v.leb.vol in volumes ==> v.leb.lnum !in volumes[v.leb.vol].lebs
      modifies this`volumes
      ensures ok <==> !Refused(Seen(f), done, p)
      ensures ok ==> Within(Seen(f), done + [p])
      ensures ok ==> Volumes(volumes, Seen(f), done + [p]) && Lists(erase, Seen(f), done + [p], ToErase)
    {
      hide Volumes, Describes, Lists, Listed, Trusted;
      ghost var g, done', vols := Seen(f), done + [p], volumes;
      VolumeKnows(volumes, g, done, v.leb);
      ClashIsWithVolume(volumes, g, done, p);
      KeptSnocAll(g, done, p);
      hide Kept;
      var lnum := v.leb.lnum;
      var sv := AddVolume(v);
      ghost var before := sv;
      if !HeaderMatches(v, sv) {
        return false;
      }
      sv := sv.(lebs := sv.lebs[lnum := Seb(p, ec, bitflips, v.copyFlag, v.sqnum)], lebCount := sv.lebCount + 1);
      if sv.highestLnum <= lnum {
        sv := sv.(highestLnum := lnum, lastDataSize := v.dataSize);
      }
      volumes := volumes[v.leb.vol := sv];
      assert volumes == vols[v.leb.vol := WithLeb(before, lnum, SebOf(g, p), v.dataSize)];
      VolumesPut(vols, g, done, done', v.leb, p, before);
      ListsSnoc(erase, erase, g, done, p, ToErase);
      return true;
    }

    /** ubi_scan_add_used */
    method AddUsed(f: Image, p: nat, ec: int, v: Vid, bitflips: bool, ghost done: seq<nat>) returns (ok: bool)
      requires p < |f| && p !in done && Within(Seen(f), done) && Knows(Seen(f), done) && !f[p].ec.AllFF?
      requires f[p].vid == Good(v) && ec == EcOf(f[p]) <= MAX_ERASECOUNTER && bitflips == f[p].ec.Corrupt?
      modifies this
      ensures ok <==> !Refused(Seen(f), done, p)
      ensures ok ==> Within(Seen(f), done + [p]) && Knows(Seen(f), done + [p])
      ensures ok ==>
        if v.leb.vol in old(volumes) && v.leb.lnum in old(volumes)[v.leb.vol].lebs then
          var q := old(volumes)[v.leb.vol].lebs[v.leb.lnum].pnum;
          q < |f| && f[q].vid.Good? && OneIsErased(f, p, q, old(erase), erase)
        else erase == old(erase)
      ensures free == old(free) && corr == old(corr)
    {
      hide Volumes, Lists, Newest, Listed, Refused, Trusted;
      ghost var g := Seen(f);
      NewestSnoc(maxSqnum, g, done, p);
      ListsSnoc(free, free, g, done, p, Clean);
      ListsSnoc(corr, corr, g, done, p, ToKeep);
      if maxSqnum < v.sqnum {
        maxSqnum := v.sqnum;
      }
      if v.leb.vol in volumes && v.leb.lnum in volumes[v.leb.vol].lebs {
        ok := AddCopy(f, p, ec, v, bitflips, done);
      } else {
        ok := AddFirst(f, p, ec, v, bitflips, done);
      }
    }

    /** process_eb */
    method ProcessEb(f: Image, p: nat, ghost done: seq<nat>) returns (ok: bool)
      requires p < |f| && p !in done && Within(Seen(f), done) && Knows(Seen(f), done)
      modifies this
      ensures ok <==> !Refused(Seen(f), done, p)
      ensures ok ==> Within(Seen(f), done + [p]) && Knows(Seen(f), done + [p])
      ensures ok && !Seen(f)[p].vid.Good? ==>
        var e, fate := EntryOf(Seen(f), p), FateOf(Seen(f), done, p);
        && free == (if fate == Clean then old(free) + [e] else old(free))
        && corr == (if fate == ToKeep then [e] + old(corr) else old(corr))
        && erase == (if fate == ToErase then Listing(old(erase), e, !f[p].ec.AllFF?) else old(erase))
    {
      ghost var g, done' := Seen(f), done + [p];
      KeptSnocAll(g, done, p);
      var ec := UNKNOWN_EC;
      match f[p].ec {
        case AllFF =>
          erase := erase + [Entry(p, UNKNOWN_EC)];
        case Corrupt =>
        case Good(n) =>
          ec := n;
          if ec > MAX_ERASECOUNTER {
            return false;
          }
      }
      if !f[p].ec.AllFF? {
        match f[p].vid {
          case Good(v) =>
            ok := AddUsed(f, p, ec, v, f[p].ec.Corrupt?, done);
            return;
          case Corrupt =>
            if f[p].ec.Good? {
              var clean := CheckPattern(f[p].data, FF);
              if clean {
                erase := [Entry(p, ec)] + erase;
              } else {
                corr := [Entry(p, ec)] + corr;
              }
            } else {
              erase := [Entry(p, ec)] + erase;
            }
          case AllFF =>
            if f[p].ec.Corrupt? {
              erase := [Entry(p, ec)] + erase;
            } else {
              free := free + [Entry(p, ec)];
            }
        }
      }
      assert !g[p].vid.Good?;
      ListsSnoc(old(free), free, g, done, p, Clean);
      ListsSnoc(old(corr), corr, g, done, p, ToKeep);
      ListsSnoc(old(erase), erase, g, done, p, ToErase);
      NewestSnoc(maxSqnum, g, done, p);
      VolumesKeep(volumes, g, done, done');
      return true;
    }
  }

  /** check_what_we_have: more corrupted PEBs than power cuts can explain. */
  predicate TooManyCorrupted(corrupted: nat, pebs: nat) {
    corrupted > 0 && corrupted >= (if pebs / 20 != 0 then pebs / 20 else 8)
  }

  /** One in twenty PEBs is too many, and eight of a flash with less than twenty. */
  lemma TooManyIs(corrupted: nat, pebs: nat)
    ensures TooManyCorrupted(corrupted, pebs) <==>
      corrupted > 0 && if pebs < 20 then corrupted >= 8 else 20 * (corrupted + 1) > pebs
    ensures forall more: nat | TooManyCorrupted(corrupted, pebs) && more >= corrupted :: TooManyCorrupted(more, pebs)
  {
    assert pebs == 20 * (pebs / 20) + pebs % 20;
  }

  /** ubi_scan */
  method ScanAll(f: Image) returns (ok: bool, si: ScanInfo, isEmpty: bool)
    ensures fresh(si)
    ensures Accepts(Seen(f), Ascending(|f|)) ==> si.Knows(Seen(f), Ascending(|f|))
    ensures ok <==>
      && Accepts(Seen(f), Ascending(|f|))
      && (|si.corr| == 0 || if |f| < 20 then |si.corr| < 8 else 20 * (|si.corr| + 1) <= |f|)
    ensures ok ==> (isEmpty <==> forall p | 0 <= p < |f| :: f[p].ec.AllFF?)
  {
    hide Refused, Volumes, Newest, Lists, Kept;
    si := new ScanInfo();
    ghost var g, order := Seen(f), Ascending(|f|);
    var empty := 0;
    for p := 0 to |f|
      invariant Within(g, order[..p]) && si.Knows(g, order[..p])
      invariant forall n | 0 <= n < p :: !Refused(g, order[..n], order[n])
      invariant empty <= p && (empty == p <==> forall q | 0 <= q < p :: f[q].ec.AllFF?)
    {
      assert order[..p + 1] == order[..p] + [p];
      var fine := si.ProcessEb(f, p, order[..p]);
      if !fine {
        return false, si, false;
      }
      if f[p].ec.AllFF? {
        empty := empty + 1;
      }
    }
    assert order[..|f|] == order;
    TooManyIs(|si.corr|, |f|);
    ok, isEmpty := !TooManyCorrupted(|si.corr|, |f|), empty == |f|;
  }

  // ---- The order of reading does not matter --------------------------------------------------

  predicate Full(f: Image, order: seq<nat>) {
    Within(f, order) && (forall i, j | 0 <= i < j < |order| :: order[i] != order[j]) && forall p | 0 <= p < |f| :: p in order
  }

  /** The copy that is kept is the newest of those that can be trusted, or the oldest of all when
      none can. */
  lemma KeptIs(f: Image, l: Leb, order: seq<nat>, k: nat)
    requires Full(f, order) && DistinctSq(f) && CopyOf(f, k, l)
    ensures Kept(f, l, order) == k <==>
      if exists p :: CopyOf(f, p, l) && Trusted(f[p])
      then Trusted(f[k]) && forall p :: CopyOf(f, p, l) && Trusted(f[p]) ==> Sq(f[p]) <= Sq(f[k])
      else forall p :: CopyOf(f, p, l) ==> Sq(f[k]) <= Sq(f[p])
  {
    KeptBeatsTheOthers(f, l, order);
    var w := Kept(f, l, order);
    assert w != -1 && CopyOf(f, w, l);
    assert k in order;
    forall p: int | CopyOf(f, p, l)
      ensures p in order && (p == w || Beats(f[w], f[p]))
    {
    }
  }

  lemma OrderDoesNotMatter(f: Image, o1: seq<nat>, o2: seq<nat>)
    requires Full(f, o1) && Full(f, o2) && DistinctSq(f)
    ensures forall l: Leb :: Kept(f, l, o1) == Kept(f, l, o2)
    ensures forall p | 0 <= p < |f| :: FateOf(f, o1, p) == FateOf(f, o2, p)
  {
    forall l: Leb
      ensures Kept(f, l, o1) == Kept(f, l, o2)
    {
      KeptBeatsTheOthers(f, l, o1);
      KeptBeatsTheOthers(f, l, o2);
      var k1, k2 := Kept(f, l, o1), Kept(f, l, o2);
      if k1 != -1 && k2 != -1 && k1 != k2 {
        BeatsIsTotal(f[k1], f[k2]);
      }
    }
  }

  // ---- Which images are accepted in every order ----------------------------------------------

  predicate SameNumber(f: Image, p: int, q: int) {
    && 0 <= p < |f| && 0 <= q < |f| && f[p].vid.Good? && f[q].vid.Good?
    && f[p].vid.value.leb == f[q].vid.value.leb && Sq(f[p]) == Sq(f[q])
  }

  predicate HeadersDiffer(f: Image, p: int, q: int) {
    && 0 <= p < |f| && 0 <= q < |f| && f[p].vid.Good? && f[q].vid.Good?
    && f[p].vid.value.leb.vol == f[q].vid.value.leb.vol && f[p].vid.value.vol != f[q].vid.value.vol
  }

  /** All headers of a volume say the same. */
  ghost predicate SameHeaders(f: Image) {
    forall p, q :: !HeadersDiffer(f, p, q)
  }

  ghost predicate WellFormed(f: Image) {
    DistinctSq(f) && SameHeaders(f) && forall p | 0 <= p < |f| :: EcOf(f[p]) <= MAX_ERASECOUNTER
  }

  /** The numbers below n other than p and q. */
  function Others(n: nat, p: nat, q: nat): (r: seq<nat>)
    ensures forall i | 0 <= i < |r| :: r[i] < n && r[i] != p && r[i] != q
    ensures forall x: nat | x < n && x != p && x != q :: x in r
    ensures forall i, j | 0 <= i < j < |r| :: r[i] != r[j]
  {
    if n == 0 then []
    else
      var r := Others(n - 1, p, q);
      if n - 1 == p || n - 1 == q then r else r + [n - 1]
  }

  /** Reading p and then q before all the others. */
  function First(f: Image, p: nat, q: nat): (r: seq<nat>)
    requires p < |f| && q < |f|
    ensures Full(f, r) && |r| > 0 && r[0] == p && (p != q ==> |r| > 1 && r[1] == q)
  {
    var start := if p == q then [p] else [p, q];
    var r := start + Others(|f|, p, q);
    assert forall x: nat | x < |f| :: x in start || x in Others(|f|, p, q);
    r
  }

  lemma WellFormedIsAccepted(f: Image, order: seq<nat>)
    requires Full(f, order) && WellFormed(f)
    ensures Accepts(f, order)
  {
    forall n | 0 <= n < |order|
      ensures !Refused(f, order[..n], order[n])
    {
      assert order[n] !in order[..n];
      assert forall q | q in order[..n] :: !HeadersDiffer(f, q, order[n]);
    }
  }

  lemma SecondIsRefused(f: Image, p: nat, q: nat)
    requires p != q
    requires SameNumber(f, p, q) ||
      (HeadersDiffer(f, p, q) && (f[p].vid.value.leb == f[q].vid.value.leb ==> Beats(f[q], f[p])))
    ensures !Accepts(f, First(f, p, q))
  {
    var order := First(f, p, q);
    assert order[..1] == [p] && order[1] == q;
    KeptSnoc(f, f[p].vid.value.leb, [], p);
    KeptSnoc(f, f[q].vid.value.leb, [], p);
    assert [] + [p] == [p];
    assert Wins(f, [p], p);
    assert Refused(f, order[..1], order[1]);
  }

  /** Attaching succeeds in whatever order the PEBs are read if, and only if, no two copies of a
      LEB have the same number, the headers of each volume agree, and no erase counter overflows. */
  lemma AcceptedInEveryOrderIff(f: Image)
    ensures (forall order | Full(f, order) :: Accepts(f, order)) <==> WellFormed(f)
  {
    if WellFormed(f) {
      forall order | Full(f, order)
        ensures Accepts(f, order)
      {
        WellFormedIsAccepted(f, order);
      }
    } else if !DistinctSq(f) {
      var p: nat, q: nat :| p < |f| && q < |f| && p != q && f[p].vid.Good? && f[q].vid.Good? &&
        f[p].vid.value.leb == f[q].vid.value.leb && Sq(f[p]) == Sq(f[q]);
      assert SameNumber(f, p, q);
      SecondIsRefused(f, p, q);
    } else if p, q :| HeadersDiffer(f, p, q) {
      if Beats(f[q], f[p]) {
        SecondIsRefused(f, p, q);
      } else {
        if f[p].vid.value.leb == f[q].vid.value.leb {
          BeatsIsTotal(f[p], f[q]);
        }
        SecondIsRefused(f, q, p);
      }
    } else {
      var p :| 0 <= p < |f| && EcOf(f[p]) > MAX_ERASECOUNTER;
      var order := First(f, p, p);
      assert Refused(f, order[..0], order[0]);
    }
  }
}
