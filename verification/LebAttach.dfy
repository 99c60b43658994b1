/** Attaching again: the scan accepts every flash a power cut may leave, and the table built from
    what it found is the state the LEB layer goes on from. */
module LebAttach {
  import opened Flash
  import opened LebInvariant
  import opened LebLayer
  import opened LebSteps
  import opened Scan

  const UNMAPPED: int := -1

  /** The table of all mapped LEBs found by the scan. */
  function Mapping(volumes: map<nat, Sv>): map<Leb, nat> {
    map v, n | v in volumes && n in volumes[v].lebs :: Leb(v, n) := volumes[v].lebs[n].pnum
  }

  function RoleOf(f: Image, p: nat, fate: Fate): Role
    requires p < |f|
  {
    match fate
    case Used => if f[p].vid.Good? then Mapped(f[p].vid.value.leb) else Pending
    case ToErase => Pending
    case ToKeep => Dead
    case Clean => Free
  }

  /** Only PEBs with an erase-counter header carry copies. */
  predicate Plain(f: Image) {
    forall p | 0 <= p < |f| && f[p].vid.Good? :: !f[p].ec.AllFF?
  }

  lemma {:induction false} SeenKept(f: Image, l: Leb, order: seq<nat>)
    requires Within(f, order) && Plain(f)
    ensures Kept(Seen(f), l, order) == Kept(f, l, order)
    decreases |order|
  {
    if order != [] {
      SeenKept(f, l, order[..|order| - 1]);
    }
  }

  /** Whatever a power cut leaves is accepted, in whatever order the PEBs are read. */
  lemma CutIsAccepted(s: State, f: Image, order: seq<nat>)
    requires Inv(s) && CutImage(s, f) && Full(f, order)
    requires forall p | 0 <= p < |f| :: EcOf(f[p]) <= MAX_ERASECOUNTER
    ensures Plain(f) && Accepts(Seen(f), order)
  {
    hide Inv, Accepts;
    var g := Seen(f);
    CutKeepsDistinct(s, f);
    forall p | 0 <= p < |f|
      ensures g[p].vid.Good? ==> g[p] == f[p] && VidFits(s, f[p].vid.value)
      ensures f[p].vid.Good? ==> !f[p].ec.AllFF?
    {
      if f[p].vid.Good? {
        CutKeepsHeaders(s, f, p);
      }
    }
    assert forall p, q :: !HeadersDiffer(g, p, q);
    WellFormedIsAccepted(g, order);
  }

  lemma MappingIs(f: Image, volumes: map<nat, Sv>, l: Leb)
    requires Plain(f) && Volumes(volumes, Seen(f), Ascending(|f|))
    ensures l in Mapping(volumes) <==> Recovered(f, l) != -1
    ensures l in Mapping(volumes) ==> Mapping(volumes)[l] == Recovered(f, l)
  {
    hide Kept, Volumes;
    SeenKept(f, l, Ascending(|f|));
    VolumeKnows(volumes, Seen(f), Ascending(|f|), l);
    if l.vol in volumes && l.lnum in volumes[l.vol].lebs {
      assert l in Mapping(volumes);
    }
  }

  lemma RoleIs(f: Image, p: nat)
    requires Plain(f) && p < |f|
    ensures ScannedRole(f, p) == RoleOf(f, p, FateOf(Seen(f), Ascending(|f|), p))
  {
    if f[p].vid.Good? {
      SeenKept(f, f[p].vid.value.leb, Ascending(|f|));
    }
  }

  /** What the scan knows at its end is the state the LEB layer is attached in. */
  lemma EntryIsAttach(s: State, f: Image, volumes: map<nat, Sv>, l: Leb)
    requires Plain(f) && Volumes(volumes, Seen(f), Ascending(|f|))
    ensures l in Mapping(volumes) <==> l in Attach(s, f).eba
    ensures l in Attach(s, f).eba ==> Attach(s, f).eba[l] == Mapping(volumes)[l]
  {
    hide Kept, Volumes, Plain, Seen, Mapping, Recovered, ScannedRole, MaxSqnum;
    MappingIs(f, volumes, l);
    if Recovered(f, l) != -1 {
      assert f[Recovered(f, l)].vid.value.leb in LebsOn(f);
    }
  }

  lemma MappingIsAttach(s: State, f: Image, volumes: map<nat, Sv>)
    requires Plain(f) && Volumes(volumes, Seen(f), Ascending(|f|))
    ensures Attach(s, f).eba == Mapping(volumes)
  {
    hide *;
    forall l: Leb
      ensures l in Mapping(volumes) <==> l in Attach(s, f).eba
      ensures l in Attach(s, f).eba ==> Attach(s, f).eba[l] == Mapping(volumes)[l]
    {
      EntryIsAttach(s, f, volumes, l);
    }
  }

  lemma NumberIsAttach(s: State, f: Image, maxSqnum: nat)
    requires Plain(f) && Newest(maxSqnum, Seen(f), Ascending(|f|))
    ensures Attach(s, f).sqnum == maxSqnum + 1
  {
    hide Recovered, ScannedRole;
    if p :| 0 <= p < |f| && f[p].vid.Good? && Sq(f[p]) == MaxSqnum(f) {
      assert p in Ascending(|f|);
    }
  }

  lemma ScanIsAttach(s: State, f: Image, volumes: map<nat, Sv>, maxSqnum: nat)
    requires Plain(f) && Volumes(volumes, Seen(f), Ascending(|f|)) && Newest(maxSqnum, Seen(f), Ascending(|f|))
    ensures Attach(s, f).eba == Mapping(volumes) && Attach(s, f).sqnum == maxSqnum + 1
    ensures forall p | 0 <= p < |f| :: Attach(s, f).role[p] == RoleOf(f, p, FateOf(Seen(f), Ascending(|f|), p))
  {
    hide Kept, Volumes, FateOf, RoleOf, ScannedRole, Newest, MaxSqnum, Recovered;
    MappingIsAttach(s, f, volumes);
    NumberIsAttach(s, f, maxSqnum);
    forall p | 0 <= p < |f|
      ensures Attach(s, f).role[p] == RoleOf(f, p, FateOf(Seen(f), Ascending(|f|), p))
    {
      RoleIs(f, p);
    }
  }

  /** The table of one volume: all LEBs unmapped but those found. */
  method FillTable(lebs: map<nat, Seb>, reserved: nat) returns (table: seq<int>)
    requires forall n | n in lebs :: n < reserved
    ensures |table| == reserved
    ensures forall n | 0 <= n < reserved :: table[n] == if n in lebs then lebs[n].pnum else UNMAPPED
  {
    table := seq(reserved, _ => UNMAPPED);
    var todo := lebs.Keys;
    while todo != {}
      invariant todo <= lebs.Keys && |table| == reserved
      invariant forall n | 0 <= n < reserved ::
        table[n] == if n in lebs && n !in todo then lebs[n].pnum else UNMAPPED
    {
      var lnum :| lnum in todo;
      todo := todo - {lnum};
      table := table[lnum := lebs[lnum].pnum];
    }
  }

  /** ubi_eba_init_scan: LEB numbers are those of the volume, as check_sv makes sure. */
  method InitScan(volumes: map<nat, Sv>, reserved: map<nat, nat>, maxSqnum: nat)
    returns (tables: map<nat, seq<int>>, sqnum: nat)
    requires forall v, n | v in reserved && v in volumes && n in volumes[v].lebs :: n < reserved[v]
    ensures sqnum == maxSqnum + 1 && tables.Keys == reserved.Keys
    ensures forall v | v in reserved :: |tables[v]| == reserved[v]
    ensures forall v, n | v in reserved && 0 <= n < reserved[v] ::
      tables[v][n] == if Leb(v, n) in Mapping(volumes) then Mapping(volumes)[Leb(v, n)] else UNMAPPED
  {
    sqnum := maxSqnum + 1;
    tables := map[];
    var slots := reserved.Keys;
    while slots != {}
      invariant slots <= reserved.Keys && tables.Keys == reserved.Keys - slots
      invariant forall v | v in tables :: |tables[v]| == reserved[v]
      invariant forall v, n | v in tables && 0 <= n < reserved[v] ::
        tables[v][n] == if v in volumes && n in volumes[v].lebs then volumes[v].lebs[n].pnum else UNMAPPED
    {
      var v :| v in slots;
      slots := slots - {v};
      var table := FillTable(if v in volumes then volumes[v].lebs else map[], reserved[v]);
      tables := tables[v := table];
    }
  }
}
