/** Creating, removing, re-sizing and renaming volumes: the table stays sound, and every good PEB is
    accounted for. */
module Volumes {
  import opened Arith
  import opened VolTable

  const BEB_RESERVE: nat := 5
  const MIN_RESERVED_PEBS: nat := 2
  const MAX_RNVOL: nat := 32

  /** PEBs set aside for atomic changes and for wear-leveling. */
  const SPARE_PEBS: nat := 2

  datatype Errno =
    | Ok
    | Invalid
    | NameTooLong
    | NoDevice
    | Busy
    | Exists
    | NoIds
    | NoSpace
    | ReadOnly
    | IoError

  datatype Volume = Volume(reservedPebs: nat, alignment: nat, dataPad: nat, isStatic: bool, usedEbs: nat, name: string)

  datatype CreateReq = CreateReq(id: int, bytes: int, alignment: int, isStatic: bool, name: string)

  const ID_AUTO: int := -1

  /** How an operation that changes the table may end before it is finished. */
  datatype Fault = NoFault | BeforeTable | InTable | AfterTable

  datatype Rename = Rename(id: nat, newName: string, remove: bool)

  /** ubi_calculate_reserved */
  function ReserveLevel(good: nat): (r: nat)
    ensures r >= MIN_RESERVED_PEBS
  {
    var r := good / 100 * BEB_RESERVE;
    if r < MIN_RESERVED_PEBS then MIN_RESERVED_PEBS else r
  }

  /** BEB_RESERVE PEBs of every full hundred, but at least two. */
  lemma ReserveLevelIs(good: nat)
    ensures good < 100 ==> ReserveLevel(good) == 2
    ensures good >= 100 ==> 20 * ReserveLevel(good) <= good < 20 * ReserveLevel(good) + 100 && ReserveLevel(good) % 5 == 0
  {
    assert good == good / 100 * 100 + good % 100;
  }

  /** What the table says about a volume. */
  function RecordOf(v: Volume, updMarker: bool): Record {
    Record(v.reservedPebs, v.alignment, v.dataPad, v.isStatic, updMarker, v.name, true)
  }

  predicate RecordFits(volumes: map<nat, Volume>, vtbl: seq<Record>, i: nat)
    requires i < |vtbl|
  {
    if i in volumes then
      && volumes[i].reservedPebs > 0 && vtbl[i] == RecordOf(volumes[i], vtbl[i].updMarker)
      && (volumes[i].isStatic || volumes[i].usedEbs == volumes[i].reservedPebs)
    else vtbl[i] == EMPTY
  }

  /** Table and volumes say the same. */
  ghost predicate InSync(volumes: map<nat, Volume>, vtbl: seq<Record>) {
    && (forall i | i in volumes :: i < |vtbl|)
    && forall i | 0 <= i < |vtbl| :: RecordFits(volumes, vtbl, i)
  }

  /** How many PEBs move to the reserve. */
  function TopUp(level: int, reserve: int, avail: int): (n: int)
    ensures avail >= 0 ==> 0 <= n <= avail
  {
    if level <= reserve then 0 else if avail >= level - reserve then level - reserve else avail
  }

  /** What a request to create a volume has to be like; names are as long as they say. */
  predicate RequestOk(g: Geometry, req: CreateReq)
    requires GeometryOk(g)
  {
    && (0 <= req.id < g.slots || req.id == ID_AUTO)
    && req.bytes > 0 && 0 < req.alignment <= g.lebSize && (req.alignment == 1 || req.alignment % g.minIo == 0)
    && |req.name| <= NAME_MAX && NUL !in req.name
  }

  /** verify_mkvol_req */
  method VerifyMkvolReq(g: Geometry, req: CreateReq) returns (err: Errno)
    requires GeometryOk(g)
    ensures err == Ok <==> RequestOk(g, req)
    ensures err == NameTooLong <==> |req.name| > NAME_MAX && RequestOk(g, req.(name := ""))
    ensures err == Ok || err == NameTooLong || err == Invalid
  {
    if req.bytes < 0 || req.alignment < 0 {
      return Invalid;
    }
    if (req.id < 0 || req.id >= g.slots) && req.id != ID_AUTO {
      return Invalid;
    }
    if req.alignment == 0 || req.bytes == 0 || req.alignment > g.lebSize {
      return Invalid;
    }
    if req.alignment != 1 && req.alignment % g.minIo != 0 {
      return Invalid;
    }
    if |req.name| > NAME_MAX {
      return NameTooLong;
    }
    if NUL in req.name {
      return Invalid;
    }
    return Ok;
  }

  function LowestFreeFrom(i: nat, slots: nat, volumes: map<nat, Volume>): (id: int)
    requires i <= slots
    ensures id == ID_AUTO ==> forall j | i <= j < slots :: j in volumes
    ensures id != ID_AUTO ==> i <= id < slots && id !in volumes && forall j | i <= j < id :: j in volumes
    decreases slots - i
  {
    if i == slots then ID_AUTO else if i !in volumes then i else LowestFreeFrom(i + 1, slots, volumes)
  }

  function LowestFree(slots: nat, volumes: map<nat, Volume>): (id: int)
    ensures id == ID_AUTO || (0 <= id < slots && id !in volumes)
  {
    LowestFreeFrom(0, slots, volumes)
  }

  function ChosenId(slots: nat, volumes: map<nat, Volume>, req: CreateReq): int {
    if req.id == ID_AUTO then LowestFree(slots, volumes) else req.id
  }

  function UsableLebSize(lebSize: nat, alignment: nat): (u: nat)
    requires 0 < alignment <= lebSize
    ensures 0 < u <= lebSize
  {
    lebSize - lebSize % alignment
  }

  /** Whole LEBs for that many bytes, none of them empty. */
  function LebsFor(bytes: nat, usable: nat): (n: nat)
    requires usable > 0
    ensures (n == 0 || (n - 1) * usable < bytes) && bytes <= n * usable
  {
    RoundedDown(bytes + usable - 1, usable);
    (bytes + usable - 1) / usable
  }

  function NewVolume(lebSize: nat, req: CreateReq): (v: Volume)
    requires 0 < req.alignment <= lebSize && req.bytes > 0
    ensures v.isStatic == req.isStatic && v.usedEbs == if v.isStatic then 0 else v.reservedPebs
    ensures var u := lebSize - lebSize % req.alignment; (v.reservedPebs - 1) * u < req.bytes <= v.reservedPebs * u
    ensures v.reservedPebs > 0 && v.alignment == req.alignment && v.dataPad == lebSize % req.alignment && v.name == req.name
  {
    var n := LebsFor(req.bytes, UsableLebSize(lebSize, req.alignment));
    Volume(n, req.alignment, lebSize % req.alignment, req.isStatic, if req.isStatic then 0 else n, req.name)
  }

  /** The bytes asked for fit into the PEBs that are available. */
  lemma SpaceIff(lebSize: nat, req: CreateReq, avail: nat)
    requires 0 < req.alignment <= lebSize && req.bytes > 0
    ensures NewVolume(lebSize, req).reservedPebs <= avail <==> req.bytes <= avail * (lebSize - lebSize % req.alignment)
  {
    var u, n := UsableLebSize(lebSize, req.alignment), NewVolume(lebSize, req).reservedPebs;
    hide NewVolume;
    if n < avail {
      MulGap(n, avail, u);
    } else if n > avail {
      MulGap(avail, n, u);
      assert (n - 1) * u == n * u - u;
    }
  }

  predicate CanCreate(slots: nat, volumes: map<nat, Volume>, req: CreateReq, avail: int, lebSize: nat)
    requires 0 < req.alignment <= lebSize && req.bytes > 0
  {
    && ChosenId(slots, volumes, req) != ID_AUTO && ChosenId(slots, volumes, req) !in volumes
    && (forall i | i in volumes :: volumes[i].name != req.name)
    && NewVolume(lebSize, req).reservedPebs <= avail
  }

  lemma SyncChanges(volumes: map<nat, Volume>, volumes': map<nat, Volume>, vtbl: seq<Record>, id: nat, r: Record)
    requires InSync(volumes, vtbl) && id < |vtbl| && RecordFits(volumes', vtbl[id := r], id)
    requires forall i | i != id :: (i in volumes' <==> i in volumes) && (i in volumes ==> volumes'[i] == volumes[i])
    ensures InSync(volumes', vtbl[id := r])
  {
    var t := vtbl[id := r];
    forall i | 0 <= i < |t|
      ensures RecordFits(volumes', t, i)
    {
      assert i != id ==> RecordFits(volumes, vtbl, i) && t[i] == vtbl[i];
    }
  }

  lemma TableChanges(g: Geometry, good: int, vtbl: seq<Record>, id: nat, r: Record)
    requires GeometryOk(g) && TableOk(g, good, vtbl) && id < |vtbl|
    requires forall i | 0 <= i < |vtbl| && i != id :: !SameName(vtbl[i], r)
    ensures NamesDiffer(vtbl[id := r]) && (RecordOk(g, good, r) <==> TableOk(g, good, vtbl[id := r]))
  {
    var t := vtbl[id := r];
    forall i, j | 0 <= i < j < |t|
      ensures !SameName(t[i], t[j])
    {
      assert !SameName(vtbl[i], vtbl[j]);
    }
    forall i | 0 <= i < |t|
      ensures RecordOk(g, good, t[i]) <==> (i == id ==> RecordOk(g, good, r))
    {
      assert RecordOk(g, good, vtbl[i]) && (i != id ==> t[i] == vtbl[i]);
    }
    assert t[id] == r;
  }

  /** A new record for a volume with an unused name leaves the table sound but for an empty name. */
  lemma AddedToTable(g: Geometry, good: int, volumes: map<nat, Volume>, vtbl: seq<Record>, id: nat, v: Volume)
    requires GeometryOk(g) && InSync(volumes, vtbl) && TableOk(g, good, vtbl) && id < g.slots && id !in volumes
    requires 0 < v.reservedPebs <= good && AlignmentOk(g, v.alignment) && v.dataPad == g.lebSize % v.alignment
    requires v.isStatic || v.usedEbs == v.reservedPebs
    requires |v.name| <= NAME_MAX && NUL !in v.name && forall i | i in volumes :: volumes[i].name != v.name
    ensures var t := vtbl[id := RecordOf(v, false)];
      && InSync(volumes[id := v], t) && NamesDiffer(t) && (TableOk(g, good, t) <==> v.name != "")
      && Sum(t) == Sum(vtbl) + v.reservedPebs
  {
    var r := RecordOf(v, false);
    SumChanges(vtbl, id, r);
    assert RecordFits(volumes, vtbl, id);
    SyncChanges(volumes, volumes[id := v], vtbl, id, r);
    forall i | 0 <= i < |vtbl| && i != id
      ensures !SameName(vtbl[i], r)
    {
      assert RecordFits(volumes, vtbl, i);
    }
    TableChanges(g, good, vtbl, id, r);
    assert RecordOk(g, good, r) <==> v.name != "";
    hide TableOk, InSync, NamesDiffer, Sum;
  }

  lemma RemovedFromTable(g: Geometry, good: int, volumes: map<nat, Volume>, vtbl: seq<Record>, id: nat)
    requires GeometryOk(g) && InSync(volumes, vtbl) && TableOk(g, good, vtbl) && id in volumes
    ensures var t := vtbl[id := EMPTY];
      && InSync(volumes - {id}, t) && TableOk(g, good, t) && Sum(t) == Sum(vtbl) - volumes[id].reservedPebs
  {
    SumChanges(vtbl, id, EMPTY);
    assert RecordFits(volumes, vtbl, id);
    SyncChanges(volumes, volumes - {id}, vtbl, id, EMPTY);
    TableChanges(g, good, vtbl, id, EMPTY);
  }

  lemma ResizedInTable(g: Geometry, good: int, volumes: map<nat, Volume>, vtbl: seq<Record>, id: nat, n: nat)
    requires GeometryOk(g) && InSync(volumes, vtbl) && TableOk(g, good, vtbl) && id in volumes && 0 < n <= good
    ensures id < |vtbl|
    ensures var t, v := vtbl[id := vtbl[id].(reservedPebs := n)], Resized(volumes[id], n);
      && InSync(volumes[id := v], t) && TableOk(g, good, t) && Sum(t) == Sum(vtbl) - volumes[id].reservedPebs + n
  {
    var r := vtbl[id].(reservedPebs := n);
    SumChanges(vtbl, id, r);
    assert RecordFits(volumes, vtbl, id) && RecordOk(g, good, vtbl[id]);
    SyncChanges(volumes, volumes[id := Resized(volumes[id], n)], vtbl, id, r);
    forall i | 0 <= i < |vtbl| && i != id
      ensures !SameName(vtbl[i], r)
    {
      assert !SameName(vtbl[i], vtbl[id]) && !SameName(vtbl[id], vtbl[i]);
    }
    TableChanges(g, good, vtbl, id, r);
  }

  lemma MarkedInTable(g: Geometry, good: int, volumes: map<nat, Volume>, vtbl: seq<Record>, id: nat, marker: bool)
    requires GeometryOk(g) && InSync(volumes, vtbl) && TableOk(g, good, vtbl) && id in volumes
    ensures id < |vtbl|
    ensures var t := vtbl[id := vtbl[id].(updMarker := marker)]; InSync(volumes, t) && TableOk(g, good, t) && Sum(t) == Sum(vtbl)
  {
    var r := vtbl[id].(updMarker := marker);
    SumChanges(vtbl, id, r);
    assert RecordFits(volumes, vtbl, id) && RecordOk(g, good, vtbl[id]);
    SyncChanges(volumes, volumes, vtbl, id, r);
    forall i | 0 <= i < |vtbl| && i != id
      ensures !SameName(vtbl[i], r)
    {
      assert !SameName(vtbl[i], vtbl[id]) && !SameName(vtbl[id], vtbl[i]);
    }
    TableChanges(g, good, vtbl, id, r);
  }

  /** The volume once it has n PEBs. */
  function Resized(v: Volume, n: nat): Volume {
    v.(reservedPebs := n, usedEbs := if v.isStatic then v.usedEbs else n)
  }

  /** A table whose volumes fit into the good PEBs does not become unsound when some go bad. */
  lemma FewerGoodPebs(g: Geometry, good: int, less: int, vtbl: seq<Record>)
    requires GeometryOk(g) && TableOk(g, good, vtbl) && Sum(vtbl) <= less
    ensures TableOk(g, less, vtbl)
  {
    forall i | 0 <= i < |vtbl|
      ensures RecordOk(g, less, vtbl[i])
    {
      assert RecordOk(g, good, vtbl[i]);
      SumChanges(vtbl, i, vtbl[i]);
    }
  }

  /** A record that was overwritten in memory although writing the table failed: the table no longer says
      what the volumes say. */
  lemma NotUndone(volumes: map<nat, Volume>, vtbl: seq<Record>, id: nat, r: Record)
    requires InSync(volumes, vtbl) && id < |vtbl|
    requires if id in volumes then r == EMPTY || r.reservedPebs != volumes[id].reservedPebs else r.reservedPebs > 0
    ensures !InSync(volumes, vtbl[id := r])
  {
    assert RecordFits(volumes, vtbl, id);
    assert !RecordFits(volumes, vtbl[id := r], id);
  }

  /** The smallest case: the first volume of a device, whose record could not be written. */
  lemma FailedCreateIsNotUndone()
    ensures var r := RecordOf(Volume(1, 1, 0, false, 1, "a"), false);
            InSync(map[], [EMPTY]) && !InSync(map[], [EMPTY][0 := r])
  {
    var r := RecordOf(Volume(1, 1, 0, false, 1, "a"), false);
    NotUndone(map[], [EMPTY], 0, r);
  }

  // ---- Going on with a table in memory that is not right ------------------------------------

  /** Re-sizing a volume rewrites the record in memory.  It passes the check if, and only if, it was not
      emptied before by a removal that failed. */
  lemma ResizedRecordOkIff(g: Geometry, good: int, r: Record, n: nat)
    requires GeometryOk(g) && RecordOk(g, good, r) && 0 < n <= good
    ensures RecordOk(g, good, r.(reservedPebs := n)) <==> r != EMPTY
  {
  }

  /** Setting or clearing the update marker rewrites that record as well. */
  lemma MarkedRecordOkIff(g: Geometry, good: int, r: Record, marker: bool)
    requires GeometryOk(g) && RecordOk(g, good, r)
    ensures RecordOk(g, good, r.(updMarker := marker)) <==> r != EMPTY || !marker
  {
  }

  /** A new record leaves the table in memory sound if, and only if, no other record has its name, be it
      that of a volume that could not be created. */
  lemma AddedRecordOkIff(g: Geometry, good: int, vtbl: seq<Record>, id: nat, volumes: map<nat, Volume>, v: Volume)
    requires GeometryOk(g) && TableOk(g, good, vtbl) && id < |vtbl| && Fresh(g, volumes, v) && v.reservedPebs <= good && v.name != ""
    ensures TableOk(g, good, vtbl[id := RecordOf(v, false)]) <==> forall i | 0 <= i < |vtbl| && i != id :: vtbl[i].name != v.name
  {
    var r := RecordOf(v, false);
    var t := vtbl[id := r];
    if i :| 0 <= i < |vtbl| && i != id && vtbl[i].name == v.name {
      assert t[i] == vtbl[i] && t[id] == r && SameName(t[i], t[id]) && SameName(t[id], t[i]);
      assert if i < id then !NamesDiffer(t) else !NamesDiffer(t);
    } else {
      TableChanges(g, good, vtbl, id, r);
    }
  }

  /** A volume that could not be removed and is then re-sized has a record without a name. */
  lemma ResizeAfterFailedRemoval(g: Geometry, good: int)
    requires GeometryOk(g) && g.slots == 1 && good >= 2
    ensures var right := [RecordOf(Volume(1, 1, 0, false, 1, "a"), false)];
            var removed := right[0 := EMPTY];
            && TableOk(g, good, right) && TableOk(g, good, removed) && !TableOk(g, good, removed[0 := removed[0].(reservedPebs := 2)])
  {
    var r := RecordOf(Volume(1, 1, 0, false, 1, "a"), false);
    assert g.lebSize % 1 == 0 && RecordOk(g, good, r) && RecordOk(g, good, EMPTY);
    ResizedRecordOkIff(g, good, EMPTY, 2);
    var bad := [r][0 := EMPTY][0 := EMPTY.(reservedPebs := 2)];
    assert !RecordOk(g, good, bad[0]);
  }

  /** A volume that may be added. */
  predicate Fresh(g: Geometry, volumes: map<nat, Volume>, v: Volume)
    requires GeometryOk(g)
  {
    && v.reservedPebs > 0 && AlignmentOk(g, v.alignment) && v.dataPad == g.lebSize % v.alignment
    && (v.isStatic || v.usedEbs == v.reservedPebs)
    && |v.name| <= NAME_MAX && NUL !in v.name && forall i | i in volumes :: volumes[i].name != v.name
  }

  lemma CanCreateMeans(g: Geometry, volumes: map<nat, Volume>, req: CreateReq, avail: int)
    requires GeometryOk(g) && RequestOk(g, req) && CanCreate(g.slots, volumes, req, avail, g.lebSize)
    ensures 0 <= ChosenId(g.slots, volumes, req) < g.slots && ChosenId(g.slots, volumes, req) !in volumes
    ensures Fresh(g, volumes, NewVolume(g.lebSize, req)) && NewVolume(g.lebSize, req).reservedPebs <= avail
  {
    hide LebsFor, UsableLebSize;
  }

  lemma NewRecordDiffers(volumes: map<nat, Volume>, right: seq<Record>, id: nat, v: Volume)
    requires InSync(volumes, right) && id < |right| && id !in volumes && v.reservedPebs > 0
    ensures right[id := RecordOf(v, false)] != right
  {
    assert RecordFits(volumes, right, id);
    assert right[id := RecordOf(v, false)][id].reservedPebs > 0;
  }

  /** What is checked when a volume is created, in that order. */
  ghost function CreateError(g: Geometry, volumes: map<nat, Volume>, req: CreateReq, avail: int, roMode: bool, fault: Fault): Errno
    requires GeometryOk(g) && RequestOk(g, req)
  {
    if roMode then ReadOnly
    else if req.id == ID_AUTO && forall i | 0 <= i < g.slots :: i in volumes then NoIds
    else if req.id in volumes || exists i | i in volumes :: volumes[i].name == req.name then Exists
    else if req.bytes > avail * (g.lebSize - g.lebSize % req.alignment) then NoSpace
    else if fault != NoFault then IoError
    else Ok
  }

  /** The fault comes after the table in memory has changed. */
  predicate Stops(fault: Fault, pebs: nat, was: nat) {
    fault == InTable || (fault == AfterTable && pebs < was)
  }

  class Device {
    const g: Geometry
    var vtbl: seq<Record>
    var volumes: map<nat, Volume>
    var availPebs: int
    var rsvdPebs: int
    var bebRsvdPebs: int
    var bebRsvdLevel: int
    var goodPebs: int
    var badPebs: int
    var corrPebs: int
    var roMode: bool
    ghost var newBad: int

    /** What the table should say: vtbl may say something else once a record could not be written. */
    ghost var right: seq<Record>

    /** Every good PEB is available, reserved for a volume, for the layout volume, for atomic changes
        and wear-leveling, for replacing bad ones, or preserved as corrupted. */
    ghost predicate Conserved()
      reads this
    {
      && goodPebs - corrPebs == availPebs + Sum(right) + LAYOUT_EBS + SPARE_PEBS + bebRsvdPebs
      && availPebs >= 0 && bebRsvdPebs >= 0 && corrPebs >= 0 && newBad >= 0
      && rsvdPebs == Sum(right) + LAYOUT_EBS + SPARE_PEBS + bebRsvdPebs + newBad
    }

    /** Attaching with this table finds room for everything. */
    ghost predicate Fits()
      reads this
    {
      Sum(vtbl) + LAYOUT_EBS + SPARE_PEBS <= goodPebs - corrPebs
    }

    /** The volumes, and the accounting of their PEBs, are in order. */
    ghost predicate Sound()
      reads this
    {
      GeometryOk(g) && |vtbl| == g.slots && Conserved() && InSync(volumes, right) && TableOk(g, goodPebs, right)
    }

    /** And so is the table. */
    ghost predicate Valid()
      reads this
    {
      Sound() && vtbl == right
    }

    /** Some PEBs that have become available replenish the reserve for bad ones. */
    method Replenish()
      requires availPebs >= 0
      modifies this`availPebs, this`rsvdPebs, this`bebRsvdPebs
      ensures availPebs == old(availPebs) - TopUp(bebRsvdLevel, old(bebRsvdPebs), old(availPebs)) >= 0
      ensures bebRsvdPebs == old(bebRsvdPebs) + TopUp(bebRsvdLevel, old(bebRsvdPebs), old(availPebs))
      ensures rsvdPebs == old(rsvdPebs) + TopUp(bebRsvdLevel, old(bebRsvdPebs), old(availPebs))
    {
      var n := bebRsvdLevel - bebRsvdPebs;
      if n > 0 {
        n := if availPebs >= n then n else availPebs;
        availPebs := availPebs - n;
        rsvdPebs := rsvdPebs + n;
        bebRsvdPebs := bebRsvdPebs + n;
      }
    }

    /** ubi_change_vtbl_record: the table in memory changes first, even if writing it fails. */
    method ChangeRecord(id: nat, rec: Record, fails: bool) returns (err: Errno)
      requires id < |vtbl|
      modifies this`vtbl
      ensures vtbl == old(vtbl)[id := rec] && err == if fails then IoError else Ok
    {
      vtbl := vtbl[id := rec];
      err := if fails then IoError else Ok;
    }

    /** ubi_create_volume, of a request verify_mkvol_req has passed. */
    method CreateVolume(req: CreateReq, fault: Fault) returns (err: Errno, id: int)
      requires Sound() && RequestOk(g, req) && fault != AfterTable
      modifies this
      ensures err == Ok <==> fault == NoFault && !roMode && CanCreate(g.slots, old(volumes), req, old(availPebs), g.lebSize)
      ensures err == Ok ==> id == ChosenId(g.slots, old(volumes), req) && id !in old(volumes)
      ensures err == CreateError(g, old(volumes), req, old(availPebs), old(roMode), fault)
      ensures err == Ok ==> if req.id == ID_AUTO then id >= 0 && forall j | 0 <= j < id :: j in old(volumes) else id == req.id
      ensures err == Ok ==> volumes == old(volumes)[id := NewVolume(g.lebSize, req)]
      ensures err == Ok ==>
        var v, u := volumes[id], g.lebSize - g.lebSize % req.alignment;
        && (v.reservedPebs - 1) * u < req.bytes <= v.reservedPebs * u && v.isStatic == req.isStatic
        && v.usedEbs == (if req.isStatic then 0 else v.reservedPebs)
        && v.alignment == req.alignment && v.dataPad == g.lebSize % req.alignment && v.name == req.name
        && availPebs == old(availPebs) - v.reservedPebs && rsvdPebs == old(rsvdPebs) + v.reservedPebs
      ensures err == Ok ==> vtbl == old(vtbl)[id := RecordOf(NewVolume(g.lebSize, req), false)]
      ensures err == Ok ==> right == old(right)[id := RecordOf(NewVolume(g.lebSize, req), false)]
      ensures err == Ok ==> Conserved() && InSync(volumes, right) && NamesDiffer(right)
      ensures Sound() <==> !(err == Ok && req.name == "")
      ensures err != Ok ==> availPebs == old(availPebs) && rsvdPebs == old(rsvdPebs) && volumes == old(volumes) && right == old(right)
      ensures var wrote := fault == InTable && !roMode && CanCreate(g.slots, old(volumes), req, old(availPebs), g.lebSize);
        var rec := RecordOf(NewVolume(g.lebSize, req), false);
        err != Ok ==>
          && vtbl == (if wrote then old(vtbl)[ChosenId(g.slots, volumes, req) := rec] else old(vtbl))
          && (old(Valid()) ==> (Valid() <==> !wrote) && (Valid() <==> vtbl == old(vtbl)))
          && (old(Valid()) && wrote && req.name != "" ==> TableOk(g, goodPebs, vtbl) && Fits())
      ensures bebRsvdPebs == old(bebRsvdPebs) && goodPebs == old(goodPebs) && badPebs == old(badPebs) && roMode == old(roMode)
      ensures corrPebs == old(corrPebs)
    {
      hide TableOk, NamesDiffer, InSync, Sum, LowestFree, RecordOk, NewVolume, LebsFor, UsableLebSize, ChosenId, CanCreate;
      err, id := ChooseSlot(req);
      if err != Ok {
        return;
      }
      CanCreateMeans(g, volumes, req, availPebs);
      err := AddVolume(id, NewVolume(g.lebSize, req), fault);
    }

    /** Everything that is checked before something is changed. */
    method ChooseSlot(req: CreateReq) returns (err: Errno, id: int)
      requires Sound() && RequestOk(g, req)
      ensures err == Ok <==> !roMode && CanCreate(g.slots, volumes, req, availPebs, g.lebSize)
      ensures err == Ok ==> id == ChosenId(g.slots, volumes, req)
      ensures err == Ok ==> if req.id == ID_AUTO then id >= 0 && forall j | 0 <= j < id :: j in volumes else id == req.id
      ensures err == CreateError(g, volumes, req, availPebs, roMode, NoFault)
    {
      assert |right| == g.slots;
      SpaceIff(g.lebSize, req, availPebs);
      hide TableOk, NamesDiffer, InSync, Sum, LowestFree, RecordOk, NewVolume, LebsFor, UsableLebSize;
      if roMode {
        return ReadOnly, -1;
      }
      id := req.id;
      if id == ID_AUTO {
        id := FindId();
        if id == ID_AUTO {
          return NoIds, id;
        }
      }
      if id in volumes {
        return Exists, id;
      }
      var used := NameUsed(req.name);
      if used {
        return Exists, id;
      }
      if NewVolume(g.lebSize, req).reservedPebs > availPebs {
        return NoSpace, id;
      }
      err := Ok;
    }

    /** The rest of ubi_create_volume. */
    method AddVolume(id: nat, vol: Volume, fault: Fault) returns (err: Errno)
      requires Sound() && id < g.slots && id !in volumes && fault != AfterTable && Fresh(g, volumes, vol) && vol.reservedPebs <= availPebs
      modifies this
      ensures err == if fault == NoFault then Ok else IoError
      ensures err == Ok ==> availPebs == old(availPebs) - vol.reservedPebs && rsvdPebs == old(rsvdPebs) + vol.reservedPebs
      ensures err == Ok ==> volumes == old(volumes)[id := vol] && right == old(right)[id := RecordOf(vol, false)]
      ensures err == Ok ==> vtbl == old(vtbl)[id := RecordOf(vol, false)] && Conserved() && InSync(volumes, right) && NamesDiffer(right)
      ensures Sound() <==> !(err == Ok && vol.name == "")
      ensures err != Ok ==> availPebs == old(availPebs) && rsvdPebs == old(rsvdPebs) && volumes == old(volumes) && right == old(right)
      ensures err != Ok ==> vtbl == if fault == InTable then old(vtbl)[id := RecordOf(vol, false)] else old(vtbl)
      ensures err != Ok && old(Valid()) ==> (Valid() <==> fault != InTable) && (Valid() <==> vtbl == old(vtbl))
      ensures err != Ok && old(Valid()) && fault == InTable && vol.name != "" ==> TableOk(g, goodPebs, vtbl) && Fits()
      ensures bebRsvdPebs == old(bebRsvdPebs) && goodPebs == old(goodPebs) && badPebs == old(badPebs) && roMode == old(roMode)
      ensures corrPebs == old(corrPebs)
    {
      hide TableOk, NamesDiffer, InSync, Sum, RecordOf;
      availPebs := availPebs - vol.reservedPebs;
      rsvdPebs := rsvdPebs + vol.reservedPebs;
      SlotsOf();
      EnoughGood(vol.reservedPebs);
      AddedToTable(g, goodPebs, volumes, right, id, vol);
      err := if fault == BeforeTable then IoError else Ok;
      if err == Ok {
        err := ChangeRecord(id, RecordOf(vol, false), fault == InTable);
      }
      if err != Ok {
        rsvdPebs := rsvdPebs - vol.reservedPebs;
        availPebs := availPebs + vol.reservedPebs;
        NewRecordDiffers(volumes, right, id, vol);
        return;
      }
      right := right[id := RecordOf(vol, false)];
      volumes := volumes[id := vol];
    }

    lemma EnoughGood(pebs: nat)
      requires goodPebs - corrPebs == availPebs + pebs + Sum(right) + LAYOUT_EBS + SPARE_PEBS + bebRsvdPebs
      requires availPebs >= 0 && bebRsvdPebs >= 0 && corrPebs >= 0
      ensures pebs <= goodPebs
    {
      hide Sum;
    }

    method FindId() returns (id: int)
      ensures id == LowestFree(g.slots, volumes)
      ensures id == ID_AUTO ==> forall i | 0 <= i < g.slots :: i in volumes
      ensures id != ID_AUTO ==> 0 <= id < g.slots && id !in volumes && forall j | 0 <= j < id :: j in volumes
    {
      var i := 0;
      while i < g.slots && i in volumes
        invariant forall j | 0 <= j < i :: j in volumes
        invariant 0 <= i <= g.slots && LowestFree(g.slots, volumes) == LowestFreeFrom(i, g.slots, volumes)
      {
        i := i + 1;
      }
      id := if i < g.slots then i else ID_AUTO;
    }

    method NameUsed(name: string) returns (used: bool)
      requires InSync(volumes, right) && |right| == g.slots
      ensures used <==> exists i | i in volumes :: volumes[i].name == name
    {
      for i := 0 to g.slots
        invariant forall j | 0 <= j < i && j in volumes :: volumes[j].name != name
      {
        if i in volumes && volumes[i].name == name {
          return true;
        }
      }
      return false;
    }

    /** That many PEBs are not reserved any more: the reserve for bad ones gets what it lacks, as far as
        anything is available, and the rest becomes available. */
    ghost predicate GivenBack(pebs: int, avail: int, beb: int, rsvd: int)
      reads this
    {
      && availPebs + bebRsvdPebs == avail + beb + pebs
      && bebRsvdPebs == (if bebRsvdLevel <= beb then beb else if bebRsvdLevel <= avail + beb + pebs then bebRsvdLevel else avail + beb + pebs)
      && rsvdPebs == rsvd - pebs + bebRsvdPebs - beb
    }

    /** The accounting at the end of a removal. */
    method GiveBack(pebs: nat)
      requires availPebs >= 0
      modifies this`availPebs, this`rsvdPebs, this`bebRsvdPebs
      ensures GivenBack(pebs, old(availPebs), old(bebRsvdPebs), old(rsvdPebs)) && availPebs >= 0 && bebRsvdPebs >= old(bebRsvdPebs)
    {
      rsvdPebs := rsvdPebs - pebs;
      availPebs := availPebs + pebs;
      Replenish();
    }

    /** ubi_remove_volume */
    method RemoveVolume(id: nat, isBusy: bool, fault: Fault) returns (err: Errno)
      requires Sound() && id in volumes && fault != BeforeTable
      modifies this
      ensures Sound() && err == if roMode then ReadOnly else if isBusy then Busy else if fault != NoFault then IoError else Ok
      ensures err == Ok ==> volumes == old(volumes) - {id} && vtbl == old(vtbl)[id := EMPTY] && right == old(right)[id := EMPTY]
      ensures err == Ok ==> GivenBack(old(volumes)[id].reservedPebs, old(availPebs), old(bebRsvdPebs), old(rsvdPebs))
      ensures bebRsvdLevel == old(bebRsvdLevel)
      ensures err != Ok ==> availPebs == old(availPebs) && rsvdPebs == old(rsvdPebs) && volumes == old(volumes) && right == old(right)
      ensures err != Ok ==> bebRsvdPebs == old(bebRsvdPebs)
      ensures var wrote := !roMode && !isBusy && fault != NoFault;
        err != Ok ==>
          && vtbl == (if wrote then old(vtbl)[id := EMPTY] else old(vtbl))
          && (old(Valid()) ==> (Valid() <==> !wrote) && (Valid() <==> vtbl == old(vtbl)))
          && (old(Valid()) && wrote ==> TableOk(g, goodPebs, vtbl) && Fits())
      ensures corrPebs == old(corrPebs)
      ensures goodPebs == old(goodPebs) && badPebs == old(badPebs) && roMode == old(roMode)
    {
      hide TableOk, InSync, Sum;
      if roMode {
        return ReadOnly;
      }
      if isBusy {
        return Busy;
      }
      RemovedFromTable(g, goodPebs, volumes, right, id);
      var vol := volumes[id];
      volumes := volumes - {id};
      assert id < |right| == |vtbl| by { TableHas(old(volumes), right, id); SlotsOf(); }
      err := ChangeRecord(id, EMPTY, fault == InTable);
      if err == Ok && fault == AfterTable {
        err := IoError;
      }
      if err != Ok {
        volumes := volumes[id := vol];
        assert volumes == old(volumes);
        NotUndone(volumes, right, id, EMPTY);
        return;
      }
      right := right[id := EMPTY];
      GiveBack(vol.reservedPebs);
    }

    lemma SlotsOf()
      requires GeometryOk(g) && TableOk(g, goodPebs, right) && |vtbl| == g.slots
      ensures |right| == |vtbl|
    {
    }

    lemma TableHas(vs: map<nat, Volume>, t: seq<Record>, id: nat)
      requires InSync(vs, t) && id in vs
      ensures id < |t| && t[id].reservedPebs == vs[id].reservedPebs
    {
      assert RecordFits(vs, t, id);
    }

    /** ubi_resize_volume, to at least one PEB.  When the volume shrinks, unmapping what it loses may fail
        after the table was written. */
    method ResizeVolume(id: nat, pebs: nat, isBusy: bool, fault: Fault) returns (err: Errno)
      requires Sound() && id in volumes && pebs > 0 && fault != BeforeTable
      modifies this
      ensures Sound()
      ensures var v := old(volumes)[id];
        err == (if roMode then ReadOnly
                else if v.isStatic && pebs < v.usedEbs then Invalid
                else if pebs == v.reservedPebs then Ok
                else if isBusy then Busy
                else if pebs - v.reservedPebs > old(availPebs) then NoSpace
                else if fault == InTable || (fault == AfterTable && pebs < v.reservedPebs) then IoError
                else Ok)
      ensures err == Ok ==>
        var more := pebs - old(volumes)[id].reservedPebs;
        if more > 0 then
          availPebs == old(availPebs) - more && rsvdPebs == old(rsvdPebs) + more && bebRsvdPebs == old(bebRsvdPebs)
        else if more == 0 then
          availPebs == old(availPebs) && rsvdPebs == old(rsvdPebs) && bebRsvdPebs == old(bebRsvdPebs)
        else GivenBack(-more, old(availPebs), old(bebRsvdPebs), old(rsvdPebs))
      ensures bebRsvdLevel == old(bebRsvdLevel)
      ensures err == Ok ==> volumes == old(volumes)[id := Resized(old(volumes)[id], pebs)]
      ensures err == Ok ==> right == old(right)[id := old(right)[id].(reservedPebs := pebs)]
      ensures err == Ok ==>
        vtbl == if pebs == old(volumes)[id].reservedPebs then old(vtbl) else old(vtbl)[id := old(vtbl)[id].(reservedPebs := pebs)]
      ensures err != Ok ==> availPebs == old(availPebs) && rsvdPebs == old(rsvdPebs) && volumes == old(volumes) && right == old(right)
      ensures err != Ok ==> bebRsvdPebs == old(bebRsvdPebs)
      ensures var v := old(volumes)[id];
        var wrote := Stops(fault, pebs, v.reservedPebs) && !roMode && !isBusy && !(v.isStatic && pebs < v.usedEbs)
          && pebs != v.reservedPebs && pebs - v.reservedPebs <= old(availPebs);
        err != Ok ==>
          && vtbl == (if wrote then old(vtbl)[id := old(vtbl)[id].(reservedPebs := pebs)] else old(vtbl))
          && (old(Valid()) ==> (Valid() <==> !wrote) && (Valid() <==> vtbl == old(vtbl)))
          && (old(Valid()) && wrote ==> TableOk(g, goodPebs, vtbl) && Fits())
      ensures corrPebs == old(corrPebs)
      ensures goodPebs == old(goodPebs) && badPebs == old(badPebs) && roMode == old(roMode)
    {
      hide TableOk, InSync, Sum;
      SlotsOf();
      TableHas(volumes, right, id);
      if roMode {
        return ReadOnly;
      }
      var vol := volumes[id];
      if vol.isStatic && pebs < vol.usedEbs {
        return Invalid;
      }
      if pebs == vol.reservedPebs {
        SameSize(id);
        return Ok;
      }
      if isBusy {
        return Busy;
      }
      if pebs - vol.reservedPebs > availPebs {
        return NoSpace;
      }
      err := ChangeSize(id, pebs, fault);
    }

    /** The rest of ubi_resize_volume. */
    method ChangeSize(id: nat, pebs: nat, fault: Fault) returns (err: Errno)
      requires Sound() && id in volumes && id < |right| && 0 < pebs != volumes[id].reservedPebs && fault != BeforeTable
      requires pebs - volumes[id].reservedPebs <= availPebs
      modifies this
      ensures Sound() && err == if Stops(fault, pebs, old(volumes)[id].reservedPebs) then IoError else Ok
      ensures err == Ok ==>
        var more := pebs - old(volumes)[id].reservedPebs;
        if more > 0 then
          availPebs == old(availPebs) - more && rsvdPebs == old(rsvdPebs) + more && bebRsvdPebs == old(bebRsvdPebs)
        else GivenBack(-more, old(availPebs), old(bebRsvdPebs), old(rsvdPebs))
      ensures bebRsvdLevel == old(bebRsvdLevel)
      ensures err == Ok ==> volumes == old(volumes)[id := Resized(old(volumes)[id], pebs)]
      ensures vtbl == old(vtbl)[id := old(vtbl)[id].(reservedPebs := pebs)]
      ensures err == Ok ==> right == old(right)[id := old(right)[id].(reservedPebs := pebs)]
      ensures err != Ok ==> availPebs == old(availPebs) && rsvdPebs == old(rsvdPebs) && volumes == old(volumes) && right == old(right)
      ensures err != Ok ==> bebRsvdPebs == old(bebRsvdPebs)
      ensures err != Ok && old(Valid()) ==> !Valid() && vtbl != old(vtbl) && TableOk(g, goodPebs, vtbl) && Fits()
      ensures corrPebs == old(corrPebs) && goodPebs == old(goodPebs) && badPebs == old(badPebs) && roMode == old(roMode)
    {
      hide TableOk, InSync, Sum;
      SlotsOf();
      TableHas(volumes, right, id);
      var vol := volumes[id];
      var more := pebs - vol.reservedPebs;
      if more > 0 {
        availPebs := availPebs - more;
        rsvdPebs := rsvdPebs + more;
      }
      SumChanges(right, id, EMPTY);
      ResizedInTable(g, goodPebs, volumes, right, id, pebs);
      err := ChangeRecord(id, vtbl[id].(reservedPebs := pebs), fault == InTable);
      if err == Ok && more < 0 && fault == AfterTable {
        err := IoError;
      }
      if err != Ok {
        if more > 0 {
          rsvdPebs := rsvdPebs - more;
          availPebs := availPebs + more;
        }
        NotUndone(volumes, right, id, right[id].(reservedPebs := pebs));
        return;
      }
      right := right[id := right[id].(reservedPebs := pebs)];
      if more < 0 {
        GiveBack(-more);
      }
      volumes := volumes[id := Resized(vol, pebs)];
    }

    lemma SameSize(id: nat)
      requires InSync(volumes, right) && id in volumes
      ensures id < |right| && volumes[id := Resized(volumes[id], volumes[id].reservedPebs)] == volumes
      ensures right[id := right[id].(reservedPebs := volumes[id].reservedPebs)] == right
    {
      assert RecordFits(volumes, right, id);
    }

    /** What set_update_marker and clear_update_marker do to the table. */
    method ChangeMarker(id: nat, marker: bool, fails: bool) returns (err: Errno)
      requires Sound() && id in volumes
      modifies this`vtbl, this`right
      ensures Sound() && id < |vtbl| == |old(vtbl)| && |old(right)| == |old(vtbl)| && (err == Ok <==> !fails)
      ensures vtbl == old(vtbl)[id := old(vtbl)[id].(updMarker := marker)]
      ensures right == if fails then old(right) else old(right)[id := old(right)[id].(updMarker := marker)]
      ensures old(Valid()) ==> TableOk(g, goodPebs, vtbl) && Fits() && (Valid() <==> !fails || vtbl == old(vtbl))
    {
      hide TableOk, InSync, Sum;
      SlotsOf();
      MarkedInTable(g, goodPebs, volumes, right, id, marker);
      err := ChangeRecord(id, vtbl[id].(updMarker := marker), fails);
      if err == Ok {
        right := right[id := right[id].(updMarker := marker)];
      }
    }

    /** The end of erase_worker for a PEB that has gone bad: the reserve is replenished to one more
        than its level, and one of it is used up.  rsvdPebs is not reduced. */
    method PebWentBad(badAllowed: bool, markFails: bool) returns (err: Errno)
      requires Sound()
      modifies this
      ensures Sound() && vtbl == old(vtbl) && volumes == old(volumes) && right == old(right)
      ensures err == Ok <==> !old(roMode) && badAllowed && !markFails && old(bebRsvdPebs + TopUp(bebRsvdLevel + 1, bebRsvdPebs, availPebs)) > 0
      ensures err == Ok ==> goodPebs == old(goodPebs) - 1 && badPebs == old(badPebs) + 1 && newBad == old(newBad) + 1
      ensures err == Ok ==> bebRsvdLevel == ReserveLevel(goodPebs) && roMode == old(roMode)
      ensures var n := if old(roMode) || !badAllowed then 0 else TopUp(old(bebRsvdLevel) + 1, old(bebRsvdPebs), old(availPebs));
        && availPebs == old(availPebs) - n && bebRsvdPebs == old(bebRsvdPebs) + n - (if err == Ok then 1 else 0)
        && rsvdPebs == old(rsvdPebs) + n
      ensures err != Ok ==> roMode && goodPebs == old(goodPebs) && newBad == old(newBad)
    {
      hide TableOk, InSync, Sum;
      if roMode || !badAllowed {
        roMode := true;
        return IoError;
      }
      var need := bebRsvdLevel - bebRsvdPebs + 1;
      if need > 0 {
        need := if availPebs >= need then need else availPebs;
        availPebs := availPebs - need;
        rsvdPebs := rsvdPebs + need;
        bebRsvdPebs := bebRsvdPebs + need;
      }
      if bebRsvdPebs == 0 || markFails {
        roMode := true;
        return IoError;
      }
      MarkBad();
      err := Ok;
    }

    /** A PEB of the reserve replaces the one marked bad. */
    method MarkBad()
      requires Sound() && bebRsvdPebs > 0
      modifies this`bebRsvdPebs, this`badPebs, this`goodPebs, this`newBad, this`bebRsvdLevel
      ensures Sound() && bebRsvdPebs == old(bebRsvdPebs) - 1 && bebRsvdLevel == ReserveLevel(goodPebs)
      ensures goodPebs == old(goodPebs) - 1 && badPebs == old(badPebs) + 1 && newBad == old(newBad) + 1
    {
      hide TableOk, InSync, Sum;
      FewerGoodPebs(g, goodPebs, goodPebs - 1, right);
      bebRsvdPebs := bebRsvdPebs - 1;
      badPebs := badPebs + 1;
      goodPebs := goodPebs - 1;
      newBad := newBad + 1;
      bebRsvdLevel := ReserveLevel(goodPebs);
    }

    /** init_volumes: an entry for every record that is not empty. */
    method InitVolumes(used: map<nat, nat>) returns (reserved: nat)
      requires GeometryOk(g) && TableOk(g, goodPebs, vtbl)
      modifies this`volumes
      ensures InSync(volumes, vtbl) && reserved == Sum(vtbl)
      ensures forall i | i in volumes && volumes[i].isStatic :: volumes[i].usedEbs == if i in used then used[i] else 0
    {
      reserved := 0;
      volumes := map[];
      for i := 0 to |vtbl|
        invariant forall j | j in volumes :: j < i
        invariant forall j | j in volumes && volumes[j].isStatic :: volumes[j].usedEbs == if j in used then used[j] else 0
        invariant forall j | 0 <= j < i :: RecordFits(volumes, vtbl, j)
        invariant reserved == Sum(vtbl[..i])
      {
        assert vtbl[..i + 1][..i] == vtbl[..i];
        assert RecordOk(g, goodPebs, vtbl[i]);
        ghost var before := volumes;
        if vtbl[i].reservedPebs != 0 {
          var r := vtbl[i];
          var n := if r.isStatic then (if i in used then used[i] else 0) else r.reservedPebs;
          volumes := volumes[i := Volume(r.reservedPebs, r.alignment, r.dataPad, r.isStatic, n, r.name)];
          reserved := reserved + r.reservedPebs;
        }
        forall j | 0 <= j < i + 1
          ensures RecordFits(volumes, vtbl, j)
        {
          assert j < i ==> RecordFits(before, vtbl, j);
        }
      }
      assert vtbl[..|vtbl|] == vtbl;
    }

    /** What ubi_wl_init_scan and ubi_eba_init_scan each set aside. */
    method SetAside() returns (ok: bool)
      modifies this`availPebs, this`rsvdPebs
      ensures ok <==> old(availPebs) >= 1
      ensures ok ==> availPebs == old(availPebs) - 1 && rsvdPebs == old(rsvdPebs) + 1
    {
      if availPebs < 1 {
        return false;
      }
      availPebs := availPebs - 1;
      rsvdPebs := rsvdPebs + 1;
      return true;
    }

    /** The volumes part of attaching.  used says how many LEBs of each static volume were found. */
    method Attach(badAllowed: bool, used: map<nat, nat>) returns (err: Errno)
      requires GeometryOk(g) && TableOk(g, goodPebs, vtbl) && corrPebs >= 0 && goodPebs >= 0
      modifies this`volumes, this`availPebs, this`rsvdPebs, this`bebRsvdPebs, this`bebRsvdLevel, this`newBad, this`right
      ensures err == Ok <==> Sum(vtbl) + LAYOUT_EBS + SPARE_PEBS <= goodPebs - corrPebs
      ensures err == Ok ==> Valid() && newBad == 0
      ensures forall i | i in volumes && volumes[i].isStatic :: volumes[i].usedEbs == if i in used then used[i] else 0
      ensures err == Ok || err == NoSpace
      ensures err == Ok ==>
        var rest := goodPebs - corrPebs - Sum(vtbl) - LAYOUT_EBS - SPARE_PEBS;
        && bebRsvdLevel == (if badAllowed then ReserveLevel(goodPebs) else 0)
        && bebRsvdPebs == (if rest < bebRsvdLevel then rest else bebRsvdLevel)
        && availPebs == rest - bebRsvdPebs && rsvdPebs == goodPebs - corrPebs - availPebs
    {
      assert |vtbl| == g.slots;
      hide TableOk, InSync, Sum;
      var reserved := InitVolumes(used);
      reserved := reserved + LAYOUT_EBS;
      rsvdPebs, newBad, bebRsvdPebs, bebRsvdLevel := reserved, 0, 0, 0;
      availPebs := goodPebs - corrPebs - reserved;
      right := vtbl;
      err := ReserveSpares(badAllowed);
    }

    /** What the wear-leveling and the EBA unit set aside when they are attached, and the reserve for bad PEBs. */
    method ReserveSpares(badAllowed: bool) returns (err: Errno)
      requires GeometryOk(g) && TableOk(g, goodPebs, vtbl) && InSync(volumes, vtbl) && right == vtbl
      requires corrPebs >= 0 && newBad == 0 && bebRsvdPebs == 0 && rsvdPebs == Sum(vtbl) + LAYOUT_EBS
      requires availPebs == goodPebs - corrPebs - rsvdPebs
      modifies this`availPebs, this`rsvdPebs, this`bebRsvdPebs, this`bebRsvdLevel
      ensures err == Ok <==> old(availPebs) >= SPARE_PEBS
      ensures err == Ok ==> Valid()
      ensures err == Ok || err == NoSpace
      ensures err == Ok ==>
        var rest := old(availPebs) - SPARE_PEBS;
        && bebRsvdLevel == (if badAllowed then ReserveLevel(goodPebs) else old(bebRsvdLevel))
        && bebRsvdPebs == (if !badAllowed then 0 else if rest < bebRsvdLevel then rest else bebRsvdLevel)
        && availPebs == rest - bebRsvdPebs && rsvdPebs == goodPebs - corrPebs - availPebs
    {
      assert |vtbl| == g.slots;
      hide TableOk, InSync, Sum;
      var ok := SetAside();
      if ok {
        ok := SetAside();
      }
      if !ok {
        return NoSpace;
      }
      if badAllowed {
        bebRsvdLevel := ReserveLevel(goodPebs);
        bebRsvdPebs := if availPebs < bebRsvdLevel then availPebs else bebRsvdLevel;
        availPebs := availPebs - bebRsvdPebs;
        rsvdPebs := rsvdPebs + bebRsvdPebs;
      }
      return Ok;
    }
  }
}
