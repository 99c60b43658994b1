/** Renaming several volumes at once, with swaps, cycles and the removal of volumes whose name is
    taken over. */
module Renaming {
  import opened VolTable
  import opened Volumes

  datatype Request = Request(id: int, name: string)

  // ---- What the request means ----------------------------------------------------------------

  /** Each volume and each name occurs once. */
  ghost predicate Distinct(reqs: seq<Request>) {
    forall i, j | 0 <= i < j < |reqs| :: reqs[i].id != reqs[j].id && reqs[i].name != reqs[j].name
  }

  predicate Asked(reqs: seq<Request>, id: int) {
    exists i | 0 <= i < |reqs| :: reqs[i].id == id
  }

  predicate Taken(reqs: seq<Request>, name: string) {
    exists i | 0 <= i < |reqs| :: reqs[i].name == name
  }

  function NameFor(reqs: seq<Request>, id: int, old_: string): (name: string)
    ensures Asked(reqs, id) ==> exists i | 0 <= i < |reqs| :: reqs[i] == Request(id, name)
    ensures !Asked(reqs, id) ==> name == old_
  {
    if reqs == [] then old_
    else
      var r := reqs[|reqs| - 1];
      if r.id == id then r.name
      else
        var name := NameFor(reqs[..|reqs| - 1], id, old_);
        assert Asked(reqs, id) ==> Asked(reqs[..|reqs| - 1], id);
        name
  }

  /** A volume that is not renamed loses its name to one that is. */
  predicate Overwritten(volumes: map<nat, Volume>, reqs: seq<Request>, id: nat) {
    id in volumes && !Asked(reqs, id) && Taken(reqs, volumes[id].name)
  }

  function VolumesAfter(volumes: map<nat, Volume>, reqs: seq<Request>): map<nat, Volume> {
    map id | id in volumes && !Overwritten(volumes, reqs, id) :: volumes[id].(name := NameFor(reqs, id, volumes[id].name))
  }

  function RecordAfter(volumes: map<nat, Volume>, vtbl: seq<Record>, reqs: seq<Request>, id: nat): Record
    requires id < |vtbl|
  {
    if Overwritten(volumes, reqs, id) then EMPTY
    else if id in volumes && NameFor(reqs, id, volumes[id].name) != volumes[id].name
    then vtbl[id].(name := NameFor(reqs, id, volumes[id].name))
    else vtbl[id]
  }

  predicate Possible(volumes: map<nat, Volume>, reqs: seq<Request>) {
    forall i | 0 <= i < |reqs| :: reqs[i].id >= 0 && reqs[i].id in volumes
  }

  /** Two volumes that remain have different names. */
  lemma NamesStayDistinct(volumes: map<nat, Volume>, vtbl: seq<Record>, reqs: seq<Request>, a: nat, b: nat)
    requires InSync(volumes, vtbl) && NamesDiffer(vtbl) && Distinct(reqs) && Possible(volumes, reqs)
    requires a in VolumesAfter(volumes, reqs) && b in VolumesAfter(volumes, reqs) && a != b
    requires VolumesAfter(volumes, reqs)[a].name != ""
    ensures VolumesAfter(volumes, reqs)[a].name != VolumesAfter(volumes, reqs)[b].name
  {
    assert RecordFits(volumes, vtbl, a) && RecordFits(volumes, vtbl, b);
    assert !SameName(vtbl[a], vtbl[b]) && !SameName(vtbl[b], vtbl[a]);
  }

  /** The renamed table fits the renamed volumes, and is sound if no name is empty. */
  lemma TableAfter(g: Geometry, good: int, volumes: map<nat, Volume>, vtbl: seq<Record>, reqs: seq<Request>, t: seq<Record>)
    requires GeometryOk(g) && InSync(volumes, vtbl) && TableOk(g, good, vtbl) && Distinct(reqs) && Possible(volumes, reqs)
    requires forall i | 0 <= i < |reqs| :: |reqs[i].name| <= NAME_MAX && NUL !in reqs[i].name
    requires |t| == |vtbl| && forall i | 0 <= i < |t| :: t[i] == RecordAfter(volumes, vtbl, reqs, i)
    ensures InSync(VolumesAfter(volumes, reqs), t) && NamesDiffer(t)
    ensures TableOk(g, good, t) <==> forall i | 0 <= i < |reqs| :: reqs[i].name != ""
  {
    var after := VolumesAfter(volumes, reqs);
    forall i | 0 <= i < |t|
      ensures RecordFits(after, t, i)
      ensures RecordOk(g, good, t[i]) <==> (i in after ==> after[i].name != "")
    {
      assert RecordFits(volumes, vtbl, i) && RecordOk(g, good, vtbl[i]);
    }
    forall i, j | 0 <= i < j < |t|
      ensures !SameName(t[i], t[j])
    {
      assert RecordFits(after, t, i) && RecordFits(after, t, j);
      if i in after && j in after && after[i].name != "" {
        NamesStayDistinct(volumes, vtbl, reqs, i, j);
      }
    }
    EmptyNames(g, good, volumes, vtbl, reqs);
  }

  /** The volume gets another name. */
  predicate Renames(volumes: map<nat, Volume>, reqs: seq<Request>, i: nat) {
    i in volumes && !Overwritten(volumes, reqs, i) && NameFor(reqs, i, volumes[i].name) != volumes[i].name
  }

  /** Its record is there, unless it is to have no name. */
  predicate RecordIsThere(volumes: map<nat, Volume>, vtbl: seq<Record>, reqs: seq<Request>, i: nat)
    requires i < |vtbl| && i in volumes
  {
    vtbl[i] == EMPTY <==> NameFor(reqs, i, volumes[i].name) == ""
  }

  /** Record j, which the renaming leaves alone, has the name volume i is to get. */
  predicate NameIsStale(volumes: map<nat, Volume>, vtbl: seq<Record>, reqs: seq<Request>, i: nat, j: nat)
    requires j < |vtbl| && i in volumes
  {
    && i != j && !Renames(volumes, reqs, j) && !Overwritten(volumes, reqs, j)
    && vtbl[j].name == NameFor(reqs, i, volumes[i].name) != ""
  }

  lemma RenamedRecordOk(g: Geometry, good: int, volumes: map<nat, Volume>, vtbl: seq<Record>, reqs: seq<Request>, i: nat)
    requires GeometryOk(g) && i < |vtbl| && RecordOk(g, good, vtbl[i])
    requires forall k | 0 <= k < |reqs| :: |reqs[k].name| <= NAME_MAX && NUL !in reqs[k].name
    ensures RecordOk(g, good, RecordAfter(volumes, vtbl, reqs, i))
      <==> (Renames(volumes, reqs, i) ==> RecordIsThere(volumes, vtbl, reqs, i))
  {
  }

  lemma RenamedDiffer(volumes: map<nat, Volume>, reqs: seq<Request>, i: nat, j: nat)
    requires Distinct(reqs) && i != j && Renames(volumes, reqs, i) && Renames(volumes, reqs, j)
    ensures NameFor(reqs, i, volumes[i].name) != NameFor(reqs, j, volumes[j].name)
  {
  }

  lemma RecordsClash(volumes: map<nat, Volume>, vtbl: seq<Record>, reqs: seq<Request>, i: nat, j: nat)
    requires i < |vtbl| && j < |vtbl| && i != j && Distinct(reqs) && !SameName(vtbl[i], vtbl[j])
    ensures SameName(RecordAfter(volumes, vtbl, reqs, i), RecordAfter(volumes, vtbl, reqs, j))
      <==> || (Renames(volumes, reqs, i) && NameIsStale(volumes, vtbl, reqs, i, j))
           || (Renames(volumes, reqs, j) && NameIsStale(volumes, vtbl, reqs, j, i))
  {
    if Renames(volumes, reqs, i) && Renames(volumes, reqs, j) {
      RenamedDiffer(volumes, reqs, i, j);
    }
    hide NameFor, Overwritten;
  }

  /** Renaming with a table in memory that is not right: the table written passes the check if, and only if, no
      record that gets a name was emptied, by a removal that failed, and no record that is left alone, such as
      that of a creation or renaming that failed, has such a name. */
  lemma RenamedRecordsOkIff(g: Geometry, good: int, volumes: map<nat, Volume>, vtbl: seq<Record>, reqs: seq<Request>, t: seq<Record>)
    requires GeometryOk(g) && TableOk(g, good, vtbl) && Distinct(reqs)
    requires forall k | 0 <= k < |reqs| :: |reqs[k].name| <= NAME_MAX && NUL !in reqs[k].name
    requires |t| == |vtbl| && forall i: nat | i < |t| :: t[i] == RecordAfter(volumes, vtbl, reqs, i)
    ensures TableOk(g, good, t)
      <==> && (forall i: nat | i < |vtbl| && Renames(volumes, reqs, i) :: RecordIsThere(volumes, vtbl, reqs, i))
           && (forall i: nat, j: nat | i < |vtbl| && j < |vtbl| && Renames(volumes, reqs, i) :: !NameIsStale(volumes, vtbl, reqs, i, j))
  {
    hide RecordAfter, NameFor, Overwritten, RecordIsThere, NameIsStale, RecordOk, SameName;
    forall i: nat | i < |t|
      ensures RecordOk(g, good, t[i]) <==> (Renames(volumes, reqs, i) ==> RecordIsThere(volumes, vtbl, reqs, i))
    {
      assert RecordOk(g, good, vtbl[i]);
      RenamedRecordOk(g, good, volumes, vtbl, reqs, i);
    }
    forall i: nat, j: nat | i < j < |t|
      ensures SameName(t[i], t[j])
        <==> || (Renames(volumes, reqs, i) && NameIsStale(volumes, vtbl, reqs, i, j))
             || (Renames(volumes, reqs, j) && NameIsStale(volumes, vtbl, reqs, j, i))
    {
      assert !SameName(vtbl[i], vtbl[j]);
      RecordsClash(volumes, vtbl, reqs, i, j);
    }
    forall i: nat | i < |t| && Renames(volumes, reqs, i)
      ensures !NameIsStale(volumes, vtbl, reqs, i, i)
    {
      NotItsOwn(volumes, vtbl, reqs, i);
    }
  }

  lemma NotItsOwn(volumes: map<nat, Volume>, vtbl: seq<Record>, reqs: seq<Request>, i: nat)
    requires i < |vtbl| && Renames(volumes, reqs, i)
    ensures !NameIsStale(volumes, vtbl, reqs, i, i)
  {
  }

  lemma EmptyNames(g: Geometry, good: int, volumes: map<nat, Volume>, vtbl: seq<Record>, reqs: seq<Request>)
    requires GeometryOk(g) && InSync(volumes, vtbl) && TableOk(g, good, vtbl) && Distinct(reqs) && Possible(volumes, reqs)
    ensures (forall i | i in VolumesAfter(volumes, reqs) :: VolumesAfter(volumes, reqs)[i].name != "")
      <==> forall i | 0 <= i < |reqs| :: reqs[i].name != ""
  {
    var after := VolumesAfter(volumes, reqs);
    forall i | i in volumes
      ensures volumes[i].name != ""
    {
      assert RecordFits(volumes, vtbl, i) && RecordOk(g, good, vtbl[i]);
    }
    if i :| 0 <= i < |reqs| && reqs[i].name == "" {
      assert Asked(reqs, reqs[i].id) && reqs[i].id in after;
    }
  }

  // ---- The list of what is to be done ------------------------------------------------------

  predicate EntryOk(slots: nat, r: Request) {
    0 <= r.id < slots && |r.name| <= NAME_MAX
  }

  /** The first entry that is not in order decides about the error. */
  ghost function ValidateError(slots: nat, reqs: seq<Request>): Errno {
    if |reqs| > MAX_RNVOL then Invalid
    else if exists i | 0 <= i < |reqs| ::
              0 <= reqs[i].id < slots && |reqs[i].name| > NAME_MAX && forall j | 0 <= j < i :: EntryOk(slots, reqs[j]) then NameTooLong
    else if (exists i | 0 <= i < |reqs| :: !EntryOk(slots, reqs[i])) || !Distinct(reqs) then Invalid
    else Ok
  }

  /** The first volume that cannot be opened decides about the error. */
  ghost function OpenError(volumes: map<nat, Volume>, reqs: seq<Request>, busy: set<nat>): Errno
    requires forall i | 0 <= i < |reqs| :: reqs[i].id >= 0
  {
    if exists i | 0 <= i < |reqs| ::
         reqs[i].id !in volumes && forall j | 0 <= j < i :: reqs[j].id in volumes && reqs[j].id !in busy then NoDevice
    else if exists i | 0 <= i < |reqs| :: reqs[i].id in busy then Busy
    else Ok
  }

  /** What is found wrong before anything is done. */
  ghost predicate Refuses(slots: nat, volumes: map<nat, Volume>, reqs: seq<Request>, busy: set<nat>, err: Errno) {
    var e := ValidateError(slots, reqs);
    if e != Ok then err == e
    else if forall i | 0 <= i < |reqs| :: reqs[i].id >= 0 then
      err == if OpenError(volumes, reqs, busy) != Ok then OpenError(volumes, reqs, busy) else Busy
    else false
  }

  /** The first checks of rename_volumes. */
  method Validate(slots: nat, reqs: seq<Request>) returns (err: Errno)
    ensures err == ValidateError(slots, reqs)
    ensures err == Ok <==>
      && |reqs| <= MAX_RNVOL && Distinct(reqs)
      && forall i | 0 <= i < |reqs| :: 0 <= reqs[i].id < slots && |reqs[i].name| <= NAME_MAX
  {
    if |reqs| > MAX_RNVOL {
      return Invalid;
    }
    for i := 0 to |reqs|
      invariant forall j | 0 <= j < i :: EntryOk(slots, reqs[j])
    {
      if reqs[i].id < 0 || reqs[i].id >= slots {
        return Invalid;
      }
      if |reqs[i].name| > NAME_MAX {
        return NameTooLong;
      }
    }
    var i := 0;
    while i < |reqs| - 1
      invariant 0 <= i <= |reqs|
      invariant forall a, b | 0 <= a < i && a < b < |reqs| :: reqs[a].id != reqs[b].id && reqs[a].name != reqs[b].name
    {
      var n := i + 1;
      while n < |reqs|
        invariant i < n <= |reqs|
        invariant forall b | i < b < n :: reqs[i].id != reqs[b].id && reqs[i].name != reqs[b].name
      {
        if reqs[i].id == reqs[n].id || reqs[i].name == reqs[n].name {
          return Invalid;
        }
        n := n + 1;
      }
      i := i + 1;
    }
    return Ok;
  }

  /** The entry stands for a renaming that is asked for and changes something, or for the removal of
      an overwritten volume. */
  predicate Justified(volumes: map<nat, Volume>, reqs: seq<Request>, e: Rename) {
    if e.remove then Overwritten(volumes, reqs, e.id)
    else e.id in volumes && Request(e.id, e.newName) in reqs && volumes[e.id].name != e.newName
  }

  ghost predicate IdsDiffer(list: seq<Rename>) {
    forall i, j | 0 <= i < j < |list| :: list[i].id != list[j].id
  }

  predicate Listed(list: seq<Rename>, id: nat) {
    exists i | 0 <= i < |list| :: list[i].id == id
  }

  /** Every volume that changes has its entry. */
  ghost predicate Complete(volumes: map<nat, Volume>, reqs: seq<Request>, list: seq<Rename>) {
    && (forall i | 0 <= i < |list| :: Justified(volumes, reqs, list[i])) && IdsDiffer(list)
    && forall id | id in volumes && !Listed(list, id) ::
         !Overwritten(volumes, reqs, id) && NameFor(reqs, id, volumes[id].name) == volumes[id].name
  }

  /** The first k requests have been looked at. */
  ghost predicate ListedSoFar(volumes: map<nat, Volume>, reqs: seq<Request>, list: seq<Rename>, k: nat)
    requires k <= |reqs|
  {
    && (forall i | 0 <= i < k :: reqs[i].id in volumes) && IdsDiffer(list)
    && (forall i | 0 <= i < |list| :: exists j | 0 <= j < k :: reqs[j] == Request(list[i].id, list[i].newName))
    && (forall i | 0 <= i < |list| :: Justified(volumes, reqs, list[i]) && !list[i].remove)
    && (forall i | 0 <= i < k :: Listed(list, reqs[i].id) || volumes[reqs[i].id].name == reqs[i].name)
  }

  lemma OneMoreListed(volumes: map<nat, Volume>, reqs: seq<Request>, list: seq<Rename>, k: nat)
    requires k < |reqs| && Distinct(reqs) && ListedSoFar(volumes, reqs, list, k) && reqs[k].id >= 0 && reqs[k].id in volumes
    requires volumes[reqs[k].id].name != reqs[k].name
    ensures ListedSoFar(volumes, reqs, list + [Rename(reqs[k].id, reqs[k].name, false)], k + 1)
  {
    var more := list + [Rename(reqs[k].id, reqs[k].name, false)];
    assert more[|list|].id == reqs[k].id;
    forall id | Listed(list, id)
      ensures Listed(more, id)
    {
      var j :| 0 <= j < |list| && list[j].id == id;
      assert more[j].id == id;
    }
    forall i | 0 <= i < |list|
      ensures more[i].id != reqs[k].id
    {
      var j :| 0 <= j < k && reqs[j] == Request(list[i].id, list[i].newName);
    }
    forall i | 0 <= i < |more|
      ensures exists j | 0 <= j < k + 1 :: reqs[j] == Request(more[i].id, more[i].newName)
      ensures Justified(volumes, reqs, more[i])
    {
      assert i < |list| ==> Justified(volumes, reqs, list[i]) && more[i] == list[i];
      assert i == |list| ==> reqs[k] == Request(more[i].id, more[i].newName);
    }
  }

  lemma NothingToList(volumes: map<nat, Volume>, reqs: seq<Request>, list: seq<Rename>, k: nat)
    requires k < |reqs| && ListedSoFar(volumes, reqs, list, k) && reqs[k].id in volumes && volumes[reqs[k].id].name == reqs[k].name
    ensures ListedSoFar(volumes, reqs, list, k + 1)
  {
    forall i | 0 <= i < |list|
      ensures exists j | 0 <= j < k + 1 :: reqs[j] == Request(list[i].id, list[i].newName)
    {
      var j :| 0 <= j < k && reqs[j] == Request(list[i].id, list[i].newName);
    }
  }

  /** The entries for renamings are all there. */
  ghost predicate RenamesListed(volumes: map<nat, Volume>, reqs: seq<Request>, renames: seq<Rename>) {
    && Possible(volumes, reqs) && Distinct(reqs) && IdsDiffer(renames)
    && (forall i | 0 <= i < |renames| :: Justified(volumes, reqs, renames[i]) && !renames[i].remove)
    && (forall i | 0 <= i < |reqs| :: Listed(renames, reqs[i].id) || volumes[reqs[i].id].name == reqs[i].name)
  }

  /** The entries for renamings, in the order of the request; each volume is opened for exclusive use. */
  method ListRenames(d: Device, reqs: seq<Request>, busy: set<nat>) returns (err: Errno, list: seq<Rename>)
    requires Distinct(reqs) && forall i | 0 <= i < |reqs| :: reqs[i].id >= 0
    ensures err == Ok ==> RenamesListed(d.volumes, reqs, list)
    ensures err == Ok <==> Possible(d.volumes, reqs) && forall i | 0 <= i < |reqs| :: reqs[i].id !in busy
    ensures err == OpenError(d.volumes, reqs, busy)
  {
    hide ListedSoFar, Distinct, RenamesListed, Possible;
    list := [];
    NothingListed(d.volumes, reqs);
    for k := 0 to |reqs|
      invariant forall i | 0 <= i < k :: reqs[i].id in d.volumes && reqs[i].id !in busy
      invariant ListedSoFar(d.volumes, reqs, list, k)
    {
      var r := reqs[k];
      if r.id !in d.volumes {
        NotPossible(d.volumes, reqs, k);
        return NoDevice, [];
      }
      if r.id in busy {
        return Busy, [];
      }
      if d.volumes[r.id].name != r.name {
        OneMoreListed(d.volumes, reqs, list, k);
        list := list + [Rename(r.id, r.name, false)];
      } else {
        NothingToList(d.volumes, reqs, list, k);
      }
    }
    err := Ok;
    AllRenamesListed(d.volumes, reqs, list);
  }

  lemma NothingListed(volumes: map<nat, Volume>, reqs: seq<Request>)
    ensures ListedSoFar(volumes, reqs, [], 0)
  {
  }

  lemma NotPossible(volumes: map<nat, Volume>, reqs: seq<Request>, k: nat)
    requires k < |reqs| && reqs[k].id >= 0 && reqs[k].id !in volumes
    ensures !Possible(volumes, reqs)
  {
  }

  lemma AllRenamesListed(volumes: map<nat, Volume>, reqs: seq<Request>, list: seq<Rename>)
    requires Distinct(reqs) && ListedSoFar(volumes, reqs, list, |reqs|) && forall i | 0 <= i < |reqs| :: reqs[i].id >= 0
    ensures RenamesListed(volumes, reqs, list) && Possible(volumes, reqs)
  {
    hide Justified, Distinct;
  }

  /** ubi_open_volume_nm, but for the opening. */
  method FindByName(d: Device, name: string) returns (found: bool, id: nat)
    requires InSync(d.volumes, d.right) && |d.right| == d.g.slots
    ensures found ==> id in d.volumes && d.volumes[id].name == name
    ensures !found ==> forall i | i in d.volumes :: d.volumes[i].name != name
  {
    for i := 0 to d.g.slots
      invariant forall j | 0 <= j < i && j in d.volumes :: d.volumes[j].name != name
    {
      if i in d.volumes && d.volumes[i].name == name {
        return true, i;
      }
    }
    return false, 0;
  }

  /** One of the listed volumes has that name now. */
  method NameIsListed(d: Device, list: seq<Rename>, name: string) returns (yes: bool)
    requires forall i | 0 <= i < |list| :: list[i].id in d.volumes
    ensures yes <==> exists i | 0 <= i < |list| :: d.volumes[list[i].id].name == name
  {
    for i := 0 to |list|
      invariant forall j | 0 <= j < i :: d.volumes[list[j].id].name != name
    {
      if d.volumes[list[i].id].name == name {
        return true;
      }
    }
    return false;
  }

  ghost predicate DistinctNames(volumes: map<nat, Volume>) {
    forall a, b | a in volumes && b in volumes && volumes[a].name == volumes[b].name :: a == b
  }

  lemma VolumesAreDistinct(g: Geometry, good: int, volumes: map<nat, Volume>, vtbl: seq<Record>)
    requires GeometryOk(g) && InSync(volumes, vtbl) && TableOk(g, good, vtbl)
    ensures DistinctNames(volumes)
  {
    forall a, b | a in volumes && b in volumes && volumes[a].name == volumes[b].name
      ensures a == b
    {
      assert RecordFits(volumes, vtbl, a) && RecordFits(volumes, vtbl, b) && RecordOk(g, good, vtbl[a]);
      assert a < b ==> !SameName(vtbl[a], vtbl[b]);
      assert b < a ==> !SameName(vtbl[b], vtbl[a]);
    }
  }

  /** A volume with the new name of an entry that is not listed itself is overwritten. */
  lemma UnlistedIsOverwritten(volumes: map<nat, Volume>, reqs: seq<Request>, renames: seq<Rename>, e: Rename, id: nat)
    requires RenamesListed(volumes, reqs, renames) && e in renames && id in volumes && volumes[id].name == e.newName
    requires !Listed(renames, id)
    ensures Overwritten(volumes, reqs, id)
  {
    var k :| 0 <= k < |renames| && renames[k] == e;
    assert Justified(volumes, reqs, renames[k]);
    var i :| 0 <= i < |reqs| && reqs[i] == Request(e.id, e.newName);
  }

  /** An overwritten volume has the new name of an entry. */
  lemma OverwrittenByEntry(volumes: map<nat, Volume>, reqs: seq<Request>, renames: seq<Rename>, id: nat)
    requires RenamesListed(volumes, reqs, renames) && DistinctNames(volumes) && Overwritten(volumes, reqs, id)
    ensures exists k | 0 <= k < |renames| :: renames[k].newName == volumes[id].name
  {
    var i :| 0 <= i < |reqs| && reqs[i].name == volumes[id].name;
    assert reqs[i].id != id;
    var k :| 0 <= k < |renames| && renames[k].id == reqs[i].id;
    assert Justified(volumes, reqs, renames[k]);
    var j :| 0 <= j < |reqs| && reqs[j] == Request(renames[k].id, renames[k].newName);
    assert j == i || j < i || i < j;
  }

  lemma ListGrows(list: seq<Rename>, e: Rename)
    requires IdsDiffer(list) && !Listed(list, e.id)
    ensures IdsDiffer([e] + list) && forall id :: Listed([e] + list, id) <==> Listed(list, id) || id == e.id
  {
    var more := [e] + list;
    forall id
      ensures Listed(more, id) <==> Listed(list, id) || id == e.id
    {
      if id == e.id {
        assert more[0].id == id;
      } else if Listed(list, id) {
        var i :| 0 <= i < |list| && list[i].id == id;
        assert more[i + 1].id == id;
      }
    }
  }

  /** What holds once the new names of the first k renames have been looked up. */
  ghost predicate RemovalsListed(volumes: map<nat, Volume>, reqs: seq<Request>, renames: seq<Rename>, busy: set<nat>, list: seq<Rename>, k: nat)
    requires k <= |renames|
  {
    && (forall i | 0 <= i < |list| :: Justified(volumes, reqs, list[i])) && IdsDiffer(list) && |renames| <= |list|
    && (forall id | Listed(renames, id) :: Listed(list, id))
    && (forall id | Listed(list, id) && !Listed(renames, id) :: Overwritten(volumes, reqs, id) && id !in busy)
    && forall i, id | 0 <= i < k && id in volumes && volumes[id].name == renames[i].newName :: Listed(list, id)
  }

  lemma NameAlreadyListed(volumes: map<nat, Volume>, reqs: seq<Request>, renames: seq<Rename>, busy: set<nat>, list: seq<Rename>, k: nat)
    requires k < |renames| && RemovalsListed(volumes, reqs, renames, busy, list, k) && DistinctNames(volumes)
    requires forall i | 0 <= i < |list| :: list[i].id in volumes
    requires exists i | 0 <= i < |list| :: volumes[list[i].id].name == renames[k].newName
    ensures RemovalsListed(volumes, reqs, renames, busy, list, k + 1)
  {
    var i :| 0 <= i < |list| && volumes[list[i].id].name == renames[k].newName;
    forall id | id in volumes && volumes[id].name == renames[k].newName
      ensures Listed(list, id)
    {
      assert id == list[i].id;
    }
  }

  lemma NameNowListed(volumes: map<nat, Volume>, reqs: seq<Request>, renames: seq<Rename>, busy: set<nat>, list: seq<Rename>, k: nat, id: nat)
    requires k < |renames| && RemovalsListed(volumes, reqs, renames, busy, list, k) && DistinctNames(volumes)
    requires id in volumes && volumes[id].name == renames[k].newName && !Listed(list, id) && Overwritten(volumes, reqs, id) && id !in busy
    ensures RemovalsListed(volumes, reqs, renames, busy, [Rename(id, "", true)] + list, k + 1)
  {
    ListGrows(list, Rename(id, "", true));
    hide IdsDiffer, Listed, Overwritten, Justified;
    var more := [Rename(id, "", true)] + list;
    forall i | 0 <= i < |more|
      ensures Justified(volumes, reqs, more[i])
    {
      assert i > 0 ==> more[i] == list[i - 1];
      JustifiedRemoval(volumes, reqs, id);
    }
  }

  lemma JustifiedRemoval(volumes: map<nat, Volume>, reqs: seq<Request>, id: nat)
    requires Overwritten(volumes, reqs, id)
    ensures Justified(volumes, reqs, Rename(id, "", true))
  {
  }

  lemma AllListed(volumes: map<nat, Volume>, reqs: seq<Request>, renames: seq<Rename>, busy: set<nat>, list: seq<Rename>)
    requires RenamesListed(volumes, reqs, renames) && RemovalsListed(volumes, reqs, renames, busy, list, |renames|) && DistinctNames(volumes)
    ensures Complete(volumes, reqs, list) && |renames| <= |list| && forall id | Overwritten(volumes, reqs, id) :: id !in busy
  {
    forall id | Overwritten(volumes, reqs, id)
      ensures Listed(list, id) && id !in busy
    {
      OverwrittenByEntry(volumes, reqs, renames, id);
      var k :| 0 <= k < |renames| && renames[k].newName == volumes[id].name;
      assert Listed(list, id);
      assert !Listed(renames, id);
    }
  }

  ghost predicate RemovalsFirst(list: seq<Rename>) {
    forall i, j | 0 <= i < j < |list| && list[j].remove :: list[i].remove
  }

  /** The volumes that have to be removed are put in front. */
  method ListRemovals(d: Device, reqs: seq<Request>, busy: set<nat>, renames: seq<Rename>) returns (err: Errno, list: seq<Rename>)
    requires InSync(d.volumes, d.right) && |d.right| == d.g.slots && DistinctNames(d.volumes)
    requires RenamesListed(d.volumes, reqs, renames)
    ensures err == Ok ==> Complete(d.volumes, reqs, list) && |renames| <= |list| && RemovalsFirst(list)
    ensures err == Ok <==> forall id | Overwritten(d.volumes, reqs, id) :: id !in busy
    ensures err == Ok || err == Busy
  {
    hide RemovalsListed, InSync, DistinctNames, RenamesListed, Overwritten, Justified;
    list := renames;
    StartsListed(d.volumes, reqs, renames, busy);
    for k := 0 to |renames|
      invariant RemovalsListed(d.volumes, reqs, renames, busy, list, k) && RemovalsFirst(list)
    {
      err, list := ListOne(d, reqs, busy, renames, list, k);
      if err != Ok {
        return err, [];
      }
    }
    err := Ok;
    AllListed(d.volumes, reqs, renames, busy, list);
  }

  lemma StartsListed(volumes: map<nat, Volume>, reqs: seq<Request>, renames: seq<Rename>, busy: set<nat>)
    requires RenamesListed(volumes, reqs, renames)
    ensures RemovalsListed(volumes, reqs, renames, busy, renames, 0) && RemovalsFirst(renames)
  {
    hide Overwritten, Justified;
  }

  /** The volume with the new name of one entry. */
  method ListOne(d: Device, reqs: seq<Request>, busy: set<nat>, renames: seq<Rename>, list: seq<Rename>, k: nat) returns (err: Errno, more: seq<Rename>)
    requires InSync(d.volumes, d.right) && |d.right| == d.g.slots && DistinctNames(d.volumes) && RenamesListed(d.volumes, reqs, renames)
    requires k < |renames| && RemovalsListed(d.volumes, reqs, renames, busy, list, k) && RemovalsFirst(list)
    ensures err == Ok ==> RemovalsListed(d.volumes, reqs, renames, busy, more, k + 1) && RemovalsFirst(more)
    ensures err != Ok ==> err == Busy && exists id | Overwritten(d.volumes, reqs, id) :: id in busy
  {
    hide RemovalsListed, InSync, DistinctNames, RenamesListed, Overwritten, Justified;
    var name := renames[k].newName;
    ListedInVolumes(d.volumes, reqs, renames, busy, list, k);
    var listed := NameIsListed(d, list, name);
    err, more := Ok, list;
    if listed {
      NameAlreadyListed(d.volumes, reqs, renames, busy, list, k);
      return;
    }
    var found, id := FindByName(d, name);
    if !found {
      NameUnused(d.volumes, reqs, renames, busy, list, k);
      return;
    }
    assert !Listed(list, id);
    UnlistedIsOverwritten(d.volumes, reqs, renames, renames[k], id);
    if id in busy {
      return Busy, list;
    }
    NameNowListed(d.volumes, reqs, renames, busy, list, k, id);
    more := [Rename(id, "", true)] + list;
  }

  lemma ListedInVolumes(volumes: map<nat, Volume>, reqs: seq<Request>, renames: seq<Rename>, busy: set<nat>, list: seq<Rename>, k: nat)
    requires k <= |renames| && RemovalsListed(volumes, reqs, renames, busy, list, k)
    ensures forall i | 0 <= i < |list| :: list[i].id in volumes
    ensures forall id | Listed(renames, id) :: Listed(list, id)
  {
    assert forall i | 0 <= i < |list| :: Justified(volumes, reqs, list[i]) && list[i].id in volumes;
  }

  lemma NameUnused(volumes: map<nat, Volume>, reqs: seq<Request>, renames: seq<Rename>, busy: set<nat>, list: seq<Rename>, k: nat)
    requires k < |renames| && RemovalsListed(volumes, reqs, renames, busy, list, k)
    requires forall i | i in volumes :: volumes[i].name != renames[k].newName
    ensures RemovalsListed(volumes, reqs, renames, busy, list, k + 1)
  {
  }

  // ---- Doing it ------------------------------------------------------------------------------

  /** The table once the first n entries have been carried out. */
  ghost predicate TableHas(volumes: map<nat, Volume>, vtbl: seq<Record>, reqs: seq<Request>, list: seq<Rename>, t: seq<Record>) {
    && |t| == |vtbl|
    && forall i: nat | i < |t| :: t[i] == if Listed(list, i) then RecordAfter(volumes, vtbl, reqs, i) else vtbl[i]
  }

  lemma ListedSnoc(list: seq<Rename>, n: nat)
    requires n < |list|
    ensures forall id :: Listed(list[..n + 1], id) <==> Listed(list[..n], id) || id == list[n].id
  {
    assert list[..n + 1][n] == list[n];
    assert forall i | 0 <= i < n :: list[..n + 1][i] == list[..n][i];
  }

  /** The name an entry brings is the one the request asks for. */
  lemma EntryName(volumes: map<nat, Volume>, reqs: seq<Request>, e: Rename)
    requires Justified(volumes, reqs, e) && Distinct(reqs)
    ensures e.id in volumes
    ensures !e.remove ==> Asked(reqs, e.id) && NameFor(reqs, e.id, volumes[e.id].name) == e.newName != volumes[e.id].name
    ensures e.remove ==> Overwritten(volumes, reqs, e.id)
  {
    if !e.remove {
      var i :| 0 <= i < |reqs| && reqs[i] == Request(e.id, e.newName);
      assert reqs[i].id == e.id;
    }
  }

  /** What an entry makes of a record. */
  function Edited(r: Record, e: Rename): Record {
    if e.remove then EMPTY else r.(name := e.newName)
  }

  /** One more entry in a table. */
  lemma OneMoreRecord(volumes: map<nat, Volume>, vtbl: seq<Record>, reqs: seq<Request>, list: seq<Rename>, n: nat, t: seq<Record>)
    requires n < |list| && IdsDiffer(list) && Justified(volumes, reqs, list[n]) && Distinct(reqs)
    requires TableHas(volumes, vtbl, reqs, list[..n], t) && (forall i | i in volumes :: i < |vtbl|)
    ensures list[n].id < |t| && TableHas(volumes, vtbl, reqs, list[..n + 1], t[list[n].id := Edited(t[list[n].id], list[n])])
    ensures t[list[n].id] == vtbl[list[n].id]
  {
    var e := list[n];
    ListedSnoc(list, n);
    EntryName(volumes, reqs, e);
    assert !Listed(list[..n], e.id);
  }

  /** Records that no entry is about are as they were. */
  lemma UnlistedRecords(volumes: map<nat, Volume>, vtbl: seq<Record>, reqs: seq<Request>, list: seq<Rename>, t: seq<Record>)
    requires Complete(volumes, reqs, list) && TableHas(volumes, vtbl, reqs, list, t)
    ensures forall i: nat | i < |t| :: t[i] == RecordAfter(volumes, vtbl, reqs, i)
  {
    forall i: nat | i < |t|
      ensures t[i] == RecordAfter(volumes, vtbl, reqs, i)
    {
      if i in volumes && !Listed(list, i) {
        assert !Overwritten(volumes, reqs, i) && NameFor(reqs, i, volumes[i].name) == volumes[i].name;
      }
    }
  }

  /** The loop of ubi_vtbl_rename_volumes. */
  method RenameInTable(d: Device, ghost reqs: seq<Request>, list: seq<Rename>)
    requires InSync(d.volumes, d.right) && |d.vtbl| == |d.right| && Complete(d.volumes, reqs, list) && Distinct(reqs)
    modifies d`vtbl
    ensures |d.vtbl| == |old(d.vtbl)|
    ensures forall i: nat | i < |d.vtbl| :: d.vtbl[i] == RecordAfter(d.volumes, old(d.vtbl), reqs, i)
  {
    hide RecordAfter, Justified, RecordFits;
    ghost var before := d.vtbl;
    for n := 0 to |list|
      invariant TableHas(d.volumes, before, reqs, list[..n], d.vtbl)
    {
      var e := list[n];
      OneMoreRecord(d.volumes, before, reqs, list, n, d.vtbl);
      d.vtbl := d.vtbl[e.id := if e.remove then EMPTY else d.vtbl[e.id].(name := e.newName)];
    }
    assert list[..|list|] == list;
    UnlistedRecords(d.volumes, before, reqs, list, d.vtbl);
  }

  /** The volumes once the first n entries have been carried out. */
  ghost predicate VolumesHave(volumes: map<nat, Volume>, reqs: seq<Request>, list: seq<Rename>, vs: map<nat, Volume>) {
    forall i ::
      if Listed(list, i)
      then (i in vs <==> i in VolumesAfter(volumes, reqs)) && (i in vs ==> vs[i] == VolumesAfter(volumes, reqs)[i])
      else (i in vs <==> i in volumes) && (i in vs ==> vs[i] == volumes[i])
  }

  /** Volumes and the table they stand for once the first n entries have been carried out. */
  ghost predicate DoneTo(d: Device, volumes: map<nat, Volume>, right: seq<Record>, reqs: seq<Request>, list: seq<Rename>, n: nat)
    requires n <= |list|
    reads d
  {
    && VolumesHave(volumes, reqs, list[..n], d.volumes) && TableHas(volumes, right, reqs, list[..n], d.right)
    && d.availPebs >= 0 && d.bebRsvdPebs >= 0
  }

  /** Every PEB that is not available or in the reserve is reserved by a volume, as before. */
  ghost function Total(d: Device): int
    reads d
  {
    d.availPebs + d.bebRsvdPebs + Sum(d.right)
  }

  ghost function Drift(d: Device): int
    reads d
  {
    d.rsvdPebs - d.bebRsvdPebs - Sum(d.right)
  }

  /** What the next entry is about. */
  lemma NextEntry(d: Device, volumes: map<nat, Volume>, right: seq<Record>, reqs: seq<Request>, list: seq<Rename>, n: nat)
    requires n < |list| && Complete(volumes, reqs, list) && Distinct(reqs) && InSync(volumes, right) && DoneTo(d, volumes, right, reqs, list, n)
    ensures var e := list[n];
            && e.id in d.volumes && e.id < |d.right| && d.right[e.id].reservedPebs == d.volumes[e.id].reservedPebs
            && VolumesHave(volumes, reqs, list[..n + 1], if e.remove then d.volumes - {e.id} else d.volumes[e.id := d.volumes[e.id].(name := e.newName)])
            && TableHas(volumes, right, reqs, list[..n + 1], d.right[e.id := Edited(d.right[e.id], e)])
  {
    var e := list[n];
    assert IdsDiffer(list) && Justified(volumes, reqs, e) && forall i | i in volumes :: i < |right|;
    assert RecordFits(volumes, right, e.id) by { EntryName(volumes, reqs, e); }
    hide VolumesHave, TableHas, Justified, Complete, Distinct, InSync, RecordFits;
    OneMoreRenamed(volumes, reqs, list, n, d.volumes);
    OneMoreRecord(volumes, right, reqs, list, n, d.right);
    SameReserved(volumes, right, e.id);
  }

  /** One turn of the loop of ubi_rename_volumes. */
  method CarryOutOne(d: Device, ghost volumes: map<nat, Volume>, ghost right: seq<Record>, ghost reqs: seq<Request>, list: seq<Rename>, n: nat)
    requires n < |list| && Complete(volumes, reqs, list) && Distinct(reqs) && InSync(volumes, right) && DoneTo(d, volumes, right, reqs, list, n)
    modifies d`volumes, d`availPebs, d`rsvdPebs, d`bebRsvdPebs, d`right
    ensures DoneTo(d, volumes, right, reqs, list, n + 1) && Total(d) == old(Total(d)) && Drift(d) == old(Drift(d))
  {
    hide VolumesHave, TableHas, Justified, Complete, Distinct, InSync, Sum, RecordFits;
    var e := list[n];
    NextEntry(d, volumes, right, reqs, list, n);
    SumChanges(d.right, e.id, Edited(d.right[e.id], e));
    d.right := d.right[e.id := Edited(d.right[e.id], e)];
    if e.remove {
      var pebs := d.volumes[e.id].reservedPebs;
      d.volumes := d.volumes - {e.id};
      d.GiveBack(pebs);
    } else {
      d.volumes := d.volumes[e.id := d.volumes[e.id].(name := e.newName)];
    }
  }

  lemma SameReserved(volumes: map<nat, Volume>, right: seq<Record>, id: nat)
    requires id in volumes && id < |right| && RecordFits(volumes, right, id)
    ensures right[id].reservedPebs == volumes[id].reservedPebs
  {
  }

  /** The loop of ubi_rename_volumes: volumes get their names, and overwritten ones are removed.  The
      removal of those in stuck fails, and the loop ends; n entries have been carried out. */
  method RenameVolumeObjects(d: Device, ghost reqs: seq<Request>, list: seq<Rename>, stuck: set<nat>) returns (err: Errno, n: nat)
    requires Complete(d.volumes, reqs, list) && Distinct(reqs) && InSync(d.volumes, d.right) && d.availPebs >= 0 && d.bebRsvdPebs >= 0
    modifies d`volumes, d`availPebs, d`rsvdPebs, d`bebRsvdPebs, d`right
    ensures n <= |list| && DoneTo(d, old(d.volumes), old(d.right), reqs, list, n) && Total(d) == old(Total(d)) && Drift(d) == old(Drift(d))
    ensures err == (if n == |list| then Ok else Busy)
    ensures err == Ok <==> forall i | 0 <= i < |list| :: !(list[i].remove && list[i].id in stuck)
    ensures err != Ok ==> list[n].remove && list[n].id in stuck
  {
    hide VolumesHave, TableHas, Justified, Complete, Distinct, InSync, Sum, RecordFits;
    ghost var volumes, right := d.volumes, d.right;
    StartsDone(d, reqs, list);
    n := 0;
    while n < |list|
      invariant n <= |list| && DoneTo(d, volumes, right, reqs, list, n) && Total(d) == old(Total(d)) && Drift(d) == old(Drift(d))
      invariant forall i | 0 <= i < n :: !(list[i].remove && list[i].id in stuck)
    {
      if list[n].remove && list[n].id in stuck {
        return Busy, n;
      }
      CarryOutOne(d, volumes, right, reqs, list, n);
      n := n + 1;
    }
    err := Ok;
  }

  lemma StartsDone(d: Device, reqs: seq<Request>, list: seq<Rename>)
    requires d.availPebs >= 0 && d.bebRsvdPebs >= 0
    ensures DoneTo(d, d.volumes, d.right, reqs, list, 0)
  {
    assert list[..0] == [];
  }

  lemma AllRenamed(volumes: map<nat, Volume>, reqs: seq<Request>, list: seq<Rename>, vs: map<nat, Volume>)
    requires Complete(volumes, reqs, list) && VolumesHave(volumes, reqs, list, vs)
    ensures vs == VolumesAfter(volumes, reqs)
  {
    var after := VolumesAfter(volumes, reqs);
    forall i
      ensures (i in vs <==> i in after) && (i in vs ==> vs[i] == after[i])
    {
      if !Listed(list, i) && i in volumes {
        assert !Overwritten(volumes, reqs, i) && NameFor(reqs, i, volumes[i].name) == volumes[i].name;
      }
    }
  }

  /** Carrying out one more entry. */
  lemma OneMoreRenamed(volumes: map<nat, Volume>, reqs: seq<Request>, list: seq<Rename>, n: nat, vs: map<nat, Volume>)
    requires n < |list| && IdsDiffer(list) && Justified(volumes, reqs, list[n]) && Distinct(reqs)
    requires VolumesHave(volumes, reqs, list[..n], vs)
    ensures var e := list[n];
            && e.id in vs && vs[e.id] == volumes[e.id]
            && VolumesHave(volumes, reqs, list[..n + 1], if e.remove then vs - {e.id} else vs[e.id := vs[e.id].(name := e.newName)])
  {
    var e := list[n];
    ListedSnoc(list, n);
    EntryName(volumes, reqs, e);
    assert !Listed(list[..n], e.id);
  }

  lemma NothingToRename(volumes: map<nat, Volume>, reqs: seq<Request>, t: seq<Record>)
    requires RenamesListed(volumes, reqs, []) && DistinctNames(volumes)
    ensures VolumesAfter(volumes, reqs) == volumes && forall id | id in volumes :: !Overwritten(volumes, reqs, id)
    ensures forall i: nat | i < |t| :: t[i] == RecordAfter(volumes, t, reqs, i)
  {
    forall id | id in volumes
      ensures !Overwritten(volumes, reqs, id) && NameFor(reqs, id, volumes[id].name) == volumes[id].name
    {
      if Overwritten(volumes, reqs, id) {
        OverwrittenByEntry(volumes, reqs, [], id);
      }
      if Asked(reqs, id) {
        var i :| 0 <= i < |reqs| && reqs[i] == Request(id, NameFor(reqs, id, volumes[id].name));
        assert !Listed([], reqs[i].id);
      }
    }
  }

  /** The request is one that can be carried out. */
  ghost predicate Sensible(slots: nat, volumes: map<nat, Volume>, reqs: seq<Request>) {
    && |reqs| <= MAX_RNVOL && Distinct(reqs) && Possible(volumes, reqs)
    && forall i | 0 <= i < |reqs| :: 0 <= reqs[i].id < slots && |reqs[i].name| <= NAME_MAX
  }

  /** And nobody else uses the volumes it is about. */
  ghost predicate Allowed(slots: nat, volumes: map<nat, Volume>, reqs: seq<Request>, busy: set<nat>) {
    && Sensible(slots, volumes, reqs) && (forall i | 0 <= i < |reqs| :: reqs[i].id !in busy)
    && forall id | Overwritten(volumes, reqs, id) :: id !in busy
  }

  /** Some volume gets another name. */
  ghost predicate Effective(volumes: map<nat, Volume>, reqs: seq<Request>) {
    exists i | 0 <= i < |reqs| :: reqs[i].id >= 0 && reqs[i].id in volumes && volumes[reqs[i].id].name != reqs[i].name
  }

  lemma EffectiveIff(volumes: map<nat, Volume>, reqs: seq<Request>, renames: seq<Rename>)
    requires RenamesListed(volumes, reqs, renames)
    ensures renames == [] <==> !Effective(volumes, reqs)
  {
    if renames == [] {
      forall i | 0 <= i < |reqs|
        ensures volumes[reqs[i].id].name == reqs[i].name
      {
        assert !Listed(renames, reqs[i].id);
      }
    } else {
      var e := renames[0];
      assert Justified(volumes, reqs, e);
      var i :| 0 <= i < |reqs| && reqs[i] == Request(e.id, e.newName);
    }
  }

  /** rename_volumes up to where the table is changed. */
  method PlanRenames(d: Device, reqs: seq<Request>, busy: set<nat>) returns (err: Errno, list: seq<Rename>)
    requires d.Sound()
    ensures err == Ok <==> Allowed(d.g.slots, d.volumes, reqs, busy)
    ensures err != Ok ==> Refuses(d.g.slots, d.volumes, reqs, busy, err)
    ensures err == Ok ==> (list == [] <==> !Effective(d.volumes, reqs))
    ensures err == Ok && list != [] ==> Complete(d.volumes, reqs, list) && RemovalsFirst(list)
    ensures err == Ok && list == [] ==> RenamesListed(d.volumes, reqs, []) && DistinctNames(d.volumes)
  {
    assert |d.right| == d.g.slots;
    hide TableOk, Sum, NamesDiffer, Complete, DistinctNames, InSync, Justified, Overwritten, RemovalsFirst, Effective;
    err := Validate(d.g.slots, reqs);
    list := [];
    if err != Ok {
      return;
    }
    err, list := ListRenames(d, reqs, busy);
    if err != Ok {
      return;
    }
    EffectiveIff(d.volumes, reqs, list);
    VolumesAreDistinct(d.g, d.goodPebs, d.volumes, d.right);
    if list == [] {
      NothingToRename(d.volumes, reqs, []);
      OnlyVolumesOverwritten(d.volumes, reqs);
      return;
    }
    err, list := ListRemovals(d, reqs, busy, list);
  }

  lemma OnlyVolumesOverwritten(volumes: map<nat, Volume>, reqs: seq<Request>)
    ensures forall id | Overwritten(volumes, reqs, id) :: id in volumes
  {
  }

  /** Some of the volumes that are overwritten have been removed, and nothing else has been done. */
  ghost predicate Removed(volumes: map<nat, Volume>, right: seq<Record>, reqs: seq<Request>, removed: set<nat>, vs: map<nat, Volume>, r: seq<Record>) {
    && vs == volumes - removed && (forall id | id in removed :: Overwritten(volumes, reqs, id))
    && |r| == |right| && forall i: nat | i < |r| :: r[i] == if i in removed then EMPTY else right[i]
  }

  /** The first n entries are removals. */
  lemma RemovedSoFar(d: Device, volumes: map<nat, Volume>, right: seq<Record>, reqs: seq<Request>, list: seq<Rename>, n: nat)
    requires n <= |list| && Complete(volumes, reqs, list) && DoneTo(d, volumes, right, reqs, list, n)
    requires forall i | 0 <= i < n :: list[i].remove
    ensures Removed(volumes, right, reqs, set i | 0 <= i < n :: list[i].id, d.volumes, d.right)
  {
    var removed := set i | 0 <= i < n :: list[i].id;
    forall id: nat
      ensures id in removed <==> Listed(list[..n], id)
      ensures id in removed ==> Overwritten(volumes, reqs, id)
    {
      if id in removed {
        var i :| 0 <= i < n && list[i].id == id;
        assert list[..n][i] == list[i] && Justified(volumes, reqs, list[i]);
      }
      if Listed(list[..n], id) {
        var i :| 0 <= i < n && list[..n][i].id == id;
        assert list[i].id == id;
      }
    }
    hide Complete, Justified;
    assert d.volumes == volumes - removed;
  }

  lemma RemovedIsSound(g: Geometry, good: int, volumes: map<nat, Volume>, right: seq<Record>, reqs: seq<Request>, removed: set<nat>, vs: map<nat, Volume>, r: seq<Record>)
    requires GeometryOk(g) && InSync(volumes, right) && TableOk(g, good, right) && Removed(volumes, right, reqs, removed, vs, r)
    ensures InSync(vs, r) && TableOk(g, good, r)
  {
    hide Overwritten;
    forall i | 0 <= i < |r|
      ensures RecordFits(vs, r, i) && RecordOk(g, good, r[i])
    {
      assert RecordFits(volumes, right, i) && RecordOk(g, good, right[i]);
    }
    forall i, j | 0 <= i < j < |r|
      ensures !SameName(r[i], r[j])
    {
      assert !SameName(right[i], right[j]);
    }
  }

  /** A volume that was to get another name still has its old one in the table it stands for. */
  lemma NamesLeftBehind(volumes: map<nat, Volume>, right: seq<Record>, vtbl: seq<Record>, reqs: seq<Request>, removed: set<nat>,
                        vs: map<nat, Volume>, r: seq<Record>, t: seq<Record>)
    requires InSync(volumes, right) && Removed(volumes, right, reqs, removed, vs, r) && Effective(volumes, reqs) && Distinct(reqs)
    requires |t| == |vtbl| == |right| && forall i: nat | i < |t| :: t[i] == RecordAfter(volumes, vtbl, reqs, i)
    ensures t != r && !InSync(vs, t)
  {
    var k :| 0 <= k < |reqs| && reqs[k].id >= 0 && reqs[k].id in volumes && volumes[reqs[k].id].name != reqs[k].name;
    var id: nat := reqs[k].id;
    assert Asked(reqs, id);
    var j :| 0 <= j < |reqs| && reqs[j] == Request(id, NameFor(reqs, id, volumes[id].name));
    assert j == k;
    assert RecordFits(volumes, right, id);
    assert !RecordFits(vs, t, id);
  }

  lemma RenamedIsAsked(volumes: map<nat, Volume>, reqs: seq<Request>, e: Rename)
    requires Justified(volumes, reqs, e)
    ensures e.remove <==> Overwritten(volumes, reqs, e.id)
  {
    if !e.remove {
      var j :| 0 <= j < |reqs| && reqs[j] == Request(e.id, e.newName);
    }
  }

  /** The removals are those of the overwritten volumes. */
  lemma RemovalsAre(volumes: map<nat, Volume>, reqs: seq<Request>, list: seq<Rename>, stuck: set<nat>)
    requires Complete(volumes, reqs, list)
    ensures (forall i | 0 <= i < |list| :: !(list[i].remove && list[i].id in stuck))
      <==> forall id | Overwritten(volumes, reqs, id) :: id !in stuck
  {
    hide Overwritten, Justified;
    forall i | 0 <= i < |list|
      ensures list[i].remove <==> Overwritten(volumes, reqs, list[i].id)
    {
      RenamedIsAsked(volumes, reqs, list[i]);
    }
    forall id: nat | Overwritten(volumes, reqs, id)
      ensures exists i | 0 <= i < |list| :: list[i].remove && list[i].id == id
    {
      OverwrittenExists(volumes, reqs, id);
      assert Listed(list, id);
      var i :| 0 <= i < |list| && list[i].id == id;
      assert list[i].remove;
    }
  }

  lemma OverwrittenExists(volumes: map<nat, Volume>, reqs: seq<Request>, id: nat)
    requires Overwritten(volumes, reqs, id)
    ensures id in volumes
  {
  }

  /** How the device is found after a rename that has failed once the table was touched. */
  ghost predicate StoppedHalfway(volumes: map<nat, Volume>, right: seq<Record>, vtbl: seq<Record>, reqs: seq<Request>, removed: set<nat>,
                                 vs: map<nat, Volume>, r: seq<Record>, t: seq<Record>) {
    && Removed(volumes, right, reqs, removed, vs, r) && t != r
    && |t| == |vtbl| && forall i: nat | i < |t| :: t[i] == RecordAfter(volumes, vtbl, reqs, i)
  }

  /** Carrying out a plan. */
  method CarryOut(d: Device, reqs: seq<Request>, list: seq<Rename>, tableFails: bool, stuck: set<nat>) returns (err: Errno, ghost removed: set<nat>)
    requires d.Sound() && Sensible(d.g.slots, d.volumes, reqs) && Complete(d.volumes, reqs, list) && RemovalsFirst(list)
    requires Effective(d.volumes, reqs) && forall i | 0 <= i < |reqs| :: NUL !in reqs[i].name
    modifies d
    ensures err == Ok <==> !tableFails && forall id | Overwritten(old(d.volumes), reqs, id) :: id !in stuck
    ensures err == Ok || err == if tableFails then IoError else Busy
    ensures |d.vtbl| == |old(d.vtbl)| && forall i: nat | i < |d.vtbl| :: d.vtbl[i] == RecordAfter(old(d.volumes), old(d.vtbl), reqs, i)
    ensures err == Ok ==> d.volumes == VolumesAfter(old(d.volumes), reqs) && |d.right| == |old(d.right)|
    ensures err == Ok ==> forall i: nat | i < |d.right| :: d.right[i] == RecordAfter(old(d.volumes), old(d.right), reqs, i)
    ensures err == Ok ==> d.Conserved() && InSync(d.volumes, d.right) && NamesDiffer(d.right)
    ensures err == Ok ==> (d.Sound() <==> forall i | 0 <= i < |reqs| :: reqs[i].name != "")
    ensures err != Ok ==> d.Sound() && StoppedHalfway(old(d.volumes), old(d.right), old(d.vtbl), reqs, removed, d.volumes, d.right, d.vtbl)
    ensures err != Ok && tableFails ==> removed == {}
    ensures err != Ok && !tableFails ==> exists id :: id in stuck - removed && Overwritten(old(d.volumes), reqs, id)
    ensures d.goodPebs == old(d.goodPebs) && d.corrPebs == old(d.corrPebs) && d.badPebs == old(d.badPebs)
  {
    hide TableOk, InSync, Sum, NamesDiffer, Complete, DistinctNames, RecordAfter, VolumesAfter, Possible, Effective, Removed, Overwritten, DoneTo, RemovalsFirst;
    ghost var volumes, right := d.volumes, d.right;
    removed := {};
    SameSlots(d);
    RenameInTable(d, reqs, list);
    ghost var t := d.vtbl;
    if tableFails {
      NothingRemoved(volumes, right, reqs);
      NamesLeftBehind(volumes, right, old(d.vtbl), reqs, {}, volumes, right, t);
      return IoError, {};
    }
    RemovalsAre(volumes, reqs, list, stuck);
    var n;
    err, n := RenameVolumeObjects(d, reqs, list, stuck);
    if err == Ok {
      AllDone(d, volumes, right, reqs, list);
      TableAfter(d.g, d.goodPebs, volumes, right, reqs, d.right);
    } else {
      removed := set i | 0 <= i < n :: list[i].id;
      StuckIsLeft(volumes, reqs, list, n);
      RemovedSoFar(d, volumes, right, reqs, list, n);
      RemovedIsSound(d.g, d.goodPebs, volumes, right, reqs, removed, d.volumes, d.right);
      NamesLeftBehind(volumes, right, old(d.vtbl), reqs, removed, d.volumes, d.right, t);
      DoneCounts(d, volumes, right, reqs, list, n);
    }
  }

  lemma SameSlots(d: Device)
    requires d.Sound()
    ensures |d.vtbl| == |d.right|
  {
  }

  lemma DoneCounts(d: Device, volumes: map<nat, Volume>, right: seq<Record>, reqs: seq<Request>, list: seq<Rename>, n: nat)
    requires n <= |list| && DoneTo(d, volumes, right, reqs, list, n)
    ensures d.availPebs >= 0 && d.bebRsvdPebs >= 0
  {
  }

  lemma NothingRemoved(volumes: map<nat, Volume>, right: seq<Record>, reqs: seq<Request>)
    ensures Removed(volumes, right, reqs, {}, volumes, right)
  {
  }

  lemma AllDone(d: Device, volumes: map<nat, Volume>, right: seq<Record>, reqs: seq<Request>, list: seq<Rename>)
    requires Complete(volumes, reqs, list) && DoneTo(d, volumes, right, reqs, list, |list|)
    ensures d.volumes == VolumesAfter(volumes, reqs) && |d.right| == |right| && d.availPebs >= 0 && d.bebRsvdPebs >= 0
    ensures forall i: nat | i < |d.right| :: d.right[i] == RecordAfter(volumes, right, reqs, i)
  {
    hide RecordAfter;
    assert list[..|list|] == list;
    AllRenamed(volumes, reqs, list, d.volumes);
    UnlistedRecords(volumes, right, reqs, list, d.right);
  }

  /** The removal that failed is none of those before it. */
  lemma StuckIsLeft(volumes: map<nat, Volume>, reqs: seq<Request>, list: seq<Rename>, n: nat)
    requires Complete(volumes, reqs, list) && n < |list| && list[n].remove && RemovalsFirst(list)
    ensures Overwritten(volumes, reqs, list[n].id) && list[n].id !in (set i | 0 <= i < n :: list[i].id)
    ensures forall i | 0 <= i < n :: list[i].remove
  {
    assert Justified(volumes, reqs, list[n]);
  }

  /** rename_volumes: exactly what the request means, or, if it fails before the table is touched, nothing.
      After that, a failed write and a removal that fails both leave the new table in memory; then only some
      overwritten volumes have been removed, and nothing has been renamed.  The table is sound afterwards if,
      and only if, no new name is empty, which nothing checks. */
  method RenameVolumes(d: Device, reqs: seq<Request>, busy: set<nat>, tableFails: bool, stuck: set<nat>) returns (err: Errno, ghost removed: set<nat>)
    requires d.Sound() && forall i | 0 <= i < |reqs| :: NUL !in reqs[i].name
    modifies d
    ensures var touched := |reqs| > 0 && Allowed(d.g.slots, old(d.volumes), reqs, busy) && Effective(old(d.volumes), reqs);
      && (err == Ok <==>
           || |reqs| == 0
           || (&& Allowed(d.g.slots, old(d.volumes), reqs, busy)
               && (touched ==> !tableFails && forall id | Overwritten(old(d.volumes), reqs, id) :: id !in stuck)))
      && (err != Ok && !touched ==> unchanged(d) && Refuses(d.g.slots, old(d.volumes), reqs, busy, err))
      && (err != Ok && touched ==> err == if tableFails then IoError else Busy)
      && (err != Ok && touched ==>
           && StoppedHalfway(old(d.volumes), old(d.right), old(d.vtbl), reqs, removed, d.volumes, d.right, d.vtbl)
           && (tableFails ==> removed == {})
           && (!tableFails ==> exists id :: id in stuck - removed && Overwritten(old(d.volumes), reqs, id)))
      && (err != Ok && old(d.Valid()) ==> (d.Valid() <==> !touched) && (touched <==> d.vtbl != old(d.vtbl)))
    ensures |reqs| == 0 ==> unchanged(d)
    ensures err == Ok && |reqs| > 0 ==>
      d.volumes == VolumesAfter(old(d.volumes), reqs) && |d.vtbl| == |old(d.vtbl)| &&
      forall i: nat | i < |d.vtbl| :: d.vtbl[i] == RecordAfter(old(d.volumes), old(d.vtbl), reqs, i)
    ensures err == Ok && |reqs| > 0 ==>
      |d.right| == |old(d.right)| && forall i: nat | i < |d.right| :: d.right[i] == RecordAfter(old(d.volumes), old(d.right), reqs, i)
    ensures err == Ok ==> d.Conserved() && InSync(d.volumes, d.right) && NamesDiffer(d.right)
    ensures d.Sound() <==> !(err == Ok && exists i | 0 <= i < |reqs| :: reqs[i].name == "")
    ensures d.goodPebs == old(d.goodPebs) && d.corrPebs == old(d.corrPebs) && d.badPebs == old(d.badPebs)
  {
    removed := {};
    if |reqs| == 0 {
      return Ok, {};
    }
    assert InSync(d.volumes, d.right) && GeometryOk(d.g);
    hide TableOk, InSync, Sum, NamesDiffer, Complete, DistinctNames, RecordAfter, VolumesAfter, Effective, Overwritten, RemovalsFirst, Removed;
    var list;
    err, list := PlanRenames(d, reqs, busy);
    if err != Ok {
      return;
    }
    if list == [] {
      NothingToRename(d.volumes, reqs, d.vtbl);
      NothingToRename(d.volumes, reqs, d.right);
      TableAfter(d.g, d.goodPebs, d.volumes, d.right, reqs, d.right);
      return;
    }
    err, removed := CarryOut(d, reqs, list, tableFails, stuck);
    TableMoves(old(d.volumes), old(d.right), old(d.vtbl), reqs, d.vtbl);
  }

  /** The record of a renamed volume passes the check if, and only if, its name is not empty and as long as it
      says.  That it is not is noticed by rename_volumes, which goes on all the same. */
  lemma RenamedNameOkIff(g: Geometry, good: int, r: Record, name: string)
    requires GeometryOk(g) && RecordOk(g, good, r) && r != EMPTY && |name| <= NAME_MAX
    ensures RecordOk(g, good, r.(name := name)) <==> name != "" && NUL !in name
  {
  }

  /** The table in memory is another one than before. */
  lemma TableMoves(volumes: map<nat, Volume>, right: seq<Record>, vtbl: seq<Record>, reqs: seq<Request>, t: seq<Record>)
    requires InSync(volumes, right) && Effective(volumes, reqs) && Distinct(reqs)
    requires |t| == |vtbl| && forall i: nat | i < |t| :: t[i] == RecordAfter(volumes, vtbl, reqs, i)
    ensures vtbl == right ==> t != vtbl
  {
    if vtbl == right {
      NothingRemoved(volumes, right, reqs);
      NamesLeftBehind(volumes, right, vtbl, reqs, {}, volumes, right, t);
    }
  }

  /** Volume 1 takes over the name of volume 2, which somebody is just looking at: both volumes are as they
      were, and the table has neither of them as it is. */
  lemma BusyVolumeStopsRename(a: Volume, b: Volume)
    requires a.name == "a" && b.name == "b" && a.reservedPebs > 0 && b.reservedPebs > 0
    requires (a.isStatic || a.usedEbs == a.reservedPebs) && (b.isStatic || b.usedEbs == b.reservedPebs)
    ensures var volumes, vtbl, reqs := map[1 := a, 2 := b], [EMPTY, RecordOf(a, false), RecordOf(b, false)], [Request(1, "b")];
            var t := [EMPTY, RecordOf(a, false).(name := "b"), EMPTY];
            && InSync(volumes, vtbl) && Effective(volumes, reqs) && Overwritten(volumes, reqs, 2)
            && StoppedHalfway(volumes, vtbl, vtbl, reqs, {}, volumes, vtbl, t) && !InSync(volumes, t)
  {
    var volumes: map<nat, Volume>, vtbl, reqs := map[1 := a, 2 := b], [EMPTY, RecordOf(a, false), RecordOf(b, false)], [Request(1, "b")];
    var t := [EMPTY, RecordOf(a, false).(name := "b"), EMPTY];
    assert Asked(reqs, 1) by { assert reqs[0].id == 1; }
    assert Taken(reqs, "b") by { assert reqs[0].name == "b"; }
    assert reqs[0].id in volumes && volumes[reqs[0].id].name != reqs[0].name;
    forall i: nat | i < 3
      ensures RecordFits(volumes, vtbl, i) && t[i] == RecordAfter(volumes, vtbl, reqs, i)
    {
    }
    NothingRemoved(volumes, vtbl, reqs);
    assert !RecordFits(volumes, t, 2);
  }
}
