/** The volume table and the check it has to pass when the device is attached. */
module VolTable {

  const NAME_MAX: nat := 127
  const LAYOUT_EBS: nat := 2

  /** name holds the first name_len characters of the name field; NUL marks what strlen stops at. */
  datatype Record = Record(
    reservedPebs: nat,
    alignment: nat,
    dataPad: nat,
    isStatic: bool,
    updMarker: bool,
    name: string,
    crcOk: bool)

  const EMPTY: Record := Record(0, 0, 0, false, false, "", true)

  const NUL: char := '\0'

  datatype Geometry = Geometry(lebSize: nat, minIo: nat, slots: nat)

  predicate GeometryOk(g: Geometry) {
    g.minIo > 0 && g.lebSize > 0
  }

  /** Not empty, and as long as it says. */
  predicate NameOk(name: string) {
    0 < |name| <= NAME_MAX && NUL !in name
  }

  predicate AlignmentOk(g: Geometry, alignment: nat)
    requires GeometryOk(g)
  {
    0 < alignment <= g.lebSize && (alignment == 1 || alignment % g.minIo == 0)
  }

  predicate RecordOk(g: Geometry, good: int, r: Record)
    requires GeometryOk(g)
  {
    && r.crcOk
    && if r.reservedPebs == 0 then r == EMPTY
       else
         && AlignmentOk(g, r.alignment) && r.dataPad == g.lebSize % r.alignment
         && r.reservedPebs <= good && NameOk(r.name)
  }

  predicate SameName(a: Record, b: Record) {
    |a.name| > 0 && a.name == b.name
  }

  ghost predicate NamesDiffer(vtbl: seq<Record>) {
    forall i, j | 0 <= i < j < |vtbl| :: !SameName(vtbl[i], vtbl[j])
  }

  ghost predicate TableOk(g: Geometry, good: int, vtbl: seq<Record>)
    requires GeometryOk(g)
  {
    |vtbl| == g.slots && (forall i | 0 <= i < |vtbl| :: RecordOk(g, good, vtbl[i])) && NamesDiffer(vtbl)
  }

  datatype CheckResult = Fine | BadCrc | Inconsistent

  /** vtbl_check: a table passes if, and only if, it is sound; a wrong checksum is only reported when
      everything before it is in order. */
  method CheckTable(g: Geometry, good: int, vtbl: seq<Record>) returns (r: CheckResult)
    requires GeometryOk(g) && |vtbl| == g.slots
    ensures r == Fine <==> TableOk(g, good, vtbl)
    ensures r == BadCrc <==>
      exists i | 0 <= i < |vtbl| :: !vtbl[i].crcOk && forall j | 0 <= j < i :: RecordOk(g, good, vtbl[j])
  {
    var i := 0;
    while i < |vtbl|
      invariant 0 <= i <= |vtbl| && forall j | 0 <= j < i :: RecordOk(g, good, vtbl[j])
    {
      var rec := vtbl[i];
      if !rec.crcOk {
        return BadCrc;
      }
      if rec.reservedPebs == 0 {
        if rec != EMPTY {
          return Inconsistent;
        }
      } else if rec.alignment > g.lebSize || rec.alignment == 0 {
        return Inconsistent;
      } else if rec.alignment != 1 && rec.alignment % g.minIo != 0 {
        return Inconsistent;
      } else if rec.dataPad != g.lebSize % rec.alignment {
        return Inconsistent;
      } else if rec.reservedPebs > good {
        return Inconsistent;
      } else if |rec.name| > NAME_MAX || |rec.name| == 0 || NUL in rec.name {
        return Inconsistent;
      }
      i := i + 1;
    }
    i := 0;
    while i < |vtbl| - 1
      invariant 0 <= i <= |vtbl|
      invariant forall a, b | 0 <= a < i && a < b < |vtbl| :: !SameName(vtbl[a], vtbl[b])
    {
      var n := i + 1;
      while n < |vtbl|
        invariant i < n <= |vtbl|
        invariant forall b | i < b < n :: !SameName(vtbl[i], vtbl[b])
      {
        if |vtbl[i].name| > 0 && vtbl[i].name == vtbl[n].name {
          return Inconsistent;
        }
        n := n + 1;
      }
      i := i + 1;
    }
    return Fine;
  }

  // ---- How much the volumes reserve ----------------------------------------------------------

  function Sum(vtbl: seq<Record>): nat {
    if vtbl == [] then 0 else Sum(vtbl[..|vtbl| - 1]) + vtbl[|vtbl| - 1].reservedPebs
  }

  lemma {:induction false} SumChanges(vtbl: seq<Record>, i: nat, r: Record)
    requires i < |vtbl|
    ensures Sum(vtbl[i := r]) == Sum(vtbl) - vtbl[i].reservedPebs + r.reservedPebs
    ensures vtbl[i].reservedPebs <= Sum(vtbl)
  {
    var n := |vtbl| - 1;
    if i < n {
      SumChanges(vtbl[..n], i, r);
      assert vtbl[i := r][..n] == vtbl[..n][i := r];
    } else {
      assert vtbl[i := r][..n] == vtbl[..n];
    }
  }
}
