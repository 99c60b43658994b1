/** The search for the end of the data in a buffer. */
module Misc {
  import opened Arith
  import opened Flash

  predicate AllFFFrom(d: seq<Byte>, n: nat) {
    forall i | n <= i < |d| :: d[i] == FF
  }

  /** The length up to the last byte that is not 0xFF. */
  function TrimFF(d: seq<Byte>): (n: nat)
    ensures n <= |d| && AllFFFrom(d, n)
    ensures n > 0 ==> d[n - 1] != FF
  {
    if |d| == 0 then 0
    else if d[|d| - 1] != FF then |d|
    else
      var n := TrimFF(d[..|d| - 1]);
      n
  }

  /** ubi_calc_data_len as a function of the buffer. */
  function DataLen(d: seq<Byte>, minIo: nat): (n: nat)
    requires minIo > 0 && |d| % minIo == 0
    ensures n <= |d| && n % minIo == 0 && AllFFFrom(d, n)
  {
    AlignedBelow(TrimFF(d), |d|, minIo);
    AlignUp(TrimFF(d), minIo)
  }

  /** No shorter aligned prefix holds all the data. */
  lemma DataLenIsLeast(d: seq<Byte>, minIo: nat, k: nat)
    requires minIo > 0 && |d| % minIo == 0 && k <= |d| && k % minIo == 0 && AllFFFrom(d, k)
    ensures DataLen(d, minIo) <= k
  {
    AlignedBelow(TrimFF(d), k, minIo);
  }

  /** The loop of ubi_calc_data_len. */
  method CalcDataLen(d: seq<Byte>, minIo: nat) returns (length: nat)
    requires minIo > 0 && |d| % minIo == 0
    ensures length == DataLen(d, minIo)
  {
    var i := |d| - 1;
    while i >= 0 && d[i] == FF
      invariant -1 <= i < |d|
      invariant AllFFFrom(d, i + 1)
    {
      i := i - 1;
    }
    assert TrimFF(d) == i + 1 by {
      var n := TrimFF(d);
      assert n <= i + 1;
    }
    length := AlignUp(i + 1, minIo);
  }

  /** ubi_check_pattern */
  method CheckPattern(d: seq<Byte>, patt: Byte) returns (all: bool)
    ensures all <==> forall i :: 0 <= i < |d| ==> d[i] == patt
  {
    var i := 0;
    while i < |d|
      invariant 0 <= i <= |d|
      invariant forall k :: 0 <= k < i ==> d[k] == patt
    {
      if d[i] != patt {
        return false;
      }
      i := i + 1;
    }
    return true;
  }
}
