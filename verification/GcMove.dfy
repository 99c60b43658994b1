/** The garbage collector of UBIFS moves what is live in a LEB to its journal head. One reserved LEB is
    enough for that, and what the index reads stays the same. */
module GcMove {
  import opened Arith
  import opened UbifsMedia
  import opened Wrappers

  datatype Kind = Inode | Data | Dent | Xent | Trun

  /** A node; id names its branch in the index, inum and rank (block number or name hash) are its key. */
  datatype Node = Node(kind: Kind, id: nat, inum: nat, rank: nat, len: nat)

  datatype Loc = Loc(lnum: nat, offs: nat)

  /** A node that scanning a LEB found. */
  datatype Scanned = Scanned(offs: nat, node: Node)

  function Space(x: Scanned): nat {
    AlignUp(x.node.len, 8)
  }

  predicate Aligned(lebSize: nat, pos: nat) {
    pos <= lebSize && (lebSize - pos) % 8 == 0
  }

  /** With 8-byte alignment throughout, a node fits if its unaligned length does. */
  lemma FitsIff(x: Scanned, lebSize: nat, pos: nat)
    requires Aligned(lebSize, pos)
    ensures Space(x) <= lebSize - pos <==> x.node.len <= lebSize - pos
  {
    if x.node.len <= lebSize - pos {
      AlignedBelow(x.node.len, lebSize - pos, 8);
    }
  }

  lemma AlignedAfter(lebSize: nat, pos: nat, x: Scanned)
    requires Aligned(lebSize, pos) && Space(x) <= lebSize - pos
    ensures Aligned(lebSize, pos + Space(x)) && (x.node.len > 0 ==> Space(x) > 0)
  {
  }

  function Total(xs: seq<Scanned>): nat {
    if xs == [] then 0 else Space(xs[0]) + Total(xs[1..])
  }

  lemma TotalOfNone()
    ensures Total([]) == 0
  {
  }

  lemma {:induction false} TotalOfSum(a: seq<Scanned>, b: seq<Scanned>)
    ensures Total(a + b) == Total(a) + Total(b)
  {
    if a == [] {
      assert a + b == b;
    } else {
      assert (a + b)[1..] == a[1..] + b;
      TotalOfSum(a[1..], b);
    }
  }

  lemma Single(x: Scanned)
    ensures Total([x]) == Space(x)
  {
    assert [x][1..] == [];
  }

  lemma {:induction false} TotalWithout(xs: seq<Scanned>, i: nat)
    requires i < |xs|
    ensures Total(xs) == Space(xs[i]) + Total(xs[..i] + xs[i + 1..])
  {
    assert xs == xs[..i] + ([xs[i]] + xs[i + 1..]);
    TotalOfSum(xs[..i], [xs[i]] + xs[i + 1..]);
    TotalOfSum([xs[i]], xs[i + 1..]);
    TotalOfSum(xs[..i], xs[i + 1..]);
    assert Total([xs[i]]) == Space(xs[i]) + Total([]);
  }

  /** What a scan of a LEB yields: nodes one after the other, none overlapping the next. */
  predicate Laid(xs: seq<Scanned>, from: nat, lebSize: nat) {
    if xs == [] then from <= lebSize
    else from <= xs[0].offs && xs[0].offs % 8 == 0 && 0 < xs[0].node.len && Laid(xs[1..], xs[0].offs + Space(xs[0]), lebSize)
  }

  lemma {:induction false} LaidFits(xs: seq<Scanned>, from: nat, lebSize: nat)
    requires Laid(xs, from, lebSize)
    ensures from + Total(xs) <= lebSize
    ensures forall x :: x in xs ==> from <= x.offs && 0 < x.node.len
    ensures forall i, j :: 0 <= i < j < |xs| ==> xs[i].offs < xs[j].offs
  {
    if xs != [] {
      LaidFits(xs[1..], xs[0].offs + Space(xs[0]), lebSize);
      forall x | x in xs ensures from <= x.offs && 0 < x.node.len {
        assert x == xs[0] || x in xs[1..];
      }
      forall i, j | 0 <= i < j < |xs| ensures xs[i].offs < xs[j].offs {
        assert xs[j] == xs[1..][j - 1] && xs[1..][j - 1] in xs[1..];
        if i > 0 {
          assert xs[i] == xs[1..][i - 1];
        }
      }
    }
  }

  lemma NotBefore(xs: seq<Scanned>, i: nat, lebSize: nat)
    requires i < |xs| && Laid(xs, 0, lebSize)
    ensures xs[i] !in xs[..i]
  {
    LaidFits(xs, 0, lebSize);
    forall k | 0 <= k < i ensures xs[..i][k] != xs[i] {
      assert xs[k].offs < xs[i].offs;
    }
  }

  lemma MinBounds(xs: seq<Scanned>, rest: seq<Scanned>, i: nat, min: int)
    requires i < |rest| && multiset(rest) <= multiset(xs) && forall x :: x in xs ==> min <= x.node.len
    ensures min <= rest[i].node.len
  {
    assert rest[i] in multiset(rest) && multiset(rest)[rest[i]] <= multiset(xs)[rest[i]] && rest[i] in multiset(xs);
  }

  lemma TakeOutOfBag(xs: seq<Scanned>, i: nat)
    requires i < |xs|
    ensures multiset(xs) == multiset(RemoveAt(xs, i)) + multiset{xs[i]}
  {
    hide Total, Space;
    var a, b := xs[..i], xs[i + 1..];
    assert xs == a + [xs[i]] + b;
    assert multiset(a + b) == multiset(a) + multiset(b);
  }

  lemma TakeOut(xs: seq<Scanned>, i: nat, others: multiset<Scanned>)
    requires i < |xs|
    ensures xs[i] in multiset(xs) + others && multiset(RemoveAt(xs, i)) <= multiset(xs)
    ensures multiset(xs) + others - multiset{xs[i]} == multiset(RemoveAt(xs, i)) + others
    ensures Total(xs) == Space(xs[i]) + Total(RemoveAt(xs, i))
  {
    TakeOutOfBag(xs, i);
    TotalWithout(xs, i);
    hide *;
    var rest, x := multiset(RemoveAt(xs, i)), multiset{xs[i]};
    assert rest + x + others - x == rest + others;
  }

  // --- the order in which nodes are moved ---

  /** data_nodes_cmp: by inode and block number. */
  predicate DataBefore(a: Scanned, b: Scanned) {
    a.node.inum < b.node.inum || (a.node.inum == b.node.inum && a.node.rank <= b.node.rank)
  }

  /** nondata_nodes_cmp: inodes first, the longest first; then entries by directory and name hash. */
  predicate NondataBefore(a: Scanned, b: Scanned) {
    if a.node.kind == Inode then b.node.kind == Inode ==> b.node.len <= a.node.len
    else b.node.kind != Inode && DataBefore(a, b)
  }

  ghost predicate Linear(before: (Scanned, Scanned) -> bool) {
    && (forall a, b :: before(a, b) || before(b, a))
    && (forall a, b, c :: before(a, b) && before(b, c) ==> before(a, c))
  }

  ghost predicate Ordered(xs: seq<Scanned>, before: (Scanned, Scanned) -> bool) {
    forall i, j :: 0 <= i < j < |xs| ==> before(xs[i], xs[j])
  }

  function Insert(x: Scanned, xs: seq<Scanned>, before: (Scanned, Scanned) -> bool): (r: seq<Scanned>)
    ensures multiset(r) == multiset{x} + multiset(xs) && Total(r) == Space(x) + Total(xs)
  {
    if xs == [] || before(x, xs[0]) then [x] + xs
    else
      assert xs == [xs[0]] + xs[1..];
      [xs[0]] + Insert(x, xs[1..], before)
  }

  /** list_sort */
  function ListSort(xs: seq<Scanned>, before: (Scanned, Scanned) -> bool): (r: seq<Scanned>)
    ensures multiset(r) == multiset(xs) && Total(r) == Total(xs)
  {
    if xs == [] then []
    else
      assert xs == [xs[0]] + xs[1..];
      Insert(xs[0], ListSort(xs[1..], before), before)
  }

  lemma {:induction false} InsertOrdered(x: Scanned, xs: seq<Scanned>, before: (Scanned, Scanned) -> bool)
    requires Linear(before) && Ordered(xs, before)
    ensures Ordered(Insert(x, xs, before), before)
  {
    var r := Insert(x, xs, before);
    if xs == [] {
    } else if before(x, xs[0]) {
      forall j | 0 <= j < |xs| ensures before(x, xs[j]) {
        assert j == 0 || before(xs[0], xs[j]);
      }
    } else {
      var t := Insert(x, xs[1..], before);
      InsertOrdered(x, xs[1..], before);
      forall j | 0 <= j < |t| ensures before(xs[0], t[j]) {
        assert t[j] in multiset(t);
        assert t[j] == x || t[j] in xs[1..];
      }
      forall i, j | 0 <= i < j < |r| ensures before(r[i], r[j]) {
        assert r[j] == t[j - 1] && (i > 0 ==> r[i] == t[i - 1]);
      }
    }
  }

  lemma {:induction false} ListSortOrders(xs: seq<Scanned>, before: (Scanned, Scanned) -> bool)
    requires Linear(before)
    ensures Ordered(ListSort(xs, before), before)
  {
    if xs != [] {
      ListSortOrders(xs[1..], before);
      InsertOrdered(xs[0], ListSort(xs[1..], before), before);
    }
  }

  lemma SortKeeps(xs: seq<Scanned>, before: (Scanned, Scanned) -> bool)
    ensures forall x :: x in ListSort(xs, before) <==> x in xs
  {
    forall x ensures x in ListSort(xs, before) <==> x in xs {
      assert multiset(ListSort(xs, before))[x] == multiset(xs)[x];
    }
  }

  lemma OrdersAreLinear()
    ensures Linear(DataBefore) && Linear(NondataBefore)
  {
  }

  /** sort_nodes keeps a node if the index still finds it there. */
  predicate IsLive(index: map<nat, Loc>, src: nat, x: Scanned) {
    x.node.id in index && index[x.node.id] == Loc(src, x.offs) && x.node.kind != Trun
  }

  /** What the live nodes take. */
  function LiveTotal(index: map<nat, Loc>, src: nat, xs: seq<Scanned>): nat {
    if xs == [] then 0 else (if IsLive(index, src, xs[0]) then Space(xs[0]) else 0) + LiveTotal(index, src, xs[1..])
  }

  lemma {:induction false} LiveTotalFits(index: map<nat, Loc>, src: nat, xs: seq<Scanned>)
    ensures LiveTotal(index, src, xs) <= Total(xs)
  {
    if xs != [] {
      LiveTotalFits(index, src, xs[1..]);
    }
  }

  /** rest is what is left of nondata after the first k have been looked at: i of them were skipped as they
      did not fit, which only happens to inodes with data, since others are no shorter. */
  ghost predicate LookedAt(nondata: seq<Scanned>, rest: seq<Scanned>, room: int, k: nat, i: nat) {
    && i <= |rest| && k <= |nondata| && rest[i..] == nondata[k..]
    && forall j | 0 <= j < i :: rest[j].node.kind != Dent && rest[j].node.len != INO_NODE_SZ && rest[j].node.len > room
  }

  /** Nothing is left that would fit, or an entry or a plain inode does not. */
  predicate Stops(rest: seq<Scanned>, min: int, room: int, i: nat) {
    i < |rest| ==> room < min || (rest[i].node.len > room && (rest[i].node.kind == Dent || rest[i].node.len == INO_NODE_SZ))
  }

  lemma NoneLookedAt(nondata: seq<Scanned>, room: int)
    ensures LookedAt(nondata, nondata, room, 0, 0)
  {
  }

  lemma OneSkipped(nondata: seq<Scanned>, rest: seq<Scanned>, room: int, k: nat, i: nat)
    requires LookedAt(nondata, rest, room, k, i) && i < |rest|
    requires rest[i].node.kind != Dent && rest[i].node.len != INO_NODE_SZ && rest[i].node.len > room
    ensures LookedAt(nondata, rest, room, k + 1, i + 1)
  {
    assert |rest[i..]| == |nondata[k..]| && rest[i..][1..] == nondata[k..][1..];
  }

  lemma OneMoved(nondata: seq<Scanned>, rest: seq<Scanned>, room: int, less: int, k: nat, i: nat)
    requires LookedAt(nondata, rest, room, k, i) && i < |rest| && less <= room
    ensures LookedAt(nondata, RemoveAt(rest, i), less, k + 1, i)
  {
    assert |rest[i..]| == |nondata[k..]| && rest[i..][1..] == nondata[k..][1..];
    assert RemoveAt(rest, i)[i..] == rest[i + 1..];
  }

  lemma Stopping(rest: seq<Scanned>, min: int, room: int, i: nat)
    requires i < |rest| ==> room < min || (rest[i].node.len > room && (rest[i].node.kind == Dent || rest[i].node.len == INO_NODE_SZ))
    ensures Stops(rest, min, room, i)
  {
  }

  class Gc {
    const lebSize: nat
    /** The TNC: where the node of each branch is. */
    var index: map<nat, Loc>
    var media: map<Loc, Node>
    /** The LEB of the GC head, or -1 */
    var headLnum: int
    var pos: nat
    /** The LEB reserved for GC, or -1 */
    var gcLnum: int

    ghost predicate Valid()
      reads this
    {
      && Aligned(lebSize, 0) && Aligned(lebSize, pos) && -1 <= gcLnum && -1 <= headLnum
      && (gcLnum != -1 ==> gcLnum != headLnum)
      && (forall id :: id in index ==> index[id] in media && media[index[id]].id == id && media[index[id]].kind != Trun && InUse(index[id]))
    }

    /** The reserved LEB is not referred to, nor is the free end of the head's. */
    ghost predicate InUse(l: Loc)
      reads this
    {
      l.lnum != gcLnum && (l.lnum == headLnum ==> l.offs < pos)
    }

    /** What the file system reads. */
    ghost function View(): map<nat, Node>
      requires Valid()
      reads this
    {
      map id | id in index :: media[index[id]]
    }

    /** The entry condition of ubifs_garbage_collect_leb. */
    ghost predicate HasRoom()
      reads this
    {
      gcLnum != -1 || (headLnum != -1 && pos == 0)
    }

    predicate Live(src: nat, x: Scanned)
      reads this
    {
      IsLive(index, src, x)
    }

    /** pending are the nodes which the index still finds in src, each once. */
    ghost predicate Pending(src: nat, pending: multiset<Scanned>)
      requires Valid()
      reads this
    {
      && (forall x :: x in pending ==> pending[x] == 1 && Live(src, x) && x.node == media[index[x.node.id]] && x.node.len > 0)
      && (forall id :: id in index && index[id].lnum == src ==> Scanned(index[id].offs, media[index[id]]) in pending)
    }

    /** switch_gc_head; without room in the log it fails, with the reserved LEB still reserved. */
    method SwitchHead(logFull: bool) returns (ok: bool)
      requires Valid() && gcLnum != -1
      modifies this
      ensures Valid() && ok == !logFull && index == old(index) && View() == old(View())
      ensures ok ==> headLnum == old(gcLnum) && pos == 0 && gcLnum == -1
      ensures !ok ==> headLnum == old(headLnum) && pos == old(pos) && gcLnum == old(gcLnum)
      ensures forall l :: l in old(media) && l.lnum != old(gcLnum) ==> l in media && media[l] == old(media[l])
      ensures forall l :: l in media ==> l.lnum != old(gcLnum)
    {
      media := map l | l in media && l.lnum != gcLnum :: media[l];
      ok := !logFull;
      if ok {
        headLnum, pos, gcLnum := gcLnum, 0, -1;
      }
    }

    /** move_node */
    method MoveNode(src: nat, x: Scanned, ghost pending: multiset<Scanned>)
      requires Valid() && headLnum != -1 && src != headLnum && src != gcLnum
      requires Pending(src, pending) && x in pending && Space(x) <= lebSize - pos
      modifies this`media, this`index, this`pos
      ensures Valid() && Pending(src, pending - multiset{x}) && View() == old(View())
      ensures pos == old(pos) + Space(x) <= lebSize && Aligned(lebSize, pos)
      ensures index == old(index)[x.node.id := Loc(headLnum, old(pos))]
    {
      hide Aligned, Space;
      AlignedAfter(lebSize, pos, x);
      var to := Loc(headLnum, pos);
      media := media[to := x.node];
      pos := pos + Space(x);
      if x.node.id in index && index[x.node.id] == Loc(src, x.offs) {
        index := index[x.node.id := to];
      }
    }

    /** xs is what a scan of src finds. */
    ghost predicate IsScanOf(src: nat, xs: seq<Scanned>)
      requires Valid()
      reads this
    {
      && Laid(xs, 0, lebSize)
      && (forall x :: x in xs ==> Loc(src, x.offs) in media && media[Loc(src, x.offs)] == x.node)
      && (forall id :: id in index && index[id].lnum == src ==> Scanned(index[id].offs, media[index[id]]) in xs)
    }

    /** What the loop below keeps. */
    ghost predicate Separated(src: nat, xs: seq<Scanned>, n: nat, data: seq<Scanned>, nondata: seq<Scanned>, min: int)
      requires n <= |xs|
      reads this
    {
      && (forall x :: x in data ==> x.node.kind == Data && min <= x.node.len && Live(src, x))
      && (forall x :: x in nondata ==> x.node.kind != Data && min <= x.node.len && Live(src, x))
      && (forall k :: 0 <= k < n && Live(src, xs[k]) ==> xs[k] in data || xs[k] in nondata)
      && (forall x :: x in data ==> x in xs[..n])
      && (forall x :: x in nondata ==> x in xs[..n])
      && (forall x {:trigger multiset(data)[x]} {:trigger multiset(nondata)[x]} :: multiset(data)[x] + multiset(nondata)[x] <= 1)
    }

    lemma SeparatedKeep(src: nat, xs: seq<Scanned>, n: nat, data: seq<Scanned>, nondata: seq<Scanned>, min: int)
      requires n < |xs| && Separated(src, xs, n, data, nondata, min)
      requires !Live(src, xs[n])
      ensures Separated(src, xs, n + 1, data, nondata, min)
    {
      assert xs[..n + 1] == xs[..n] + [xs[n]];
    }

    lemma SeparatedData(src: nat, xs: seq<Scanned>, n: nat, data: seq<Scanned>, nondata: seq<Scanned>, min: int)
      requires n < |xs| && Separated(src, xs, n, data, nondata, min) && Live(src, xs[n]) && xs[n] !in xs[..n]
      requires min <= xs[n].node.len && xs[n].node.kind == Data
      ensures Separated(src, xs, n + 1, data + [xs[n]], nondata, min)
    {
      var x := xs[n];
      assert xs[..n + 1] == xs[..n] + [x];
      assert x !in data && x !in nondata;
      assert multiset(data)[x] == 0 && multiset(nondata)[x] == 0;
      forall y ensures multiset(data + [x])[y] + multiset(nondata)[y] <= 1 {
        assert multiset(data + [x])[y] == multiset(data)[y] + if y == x then 1 else 0;
      }
    }

    lemma SeparatedNondata(src: nat, xs: seq<Scanned>, n: nat, data: seq<Scanned>, nondata: seq<Scanned>, min: int)
      requires n < |xs| && Separated(src, xs, n, data, nondata, min) && Live(src, xs[n]) && xs[n] !in xs[..n]
      requires min <= xs[n].node.len && xs[n].node.kind != Data
      ensures Separated(src, xs, n + 1, data, nondata + [xs[n]], min)
    {
      var x := xs[n];
      assert xs[..n + 1] == xs[..n] + [x];
      assert x !in data && x !in nondata;
      assert multiset(data)[x] == 0 && multiset(nondata)[x] == 0;
      forall y ensures multiset(data)[y] + multiset(nondata + [x])[y] <= 1 {
        assert multiset(nondata + [x])[y] == multiset(nondata)[y] + if y == x then 1 else 0;
      }
    }

    lemma SeparatedLower(src: nat, xs: seq<Scanned>, n: nat, data: seq<Scanned>, nondata: seq<Scanned>, min: int, min': int)
      requires n <= |xs| && Separated(src, xs, n, data, nondata, min) && min' <= min
      ensures Separated(src, xs, n, data, nondata, min')
    {
    }

    lemma LiveTotalOfRest(src: nat, xs: seq<Scanned>, i: nat)
      requires i < |xs|
      ensures LiveTotal(index, src, xs[i..]) == (if Live(src, xs[i]) then Space(xs[i]) else 0) + LiveTotal(index, src, xs[i + 1..])
    {
      assert xs[i..][1..] == xs[i + 1..];
    }

    lemma AllArePending(src: nat, xs: seq<Scanned>, data: seq<Scanned>, nondata: seq<Scanned>, min: int)
      requires Valid() && IsScanOf(src, xs) && Separated(src, xs, |xs|, data, nondata, min)
      ensures Pending(src, multiset(data) + multiset(nondata))
      ensures (forall x :: x in data ==> x.node.kind == Data) && (forall x :: x in nondata ==> x.node.kind != Data)
      ensures forall x :: x in data || x in nondata ==> min <= x.node.len
    {
      LaidFits(xs, 0, lebSize);
      assert xs[..|xs|] == xs;
      ghost var pending := multiset(data) + multiset(nondata);
      forall x | x in pending
        ensures pending[x] == 1 && Live(src, x) && x.node == media[index[x.node.id]] && x.node.len > 0
      {
        assert x in data || x in nondata;
        assert pending[x] == multiset(data)[x] + multiset(nondata)[x];
        assert x in xs;
      }
      forall id | id in index && index[id].lnum == src ensures Scanned(index[id].offs, media[index[id]]) in pending {
        var x := Scanned(index[id].offs, media[index[id]]);
        assert x in xs;
        assert Live(src, x);
        var k :| 0 <= k < |xs| && xs[k] == x;
        assert x in data || x in nondata;
      }
    }

    lemma SeparatedNone(src: nat, xs: seq<Scanned>, min: int)
      requires Valid() && IsScanOf(src, xs)
      ensures Laid(xs, 0, lebSize) && Separated(src, xs, 0, [], [], min)
      ensures Total([]) == 0 && xs[0..] == xs && LiveTotal(index, src, xs) <= lebSize && LiveTotal(index, src, []) == 0
    {
      LaidFits(xs, 0, lebSize);
      LiveTotalFits(index, src, xs);
      assert xs[0..] == xs;
      assert forall x: Scanned :: multiset([])[x] == 0;
    }

    /** The first loop of sort_nodes: truncation nodes and obsolete ones are dropped. */
    method Separate(src: nat, xs: seq<Scanned>) returns (data: seq<Scanned>, nondata: seq<Scanned>, min: int)
      requires Valid() && IsScanOf(src, xs)
      ensures Pending(src, multiset(data) + multiset(nondata))
      ensures Total(data) + Total(nondata) == LiveTotal(index, src, xs) <= lebSize
      ensures (forall x :: x in data ==> x.node.kind == Data) && (forall x :: x in nondata ==> x.node.kind != Data)
      ensures forall x :: x in data || x in nondata ==> min <= x.node.len
    {
      hide *;
      data, nondata, min := [], [], 0x7fff_ffff;
      SeparatedNone(src, xs, min);
      for i := 0 to |xs|
        invariant Total(data) + Total(nondata) + LiveTotal(index, src, xs[i..]) == LiveTotal(index, src, xs)
        invariant Separated(src, xs, i, data, nondata, min)
      {
        var x := xs[i];
        NotBefore(xs, i, lebSize);
        LiveTotalOfRest(src, xs, i);
        if !Live(src, x) {
          SeparatedKeep(src, xs, i, data, nondata, min);
          continue;
        }
        if x.node.len < min {
          SeparatedLower(src, xs, i, data, nondata, min, x.node.len);
          min := x.node.len;
        }
        Single(x);
        if x.node.kind != Data {
          SeparatedNondata(src, xs, i, data, nondata, min);
          TotalOfSum(nondata, [x]);
          nondata := nondata + [x];
        } else {
          SeparatedData(src, xs, i, data, nondata, min);
          TotalOfSum(data, [x]);
          data := data + [x];
        }
      }
      AllArePending(src, xs, data, nondata, min);
      assert xs[|xs|..] == [];
    }

    /** sort_nodes */
    method SortNodes(src: nat, xs: seq<Scanned>) returns (data: seq<Scanned>, nondata: seq<Scanned>, min: int)
      requires Valid() && IsScanOf(src, xs)
      ensures Pending(src, multiset(data) + multiset(nondata))
      ensures Total(data) + Total(nondata) == LiveTotal(index, src, xs) <= lebSize
      ensures (forall x :: x in data ==> x.node.kind == Data) && (forall x :: x in nondata ==> x.node.kind != Data)
      ensures forall x :: x in data || x in nondata ==> min <= x.node.len
      ensures Ordered(data, DataBefore) && Ordered(nondata, NondataBefore)
    {
      data, nondata, min := Separate(src, xs);
      hide *;
      OrdersAreLinear();
      SortKeeps(data, DataBefore);
      SortKeeps(nondata, NondataBefore);
      ListSortOrders(data, DataBefore);
      ListSortOrders(nondata, NondataBefore);
      data, nondata := ListSort(data, DataBefore), ListSort(nondata, NondataBefore);
    }

    /** The first inner loop of move_nodes: data nodes go in their order, and none is skipped. */
    method MoveData(src: nat, data: seq<Scanned>, ghost others: multiset<Scanned>) returns (rest: seq<Scanned>)
      requires Valid() && headLnum != -1 && src != headLnum && src != gcLnum
      requires Pending(src, multiset(data) + others)
      modifies this`media, this`index, this`pos
      ensures Valid() && Pending(src, multiset(rest) + others) && View() == old(View())
      ensures exists k :: 0 <= k <= |data| && rest == data[k..]
      ensures old(pos) <= pos && pos + Total(rest) == old(pos) + Total(data)
      ensures rest != [] ==> Total(data) > lebSize - old(pos)
    {
      assert Aligned(lebSize, pos);
      hide *;
      rest := data;
      ghost var k := 0;
      while rest != []
        invariant Aligned(lebSize, pos) && old(pos) <= pos <= lebSize
        invariant Valid() && Pending(src, multiset(rest) + others) && View() == old(View())
        invariant k <= |data| && rest == data[k..]
        invariant pos + Total(rest) == old(pos) + Total(data)
      {
        var x := rest[0];
        var avail := lebSize - pos;
        FitsIff(x, lebSize, pos);
        TakeOut(rest, 0, others);
        if x.node.len > avail {
          break;
        }
        MoveNode(src, x, multiset(rest) + others);
        assert RemoveAt(rest, 0) == rest[1..];
        rest := rest[1..];
        k := k + 1;
      }
    }

    lemma HeadIsAligned()
      requires Valid()
      ensures Aligned(lebSize, pos) && pos <= lebSize
    {
    }

    /** The second inner loop: a node that does not fit is skipped if it is an inode with data, and ends
        the loop otherwise. */
    method MoveNondata(src: nat, nondata: seq<Scanned>, min: int, ghost others: multiset<Scanned>)
      returns (rest: seq<Scanned>, ghost k: nat, ghost skipped: nat)
      requires Valid() && headLnum != -1 && src != headLnum && src != gcLnum
      requires Pending(src, multiset(nondata) + others) && (forall x :: x in nondata ==> min <= x.node.len)
      modifies this`media, this`index, this`pos
      ensures Valid() && Pending(src, multiset(rest) + others) && View() == old(View())
      ensures old(pos) <= pos && pos + Total(rest) == old(pos) + Total(nondata) && multiset(rest) <= multiset(nondata)
      ensures LookedAt(nondata, rest, lebSize - pos, k, skipped) && Stops(rest, min, lebSize - pos, skipped)
      ensures rest != [] ==> Total(nondata) > lebSize - old(pos)
    {
      hide *;
      HeadIsAligned();
      rest := nondata;
      var i := 0;
      k := 0;
      NoneLookedAt(nondata, lebSize - pos);
      while i < |rest|
        invariant i <= |rest| && LookedAt(nondata, rest, lebSize - pos, k, i)
        invariant Aligned(lebSize, pos) && old(pos) <= pos <= lebSize
        invariant Valid() && Pending(src, multiset(rest) + others) && View() == old(View())
        invariant pos + Total(rest) == old(pos) + Total(nondata) && multiset(rest) <= multiset(nondata)
        invariant i > 0 ==> Total(nondata) > lebSize - old(pos)
        decreases |rest| - i
      {
        var x := rest[i];
        var avail := lebSize - pos;
        FitsIff(x, lebSize, pos);
        TakeOut(rest, i, others);
        MinBounds(nondata, rest, i, min);
        if avail < min {
          break;
        }
        if x.node.len > avail {
          if x.node.kind == Dent || x.node.len == INO_NODE_SZ {
            break;
          }
          OneSkipped(nondata, rest, avail, k, i);
          i := i + 1;
          k := k + 1;
          continue;
        }
        MoveNode(src, x, multiset(rest) + others);
        OneMoved(nondata, rest, avail, lebSize - pos, k, i);
        rest := RemoveAt(rest, i);
        k := k + 1;
      }
      Stopping(rest, min, lebSize - pos, i);
      skipped := i;
    }

    /** Both inner loops. If there is room for everything, nothing is left. */
    method MoveRound(src: nat, data: seq<Scanned>, nondata: seq<Scanned>, min: int)
      returns (data': seq<Scanned>, nondata': seq<Scanned>)
      requires Valid() && headLnum != -1 && src != headLnum && src != gcLnum
      requires Pending(src, multiset(data) + multiset(nondata)) && (forall x :: x in nondata ==> min <= x.node.len)
      modifies this`media, this`index, this`pos
      ensures Valid() && Pending(src, multiset(data') + multiset(nondata')) && View() == old(View())
      ensures (forall x :: x in nondata' ==> min <= x.node.len)
      ensures old(pos) <= pos && pos + Total(data') + Total(nondata') == old(pos) + Total(data) + Total(nondata)
      ensures Total(data) + Total(nondata) <= lebSize - old(pos) ==> data' == [] && nondata' == []
    {
      hide *;
      data' := MoveData(src, data, multiset(nondata));
      assert multiset(data') + multiset(nondata) == multiset(nondata) + multiset(data');
      ghost var k, skipped;
      nondata', k, skipped := MoveNondata(src, nondata, min, multiset(data'));
      assert multiset(data') + multiset(nondata') == multiset(nondata') + multiset(data');
      forall x | x in nondata' ensures min <= x.node.len {
        assert multiset(nondata')[x] <= multiset(nondata)[x] && x in multiset(nondata') && x in multiset(nondata);
      }
    }

    /** The switch in between. */
    method SwitchDuring(src: nat, ghost pending: multiset<Scanned>, logFull: bool) returns (ok: bool)
      requires Valid() && gcLnum != -1 && src != gcLnum && Pending(src, pending)
      modifies this
      ensures Valid() && ok == !logFull && Pending(src, pending) && View() == old(View())
      ensures ok ==> headLnum == old(gcLnum) && pos == 0 && gcLnum == -1
      ensures !ok ==> headLnum == old(headLnum) && pos == old(pos) && gcLnum == old(gcLnum)
    {
      ok := SwitchHead(logFull);
      assert forall id :: id in index ==> View()[id] == media[index[id]];
      assert forall id :: id in old(index) ==> old(View())[id] == old(media)[old(index)[id]];
    }

    lemma NothingPending(src: nat)
      requires Valid() && Pending(src, multiset{})
      ensures forall id :: id in index ==> index[id].lnum != src
    {
    }

    /** The loop of move_nodes. */
    method MoveSorted(src: nat, data0: seq<Scanned>, nondata0: seq<Scanned>, min: int, logFull: bool) returns (ok: bool)
      requires Valid() && headLnum != -1 && src != headLnum && src != gcLnum
      requires Pending(src, multiset(data0) + multiset(nondata0)) && (forall x :: x in nondata0 ==> min <= x.node.len)
      requires Total(data0) + Total(nondata0) <= lebSize && pos <= lebSize && (gcLnum != -1 || pos == 0)
      modifies this
      ensures Valid() && View() == old(View())
      ensures ok ==> forall id :: id in index ==> index[id].lnum != src
      ensures ok ==> headLnum != -1 && src != headLnum && src != gcLnum
      ensures if gcLnum == old(gcLnum) then headLnum == old(headLnum) else ok && gcLnum == -1 && headLnum == old(gcLnum)
      ensures ok && gcLnum == old(gcLnum) ==> pos == old(pos) + Total(data0) + Total(nondata0)
      ensures ok && gcLnum != old(gcLnum) ==> pos <= Total(data0) + Total(nondata0)
      ensures !ok ==> logFull && gcLnum != -1
    {
      hide *;
      var data, nondata := data0, nondata0;
      ghost var live := Total(data) + Total(nondata);
      ok := true;
      while true
        invariant Valid() && View() == old(View()) && headLnum != -1 && src != headLnum && src != gcLnum && ok
        invariant Pending(src, multiset(data) + multiset(nondata)) && (forall x :: x in nondata ==> min <= x.node.len)
        invariant Total(data) + Total(nondata) <= live
        invariant if gcLnum == old(gcLnum) then pos + Total(data) + Total(nondata) == old(pos) + live
                  else pos + Total(data) + Total(nondata) <= live
        invariant if gcLnum == old(gcLnum) then headLnum == old(headLnum) else gcLnum == -1 && headLnum == old(gcLnum)
        invariant Total(data) + Total(nondata) <= lebSize - pos || gcLnum != -1
        decreases if Total(data) + Total(nondata) <= lebSize - pos then 0 else 1
      {
        data, nondata := MoveRound(src, data, nondata, min);
        if data == [] && nondata == [] {
          break;
        }
        ok := SwitchDuring(src, multiset(data) + multiset(nondata), logFull);
        if !ok {
          return;
        }
      }
      assert multiset(data) + multiset(nondata) == multiset{};
      NothingPending(src);
      TotalOfNone();
    }

    /** Nothing of what the file system reads changes, in the end nothing of it is in src, and each live
        node was written once: the head moved on by what they take. They fit into a LEB, so one reserved
        LEB is always enough: there is no second switch. */
    method MoveNodes(src: nat, xs: seq<Scanned>, logFull: bool) returns (ok: bool)
      requires Valid() && HasRoom() && src != headLnum && src != gcLnum && IsScanOf(src, xs)
      modifies this
      ensures Valid() && View() == old(View())
      ensures ok ==> forall id :: id in index ==> index[id].lnum != src
      ensures ok ==> headLnum != -1 && src != headLnum && src != gcLnum
      ensures if gcLnum == old(gcLnum) then headLnum == old(headLnum) else ok && gcLnum == -1 && headLnum == old(gcLnum)
      ensures ok && gcLnum == old(gcLnum) ==> pos == old(pos) + LiveTotal(old(index), src, xs)
      ensures ok && gcLnum != old(gcLnum) ==> pos <= LiveTotal(old(index), src, xs)
      ensures !ok ==> logFull && gcLnum != -1
    {
      if headLnum == -1 {
        ok := SwitchHead(logFull);
        if !ok {
          return;
        }
        assert IsScanOf(src, xs);
      }
      assert pos <= lebSize;
      hide Valid, Pending, View, Live, Laid, Total, Linear, Ordered, Aligned, IsScanOf;
      var data, nondata, min := SortNodes(src, xs);
      ok := MoveSorted(src, data, nondata, min, logFull);
    }

    /** ubifs_garbage_collect_leb for a LEB with data: afterwards a LEB is reserved whenever it succeeds,
        and if it fails on the log, no less is reserved than before. */
    method CollectLeb(src: nat, freeable: bool, xs: seq<Scanned>, logFull: bool) returns (ok: bool)
      requires Valid() && HasRoom() && src != headLnum && src != gcLnum
      requires if freeable then forall id :: id in index ==> index[id].lnum != src else IsScanOf(src, xs)
      modifies this
      ensures Valid() && View() == old(View()) && (!ok ==> logFull)
      ensures ok ==> gcLnum == if headLnum != old(headLnum) || old(gcLnum) == -1 then src else old(gcLnum)
      ensures ok && headLnum != old(headLnum) ==> !freeable && headLnum == old(gcLnum)
      ensures ok && (freeable || gcLnum != src) ==> forall l :: l in media ==> l.lnum != src
      ensures freeable ==> ok && index == old(index) && headLnum == old(headLnum) && pos == old(pos)
      ensures ok && !freeable && headLnum == old(headLnum) ==> pos == old(pos) + LiveTotal(old(index), src, xs)
      ensures ok ==> forall id :: id in index ==> index[id].lnum != src
      ensures !ok ==> gcLnum == old(gcLnum) && headLnum == old(headLnum)
      ensures HasRoom()
    {
      if freeable {
        media := map l | l in media && l.lnum != src :: media[l];
        if gcLnum == -1 {
          gcLnum := src;
        }
        return true;
      }
      ok := MoveNodes(src, xs, logFull);
      if ok {
        ghost var was := View();
        if gcLnum == -1 {
          gcLnum := src;
        } else {
          media := map l | l in media && l.lnum != src :: media[l];
        }
        assert View() == was;
      }
    }
  }
}
