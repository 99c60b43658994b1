/** The trees of the wear-leveling sub-system: entries sorted by erase counter, then by number. */
module WlTree {

  const WL_THRESHOLD: nat := 256
  const WL_FREE_MAX_DIFF: nat := 2 * WL_THRESHOLD

  datatype Entry = Entry(ec: nat, pnum: nat)

  datatype Tree = Leaf | Node(left: Tree, e: Entry, right: Tree)

  predicate Less(a: Entry, b: Entry) {
    a.ec < b.ec || (a.ec == b.ec && a.pnum < b.pnum)
  }

  function Elems(t: Tree): set<Entry> {
    match t
    case Leaf => {}
    case Node(l, e, r) => Elems(l) + {e} + Elems(r)
  }

  ghost predicate Ordered(t: Tree) {
    match t
    case Leaf => true
    case Node(l, e, r) =>
      && Ordered(l) && Ordered(r)
      && (forall x | x in Elems(l) :: Less(x, e)) && (forall x | x in Elems(r) :: Less(e, x))
  }

  /** wl_tree_add */
  function Add(t: Tree, e: Entry): (r: Tree)
    requires Ordered(t) && e !in Elems(t)
    ensures Ordered(r) && Elems(r) == Elems(t) + {e}
  {
    match t
    case Leaf => Node(Leaf, e, Leaf)
    case Node(l, x, r) => if Less(e, x) then Node(Add(l, e), x, r) else Node(l, x, Add(r, e))
  }

  function Min(t: Tree): (m: Entry)
    requires t.Node? && Ordered(t)
    ensures m in Elems(t) && forall x | x in Elems(t) :: x == m || Less(m, x)
  {
    if t.left.Leaf? then t.e else Min(t.left)
  }

  lemma MinIsOne(t: Tree, m: Entry)
    requires t.Node? && Ordered(t) && m in Elems(t) && forall x | x in Elems(t) :: x == m || Less(m, x)
    ensures m == Min(t)
  {
  }

  /** rb_erase */
  function Remove(t: Tree, e: Entry): (r: Tree)
    requires Ordered(t)
    ensures Ordered(r) && Elems(r) == Elems(t) - {e}
  {
    match t
    case Leaf => Leaf
    case Node(l, x, r) =>
      if Less(e, x) then Node(Remove(l, e), x, r)
      else if Less(x, e) then Node(l, x, Remove(r, e))
      else if r.Leaf? then l
      else
        var m := Min(r);
        Node(l, m, Remove(r, m))
  }

  /** rb_first */
  method First(t: Tree) returns (e: Entry)
    requires t.Node? && Ordered(t)
    ensures e in Elems(t) && forall x | x in Elems(t) :: x == e || Less(e, x)
  {
    var p := t;
    while p.left.Node?
      invariant p.Node? && Ordered(p) && Elems(p) <= Elems(t)
      invariant forall x, y | x in Elems(t) - Elems(p) && y in Elems(p) :: Less(y, x)
      decreases p
    {
      p := p.left;
    }
    e := p.e;
  }

  /** rb_last */
  method Last(t: Tree) returns (e: Entry)
    requires t.Node? && Ordered(t)
    ensures e in Elems(t) && forall x | x in Elems(t) :: x == e || Less(x, e)
  {
    var p := t;
    while p.right.Node?
      invariant p.Node? && Ordered(p) && Elems(p) <= Elems(t)
      invariant forall x, y | x in Elems(t) - Elems(p) && y in Elems(p) :: Less(x, y)
      decreases p
    {
      p := p.right;
    }
    e := p.e;
  }

  /** in_wl_tree: no other entry of the tree has the same number. */
  method Contains(t: Tree, e: Entry) returns (found: bool)
    requires Ordered(t) && forall x | x in Elems(t) && x.pnum == e.pnum :: x == e
    ensures found <==> e in Elems(t)
  {
    var p := t;
    while p.Node?
      invariant Ordered(p) && Elems(p) <= Elems(t) && (e in Elems(t) ==> e in Elems(p))
      decreases p
    {
      if e.pnum == p.e.pnum {
        return true;
      }
      p := if Less(e, p.e) then p.left else p.right;
    }
    return false;
  }

  /** e is the last entry with an erase counter below limit, or the first of all if there is none. */
  ghost predicate Closest(t: Tree, limit: int, e: Entry) {
    && e in Elems(t)
    && (forall x | x in Elems(t) && x.ec < limit :: x == e || Less(x, e))
    && (e.ec < limit || forall x | x in Elems(t) :: x == e || Less(e, x))
  }

  lemma ClosestIsOne(t: Tree, limit: int, a: Entry, b: Entry)
    requires Closest(t, limit, a) && Closest(t, limit, b)
    ensures a == b
  {
  }

  /** find_wl_entry */
  method FindWlEntry(t: Tree, max: int) returns (e: Entry)
    requires t.Node? && Ordered(t)
    ensures Closest(t, Min(t).ec + max, e)
  {
    e := First(t);
    var limit := max + e.ec;
    var p := t;
    ghost var none := true;
    while p.Node?
      invariant Ordered(p) && Elems(p) <= Elems(t) && e in Elems(t)
      invariant none ==> e == Min(t)
      invariant !none ==> e.ec < limit && forall x | x in Elems(p) :: Less(e, x)
      invariant forall x | x in Elems(t) - Elems(p) :: x == e || Less(x, e) || x.ec >= limit
      decreases p
    {
      if p.e.ec >= limit {
        p := p.left;
      } else {
        e, none := p.e, false;
        p := p.right;
      }
    }
  }

  datatype DataType = LongTerm | ShortTerm | Unknown

  /** Which free entry may be handed out for data of that type. */
  ghost predicate Picks(t: Tree, dtype: DataType, e: Entry)
    requires t.Node? && Ordered(t)
  {
    var lowest := Min(t).ec;
    match dtype
    case LongTerm => Closest(t, lowest + WL_FREE_MAX_DIFF, e)
    case ShortTerm => e == Min(t)
    case Unknown =>
      if forall x | x in Elems(t) :: x.ec - lowest < WL_FREE_MAX_DIFF then e == t.e
      else Closest(t, lowest + (lowest + WL_FREE_MAX_DIFF) / 2, e)
  }

  /** The choice ubi_wl_get_peb makes. */
  method Pick(t: Tree, dtype: DataType) returns (e: Entry)
    requires t.Node? && Ordered(t)
    ensures e in Elems(t) && Picks(t, dtype, e)
  {
    match dtype {
      case LongTerm =>
        e := FindWlEntry(t, WL_FREE_MAX_DIFF);
      case Unknown =>
        var first := First(t);
        var last := Last(t);
        if last.ec - first.ec < WL_FREE_MAX_DIFF {
          e := t.e;
        } else {
          var medium := (first.ec + WL_FREE_MAX_DIFF) / 2;
          e := FindWlEntry(t, medium);
        }
      case ShortTerm =>
        e := First(t);
    }
  }

  /** No entry is handed out that is worn out by WL_FREE_MAX_DIFF more than the least worn one,
      except for data of unknown type: there it is so in every case if, and only if, the lowest
      erase counter is at most WL_FREE_MAX_DIFF + 1. */
  lemma PickIsNotTooWorn(t: Tree, dtype: DataType, e: Entry)
    requires t.Node? && Ordered(t) && Picks(t, dtype, e) && (dtype == Unknown ==> Min(t).ec <= WL_FREE_MAX_DIFF + 1)
    ensures e.ec < Min(t).ec + WL_FREE_MAX_DIFF
  {
  }

  /** Data that stays for long gets the most worn entry within the bound, data that is soon gone the least
      worn one; data of unknown type gets the most worn one half-way up, if the entries differ that much. */
  lemma PickSuits(t: Tree, dtype: DataType, e: Entry, x: Entry)
    requires t.Node? && Ordered(t) && Picks(t, dtype, e) && x in Elems(t)
    ensures dtype == LongTerm && x.ec < Min(t).ec + WL_FREE_MAX_DIFF ==> x.ec <= e.ec
    ensures dtype == ShortTerm ==> e.ec <= x.ec
    ensures dtype == Unknown && x.ec >= Min(t).ec + WL_FREE_MAX_DIFF ==>
      forall y | y in Elems(t) && 2 * (y.ec - Min(t).ec) < Min(t).ec + WL_FREE_MAX_DIFF - 1 :: y.ec <= e.ec
  {
  }

  lemma UnknownBoundIff(lowest: nat)
    ensures (forall t: Tree, e | t.Node? && Ordered(t) && Min(t).ec == lowest && Picks(t, Unknown, e) ::
              e.ec < lowest + WL_FREE_MAX_DIFF)
      <==> lowest <= WL_FREE_MAX_DIFF + 1
  {
    if lowest <= WL_FREE_MAX_DIFF + 1 {
      forall t: Tree, e | t.Node? && Ordered(t) && Min(t).ec == lowest && Picks(t, Unknown, e)
        ensures e.ec < lowest + WL_FREE_MAX_DIFF
      {
        PickIsNotTooWorn(t, Unknown, e);
      }
    } else {
      var low, high := Entry(lowest, 0), Entry(lowest + WL_FREE_MAX_DIFF, 1);
      var t := Node(Leaf, low, Node(Leaf, high, Leaf));
      assert Elems(t) == {low, high};
      assert Picks(t, Unknown, high);
    }
  }
}
