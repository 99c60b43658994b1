/** Budgeting: space is promised before anything is made dirty, and what is promised can be kept. */
module Budget {
  import opened Arith

  datatype Consts = Consts(
    idxLebSize: nat, lebSize: nat, mainBytes: nat, jheadCnt: nat, darkWm: nat, rpSize: nat,
    maxIdxNodeSz: nat, pageBudget: nat, inodeBudget: nat, dentBudget: nat)

  predicate ConstsOk(c: Consts) {
    0 < c.idxLebSize <= c.lebSize && c.darkWm <= c.lebSize && 0 < c.jheadCnt && 0 < c.pageBudget && 0 < c.inodeBudget
  }

  /** LEB properties statistics */
  datatype Lst = Lst(
    emptyLebs: nat, takenEmptyLebs: nat, idxLebs: nat, freeableCnt: nat, idxGcCnt: nat,
    totalUsed: nat, totalDead: nat, totalDark: nat)

  /** What an operation, a dirty page or a dirty inode holds. */
  datatype Growth = Growth(idx: nat, data: nat, dd: nat)

  datatype Bi = Bi(
    idxGrowth: nat, dataGrowth: nat, ddGrowth: nat, uncommittedIdx: nat, oldIdxSz: nat, minIdxLebs: nat,
    nospace: bool, nospaceRp: bool)

  /** struct ubifs_budget_req; dirtiedIno is at most 4. UBIFS_BLOCKS_PER_PAGE_SHIFT is 0. */
  datatype Req = Req(
    fast: bool, newPage: bool, dirtiedPage: bool, newDent: bool, modDent: bool, newIno: bool, newInoD: nat,
    dirtiedIno: nat, dirtiedInoD: nat)

  datatype Errno = Ok | NoSpace | Again | Other

  const MIN_INDEX_LEBS := 2

  function IdxSize(bi: Bi): nat {
    bi.oldIdxSz + bi.idxGrowth + bi.uncommittedIdx
  }

  /** ubifs_calc_min_idx_lebs: the least number of LEBs, and two at least, that has room for three
      times the index without the index head. */
  function CalcMinIdxLebs(c: Consts, bi: Bi): (r: nat)
    requires c.idxLebSize > 0
    ensures r >= MIN_INDEX_LEBS && (r - 1) * c.idxLebSize >= 3 * (bi.oldIdxSz + bi.uncommittedIdx + bi.idxGrowth)
    ensures r == MIN_INDEX_LEBS || (r - 2) * c.idxLebSize < 3 * (bi.oldIdxSz + bi.uncommittedIdx + bi.idxGrowth)
  {
    var size := IdxSize(bi) + 2 * IdxSize(bi);
    RoundedDown(size + c.idxLebSize - 1, c.idxLebSize);
    var lebs := (size + c.idxLebSize - 1) / c.idxLebSize;
    assert size <= lebs * c.idxLebSize < size + c.idxLebSize;
    assert (lebs - 1) * c.idxLebSize == lebs * c.idxLebSize - c.idxLebSize;
    if lebs + 1 < MIN_INDEX_LEBS then
      MIN_INDEX_LEBS
    else lebs + 1
  }

  /** A smaller index needs no more. */
  lemma MinIdxLebsMonotone(c: Consts, a: Bi, b: Bi)
    requires c.idxLebSize > 0 && IdxSize(a) <= IdxSize(b)
    ensures CalcMinIdxLebs(c, a) <= CalcMinIdxLebs(c, b)
  {
    var ra, rb := CalcMinIdxLebs(c, a), CalcMinIdxLebs(c, b);
    if rb < ra {
      MulAtMost(rb - 1, ra - 2, c.idxLebSize);
    }
  }

  lemma MulAtMost(i: nat, j: nat, m: nat)
    requires i <= j
    ensures i * m <= j * m
  {
    assert j * m == i * m + (j - i) * m;
  }

  function RawAvailable(c: Consts, lst: Lst, minIdxLebs: nat): int
    requires c.jheadCnt > 0
  {
    c.mainBytes - lst.totalUsed - (minIdxLebs + 1 + (c.jheadCnt - 1) + 1) * c.lebSize - lst.totalDead - lst.totalDark
    - if lst.idxLebs > minIdxLebs then (lst.idxLebs - minIdxLebs) * c.darkWm else 0
  }

  /** ubifs_calc_available */
  function CalcAvailable(c: Consts, lst: Lst, minIdxLebs: nat): nat
    requires c.jheadCnt > 0
  {
    var available := RawAvailable(c, lst, minIdxLebs);
    if available > 0 then available else 0
  }

  lemma RawStep(c: Consts, lst: Lst, n: nat)
    requires c.jheadCnt > 0
    ensures RawAvailable(c, lst, n + 1) == RawAvailable(c, lst, n) - c.lebSize + if n < lst.idxLebs then c.darkWm else 0
  {
    var k := n + 1 + (c.jheadCnt - 1) + 1;
    assert (k + 1) * c.lebSize == k * c.lebSize + c.lebSize;
    if n < lst.idxLebs {
      var d := lst.idxLebs - n;
      assert d * c.darkWm == (d - 1) * c.darkWm + c.darkWm;
    }
  }

  /** The more is reserved for the index, the less is available. */
  lemma {:induction false} AvailableFalls(c: Consts, lst: Lst, m: nat, n: nat)
    requires c.jheadCnt > 0 && c.darkWm <= c.lebSize && m <= n
    ensures RawAvailable(c, lst, n) <= RawAvailable(c, lst, m)
    ensures CalcAvailable(c, lst, n) <= CalcAvailable(c, lst, m)
  {
    if m < n {
      AvailableFalls(c, lst, m, n - 1);
      RawStep(c, lst, n - 1);
    }
  }

  /** LEBs that the index may grow into. */
  function SpareLebs(lst: Lst): int {
    lst.emptyLebs + lst.freeableCnt + lst.idxGcCnt - lst.takenEmptyLebs
  }

  function RsvdIdxLebs(lst: Lst, minIdxLebs: nat): nat {
    if minIdxLebs > lst.idxLebs then minIdxLebs - lst.idxLebs else 0
  }

  /** Everything that was promised can be written: three times the index fits beside what is dirty. */
  predicate Feasible(c: Consts, lst: Lst, bi: Bi)
    requires ConstsOk(c)
  {
    && RsvdIdxLebs(lst, bi.minIdxLebs) <= SpareLebs(lst)
    && bi.dataGrowth + bi.ddGrowth <= CalcAvailable(c, lst, bi.minIdxLebs)
  }

  /** In bytes and LEBs: what is promised, what is in use, what is dead or dark, and all that is set
      aside (for the index, for garbage collection, for every journal head but one, and for deletions)
      fit into the main area; and the index finds the LEBs it still has to get. */
  lemma FeasibleIff(c: Consts, lst: Lst, bi: Bi)
    requires ConstsOk(c)
    ensures Feasible(c, lst, bi) <==>
      && lst.takenEmptyLebs <= lst.emptyLebs + lst.freeableCnt + lst.idxGcCnt
      && bi.minIdxLebs + lst.takenEmptyLebs <= lst.idxLebs + lst.emptyLebs + lst.freeableCnt + lst.idxGcCnt
      && (bi.dataGrowth + bi.ddGrowth == 0 ||
          bi.dataGrowth + bi.ddGrowth + lst.totalUsed + lst.totalDead + lst.totalDark
            + c.lebSize * (bi.minIdxLebs + c.jheadCnt + 1)
            + c.darkWm * (if bi.minIdxLebs <= lst.idxLebs then lst.idxLebs - bi.minIdxLebs else 0) <= c.mainBytes)
  {
    assert (bi.minIdxLebs + 1 + (c.jheadCnt - 1) + 1) * c.lebSize == c.lebSize * (bi.minIdxLebs + c.jheadCnt + 1);
    if bi.minIdxLebs < lst.idxLebs {
      assert (lst.idxLebs - bi.minIdxLebs) * c.darkWm == c.darkWm * (lst.idxLebs - bi.minIdxLebs);
    } else if bi.minIdxLebs == lst.idxLebs {
      assert c.darkWm * 0 == 0;
    }
  }

  predicate BiOk(c: Consts, bi: Bi)
    requires ConstsOk(c)
  {
    bi.minIdxLebs == CalcMinIdxLebs(c, bi)
  }

  // --- what requests ask for ---

  /** c->bi.inode_budget << (dirtied_ino - 1) */
  function InodesBudget(budget: nat, n: nat): nat {
    if n == 0 then 0 else if n == 1 then budget else 2 * InodesBudget(budget, n - 1)
  }

  /** calc_idx_growth, calc_data_growth and calc_dd_growth */
  function CalcGrowth(c: Consts, req: Req): Growth {
    Growth(
      (if req.newIno then c.maxIdxNodeSz else 0) + (if req.newPage then c.maxIdxNodeSz else 0) + (if req.newDent then c.maxIdxNodeSz else 0),
      (if req.newIno then c.inodeBudget else 0) + (if req.newPage then c.pageBudget else 0)
      + (if req.newDent then c.dentBudget else 0) + req.newInoD,
      (if req.dirtiedPage then c.pageBudget else 0) + InodesBudget(c.inodeBudget, req.dirtiedIno)
      + (if req.modDent then c.dentBudget else 0) + req.dirtiedInoD)
  }

  function Sum(a: Growth, b: Growth): Growth {
    Growth(a.idx + b.idx, a.data + b.data, a.dd + b.dd)
  }

  const NOTHING := Req(false, false, false, false, false, false, 0, 0, 0)

  /** What each thing asks for on its own: whatever is new costs a node of the index as well. */
  lemma GrowthOfOne(c: Consts, n: nat)
    ensures CalcGrowth(c, NOTHING) == Growth(0, 0, 0)
    ensures CalcGrowth(c, NOTHING.(newPage := true)) == NewPage(c) == Growth(c.maxIdxNodeSz, c.pageBudget, 0)
    ensures CalcGrowth(c, NOTHING.(newIno := true)) == Growth(c.maxIdxNodeSz, c.inodeBudget, 0)
    ensures CalcGrowth(c, NOTHING.(newDent := true)) == Growth(c.maxIdxNodeSz, c.dentBudget, 0)
    ensures CalcGrowth(c, NOTHING.(dirtiedPage := true)) == ExistingPage(c) == Growth(0, 0, c.pageBudget)
    ensures CalcGrowth(c, NOTHING.(modDent := true)) == Growth(0, 0, c.dentBudget)
    ensures CalcGrowth(c, NOTHING.(dirtiedIno := 1)) == DirtyInode(c) == Growth(0, 0, c.inodeBudget)
    ensures CalcGrowth(c, NOTHING.(newInoD := n)) == Growth(0, n, 0) && CalcGrowth(c, NOTHING.(dirtiedInoD := n)) == Growth(0, 0, n)
  {
  }

  /** A request that is made of two others asks for what both ask for. */
  lemma GrowthAdds(c: Consts, a: Req, b: Req, both: Req)
    requires !(a.newPage && b.newPage) && !(a.newDent && b.newDent) && !(a.newIno && b.newIno)
    requires !(a.dirtiedPage && b.dirtiedPage) && !(a.modDent && b.modDent) && (a.dirtiedIno == 0 || b.dirtiedIno == 0)
    requires both.newPage == (a.newPage || b.newPage) && both.newDent == (a.newDent || b.newDent)
    requires both.newIno == (a.newIno || b.newIno) && both.dirtiedPage == (a.dirtiedPage || b.dirtiedPage)
    requires both.modDent == (a.modDent || b.modDent) && both.dirtiedIno == a.dirtiedIno + b.dirtiedIno
    requires both.newInoD == a.newInoD + b.newInoD && both.dirtiedInoD == a.dirtiedInoD + b.dirtiedInoD
    ensures CalcGrowth(c, both) == Sum(CalcGrowth(c, a), CalcGrowth(c, b))
  {
  }

  /** A shift instead of a product: never too little. */
  lemma {:induction false} InodesCovered(budget: nat, n: nat)
    ensures n * budget <= InodesBudget(budget, n) && (n <= 2 ==> InodesBudget(budget, n) == n * budget)
  {
    if n > 1 {
      InodesCovered(budget, n - 1);
      assert n * budget == (n - 1) * budget + budget;
      assert budget <= (n - 1) * budget;
    }
  }

  function Plus(bi: Bi, g: Growth): Bi {
    bi.(idxGrowth := bi.idxGrowth + g.idx, dataGrowth := bi.dataGrowth + g.data, ddGrowth := bi.ddGrowth + g.dd)
  }

  predicate Holds(bi: Bi, g: Growth) {
    g.idx <= bi.idxGrowth && g.data <= bi.dataGrowth && g.dd <= bi.ddGrowth
  }

  function Minus(bi: Bi, g: Growth): Bi
    requires Holds(bi, g)
  {
    bi.(idxGrowth := bi.idxGrowth - g.idx, dataGrowth := bi.dataGrowth - g.data, ddGrowth := bi.ddGrowth - g.dd)
  }

  /** Releasing: what the index grew by stays promised until the commit. */
  function Released(c: Consts, bi: Bi, g: Growth): Bi
    requires ConstsOk(c) && Holds(bi, g)
  {
    var r := Minus(bi, g).(uncommittedIdx := bi.uncommittedIdx + g.idx, nospace := false, nospaceRp := false);
    r.(minIdxLebs := CalcMinIdxLebs(c, r))
  }

  function NewPage(c: Consts): Growth {
    Growth(c.maxIdxNodeSz, c.pageBudget, 0)
  }

  function ExistingPage(c: Consts): Growth {
    Growth(0, 0, c.pageBudget)
  }

  function DirtyInode(c: Consts): Growth {
    Growth(0, 0, c.inodeBudget)
  }

  function Converted(c: Consts, bi: Bi): Bi
    requires ConstsOk(c) && Holds(bi, NewPage(c))
  {
    var r := Plus(Minus(bi, NewPage(c)), ExistingPage(c));
    r.(minIdxLebs := CalcMinIdxLebs(c, r))
  }

  /** While the LEB statistics stay, giving back never makes a promise infeasible. */
  lemma ReleaseKeepsFeasible(c: Consts, lst: Lst, bi: Bi, g: Growth)
    requires ConstsOk(c) && BiOk(c, bi) && Feasible(c, lst, bi) && Holds(bi, g)
    ensures BiOk(c, Released(c, bi, g)) && Feasible(c, lst, Released(c, bi, g))
    ensures Released(c, bi, g).minIdxLebs == bi.minIdxLebs
  {
    hide CalcMinIdxLebs, CalcAvailable, SpareLebs, RsvdIdxLebs;
    var was := Minus(bi, g).(uncommittedIdx := bi.uncommittedIdx + g.idx, nospace := false, nospaceRp := false);
    var r := Released(c, bi, g);
    assert IdxSize(was) == IdxSize(r) == IdxSize(bi);
    SameMinIdxLebs(c, was, r);
    SameMinIdxLebs(c, was, bi);
  }

  /** Only the size of the index counts. */
  lemma SameMinIdxLebs(c: Consts, a: Bi, b: Bi)
    requires c.idxLebSize > 0 && IdxSize(a) == IdxSize(b)
    ensures CalcMinIdxLebs(c, a) == CalcMinIdxLebs(c, b)
  {
    MinIdxLebsMonotone(c, a, b);
    MinIdxLebsMonotone(c, b, a);
  }

  lemma ConvertKeepsFeasible(c: Consts, lst: Lst, bi: Bi)
    requires ConstsOk(c) && BiOk(c, bi) && Feasible(c, lst, bi) && Holds(bi, NewPage(c))
    ensures BiOk(c, Converted(c, bi)) && Feasible(c, lst, Converted(c, bi))
  {
    hide CalcMinIdxLebs, CalcAvailable, SpareLebs;
    var was := Plus(Minus(bi, NewPage(c)), ExistingPage(c));
    var r := Converted(c, bi);
    assert IdxSize(was) == IdxSize(r);
    SameMinIdxLebs(c, was, r);
    MinIdxLebsMonotone(c, r, bi);
    AvailableFalls(c, lst, r.minIdxLebs, bi.minIdxLebs);
  }

  /** What make_free_space comes to, which may have let everyone else run. */
  datatype Outcome = Outcome(err: Errno, bi: Bi, lst: Lst)

  /** What another attempt finds: the counters and statistics at first, and then those that making free
      space has left. */
  function BiAt(bi: Bi, env: seq<Outcome>, j: nat): Bi
    requires j <= |env|
  {
    if j == 0 then bi else env[j - 1].bi
  }

  function LstAt(lst: Lst, env: seq<Outcome>, j: nat): Lst
    requires j <= |env|
  {
    if j == 0 then lst else env[j - 1].lst
  }

  /** It was noted that there is no space. */
  predicate Noted(bi: Bi, canUseRp: bool) {
    bi.nospace && (bi.nospaceRp || !canUseRp)
  }

  /** There is room for the request, and the reserved pool is left alone by those who may not use it. */
  predicate Grants(c: Consts, lst: Lst, bi: Bi, want: Growth, canUseRp: bool)
    requires ConstsOk(c)
  {
    var more := Plus(bi, want).(minIdxLebs := CalcMinIdxLebs(c, Plus(bi, want)));
    && Feasible(c, lst, more)
    && (canUseRp || CalcAvailable(c, lst, more.minIdxLebs) - more.dataGrowth - more.ddGrowth > c.rpSize)
  }

  /** Attempt j fails, and making free space is a reason to try again: it was told so, or it is the first
      time that no space was found. */
  ghost predicate TriesAgain(c: Consts, lst: Lst, bi: Bi, want: Growth, canUseRp: bool, env: seq<Outcome>, j: nat)
    requires ConstsOk(c) && j < |env|
  {
    && !Noted(BiAt(bi, env, j), canUseRp) && !Grants(c, LstAt(lst, env, j), BiAt(bi, env, j), want, canUseRp)
    && (env[j].err == Again || (env[j].err == NoSpace && forall i | 0 <= i < j :: env[i].err != NoSpace))
  }

  /** How a request that is not granted at attempt k ends. */
  ghost predicate Refuses(c: Consts, bi: Bi, canUseRp: bool, env: seq<Outcome>, k: nat, err: Errno, bi': Bi)
    requires k < |env|
  {
    if env[k].err == NoSpace then
      && (exists i | 0 <= i < k :: env[i].err == NoSpace) && err == NoSpace
      && bi' == env[k].bi.(nospace := true, nospaceRp := env[k].bi.nospaceRp || canUseRp || c.rpSize == 0)
    else env[k].err == Other && err == Other && bi' == env[k].bi
  }

  class Budgeting {
    const c: Consts
    var bi: Bi
    var lst: Lst

    ghost predicate Valid()
      reads this
    {
      ConstsOk(c) && BiOk(c, bi)
    }

    /** do_budget_space, with the request already added. */
    method DoBudgetSpace(canUseRp: bool) returns (err: Errno)
      requires ConstsOk(c)
      modifies this`bi
      ensures var wanted := old(bi).(minIdxLebs := CalcMinIdxLebs(c, old(bi)));
              var spare := CalcAvailable(c, lst, wanted.minIdxLebs) - bi.dataGrowth - bi.ddGrowth;
              if Feasible(c, lst, wanted) && (spare > c.rpSize || canUseRp) then err == Ok && bi == wanted
              else err == NoSpace && bi == old(bi)
    {
      var minIdxLebs := CalcMinIdxLebs(c, bi);
      var rsvd := if minIdxLebs > lst.idxLebs then minIdxLebs - lst.idxLebs else 0;
      if rsvd > SpareLebs(lst) {
        return NoSpace;
      }
      var available := CalcAvailable(c, lst, minIdxLebs);
      var outstanding := bi.dataGrowth + bi.ddGrowth;
      if available < outstanding {
        return NoSpace;
      }
      if available - outstanding <= c.rpSize && !canUseRp {
        return NoSpace;
      }
      bi := bi.(minIdxLebs := minIdxLebs);
      return Ok;
    }

    /** One turn of the loop of ubifs_budget_space: the request is
        added, and taken back unless it is granted. */
    method AddRequest(want: Growth, canUseRp: bool) returns (err: Errno)
      requires Valid()
      modifies this`bi
      ensures Valid() && err == if Grants(c, lst, old(bi), want, canUseRp) then Ok else NoSpace
      ensures err == Ok ==> bi == Plus(old(bi), want).(minIdxLebs := bi.minIdxLebs) && Feasible(c, lst, bi)
      ensures err != Ok ==> bi == old(bi)
    {
      hide CalcMinIdxLebs, CalcAvailable;
      ghost var was := bi;
      bi := Plus(bi, want);
      ghost var asked := bi;
      err := DoBudgetSpace(canUseRp);
      if err == Ok {
        SameMinIdxLebs(c, bi, asked);
      } else {
        bi := Minus(bi, want);
        assert bi == was;
      }
    }

    /** There is no space, and until something is given back it is not looked for again. */
    method NoteNoSpace(canUseRp: bool)
      requires Valid()
      modifies this`bi
      ensures Valid() && bi == old(bi).(nospace := bi.nospace, nospaceRp := bi.nospaceRp)
      ensures bi.nospace && bi.nospaceRp == (old(bi).nospaceRp || canUseRp || c.rpSize == 0)
    {
      hide CalcMinIdxLebs;
      ghost var was := bi;
      bi := bi.(nospace := true, nospaceRp := bi.nospaceRp || canUseRp || c.rpSize == 0);
      SameMinIdxLebs(c, bi, was);
    }

    /** ubifs_budget_space; env says what each call of make_free_space comes to. The request is granted at
        the first attempt, k, for which there is room; then everything promised is feasible, and the request
        holds what it asked for. When it is not granted, it holds nothing. */
    method BudgetSpace(req: Req, canUseRp: bool, env: seq<Outcome>) returns (err: Errno, g: Growth, ghost k: nat)
      requires Valid() && env != [] && env[|env| - 1].err == Other && forall e :: e in env ==> BiOk(c, e.bi) && e.err != Ok
      modifies this
      ensures Valid() && k < |env| && (req.fast ==> k == 0)
      ensures var want := CalcGrowth(c, req);
        want.data + want.dd == 0 ==> err == Ok && g == Growth(0, 0, 0) && bi == old(bi) && lst == old(lst)
      ensures var want, b, l := CalcGrowth(c, req), BiAt(old(bi), env, k), LstAt(old(lst), env, k);
        want.data + want.dd > 0 ==>
          && (forall j | 0 <= j < k :: TriesAgain(c, old(lst), old(bi), want, canUseRp, env, j))
          && if Noted(b, canUseRp) then err == NoSpace && bi == b && lst == l
             else if Grants(c, l, b, want, canUseRp) then
               err == Ok && bi == Plus(b, want).(minIdxLebs := bi.minIdxLebs) && lst == l && Feasible(c, lst, bi)
             else if req.fast then err == NoSpace && bi == b && lst == l
             else Refuses(c, old(bi), canUseRp, env, k, err, bi) && lst == env[k].lst
      ensures g == if err == Ok && CalcGrowth(c, req).data + CalcGrowth(c, req).dd > 0 then CalcGrowth(c, req) else Growth(0, 0, 0)
    {
      hide CalcMinIdxLebs, CalcAvailable, Grants, Feasible;
      g := Growth(0, 0, 0);
      k := 0;
      var want := CalcGrowth(c, req);
      if want.data == 0 && want.dd == 0 {
        return Ok, g, k;
      }
      hide CalcGrowth;
      var retried, i := false, 0;
      while true
        invariant i < |env| && bi == BiAt(old(bi), env, i) && lst == LstAt(old(lst), env, i) && Valid()
        invariant forall j | 0 <= j < i :: TriesAgain(c, old(lst), old(bi), want, canUseRp, env, j)
        invariant (retried <==> exists j | 0 <= j < i :: env[j].err == NoSpace) && (req.fast ==> i == 0)
        decreases |env| - i
      {
        k := i;
        if bi.nospace && (bi.nospaceRp || !canUseRp) {
          return NoSpace, g, k;
        }
        err := AddRequest(want, canUseRp);
        if err == Ok {
          g := want;
          return;
        }
        if req.fast {
          return;
        }
        assert env[i] in env;
        bi, lst := env[i].bi, env[i].lst;
        if env[i].err == Again {
          i := i + 1;
          continue;
        } else if env[i].err == NoSpace {
          if !retried {
            retried := true;
            i := i + 1;
            continue;
          }
          NoteNoSpace(canUseRp);
          return NoSpace, g, k;
        } else {
          return Other, g, k;
        }
      }
    }

    /** ubifs_release_budget; recalculated requests pass CalcGrowth. */
    method ReleaseBudget(g: Growth)
      requires Valid() && Holds(bi, g)
      modifies this`bi
      ensures Valid() && bi == (if g.data == 0 && g.dd == 0 then old(bi) else Released(c, old(bi), g))
      ensures old(Feasible(c, lst, bi)) ==> Feasible(c, lst, bi)
    {
      hide CalcMinIdxLebs, Feasible;
      ghost var was := bi;
      if g.data == 0 && g.dd == 0 {
        return;
      }
      bi := bi.(nospace := false, nospaceRp := false);
      bi := bi.(idxGrowth := bi.idxGrowth - g.idx, uncommittedIdx := bi.uncommittedIdx + g.idx);
      bi := bi.(dataGrowth := bi.dataGrowth - g.data);
      bi := bi.(ddGrowth := bi.ddGrowth - g.dd);
      assert bi == Minus(was, g).(uncommittedIdx := was.uncommittedIdx + g.idx, nospace := false, nospaceRp := false);
      ghost var less := bi;
      bi := bi.(minIdxLebs := CalcMinIdxLebs(c, bi));
      assert bi == Released(c, was, g);
      SameMinIdxLebs(c, less, bi);
      if Feasible(c, lst, was) {
        ReleaseKeepsFeasible(c, lst, was, g);
      }
    }

    /** ubifs_convert_page_budget */
    method ConvertPageBudget()
      requires Valid() && Holds(bi, NewPage(c))
      modifies this`bi
      ensures Valid() && bi == Converted(c, old(bi))
      ensures old(Feasible(c, lst, bi)) ==> Feasible(c, lst, bi)
    {
      hide CalcMinIdxLebs, CalcAvailable;
      ghost var was := bi;
      bi := bi.(idxGrowth := bi.idxGrowth - c.maxIdxNodeSz);
      bi := bi.(dataGrowth := bi.dataGrowth - c.pageBudget);
      bi := bi.(ddGrowth := bi.ddGrowth + c.pageBudget);
      bi := bi.(minIdxLebs := CalcMinIdxLebs(c, bi));
      var r := Plus(Minus(was, NewPage(c)), ExistingPage(c));
      SameMinIdxLebs(c, r, bi);
      if Feasible(c, lst, was) {
        ConvertKeepsFeasible(c, lst, was);
      }
    }
  }
}
