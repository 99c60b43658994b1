/** What LayoutVolume and UpdateMarker take for granted about a LEB under a power cut follows from the
    flash operations of the layer below. */
module LebCuts {
  import opened Flash
  import opened LebLayer
  import opened Wrappers
  import LV = LayoutVolume

  /** What a reader makes of a PEB: sound data, or data whose own checksum does not match. */
  function Read(sound: seq<Byte> -> bool, b: Peb): LV.Copy<seq<Byte>>
    requires b.vid.Good?
  {
    if sound(Payload(b)) then LV.Whole(Payload(b)) else LV.Torn
  }

  /** What attaching finds of the LEB. */
  function Found(sound: seq<Byte> -> bool, f: Image, l: Leb): Option<LV.Copy<seq<Byte>>> {
    if Recovered(f, l) == -1 then None else Some(Read(sound, f[Recovered(f, l)]))
  }

  /** The copies of l that wait for their erasure, in that order. */
  ghost predicate IsQueue(s: State, l: Leb, queue: seq<nat>) {
    forall p: nat :: p in queue <==> IsPeb(s, p) && s.role[p] == Pending && CopyOf(s.flash, p, l)
  }

  function Queued(sound: seq<Byte> -> bool, f: Image, queue: seq<nat>): (r: seq<LV.Stale<seq<Byte>>>)
    requires forall p :: p in queue ==> p < |f| && f[p].vid.Good?
    ensures |r| == |queue|
  {
    seq(|queue|, k requires 0 <= k < |queue| => assert queue[k] in queue; LV.Stale(Sq(f[queue[k]]), Read(sound, f[queue[k]])))
  }

  /** The LEB as LayoutVolume sees it. */
  ghost function Abstract(sound: seq<Byte> -> bool, s: State, l: Leb, queue: seq<nat>): LV.Leb<seq<Byte>>
    requires Inv(s) && IsQueue(s, l, queue)
  {
    var current :=
      if l in s.eba then assert MapFits(s, l); LV.Mapped(Read(sound, s.flash[s.eba[l]]))
      else if l in s.ops && s.ops[l].Target? then assert OpFits(s, l); LV.Writing(Payload(Complete(s.ops[l], s.size)))
      else LV.Unmapped;
    LV.Leb(Queued(sound, s.flash, queue), current, s.sqnum)
  }

  /** A cut in which at most the first one of the queue was just being erased. */
  ghost predicate InOrderCut(s: State, f: Image, queue: seq<nat>) {
    CutImage(s, f) && forall k :: 0 < k < |queue| && queue[k] < |f| ==> f[queue[k]] == s.flash[queue[k]]
  }

  /** The checksum is ideal: what was torn does not match. */
  ghost predicate Ideal(sound: seq<Byte> -> bool, s: State, f: Image, l: Leb) {
    |f| == |s.flash| && forall p :: CopyOf(f, p, l) && sound(Payload(f[p])) ==>
      && (s.flash[p].vid.Good? && IsPeb(s, p) && s.role[p] == Pending ==> Payload(f[p]) == Payload(s.flash[p]))
      && (l in s.ops && s.ops[l].Target? && s.ops[l].to == p && s.ops[l].off + |s.ops[l].buf| <= s.size ==> Payload(f[p]) == Payload(Complete(s.ops[l], s.size)))
  }

  /** A trusted copy that is newer than all the others is the one that is found. */
  lemma NewestIsFound(f: Image, l: Leb, k: nat)
    requires DistinctSq(f) && CopyOf(f, k, l) && Trusted(f[k])
    requires forall q :: CopyOf(f, q, l) && q != k && Trusted(f[q]) ==> Sq(f[q]) < Sq(f[k])
    ensures Recovered(f, l) == k
  {
    RecoveredBeatsTheOthers(f, l);
    forall q | CopyOf(f, q, l) && q != k
      ensures Beats(f[k], f[q]) && !Beats(f[q], f[k])
    {
      BeatsIsTotal(f[k], f[q]);
    }
  }

  /** All copies of an unmapped LEB wait for their erasure. */
  lemma CopiesAreQueued(s: State, f: Image, l: Leb, queue: seq<nat>, p: nat)
    requires Inv(s) && CutImage(s, f) && IsQueue(s, l, queue) && l !in s.eba && CopyOf(f, p, l)
    requires l in s.ops && s.ops[l].Target? ==> p != s.ops[l].to
    ensures p in queue && f[p].vid == s.flash[p].vid
  {
    CutKeepsHeaders(s, f, p);
    assert RoleFits(s, p);
  }

  /** Nothing else is found of a queue of trusted copies than its newest one, or the head torn, or what
      follows the head. */
  lemma QueueIsFound(sound: seq<Byte> -> bool, s: State, f: Image, l: Leb, queue: seq<nat>)
    requires Inv(s) && InOrderCut(s, f, queue) && IsQueue(s, l, queue) && l !in s.eba && Ideal(sound, s, f, l)
    requires forall p :: p in queue ==> Trusted(s.flash[p])
    requires l in s.ops && s.ops[l].Target? ==> !CopyOf(f, s.ops[l].to, l)
    ensures LV.FromQueue(Queued(sound, s.flash, queue), Found(sound, f, l))
  {
    var st := Queued(sound, s.flash, queue);
    CutKeepsDistinct(s, f);
    forall p: nat | CopyOf(f, p, l)
      ensures p in queue && f[p].vid == s.flash[p].vid
    {
      CopiesAreQueued(s, f, l, queue, p);
    }
    if queue != [] {
      var k := LV.Newest(st);
      assert queue[k] in queue;
      if k > 0 {
        UntouchedNewest(sound, s, f, l, queue, k);
      } else {
        HeadIsNewest(sound, s, f, l, queue);
      }
    }
  }

  lemma UntouchedNewest(sound: seq<Byte> -> bool, s: State, f: Image, l: Leb, queue: seq<nat>, k: nat)
    requires Inv(s) && InOrderCut(s, f, queue) && IsQueue(s, l, queue) && DistinctSq(f)
    requires forall p :: p in queue ==> Trusted(s.flash[p])
    requires forall p: nat | CopyOf(f, p, l) :: p in queue && f[p].vid == s.flash[p].vid
    requires 0 < k < |queue| && LV.IsNewest(Queued(sound, s.flash, queue), k)
    ensures Found(sound, f, l) == Some(Queued(sound, s.flash, queue)[k].copy)
  {
    var st := Queued(sound, s.flash, queue);
    assert queue[k] in queue;
    forall q | CopyOf(f, q, l) && q != queue[k]
      ensures Sq(f[q]) < Sq(f[queue[k]])
    {
      var j :| 0 <= j < |queue| && queue[j] == q;
      assert st[j].sqnum <= st[k].sqnum;
      assert Sq(f[q]) != Sq(f[queue[k]]);
    }
    NewestIsFound(f, l, queue[k]);
  }

  /** The first one is the newest: it is found, or it is torn, or the newest one behind it is found. */
  lemma HeadIsNewest(sound: seq<Byte> -> bool, s: State, f: Image, l: Leb, queue: seq<nat>)
    requires Inv(s) && InOrderCut(s, f, queue) && IsQueue(s, l, queue) && DistinctSq(f) && Ideal(sound, s, f, l)
    requires forall p :: p in queue ==> Trusted(s.flash[p])
    requires forall p: nat | CopyOf(f, p, l) :: p in queue && f[p].vid == s.flash[p].vid
    requires queue != [] && LV.IsNewest(Queued(sound, s.flash, queue), 0)
    ensures LV.FromQueue(Queued(sound, s.flash, queue), Found(sound, f, l))
  {
    var st, r := Queued(sound, s.flash, queue), Recovered(f, l);
    assert queue[0] in queue;
    if r == queue[0] {
      assert Found(sound, f, l) == Some(LV.Torn) || Found(sound, f, l) == Some(st[0].copy);
    } else {
      BehindTheHead(sound, s, f, l, queue);
    }
  }

  lemma SecondIsThere(s: State, f: Image, l: Leb, queue: seq<nat>)
    requires InOrderCut(s, f, queue) && IsQueue(s, l, queue) && |queue| > 1
    ensures CopyOf(f, queue[1], l)
  {
    assert queue[1] in queue;
    assert f[queue[1]] == s.flash[queue[1]];
  }

  lemma BehindTheHead(sound: seq<Byte> -> bool, s: State, f: Image, l: Leb, queue: seq<nat>)
    requires Inv(s) && InOrderCut(s, f, queue) && IsQueue(s, l, queue) && DistinctSq(f)
    requires forall p :: p in queue ==> Trusted(s.flash[p])
    requires forall p: nat | CopyOf(f, p, l) :: p in queue && f[p].vid == s.flash[p].vid
    requires queue != [] && Recovered(f, l) != queue[0]
    ensures LV.FromQueue(Queued(sound, s.flash, queue)[1..], Found(sound, f, l))
  {
    var st, r := Queued(sound, s.flash, queue), Recovered(f, l);
    var rest := st[1..];
    if |queue| > 1 {
      SecondIsThere(s, f, l, queue);
    }
    RecoveredBeatsTheOthers(f, l);
    if r != -1 {
      var j :| 0 <= j < |queue| && queue[j] == r;
      forall i | 0 <= i < |rest|
        ensures rest[i].sqnum <= rest[j - 1].sqnum
      {
        assert queue[i + 1] in queue && f[queue[i + 1]] == s.flash[queue[i + 1]];
        if queue[i + 1] != r {
          assert Beats(f[r], f[queue[i + 1]]);
        }
      }
      assert LV.IsNewest(rest, j - 1) && rest[j - 1] == st[j];
    }
  }

  /** The new copy of a LEB that is written for the first time is newer than what waits. */
  lemma NewCopyIsFound(s: State, f: Image, l: Leb, queue: seq<nat>)
    requires Inv(s) && CutImage(s, f) && IsQueue(s, l, queue) && l !in s.eba
    requires l in s.ops && s.ops[l].Target? && s.ops[l].kind == Fresh && CopyOf(f, s.ops[l].to, l)
    ensures Recovered(f, l) == s.ops[l].to
  {
    var to := s.ops[l].to;
    assert OpFits(s, l) && CutPeb(s, to, f[to]);
    CutKeepsDistinct(s, f);
    forall q | CopyOf(f, q, l) && q != to
      ensures Sq(f[q]) < Sq(f[to])
    {
      CopiesAreQueued(s, f, l, queue, q);
      assert CopyOf(s.flash, q, l);
    }
    NewestIsFound(f, l, to);
  }

  /** Whatever a power cut may leave of a LEB that is not mapped, that is written for the first time, that
      is mapped and left alone, or that is being moved, is what LebCut allows. */
  lemma LayerCutIsLebCut(sound: seq<Byte> -> bool, s: State, f: Image, l: Leb, queue: seq<nat>)
    requires Inv(s) && InOrderCut(s, f, queue) && IsQueue(s, l, queue) && Ideal(sound, s, f, l)
    requires forall p :: p in queue ==> Trusted(s.flash[p])
    requires l in s.eba ==> Unrivalled(s, l) && (l in s.ops ==> s.ops[l].Target? && s.ops[l].kind == Move)
    requires l in s.ops && l !in s.eba ==> s.ops[l].Target? && s.ops[l].kind == Fresh
    ensures LV.LebCut(Abstract(sound, s, l, queue), Found(sound, f, l))
  {
    if l in s.eba {
      if l in s.ops {
        MovedLebSurvives(s, l, f);
      } else {
        IdleLebSurvives(s, l, f);
      }
    } else if l in s.ops && CopyOf(f, s.ops[l].to, l) {
      NewCopyIsFound(s, f, l, queue);
      assert OpFits(s, l);
    } else {
      QueueIsFound(sound, s, f, l, queue);
    }
  }
}
