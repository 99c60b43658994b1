/** Index LEBs that were garbage-collected go on being needed until a commit that began afterwards is
    complete. */
module GcIndex {

  /** struct ubifs_gced_idx_leb; since: how many commits had begun when it was listed. */
  datatype Gced = Gced(lnum: nat, unmap: bool, since: nat)

  datatype Phase = Idle | Running(next: set<nat>) | Ending

  /** A LEB that was unmapped after it had been collected, at the end of a commit. */
  datatype Unmapping = Unmapping(lnum: nat, since: nat, commit: nat)

  datatype Event =
    | DoCollect(l: nat)
    | DoStartCommit(frdi: seq<nat>, gaps: set<nat>)
    | DoSnatch
    | DoMasterWritten
    | DoEndCommit

  datatype Snap = Snap(mapped: set<nat>, live: set<nat>, onFlash: set<nat>, phase: Phase, idxGc: seq<Gced>, begun: nat)

  predicate IsListed(idxGc: seq<Gced>, l: nat) {
    exists i :: 0 <= i < |idxGc| && idxGc[i].lnum == l
  }

  predicate CanStart(s: Snap, frdi: seq<nat>, gaps: set<nat>) {
    && s.phase.Idle? && (forall l :: l in gaps ==> !IsListed(s.idxGc, l) && l !in frdi)
    && (forall i :: 0 <= i < |frdi| ==> frdi[i] !in s.live && !IsListed(s.idxGc, frdi[i]))
    && (forall i, j :: 0 <= i < j < |frdi| ==> frdi[i] != frdi[j])
  }

  /** Everything that was listed, and what is free-able besides, is now to be unmapped. */
  ghost predicate Gathers(was: seq<Gced>, now: seq<Gced>, frdi: seq<nat>, begun: nat) {
    forall g :: g in now <==> g.unmap && (Gced(g.lnum, false, g.since) in was || (g.lnum in frdi && g.since == begun))
  }

  lemma GathersNone(was: seq<Gced>, now: seq<Gced>, begun: nat)
    requires |was| == |now| && forall k :: 0 <= k < |was| ==> !was[k].unmap && now[k] == Gced(was[k].lnum, true, was[k].since)
    ensures Gathers(was, now, [], begun)
  {
    forall g | g in now
      ensures g.unmap && Gced(g.lnum, false, g.since) in was
    {
      var k :| 0 <= k < |now| && now[k] == g;
      assert was[k] == Gced(g.lnum, false, g.since);
    }
    forall g: Gced | g.unmap && Gced(g.lnum, false, g.since) in was
      ensures g in now
    {
      var k :| 0 <= k < |was| && was[k] == Gced(g.lnum, false, g.since);
      assert now[k].since == g.since;
    }
  }

  lemma GathersOne(was: seq<Gced>, now: seq<Gced>, frdi: seq<nat>, l: nat, begun: nat)
    requires Gathers(was, now, frdi, begun)
    ensures Gathers(was, [Gced(l, true, begun)] + now, frdi + [l], begun)
  {
  }

  ghost predicate Started(s: Snap, frdi: seq<nat>, gaps: set<nat>, t: Snap) {
    && t == Snap(s.mapped + gaps, s.live + gaps, s.onFlash, Running(s.live + gaps), t.idxGc, s.begun + 1)
    && Gathers(s.idxGc, t.idxGc, frdi, s.begun)
  }

  /** What the end of a commit does: what was to be unmapped is, and the rest stays listed. */
  ghost predicate Ended(s: Snap, t: Snap) {
    && t == s.(mapped := s.mapped - (set i | 0 <= i < |s.idxGc| && s.idxGc[i].unmap :: s.idxGc[i].lnum), phase := Idle, idxGc := t.idxGc)
    && forall g :: g in t.idxGc <==> g in s.idxGc && !g.unmap
  }

  /** What an event does; it does nothing if its conditions do not hold. */
  ghost predicate Effect(s: Snap, e: Event, t: Snap) {
    match e
    case DoCollect(l) => t == if l in s.live then s.(live := s.live - {l}, idxGc := [Gced(l, false, s.begun)] + s.idxGc) else s
    case DoStartCommit(frdi, gaps) => if CanStart(s, frdi, gaps) then Started(s, frdi, gaps, t) else t == s
    case DoSnatch =>
      if s.phase.Running? && s.idxGc != [] then
        var l := s.idxGc[0].lnum;
        t == s.(mapped := s.mapped + {l}, live := s.live + {l}, phase := Running(s.phase.next + {l}), idxGc := s.idxGc[1..])
      else t == s
    case DoMasterWritten => t == if s.phase.Running? then s.(onFlash := s.phase.next, phase := Ending) else s
    case DoEndCommit => if s.phase.Ending? then Ended(s, t) else t == s
  }

  ghost predicate AllHappened(events: seq<Event>, n: nat, trace: seq<Snap>)
    requires n <= |events|
  {
    |trace| == n + 1 && forall k :: 0 <= k < n ==> Effect(trace[k], events[k], trace[k + 1])
  }

  lemma OneMore(events: seq<Event>, n: nat, trace: seq<Snap>, t: Snap)
    requires n < |events| && AllHappened(events, n, trace) && Effect(trace[n], events[n], t)
    ensures AllHappened(events, n + 1, trace + [t])
  {
    hide Effect;
    var all := trace + [t];
    forall k | 0 <= k < n + 1
      ensures Effect(all[k], events[k], all[k + 1])
    {
      assert all[k] == trace[k] && (k < n ==> all[k + 1] == trace[k + 1]);
    }
  }

  class Index {
    var mapped: set<nat>
    /** LEBs with clean nodes of the index in memory */
    var live: set<nat>
    /** LEBs of the index that the master node points to */
    var onFlash: set<nat>
    var phase: Phase
    var idxGc: seq<Gced>
    /** How many commits have begun, and what has been unmapped so far. */
    var begun: nat
    ghost var log: seq<Unmapping>

    /** Recovery finds its index; what is listed is out of use; and what was unmapped had been collected
        before the commit began at whose end it was unmapped. */
    ghost predicate Valid()
      reads this
    {
      && live <= mapped && onFlash <= mapped && (phase.Running? ==> phase.next <= mapped)
      && (forall i :: 0 <= i < |idxGc| ==> idxGc[i].lnum !in live)
      && (forall i, j :: 0 <= i < j < |idxGc| ==> idxGc[i].lnum != idxGc[j].lnum)
      && (phase.Running? ==> forall i :: 0 <= i < |idxGc| && idxGc[i].unmap ==> idxGc[i].lnum !in phase.next)
      && (phase.Ending? ==> forall i :: 0 <= i < |idxGc| && idxGc[i].unmap ==> idxGc[i].lnum !in onFlash)
      && (phase.Idle? ==> forall i :: 0 <= i < |idxGc| ==> !idxGc[i].unmap)
      && (forall i :: 0 <= i < |idxGc| ==> if idxGc[i].unmap then idxGc[i].since < begun else idxGc[i].since <= begun)
      && (forall u :: u in log ==> u.since < u.commit <= begun)
    }

    predicate Listed(l: nat)
      reads this
    {
      IsListed(idxGc, l)
    }

    ghost function Now(): Snap
      reads this
    {
      Snap(mapped, live, onFlash, phase, idxGc, begun)
    }

    /** ubifs_garbage_collect_leb for an index LEB: its nodes become dirty, so the next commit writes them
        elsewhere. */
    method Collect(l: nat)
      requires Valid() && l in live
      modifies this`live, this`idxGc
      ensures Valid() && live == old(live) - {l} && idxGc == [Gced(l, false, begun)] + old(idxGc)
    {
      live := live - {l};
      idxGc := [Gced(l, false, begun)] + idxGc;
    }

    /** ubifs_gc_start_commit: frdi are the free-able index LEBs; gaps is where the commit will write
        besides what it snatches from the list. */
    method StartCommit(frdi: seq<nat>, gaps: set<nat>)
      requires Valid() && phase.Idle?
      requires forall l :: l in gaps ==> !Listed(l) && l !in frdi
      requires forall i :: 0 <= i < |frdi| ==> frdi[i] !in live && !Listed(frdi[i])
      requires forall i, j :: 0 <= i < j < |frdi| ==> frdi[i] != frdi[j]
      modifies this
      ensures Valid() && phase == Running(old(live) + gaps) && live == old(live) + gaps && onFlash == old(onFlash)
      ensures begun == old(begun) + 1 && log == old(log) && forall i :: 0 <= i < |idxGc| ==> idxGc[i].unmap
      ensures forall l :: Listed(l) <==> old(Listed(l)) || l in frdi
      ensures Started(old(Now()), frdi, gaps, Now())
    {
      MarkAll();
      GathersNone(old(idxGc), idxGc, begun);
      assert forall l :: Listed(l) <==> old(Listed(l)) by {
        assert forall k :: 0 <= k < |idxGc| ==> old(idxGc)[k].lnum == idxGc[k].lnum;
      }
      hide Gathers;
      ListFreeable(old(idxGc), frdi);
      assert forall k :: 0 <= k < |idxGc| ==> Listed(idxGc[k].lnum);
      live := live + gaps;
      mapped := mapped + gaps;
      phase := Running(live);
      begun := begun + 1;
    }

    method MarkAll()
      modifies this`idxGc
      ensures |idxGc| == |old(idxGc)|
      ensures forall k :: 0 <= k < |idxGc| ==> idxGc[k] == Gced(old(idxGc)[k].lnum, true, old(idxGc)[k].since)
    {
      var i := 0;
      while i < |idxGc|
        invariant i <= |idxGc| == |old(idxGc)|
        invariant forall k :: 0 <= k < |idxGc| ==>
          idxGc[k] == Gced(old(idxGc)[k].lnum, if k < i then true else old(idxGc)[k].unmap, old(idxGc)[k].since)
      {
        idxGc := idxGc[i := idxGc[i].(unmap := true)];
        i := i + 1;
      }
    }

    /** What the list keeps while more is put on it. */
    ghost predicate ToUnmap()
      reads this
    {
      && (forall k :: 0 <= k < |idxGc| ==> idxGc[k].unmap && idxGc[k].lnum !in live && idxGc[k].since <= begun)
      && (forall k, j :: 0 <= k < j < |idxGc| ==> idxGc[k].lnum != idxGc[j].lnum)
    }

    method ListFreeable(ghost was: seq<Gced>, frdi: seq<nat>)
      requires ToUnmap() && Gathers(was, idxGc, [], begun)
      requires forall i :: 0 <= i < |frdi| ==> frdi[i] !in live && !Listed(frdi[i])
      requires forall i, j :: 0 <= i < j < |frdi| ==> frdi[i] != frdi[j]
      modifies this`idxGc
      ensures ToUnmap() && Gathers(was, idxGc, frdi, begun)
      ensures forall l :: Listed(l) <==> old(Listed(l)) || l in frdi
    {
      hide Gathers;
      var i := 0;
      while i < |frdi|
        invariant i <= |frdi| && ToUnmap() && Gathers(was, idxGc, frdi[..i], begun)
        invariant forall l :: Listed(l) <==> old(Listed(l)) || l in frdi[..i]
      {
        label L:
        GathersOne(was, idxGc, frdi[..i], frdi[i], begun);
        assert frdi[..i + 1] == frdi[..i] + [frdi[i]];
        assert !Listed(frdi[i]);
        idxGc := [Gced(frdi[i], true, begun)] + idxGc;
        assert forall l :: Listed(l) <==> l == frdi[i] || old@L(Listed(l)) by {
          assert idxGc[0].lnum == frdi[i];
          assert forall k :: 0 <= k < |old@L(idxGc)| ==> idxGc[k + 1] == old@L(idxGc)[k];
        }
        i := i + 1;
      }
      assert frdi[..i] == frdi;
    }

    /** ubifs_get_idx_gc_leb: the commit writes to the gaps of a LEB that is on the list, which then leaves
        it; the nodes that recovery needs stay in it. */
    method Snatch() returns (l: int)
      requires Valid() && phase.Running?
      modifies this
      ensures Valid() && onFlash == old(onFlash) && begun == old(begun) && log == old(log)
      ensures if old(idxGc) == [] then l == -1 && idxGc == [] && live == old(live) && phase == old(phase)
              else l == old(idxGc)[0].lnum && idxGc == old(idxGc)[1..] && live == old(live) + {old(idxGc)[0].lnum}
                   && phase == Running(old(phase).next + {old(idxGc)[0].lnum}) && mapped == old(mapped) + {old(idxGc)[0].lnum}
      ensures old(idxGc) == [] ==> mapped == old(mapped)
    {
      if idxGc == [] {
        return -1;
      }
      l := idxGc[0].lnum;
      idxGc := idxGc[1..];
      mapped := mapped + {l};
      live := live + {l};
      phase := Running(phase.next + {l});
    }

    /** The master node is written: recovery goes by the new index. */
    method MasterWritten()
      requires Valid() && phase.Running?
      modifies this`onFlash, this`phase
      ensures Valid() && phase == Ending && onFlash == old(phase).next
    {
      onFlash := phase.next;
      phase := Ending;
    }

    /** ubifs_gc_end_commit: what was collected before this commit began is unmapped, what was collected
        since stays, and nothing of the index on flash goes. */
    method EndCommit()
      requires Valid() && phase.Ending?
      modifies this`mapped, this`idxGc, this`phase, this`log
      ensures Valid() && phase == Idle && Ended(old(Now()), Now())
      ensures mapped == old(mapped) - (set i | 0 <= i < |old(idxGc)| && old(idxGc)[i].unmap :: old(idxGc)[i].lnum)
      ensures forall g :: g in idxGc <==> g in old(idxGc) && !g.unmap
      ensures forall u :: u in log <==> u in old(log) || (u.commit == begun && Gced(u.lnum, true, u.since) in old(idxGc))
    {
      var i := 0;
      var kept: seq<Gced> := [];
      while i < |idxGc|
        invariant i <= |idxGc| && idxGc == old(idxGc) && phase == old(phase) && Valid()
        invariant mapped == old(mapped) - (set k | 0 <= k < i && idxGc[k].unmap :: idxGc[k].lnum)
        invariant forall g :: g in kept <==> g in idxGc[..i] && !g.unmap
        invariant forall j, k :: 0 <= j < k < |kept| ==> kept[j].lnum != kept[k].lnum
        invariant forall u :: u in log <==> u in old(log) || (u.commit == begun && Gced(u.lnum, true, u.since) in idxGc[..i])
      {
        if idxGc[i].unmap {
          mapped := mapped - {idxGc[i].lnum};
          log := log + [Unmapping(idxGc[i].lnum, idxGc[i].since, begun)];
        } else {
          assert forall k :: 0 <= k < |kept| ==> kept[k] in idxGc[..i] && kept[k].lnum != idxGc[i].lnum;
          kept := kept + [idxGc[i]];
        }
        i := i + 1;
      }
      assert idxGc[..i] == idxGc;
      idxGc := kept;
      phase := Idle;
    }

    /** The events in any order that their conditions allow: every LEB that was ever unmapped had been
        collected before the commit began at whose end it was unmapped, and at no time is a LEB of the
        index on flash unmapped.  trace is what there was before each event and in the end. */
    method Run(events: seq<Event>) returns (ghost trace: seq<Snap>)
      requires Valid() && log == []
      modifies this
      ensures Valid() && onFlash <= mapped && forall u :: u in log ==> u.since < u.commit <= begun
      ensures AllHappened(events, |events|, trace) && trace[0] == old(Now()) && trace[|events|] == Now()
    {
      trace := [Now()];
      for k := 0 to |events|
        invariant Valid() && AllHappened(events, k, trace) && |trace| == k + 1 && trace[0] == old(Now()) && trace[k] == Now()
      {
        ghost var s := Now();
        match events[k] {
          case DoCollect(l) =>
            if l in live {
              Collect(l);
            }
          case DoStartCommit(frdi, gaps) =>
            if phase.Idle? && (forall l | l in gaps :: !Listed(l) && l !in frdi)
               && (forall i | 0 <= i < |frdi| :: frdi[i] !in live && !Listed(frdi[i]))
               && (forall i, j | 0 <= i < j < |frdi| :: frdi[i] != frdi[j]) {
              StartCommit(frdi, gaps);
            }
          case DoSnatch =>
            if phase.Running? {
              var l := Snatch();
            }
          case DoMasterWritten =>
            if phase.Running? {
              MasterWritten();
            }
          case DoEndCommit =>
            if phase.Ending? {
              EndCommit();
            }
        }
        assert Effect(s, events[k], Now());
        OneMore(events, k, trace, Now());
        trace := trace + [Now()];
      }
    }
  }
}
