/** Erase counters: each erasure of a PEB is counted once, and nothing else is. */
module LebWear {
  import opened Flash
  import opened LebLayer
  import opened LebRefinement
  import opened LebSteps

  /** The step erases PEB p: after it was given back, or once more before it is used. */
  predicate Erases(step: Step, p: nat) {
    match step
    case BeginFresh(_, to, _, _, _) => to == p
    case BeginSwap(_, to, _) => to == p
    case WriteError(_, _, to) => to == p
    case Erase(q) => q == p
    case _ => false
  }

  function Erasures(steps: seq<Step>, p: nat): nat {
    if steps == [] then 0 else (if Erases(steps[0], p) then 1 else 0) + Erasures(steps[1..], p)
  }

  /** Failures and power cuts, of whatever is under way, leave the counter of p as it was. */
  ghost predicate Spares(s: State, step: Step, p: nat)
    requires Shapes(s) && Enabled(s, step) && p < |s.flash|
  {
    match step
    case WriteError(l, left, _) => s.ops[l].to == p ==> left.ec == s.flash[p].ec
    case Abandon(l, left) => s.ops[l].to == p ==> left.ec == s.flash[p].ec
    case PowerCut(image) => image[p].ec == s.flash[p].ec
    case _ => true
  }

  ghost predicate AllSpare(s: State, steps: seq<Step>, p: nat)
    requires Legal(s, steps)
    decreases |steps|
  {
    steps != [] ==> p < |s.flash| && Spares(s, steps[0], p) && AllSpare(Apply(s, steps[0]), steps[1..], p)
  }

  lemma StepCounts(s: State, step: Step, p: nat)
    requires Shapes(s) && Enabled(s, step) && p < |s.flash| && s.flash[p].ec.Good? && Spares(s, step, p)
    ensures p < |Apply(s, step).flash|
    ensures Apply(s, step).flash[p].ec == Good(s.flash[p].ec.value + if Erases(step, p) then 1 else 0)
  {
    hide CutPeb, KindFits, StageFits, RoleFits, VidFits, Payload, WriteAt, MoveVid, MoveLen;
  }

  lemma FirstOfRun(s: State, steps: seq<Step>, p: nat)
    requires Legal(s, steps) && AllSpare(s, steps, p) && steps != []
    ensures Shapes(s) && Enabled(s, steps[0]) && p < |s.flash| && Spares(s, steps[0], p)
    ensures Legal(Apply(s, steps[0]), steps[1..]) && AllSpare(Apply(s, steps[0]), steps[1..], p)
    ensures Run(s, steps) == Run(Apply(s, steps[0]), steps[1..])
    ensures Erasures(steps, p) == (if Erases(steps[0], p) then 1 else 0) + Erasures(steps[1..], p)
  {
    hide Enabled, Apply, Shapes, Spares, Erases;
  }

  lemma NothingCounted(s: State, p: nat)
    ensures Legal(s, []) && Run(s, []) == s && Erasures([], p) == 0
  {
  }

  /** The counter that is found on a PEB has grown by exactly the number of its erasures. */
  lemma {:induction false} ErasuresAreCounted(s: State, steps: seq<Step>, p: nat)
    requires Legal(s, steps) && p < |s.flash| && s.flash[p].ec.Good? && AllSpare(s, steps, p)
    ensures p < |Run(s, steps).flash| && Run(s, steps).flash[p].ec == Good(s.flash[p].ec.value + Erasures(steps, p))
    decreases |steps|
  {
    hide *;
    if steps == [] {
      NothingCounted(s, p);
    } else {
      FirstOfRun(s, steps, p);
      StepCounts(s, steps[0], p);
      ErasuresAreCounted(Apply(s, steps[0]), steps[1..], p);
    }
  }
}
