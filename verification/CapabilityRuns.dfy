/** Whole runs of the grant tree: any number of processes, any order of subgrants, route
    creations and revoke steps. */
module CapabilityRuns {
  import opened GrantTree
  import opened Capability

  ghost predicate Run(tr: seq<State>, steps: seq<Step>) {
    && |tr| == |steps| + 1 && Rooted(tr[0])
    && forall i :: 0 <= i < |steps| ==> Next(tr[i], steps[i], tr[i + 1])
  }

  lemma {:induction false} RunRooted(tr: seq<State>, steps: seq<Step>, n: nat)
    requires Run(tr, steps) && n < |tr|
    ensures Rooted(tr[n])
  {
    if n > 0 {
      RunRooted(tr, steps, n - 1);
      assert Next(tr[n - 1], steps[n - 1], tr[n - 1 + 1]);
      NextKeeps(tr[n - 1], steps[n - 1], tr[n]);
    }
  }

  /** Revoke steps on `target` among steps i..j. */
  function Calls(steps: seq<Step>, target: nat, i: nat, j: nat): (n: nat)
    requires i <= j <= |steps|
    decreases j
  {
    if i == j then 0
      else Calls(steps, target, i, j - 1) + if steps[j - 1].Delete? && steps[j - 1].target == target then 1 else 0
  }

  /** After the first revoke step its target stays shut, the subtree only loses members, and every further
      revoke step on the target takes one. */
  lemma {:induction false} ShutFrom(tr: seq<State>, steps: seq<Step>, i: nat, j: nat, target: nat)
    requires Run(tr, steps) && i < j < |tr| && steps[i].Delete? && steps[i].target == target
    ensures Rooted(tr[j]) && Shut(tr[j], target) && Below(tr[j], target, Subtree(tr[i].gs, target))
    ensures Calls(steps, target, i, j) + |Subtree(tr[j].gs, target)| <= |Subtree(tr[i].gs, target)|
    decreases j
  {
    var whole, k := Subtree(tr[i].gs, target), j - 1;
    assert Next(tr[k], steps[k], tr[k + 1]);
    RunRooted(tr, steps, k);
    if k == i {
      DeleteShuts(tr[i], target, steps[i].leaf, tr[j]);
      SizeLess(whole, steps[i].leaf);
      assert Calls(steps, target, i, i) == 0;
    } else {
      ShutFrom(tr, steps, i, k, target);
      ShutStays(tr[k], steps[k], tr[j], target);
      if steps[k].Delete? && steps[k].target == target {
        DeleteShuts(tr[k], target, steps[k].leaf, tr[j]);
        SizeLess(Subtree(tr[k].gs, target), steps[k].leaf);
      } else {
        SizeUp(Subtree(tr[j].gs, target), Subtree(tr[k].gs, target));
      }
    }
    BelowStays(tr[k], steps[k], tr[j], target, whole);
  }

  /** From the first revoke step of a grant on, in every run: no grant of its subtree is live, nothing is
      added to the subtree, and what is left of the old one is still below the target. */
  lemma RevokedForever(tr: seq<State>, steps: seq<Step>, i: nat, j: nat, target: nat)
    requires Run(tr, steps) && i < j < |tr| && steps[i].Delete? && steps[i].target == target
    ensures forall g: nat :: g in Subtree(tr[i].gs, target) ==> !Live(tr[j].gs, g)
    ensures Subtree(tr[j].gs, target) <= Subtree(tr[i].gs, target)
    ensures forall g: nat :: g in Subtree(tr[i].gs, target) && g in tr[j].gs ==> g in Subtree(tr[j].gs, target)
  {
    ShutFrom(tr, steps, i, j, target);
    forall g: nat | g in Subtree(tr[i].gs, target) ensures !Live(tr[j].gs, g) {
      if g in tr[j].gs { ShutDead(tr[j], target, g); }
    }
  }

  /** Whatever is interleaved, a grant can take at most as many revoke steps as its subtree had members when
      the first began; and if it takes that many it is gone. */
  lemma RetryBound(tr: seq<State>, steps: seq<Step>, i: nat, j: nat, target: nat)
    requires Run(tr, steps) && i < j < |tr| && steps[i].Delete? && steps[i].target == target
    ensures Calls(steps, target, i, j) <= |Subtree(tr[i].gs, target)|
    ensures Calls(steps, target, i, j) == |Subtree(tr[i].gs, target)| ==> target !in tr[j].gs
    ensures target !in tr[j].gs ==> Subtree(tr[i].gs, target) !! tr[j].gs.Keys
  {
    ShutFrom(tr, steps, i, j, target);
    if target in tr[j].gs {
      assert target in Subtree(tr[j].gs, target);
    } else {
      forall g: nat | g in Subtree(tr[i].gs, target) ensures g !in tr[j].gs { RootThere(tr[j].gs, target, g); }
    }
  }
}
