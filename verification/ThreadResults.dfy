/** What a wait reports: which step claimed the waiter, the expiry of its deadline or a wake, decides its result. */
module ThreadResults {
  import opened ThreadProtocol
  import opened ThreadClaims
  import opened ThreadPlaces
  import opened ThreadRuns
  import opened Seqs

  // -------------------------------------------------------------------------
  // From the claim to the release
  // -------------------------------------------------------------------------

  /** The step is the expiry's claim of thread `t`, or a wake's. */
  ghost predicate Claims(s: State, step: Step, t: nat) {
    && t < |s.th| && s.th[t].ws.Parked?
    && ((step.TimerOne? && step.e.tid == t) || (step.WakeOne? && step.k in s.nodes && s.nodes[step.k] == t))
  }

  /** What the winner will report: a timeout if the deadline's expiry won. */
  function Verdict(expired: bool): (r: Result) {
    if expired then TimedOut else Woken
  }

  /** The program counter of a winner, and whether the expiry won. */
  predicate Won(pc: Pc, expired: bool) {
    (pc.Waking? && !expired) || (pc.Timing? && expired) || (pc.Finishing? && pc.late == expired)
  }

  /** The winner has stored the result of the head of its list. */
  predicate Decided(pc: Pc, t: nat) {
    pc.Finishing? && pc.held != [] && pc.held[0] == t && (pc.stage.Spin? || pc.stage.SetRunnable? || pc.stage.Release?)
  }

  predicate Winner(pc: Pc, r: Result, t: nat, expired: bool) {
    Won(pc, expired) && t in Held(pc) && (Decided(pc, t) ==> r == Verdict(expired))
  }

  /** Thread `t` is claimed, and the CPU that holds it knows how. */
  ghost predicate Told(s: State, t: nat, expired: bool) {
    && Wf(s) && t < |s.th| && s.th[t].ws.Claimed? && s.th[t].owner.Some? && s.th[t].owner.value < |s.pc|
    && Winner(s.pc[s.th[t].owner.value], s.th[t].result, t, expired)
  }

  /** Claimed and told; or released with the verdict, or gone; or left to a reaper. */
  ghost predicate Phase(s: State, t: nat, expired: bool) {
    && t < |s.th|
    && (|| Told(s, t, expired)
        || (s.th[t].ws.Idle? && (s.th[t].freed || s.th[t].result == Verdict(expired)))
        || s.th[t].ws.Reapable?)
  }

  predicate SameWait(x: Thread, y: Thread) {
    x.ws == y.ws && x.owner == y.owner && x.result == y.result && (x.freed ==> y.freed)
  }

  lemma ClaimTold(s: State, step: Step, t: nat)
    requires Inv(s) && Enabled(s, step) && Claims(s, step, t)
    ensures Told(Apply(s, step), t, step.TimerOne?)
  {
    var c, s' := step.c, Apply(s, step);
    assert s'.pc[c].held == s.pc[c].held + [t];
    assert t in s'.pc[c].held;
  }

  // -------------------------------------------------------------------------
  // Steps
  // -------------------------------------------------------------------------

  lemma StartsWait(s: State, step: Step, t: nat)
    requires Wf(s) && Enabled(s, step) && Starting(step) && t < |s.th|
    ensures t < |Apply(s, step).th| && SameWait(s.th[t], Apply(s, step).th[t])
  {
  }

  lemma StopsWait(s: State, step: Step, t: nat)
    requires Wf(s) && Enabled(s, step) && Scheduling(step) && !Starting(step) && t < |s.th| && !Parks(s, step, t)
    ensures t < |Apply(s, step).th| && SameWait(s.th[t], Apply(s, step).th[t])
  {
  }

  lemma SeeksWait(s: State, step: Step, t: nat)
    requires ClaimInv(s) && Enabled(s, step) && !Scheduling(step) && !step.Finish? && !step.ReapStep? && t < |s.th|
    requires !s.th[t].ws.Parked? && !s.th[t].ws.Moving?
    ensures t < |Apply(s, step).th| && SameWait(s.th[t], Apply(s, step).th[t])
  {
    if step.Relink? || step.Unmove? { assert HandOk(s, step.c); }
  }

  /** Who holds `t` goes on holding it. */
  lemma KeepsTold(s: State, step: Step, t: nat, expired: bool)
    requires Wf(s) && Enabled(s, step) && Told(s, t, expired) && !step.Finish? && !step.ReapStep?
    requires t < |Apply(s, step).th| && SameWait(s.th[t], Apply(s, step).th[t])
    ensures Told(Apply(s, step), t, expired)
  {
    var c, s' := s.th[t].owner.value, Apply(s, step);
    if !step.Tick? && !step.Kill? && step.c == c {
      HolderSeeks(s, step, t, expired);
    } else {
      PcStays(s, step, c);
    }
  }

  lemma PcStays(s: State, step: Step, c: nat)
    requires Wf(s) && Enabled(s, step) && c < |s.pc| && (step.Tick? || step.Kill? || step.c != c)
    requires !step.Finish? && !step.ReapStep?
    ensures c < |Apply(s, step).pc| && Apply(s, step).pc[c] == s.pc[c]
  {
    if Scheduling(step) { PcStaysRunning(s, step, c); }
  }

  lemma PcStaysRunning(s: State, step: Step, c: nat)
    requires Wf(s) && Enabled(s, step) && c < |s.pc| && Scheduling(step) && step.c != c
    ensures c < |Apply(s, step).pc| && Apply(s, step).pc[c] == s.pc[c]
  {
  }

  /** A winner still collecting adds to its list, or turns to finishing it. */
  lemma HolderSeeks(s: State, step: Step, t: nat, expired: bool)
    requires Wf(s) && Enabled(s, step) && Told(s, t, expired) && !step.Finish? && !step.Tick? && !step.Kill?
    requires step.c == s.th[t].owner.value
    ensures |Apply(s, step).pc| == |s.pc| && Winner(Apply(s, step).pc[step.c], s.th[t].result, t, expired)
  {
    var c := step.c;
    assert step.WakeOne? || step.WakeEnd? || step.TimerOne? || step.TimerEnd?;
    if step.WakeOne? || step.TimerOne? {
      assert t in Apply(s, step).pc[c].held;
    }
  }

  lemma FinishTold(s: State, c: nat, q: nat, t: nat, expired: bool)
    requires Inv(s) && Enabled(s, Finish(c, q)) && Phase(s, t, expired)
    ensures Phase(FinishStep(s, c, q), t, expired)
  {
    assert HandOk(s, c);
    if s.pc[c].held == [] || s.pc[c].held[0] != t {
      FinishOthers(s, c, q, t, expired);
    } else {
      FinishHead(s, c, q, t, expired);
    }
  }

  lemma FinishOthers(s: State, c: nat, q: nat, t: nat, expired: bool)
    requires Inv(s) && Enabled(s, Finish(c, q)) && Phase(s, t, expired) && (s.pc[c].held == [] || s.pc[c].held[0] != t)
    ensures Phase(FinishStep(s, c, q), t, expired)
  {
    if s.pc[c].held != [] { FinishOne(s, c, q); }
    if Told(s, t, expired) {
      if s.th[t].owner == Some(c) {
        FinishRest(s, c, q, t, expired);
      } else {
        FinishAway(s, c, q, s.th[t].owner.value);
      }
    }
  }

  lemma FinishAway(s: State, c: nat, q: nat, d: nat)
    requires Wf(s) && Enabled(s, Finish(c, q)) && d < |s.pc| && d != c
    ensures d < |FinishStep(s, c, q).pc| && FinishStep(s, c, q).pc[d] == s.pc[d]
  {
  }

  /** A thread behind the head stays on the list. */
  lemma FinishRest(s: State, c: nat, q: nat, t: nat, expired: bool)
    requires Wf(s) && Enabled(s, Finish(c, q)) && Won(s.pc[c], expired) && t in s.pc[c].held && s.pc[c].held[0] != t
    ensures var pc := FinishStep(s, c, q).pc[c]; pc.Finishing? && t in pc.held && pc.late == expired && !Decided(pc, t)
  {
    StillHeld(s.pc[c].held, t);
  }

  lemma StillHeld(xs: seq<nat>, t: nat)
    requires t in xs && xs[0] != t
    ensures xs != [] && t in xs[1..]
  {
    var i :| 0 <= i < |xs| && xs[i] == t;
    assert xs[1..][i - 1] == t;
  }

  lemma FinishHead(s: State, c: nat, q: nat, t: nat, expired: bool)
    requires Inv(s) && Enabled(s, Finish(c, q)) && Phase(s, t, expired) && s.pc[c].held != [] && s.pc[c].held[0] == t
    ensures Phase(FinishStep(s, c, q), t, expired)
  {
    assert HandOk(s, c) && t in s.pc[c].held;
  }

  lemma ReapTold(s: State, c: nat, t: nat, expired: bool)
    requires Inv(s) && Enabled(s, ReapStep(c)) && Phase(s, t, expired)
    ensures Phase(ReapNext(s, c), t, expired)
  {
    assert HandOk(s, c);
    if Told(s, t, expired) { assert HandOk(s, s.th[t].owner.value); }
  }

  lemma PhaseStep(s: State, step: Step, t: nat, expired: bool)
    requires Inv(s) && Enabled(s, step) && Phase(s, t, expired) && !Parks(s, step, t)
    ensures Phase(Apply(s, step), t, expired)
  {
    if step.Finish? {
      FinishTold(s, step.c, step.q, t, expired);
    } else if step.ReapStep? {
      ReapTold(s, step.c, t, expired);
    } else {
      if Starting(step) { StartsWait(s, step, t); }
      else if Scheduling(step) { StopsWait(s, step, t); }
      else { SeeksWait(s, step, t); }
      if Told(s, t, expired) { KeepsTold(s, step, t, expired); }
    }
  }

  // -------------------------------------------------------------------------
  // Runs
  // -------------------------------------------------------------------------

  /** Thread `t` begins no other wait in the run. */
  ghost predicate NoNewWait(s: State, steps: seq<Step>, t: nat)
    requires Wf(s) && Runs(s, steps)
    decreases |steps|
  {
    steps == [] || (!Parks(s, steps[0], t) && NoNewWait(Apply(s, steps[0]), steps[1..], t))
  }

  lemma {:induction false} PhaseRuns(s: State, steps: seq<Step>, t: nat, expired: bool)
    requires Inv(s) && Runs(s, steps) && ReapsDead(s, steps) && NoNewWait(s, steps, t) && Phase(s, t, expired)
    ensures Phase(After(s, steps), t, expired)
    decreases |steps|
  {
    if steps != [] {
      PhaseStep(s, steps[0], t, expired);
      StepInv(s, steps[0]);
      PhaseRuns(Apply(s, steps[0]), steps[1..], t, expired);
    }
  }

  /** Once the thread is released, and until its next wait, the wait it was in reports a timeout if the expiry of its
      deadline claimed it, and a wake if a wake did. */
  lemma WaitTells(s0: State, steps: seq<Step>, s: State, claim: Step, more: seq<Step>, t: nat)
    requires Reachable(s0, steps, s) && Enabled(s, claim) && Claims(s, claim, t)
    requires Runs(Apply(s, claim), more) && ReapsDead(Apply(s, claim), more) && NoNewWait(Apply(s, claim), more, t)
    requires t < |After(Apply(s, claim), more).th| && After(Apply(s, claim), more).th[t].ws.Idle?
    requires !After(Apply(s, claim), more).th[t].freed
    ensures After(Apply(s, claim), more).th[t].result == if claim.TimerOne? then TimedOut else Woken
  {
    ReachInv(s0, steps, s);
    StepInv(s, claim);
    ClaimTold(s, claim, t);
    PhaseRuns(Apply(s, claim), more, t, claim.TimerOne?);
  }

  /** Only these steps, and a reaper's, claim a parked thread. */
  lemma ClaimedHow(s: State, step: Step, t: nat)
    requires Inv(s) && Enabled(s, step) && t < |s.th| && s.th[t].ws.Parked?
    requires t < |Apply(s, step).th| && Apply(s, step).th[t].ws.Claimed?
    ensures Claims(s, step, t) || (step.ReapStep? && s.pc[step.c].t == t && s.pc[step.c].reap.Claim?)
  {
    if step.Finish? {
      assert HandOk(s, step.c);
      if s.pc[step.c].held != [] { FinishOne(s, step.c, step.q); }
    } else if Starting(step) {
      StartsWait(s, step, t);
    } else if Scheduling(step) {
      if !Parks(s, step, t) { StopsWait(s, step, t); }
    } else {
      ClaimedSeeking(s, step, t);
    }
  }

  lemma ClaimedSeeking(s: State, step: Step, t: nat)
    requires ClaimInv(s) && Enabled(s, step) && t < |s.th| && s.th[t].ws.Parked? && !Scheduling(step) && !step.Finish?
    requires t < |Apply(s, step).th| && Apply(s, step).th[t].ws.Claimed?
    ensures Claims(s, step, t) || (step.ReapStep? && s.pc[step.c].t == t && s.pc[step.c].reap.Claim?)
  {
  }
}
