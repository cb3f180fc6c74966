/** Two runs of the shootdown in which a flush returns although another CPU still caches what
    the caller changed. */
module ShootdownRace {
  import opened Shootdown

  function OldView(a: nat, p: nat): int { 0 }
  function NewView(a: nat, p: nat): int { if a == 7 && p == 0 then 1 else 0 }

  /** Spaces 7, 5 and 7 are loaded on CPUs 0, 1 and 2. */
  function Three(clock: nat, view: (nat, nat) -> int, dirty: map<nat, Range>, pc0: Pc, pc1: Pc,
                 tlb2: set<Cached>): (s: State) {
    State(clock, view, dirty, false, Request([], CLEAN), {}, [pc0, pc1, Running],
          [Quiet, Quiet, Quiet], [7, 5, 7], [7, 5, 7], [{}, {}, tlb2])
  }

  lemma Extend(tr: seq<State>, steps: seq<Step>, step: Step, s': State)
    requires Run(tr, steps) && Takes(tr[|tr| - 1], step, s')
    ensures Run(tr + [s'], steps + [step])
  {
    var tr', steps' := tr + [s'], steps + [step];
    forall i | 0 <= i < |steps'| ensures Takes(tr'[i], steps'[i], tr'[i + 1]) {
      if i < |steps| { assert Takes(tr[i], steps[i], tr[i + 1]); }
    }
  }

  /** CPU 2 caches page 0 of space 7, which CPU 0 begins to change. */
  lemma RaceBegin() returns (tr: seq<State>, steps: seq<Step>)
    ensures Run(tr, steps) && |tr| == 3
    ensures tr[2] == Three(2, OldView, map[], Flagging(7, Range(0, 1)), Running, {Cached(0, 0, 0)})
  {
    steps := [Fill(2, 0), FlagBegin(0, 7, Range(0, 1))];
    var e := {Cached(0, 0, 0)};
    tr := [Three(0, OldView, map[], Running, Running, {}), Three(1, OldView, map[], Running, Running, e),
           Three(2, OldView, map[], Flagging(7, Range(0, 1)), Running, e)];
    assert tr[0].tlb[2] + {Cached(0, 0, 0)} == e;
    assert Takes(tr[0], steps[0], tr[1]);
    assert Takes(tr[1], steps[1], tr[2]);
  }

  lemma RaceFlag() returns (tr: seq<State>, steps: seq<Step>)
    ensures Run(tr, steps) && |tr| == 5 && steps[3] == FlagEnd(0)
    ensures tr[3] == Three(3, NewView, map[], Flagging(7, Range(0, 1)), Running, {Cached(0, 0, 0)})
    ensures tr[4] == Three(4, NewView, map[7 := Range(0, 1)], Running, Running, {Cached(0, 0, 0)})
  {
    tr, steps := RaceBegin();
    var e := {Cached(0, 0, 0)};
    var s3 := Three(3, NewView, map[], Flagging(7, Range(0, 1)), Running, e);
    assert Takes(tr[2], FlagWrite(0, NewView), s3);
    Extend(tr, steps, FlagWrite(0, NewView), s3);
    tr, steps := tr + [s3], steps + [FlagWrite(0, NewView)];
    var s4 := Three(4, NewView, map[7 := Range(0, 1)], Running, Running, e);
    assert CLEAN.Join(Range(0, 1)) == Range(0, 1);
    assert Takes(s3, FlagEnd(0), s4);
    Extend(tr, steps, FlagEnd(0), s4);
    tr, steps := tr + [s4], steps + [FlagEnd(0)];
  }

  /** CPU 1 takes the range that CPU 0 made dirty. */
  lemma RaceTake() returns (tr: seq<State>, steps: seq<Step>)
    ensures Run(tr, steps) && |tr| == 7 && steps[3] == FlagEnd(0)
    ensures tr[3] == Three(3, NewView, map[], Flagging(7, Range(0, 1)), Running, {Cached(0, 0, 0)})
    ensures tr[6] == Three(6, NewView, map[], Running, Taking([7], 1, Range(0, 1)), {Cached(0, 0, 0)})
  {
    tr, steps := RaceFlag();
    var e := {Cached(0, 0, 0)};
    var s5 := Three(5, NewView, map[7 := Range(0, 1)], Running, Taking([7], 0, CLEAN), e);
    assert Takes(tr[4], FlushBegin(1, [7]), s5);
    Extend(tr, steps, FlushBegin(1, [7]), s5);
    tr, steps := tr + [s5], steps + [FlushBegin(1, [7])];
    var s6 := Three(6, NewView, map[], Running, Taking([7], 1, Range(0, 1)), e);
    assert CLEAN.Join(Range(0, 1)) == Range(0, 1) && s5.dirty - {7} == map[];
    assert Takes(s5, TakeOne(1), s6);
    Extend(tr, steps, TakeOne(1), s6);
    tr, steps := tr + [s6], steps + [TakeOne(1)];
  }

  /** CPU 0 finished its change of page 0 at step 3 and takes the range of space 7 at step m. */
  lemma IsChange(tr: seq<State>, steps: seq<Step>, m: nat)
    requires Run(tr, steps) && 3 < m < |steps| && steps[3] == FlagEnd(0) && steps[m] == TakeOne(0)
    requires |tr[3].pc| > 0 && tr[3].pc[0] == Flagging(7, Range(0, 1)) && |tr[m].pc| > 0
    requires tr[m].pc[0] == Taking([7], 0, CLEAN)
    ensures ChangesThenTakes(tr, steps, 3, m, 0, 7, 0)
  {
    assert Takes(tr[3], steps[3], tr[3 + 1]) && Takes(tr[m], steps[m], tr[m + 1]);
  }

  /** as_flush may return while another CPU still caches what its caller changed:
      CPU 1 takes the dirty range in a flush of its own, and CPU 0's flush then
      finds nothing to do although CPU 2 still has the old translation. */
  lemma TakenRange() returns (tr: seq<State>, steps: seq<Step>)
    ensures ChangesThenTakes(tr, steps, 3, 7, 0, 7, 0) && |tr| == 9
    ensures Wf(tr[8]) && ReturnsEarly(tr[8], 0) && !NoStale(Apply(tr[8], TakeDone(0)), 7, 0)
  {
    tr, steps := RaceTake();
    var e := {Cached(0, 0, 0)};
    var s7 := Three(7, NewView, map[], Taking([7], 0, CLEAN), Taking([7], 1, Range(0, 1)), e);
    assert Takes(tr[6], FlushBegin(0, [7]), s7);
    Extend(tr, steps, FlushBegin(0, [7]), s7);
    tr, steps := tr + [s7], steps + [FlushBegin(0, [7])];
    var s8 := Three(8, NewView, map[], Taking([7], 1, CLEAN), Taking([7], 1, Range(0, 1)), e);
    assert Takes(s7, TakeOne(0), s8);
    Extend(tr, steps, TakeOne(0), s8);
    tr, steps := tr + [s8], steps + [TakeOne(0)];
    IsChange(tr, steps, 7);
    var y := Apply(s8, TakeDone(0));
    assert Cached(0, 0, 0) in y.tlb[2] && y.view(7, 0) == 1 && StaleAt(y, 7, 0, 2);
  }

  /** CPU 1 waits for the slot with the range it took; CPU 0 changes and flushes another page. */
  function Passed(clock: nat, dirty: map<nat, Range>, busy: bool, req: Request, need: set<nat>, pc0: Pc,
                  svc2: Service): (s: State) {
    State(clock, NewView, dirty, busy, req, need, [pc0, WaitSlot([7], Range(0, 1), 6), Running],
          [Quiet, Quiet, svc2], [7, 5, 7], [7, 5, 7], [{}, {}, {Cached(0, 0, 0)}])
  }

  /** The script of CPU 0's second change and of its flush, from state 7 on. */
  function Cue(i: nat): (step: Step) {
    if i == 7 then FlagBegin(0, 7, Range(1, 2)) else if i == 8 then FlagEnd(0) else if i == 9 then FlushBegin(0, [7])
    else if i == 10 then TakeOne(0) else if i == 11 then TakeDone(0) else if i == 12 then GetSlot(0)
      else if i == 13 then Publish(0)
    else if i <= 16 then ScanOne(0) else if i == 17 then StoreMask(0) else if i == 18 then FlushLocal(0)
    else if i == 19 then SeeBit(2) else if i == 20 then Invalidate(2) else Ack(2)
  }

  function Scene(i: nat): (s: State) {
    var none, r, q := Request([], CLEAN), Range(1, 2), Request([7], Range(1, 2));
    if i <= 7 then Passed(i, map[], false, none, {}, Running, Quiet)
    else if i == 8 then Passed(i, map[], false, none, {}, Flagging(7, r), Quiet)
    else if i == 9 then Passed(i, map[7 := r], false, none, {}, Running, Quiet)
    else if i == 10 then Passed(i, map[7 := r], false, none, {}, Taking([7], 0, CLEAN), Quiet)
    else if i == 11 then Passed(i, map[], false, none, {}, Taking([7], 1, r), Quiet)
    else if i == 12 then Passed(i, map[], false, none, {}, WaitSlot([7], r, 11), Quiet)
    else if i == 13 then Passed(i, map[], true, none, {}, Publishing([7], r, 11), Quiet)
    else if i <= 16 then Passed(i, map[], true, q, {}, Scanning([7], r, 11, i - 14, {}), Quiet)
    else if i == 17 then Passed(i, map[], true, q, {}, Scanning([7], r, 11, 3, {2}), Quiet)
    else if i == 18 then Passed(i, map[], true, q, {2}, Local([7], r, 11), Quiet)
    else if i <= 21 then
      Passed(i, map[], true, q, {2}, WaitAcks([7], r, 11), if i == 19 then Quiet else if i == 20 then SawBit
             else Invalidated)
    else Passed(i, map[], true, q, {}, WaitAcks([7], r, 11), Quiet)
  }

  lemma Waits(s: State)
    requires s == Three(6, NewView, map[], Running, Taking([7], 1, Range(0, 1)), {Cached(0, 0, 0)})
    ensures Takes(s, TakeDone(1), Scene(7))
  {
  }

  lemma Changes(i: nat)
    requires 7 <= i <= 9
    ensures Takes(Scene(i), Cue(i), Scene(i + 1))
  {
    assert CLEAN.Join(Range(1, 2)) == Range(1, 2);
  }

  lemma Collects(i: nat)
    requires 10 <= i <= 12
    ensures Takes(Scene(i), Cue(i), Scene(i + 1))
  {
    assert CLEAN.Join(Range(1, 2)) == Range(1, 2) && map[7 := Range(1, 2)] - {7} == map[];
  }

  lemma Scans(i: nat)
    requires 13 <= i <= 17
    ensures Takes(Scene(i), Cue(i), Scene(i + 1))
  {
    var none: set<nat> := {};
    assert none + {2} == {2} && none + none == none;
  }

  lemma Serves(i: nat)
    requires 18 <= i <= 21
    ensures Takes(Scene(i), Cue(i), Scene(i + 1))
  {
    var none, e: set<Cached> := {}, {Cached(0, 0, 0)};
    assert Evicted(e, Range(1, 2)) == e && Evicted(none, Range(1, 2)) == none && {2} - {2} == {};
    assert [none, none, e][0 := none] == [none, none, e] && [none, none, e][2 := e] == [none, none, e];
    assert [Quiet, Quiet, Invalidated][2 := Quiet] == [Quiet, Quiet, Quiet];
  }

  lemma Beat(i: nat)
    requires 7 <= i <= 21
    ensures Takes(Scene(i), Cue(i), Scene(i + 1))
  {
    if i <= 9 { Changes(i); } else if i <= 12 { Collects(i); } else if i <= 17 { Scans(i); } else { Serves(i); }
  }

  /** A run of `i` steps to state `z`; CPU 0 made its change at step 3, and takes in a call that begins at step 10. */
  ghost predicate Played(tr: seq<State>, steps: seq<Step>, z: State, i: nat) {
    && Run(tr, steps) && 7 <= i && |tr| == i + 1 && tr[i] == z
    && steps[3] == FlagEnd(0) && |tr[3].pc| > 0 && tr[3].pc[0] == Flagging(7, Range(0, 1))
    && (i > 10 ==> steps[10] == TakeOne(0) && |tr[10].pc| > 0 && tr[10].pc[0] == Taking([7], 0, CLEAN))
    && forall j :: 10 < j < i ==> steps[j] != Release(0)
  }

  lemma Grow(tr: seq<State>, steps: seq<Step>, z: State, i: nat, step: Step, z': State)
    requires Played(tr, steps, z, i) && Takes(z, step, z') && step != Release(0)
    requires i == 10 ==> step == TakeOne(0) && |z.pc| > 0 && z.pc[0] == Taking([7], 0, CLEAN)
    ensures Played(tr + [z'], steps + [step], z', i + 1)
  {
    Extend(tr, steps, step, z');
  }

  lemma Opening() returns (tr: seq<State>, steps: seq<Step>)
    ensures Played(tr, steps, Scene(7), 7)
  {
    tr, steps := RaceTake();
    Waits(tr[6]);
    Extend(tr, steps, TakeDone(1), Scene(7));
    tr, steps := tr + [Scene(7)], steps + [TakeDone(1)];
  }

  lemma {:induction false} PlayTo(scene: nat -> State, cue: nat -> Step, tr: seq<State>, steps: seq<Step>, i: nat)
    returns (tr': seq<State>, steps': seq<Step>)
    requires Played(tr, steps, scene(7), 7) && 7 <= i && cue(10) == TakeOne(0) && |scene(10).pc| > 0
    requires scene(10).pc[0] == Taking([7], 0, CLEAN)
    requires forall k: nat :: 7 <= k < i ==> cue(k) != Release(0) && Takes(scene(k), cue(k), scene(k + 1))
    ensures Played(tr', steps', scene(i), i)
    decreases i
  {
    if i == 7 {
      tr', steps' := tr, steps;
    } else {
      tr', steps' := PlayTo(scene, cue, tr, steps, i - 1);
      Grow(tr', steps', scene(i - 1), i - 1, cue(i - 1), scene(i));
      tr', steps' := tr' + [scene(i)], steps' + [cue(i - 1)];
    }
  }

  /** A flush that had something to do may return so too: CPU 0 changes page 0, CPU 1 takes that range and waits
      for the slot, CPU 0 changes page 1 and flushes, and returns while CPU 2 caches the old page 0. */
  lemma TakenBefore() returns (tr: seq<State>, steps: seq<Step>)
    ensures ChangesThenTakes(tr, steps, 3, 10, 0, 7, 0) && |tr| == 23 && InCall(steps, 10, 22, 0)
    ensures Wf(tr[22]) && Enabled(tr[22], Release(0)) && !DirtyOf(tr[22], 7).Has(0)
    ensures !NoStale(Apply(tr[22], Release(0)), 7, 0)
  {
    tr, steps := Opening();
    forall k: nat | 7 <= k < 22 ensures Cue(k) != Release(0) && Takes(Scene(k), Cue(k), Scene(k + 1)) { Beat(k); }
    tr, steps := PlayTo(Scene, Cue, tr, steps, 22);
    IsChange(tr, steps, 10);
    ReleasedStale();
  }

  lemma ReleasedStale()
    ensures var z := Scene(22);
            && Wf(z) && Enabled(z, Release(0)) && !DirtyOf(z, 7).Has(0) && !NoStale(Apply(z, Release(0)), 7, 0)
  {
    var y := Apply(Scene(22), Release(0));
    assert Cached(0, 0, 0) in y.tlb[2] && y.view(7, 0) == 1 && StaleAt(y, 7, 0, 2);
  }
}
