/** scheduler_loop loads the status of the thread it switched out after it cleared on_cpu. A run in
    which the thread has been woken, dispatched elsewhere and is about to exit by then. */
module ThreadLate {
  import opened ThreadProtocol
  import opened ThreadRuns
  import opened Seqs

  ghost predicate Comes(s: State, steps: seq<Step>, z: State) {
    Wf(s) && Runs(s, steps) && ReapsDead(s, steps) && Prompt(s, steps) && After(s, steps) == z
  }

  /** Steps that end no thread extend a prompt run. */
  lemma Extend(s: State, steps: seq<Step>, z: State, e: Step)
    requires Comes(s, steps, z) && Enabled(z, e) && !e.Exit? && !e.ReapBegin? && !e.ReapStep?
    requires e.Dispatch? ==> z.th[z.queue[e.c][0]].proc !in z.dead
    ensures Comes(s, steps + [e], Apply(z, e))
  {
    Snoc(s, steps, e);
  }

  // -------------------------------------------------------------------------
  // The run: two CPUs, one thread of process 7
  // -------------------------------------------------------------------------

  /** The thread is dispatched on CPU 1, waits, is woken by CPU 0 and dispatched there. */
  function Script(i: nat): (e: Step) {
    if i == 0 then Dispatch(1)
    else if i <= 2 then Install(1)
    else if i == 3 then ParkBegin(1, 0, 0)
    else if i == 4 then Park(1)
    else if i == 5 then Block(1)
    else if i == 6 then WakeBegin(0, 0, 1)
    else if i == 7 then WakeOne(0, Key(0, 0))
    else if i == 8 then WakeEnd(0)
    else if i == 11 then SwitchedOut(1)
    else if i <= 16 then Finish(0, 0)
    else if i == 17 then Dispatch(0)
    else Install(0)
  }

  const LAST: nat := 20

  function Stage0(i: nat): (pc: Pc) {
    if i <= 6 || i == 17 then Sched
    else if i == 7 then Waking(0, 0, 1, [])
    else if i == 8 then Waking(0, 1, 1, [0])
    else if i <= 15 then
      Finishing([0], if i == 9 then Cancel else if i == 10 then Decide else if i <= 12 then Spin
                else if i == 13 then SetRunnable
                     else if i == 14 then Release else Enqueue, false)
    else if i == 16 then Finishing([], Cancel, false)
    else if i == 18 then Installing(0, false)
    else if i == 19 then Installing(0, true)
    else User
  }

  function Stage1(i: nat): (pc: Pc) {
    if i == 0 then Sched
    else if i == 1 then Installing(0, false)
    else if i == 2 then Installing(0, true)
    else if i == 3 then User
    else if i == 4 then Parking(0, 0)
    else if i == 5 then ParkCalled
    else if i <= 11 then Leaving
    else Switched(0)
  }

  ghost predicate Sit(z: State, i: nat) {
    && Wf(z) && |z.pc| == 2 && z.pc[0] == Stage0(i) && z.pc[1] == Stage1(i) && z.dead == {} && z.hash(0) == 0
    && z.current[0] == (if i == LAST then Some(0) else None) && z.current[1] == (if 3 <= i <= 11 then Some(0) else None)
    && z.queue[0] == (if i == 16 || i == 17 then [0] else []) && z.queue[1] == (if i == 0 then [0] else [])
    && z.nodes == (if 5 <= i <= 7 then map[Key(0, 0) := 0] else map[]) && (i <= 4 ==> z.nextSeq == 0)
    && |z.th| == 1 && z.th[0].proc == 7 && z.th[0].deadline == 0 && z.th[0].key == Key(0, 0)
    && (z.th[0].onCpu <==> 3 <= i <= 11 || i == LAST) && (5 <= i <= 7 ==> z.th[0].ws.Parked?)
    && (6 <= i <= 13 ==> z.th[0].status.Blocked?)
  }

  lemma SitRuns(z: State, i: nat)
    requires Sit(z, i) && (i <= 2 || 17 <= i < LAST)
    ensures Enabled(z, Script(i)) && Sit(Apply(z, Script(i)), i + 1)
  {
    assert [0][1..] == [];
  }

  lemma SitWaits(z: State, i: nat)
    requires Sit(z, i) && 3 <= i <= 6
    ensures Enabled(z, Script(i)) && Sit(Apply(z, Script(i)), i + 1)
  {
  }

  lemma SitWakes(z: State, i: nat)
    requires Sit(z, i) && 7 <= i <= 8
    ensures Enabled(z, Script(i)) && Sit(Apply(z, Script(i)), i + 1)
  {
    assert [] + [0] == [0] && map[Key(0, 0) := 0] - {Key(0, 0)} == map[];
    if i == 7 { assert IsNext(z.nodes, 0, 0, Key(0, 0)); }
  }

  lemma SitCancels(z: State, i: nat)
    requires Sit(z, i) && 9 <= i <= 12
    ensures Enabled(z, Script(i)) && Sit(Apply(z, Script(i)), i + 1)
  {
  }

  lemma SitFinishes(z: State, i: nat)
    requires Sit(z, i) && 13 <= i <= 14
    ensures Enabled(z, Script(i)) && Sit(Apply(z, Script(i)), i + 1)
  {
  }

  lemma SitEnqueues(z: State, i: nat)
    requires Sit(z, i) && 15 <= i <= 16
    ensures Enabled(z, Script(i)) && Sit(Apply(z, Script(i)), i + 1)
  {
    assert [0][1..] == [] && [] + [0] == [0];
  }

  lemma SitStep(z: State, i: nat)
    requires Sit(z, i) && i < LAST
    ensures Enabled(z, Script(i)) && Sit(Apply(z, Script(i)), i + 1)
  {
    if i <= 2 || 17 <= i { SitRuns(z, i); } else if i <= 6 { SitWaits(z, i); } else if i <= 8 { SitWakes(z, i); }
    else if i <= 12 { SitCancels(z, i); } else if i <= 14 { SitFinishes(z, i); } else { SitEnqueues(z, i); }
  }

  lemma Beat(s: State, steps: seq<Step>, z: State, i: nat)
    requires Comes(s, steps, z) && Sit(z, i) && i < LAST
    ensures Enabled(z, Script(i)) && Comes(s, steps + [Script(i)], Apply(z, Script(i)))
    ensures Sit(Apply(z, Script(i)), i + 1)
  {
    SitStep(z, i);
    Extend(s, steps, z, Script(i));
  }

  lemma {:induction false} Play(s: State, steps: seq<Step>, z: State, i: nat) returns (steps': seq<Step>, z': State)
    requires Comes(s, steps, z) && Sit(z, i) && i <= LAST
    ensures Comes(s, steps', z') && Sit(z', LAST)
    decreases LAST - i
  {
    steps', z' := steps, z;
    if i < LAST {
      Beat(s, steps, z, i);
      steps', z' := Play(s, steps + [Script(i)], Apply(z, Script(i)), i + 1);
    }
  }

  lemma Boot() returns (s0: State, steps: seq<Step>, z: State)
    ensures Init(s0) && Comes(s0, steps, z) && Sit(z, 0)
  {
    s0 := State(0, 0, a => 0, {}, map[], {}, [], [Sched, Sched], [None, None], [[], []]);
    Extend(s0, [], s0, Spawn(0, 7, 1));
    steps, z := [] + [Spawn(0, 7, 1)], Apply(s0, Spawn(0, 7, 1));
  }

  /** A step of EndExact's harmful kind is reachable: the woken thread exits on CPU 0 while CPU 1 has yet
      to load its status. */
  lemma LateStatus() returns (s0: State, steps: seq<Step>, s: State)
    ensures Reachable(s0, steps, s) && Prompt(s0, steps) && Enabled(s, Exit(0)) && Overruns(s, Exit(0))
    ensures LeadsToMisuse(s, Exit(0))
  {
    s0, steps, s := Boot();
    steps, s := Play(s0, steps, s, 0);
    assert Ends(s, Exit(0), s.pc[1].t);
    EndExact(s0, steps, s, Exit(0));
  }
}
