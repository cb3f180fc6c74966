/** Whole runs of the thread protocol: every step keeps every invariant, so the
    safety theorems hold in every reachable state. */
module ThreadRuns {
  import opened ThreadProtocol
  import opened ThreadClaims
  import opened ThreadPlaces
  import opened Seqs

  // -------------------------------------------------------------------------
  // Locks, disposal and time
  // -------------------------------------------------------------------------

  /** Off the CPU, and with the process dead never on one again. */
  predicate Settled(p: Place) {
    p == Off || p.InHand? || p.Queued? || p.Disposing?
  }

  /** Not between the dead check of a wait and the end of its switch. */
  predicate Quelled(p: Place) {
    !p.Waiting? && !p.BlockOut?
  }

  ghost predicate ReapOk(s: State, c: nat)
    requires c < |s.pc|
  {
    s.pc[c].Reaping? ==>
      && s.pc[c].t < |s.th| && s.th[s.pc[c].t].proc in s.dead && s.th[s.pc[c].t].place != Gone
      && (!s.pc[c].reap.Check? ==> Quelled(s.th[s.pc[c].t].place))
      && (!s.pc[c].reap.Check? && !s.pc[c].reap.Look? ==> Settled(s.th[s.pc[c].t].place))
      && (s.pc[c].reap.FreeReapable? ==> s.th[s.pc[c].t].ws.Reapable?)
  }

  ghost predicate ReapInv(s: State) {
    && (forall c :: 0 <= c < |s.pc| ==> ReapOk(s, c))
    && (forall c, d :: 0 <= c < d < |s.pc| && s.pc[c].Reaping? ==> !s.pc[d].Reaping?)
  }

  /** No bucket is held by two CPUs. */
  ghost predicate LockInv(s: State) {
    forall c, d, b :: 0 <= c < d < |s.pc| && HasBucket(s.pc[c], s.hash, b) ==> !HasBucket(s.pc[d], s.hash, b)
  }

  predicate Expired(x: Thread, now: nat) {
    x.due != 0 && x.due <= now
  }

  ghost predicate LateOk(s: State, c: nat)
    requires c < |s.pc|
  {
    && (s.pc[c].Timing? ==> s.pc[c].now <= s.clock)
    && (s.pc[c].Timing? || (s.pc[c].Finishing? && s.pc[c].late) ==>
          forall t :: t in s.pc[c].held ==> t < |s.th| && Expired(s.th[t], s.clock))
  }

  ghost predicate TimeInv(s: State) {
    && (forall t :: 0 <= t < |s.th| && s.th[t].result.TimedOut? ==> Expired(s.th[t], s.clock))
    && (forall c :: 0 <= c < |s.pc| ==> LateOk(s, c))
  }

  ghost predicate Inv(s: State) {
    ClaimInv(s) && PlaceInv(s) && ReapInv(s) && LockInv(s) && TimeInv(s)
  }

  /** Nothing started: no threads, every CPU at the top of its loop. */
  ghost predicate Init(s: State) {
    && Wf(s) && s.th == [] && s.nodes == map[] && s.entries == {}
    && (forall c :: 0 <= c < |s.pc| ==> s.pc[c].Sched? && s.current[c].None? && s.queue[c] == [])
  }

  lemma InitInv(s: State)
    requires Init(s)
    ensures Inv(s)
  {
  }

  // -------------------------------------------------------------------------
  // Claims
  // -------------------------------------------------------------------------

  /** A running thread that is not parked is in nobody's hands. */
  lemma RunningIsFree(s: State, t: nat)
    requires ClaimInv(s) && PlaceInv(s) && t < |s.th| && s.th[t].ws.Idle? && !s.th[t].place.InHand?
    ensures forall h :: 0 <= h < |s.pc| ==> HandsOff(s.pc[h], t)
  {
    forall h | 0 <= h < |s.pc| ensures HandsOff(s.pc[h], t) { assert HandOk(s, h) && CpuOk(s, h); }
  }

  lemma InHandIsMine(s: State, c: nat)
    requires ClaimInv(s) && PlaceInv(s) && c < |s.pc| && s.pc[c].Finishing? && s.pc[c].held != []
    requires s.pc[c].stage.Enqueue?
    requires s.pc[c].held[0] < |s.th|
    ensures forall d :: 0 <= d < |s.pc| && d != c ==> HandsOff(s.pc[d], s.pc[c].held[0])
  {
    assert HandOk(s, c) && CpuOk(s, c);
    forall d | 0 <= d < |s.pc| && d != c
      ensures HandsOff(s.pc[d], s.pc[c].held[0])
    {
      assert HandOk(s, d) && CpuOk(s, d);
    }
  }

  lemma FinishClaims(s: State, c: nat, q: nat)
    requires ClaimInv(s) && PlaceInv(s) && Enabled(s, Finish(c, q))
    ensures ClaimInv(FinishStep(s, c, q))
  {
    if s.pc[c].held == [] {
      HandOver(s, FinishStep(s, c, q), c);
    } else {
      var t := s.pc[c].held[0];
      assert HandOk(s, c) && t in Held(s.pc[c]) && ClaimOk(s, t);
      match s.pc[c].stage
      case Unlink => FinishUnlinkKept(s, c, q);
      case Cancel => FinishCancelKept(s, c, q);
      case Enqueue => InHandIsMine(s, c); FinishPopKept(s, c, q);
      case Decide =>
        NotHeldElsewhere(s, t, c);
        if s.th[t].proc in s.dead { FinishPopKept(s, c, q); } else { FinishLateKept(s, c, q); }
      case Release => FinishReleaseKept(s, c, q);
      case _ => FinishLateKept(s, c, q);
    }
  }

  lemma MoveClaims(s: State, step: Step)
    requires ClaimInv(s) && PlaceInv(s) && Enabled(s, step)
    requires step.Park? || step.WakeOne? || step.TimerOne? || step.RequeueOne? || step.Relink? || step.Unmove?
    ensures ClaimInv(Apply(s, step))
  {
    match step
    case Park(c) =>
      assert CpuOk(s, c) && PlaceOk(s, s.current[c].value);
      RunningIsFree(s, s.current[c].value);
      ParkKept(s, c);
    case WakeOne(c, k) => DetachKept(s, c, k);
    case TimerOne(c, e) => ExpireKept(s, c, e);
    case RequeueOne(c, k) => MoveKept(s, c, k);
    case Relink(c) => RelinkKept(s, c);
    case Unmove(c) => UnmoveKept(s, c);
  }

  lemma StartClaims(s: State, step: Step)
    requires ClaimInv(s) && Enabled(s, step)
    requires (step.Spawn? || step.Dispatch? || step.Install? || step.Yield? || step.Exit?)
    ensures ClaimInv(Apply(s, step))
  {
    ClaimFrame(s, Apply(s, step), step.c);
  }

  lemma StopClaims(s: State, step: Step)
    requires ClaimInv(s) && Enabled(s, step)
    requires (step.ParkBegin? || step.ParkFail? || step.Block? || step.SwitchedOut? || step.LoadStatus? ||
              step.Dispose?)
    ensures ClaimInv(Apply(s, step))
  {
    ClaimFrame(s, Apply(s, step), step.c);
  }

  lemma TreesSame(s: State, s': State)
    requires ClaimInv(s) && s' == s.(clock := s'.clock, dead := s'.dead)
    ensures ClaimInv(s')
  {
    forall t | 0 <= t < |s.th| ensures ClaimOk(s', t) { assert ClaimOk(s, t); }
    forall k | k in s.nodes ensures NodeOk(s', k) { assert NodeOk(s, k); }
    forall e | e in s.entries ensures EntryOk(s', e) { assert EntryOk(s, e); }
    forall d | 0 <= d < |s.pc| ensures HandOk(s', d) { assert HandOk(s, d); }
  }

  lemma BeginClaims(s: State, step: Step)
    requires ClaimInv(s) && Enabled(s, step)
    requires step.WakeBegin? || step.TimerBegin? || step.RequeueBegin? || step.RequeueEnd? || step.ReapBegin?
    ensures ClaimInv(Apply(s, step))
  {
    ClaimFrame(s, Apply(s, step), step.c);
  }

  lemma EndClaims(s: State, step: Step)
    requires ClaimInv(s) && ReapInv(s) && Enabled(s, step) && (step.WakeEnd? || step.TimerEnd? || step.ReapStep?)
    ensures ClaimInv(Apply(s, step))
  {
    if step.ReapStep? {
      assert ReapOk(s, step.c);
      ReapKept(s, step.c);
    } else {
      HandOver(s, Apply(s, step), step.c);
    }
  }

  lemma ClaimsKept(s: State, step: Step)
    requires ClaimInv(s) && PlaceInv(s) && ReapInv(s) && Enabled(s, step)
    ensures ClaimInv(Apply(s, step))
  {
    if step.Finish? {
      FinishClaims(s, step.c, step.q);
    } else if step.Park? || step.WakeOne? || step.TimerOne? || step.RequeueOne? || step.Relink? || step.Unmove? {
      MoveClaims(s, step);
    } else if step.Tick? || step.Kill? {
      TreesSame(s, Apply(s, step));
    } else if step.Spawn? || step.Dispatch? || step.Install? || step.Yield? || step.Exit? {
      StartClaims(s, step);
    } else if Scheduling(step) {
      StopClaims(s, step);
    } else if step.WakeEnd? || step.TimerEnd? || step.ReapStep? {
      EndClaims(s, step);
    } else {
      BeginClaims(s, step);
    }
  }

  // -------------------------------------------------------------------------
  // Places
  // -------------------------------------------------------------------------

  lemma FinishPlaces(s: State, c: nat, q: nat)
    requires ClaimInv(s) && PlaceInv(s) && Enabled(s, Finish(c, q))
    ensures PlaceInv(FinishStep(s, c, q))
  {
    if s.pc[c].held == [] {
      FinishBack(s, c, q);
    } else if s.pc[c].stage.Unlink? || s.pc[c].stage.Cancel? || s.pc[c].stage.Decide? {
      FinishStays(s, c, q);
    } else {
      match s.pc[c].stage
      case Spin => SpinPlace(s, c, q);
      case SetRunnable => RunnablePlace(s, c, q);
      case Release => ReleasePlace(s, c, q);
      case Enqueue => EnqueuePlace(s, c, q);
    }
  }

  lemma FinishStays(s: State, c: nat, q: nat)
    requires ClaimInv(s) && PlaceInv(s) && Enabled(s, Finish(c, q))
    requires s.pc[c].held != [] && (s.pc[c].stage.Unlink? || s.pc[c].stage.Cancel? || s.pc[c].stage.Decide?)
    ensures PlaceInv(FinishStep(s, c, q))
  {
    assert CpuOk(s, c) && HandOk(s, c) && s.pc[c].held[0] in Held(s.pc[c]);
    PlaceFrame(s, FinishStep(s, c, q), c);
  }

  lemma FinishBack(s: State, c: nat, q: nat)
    requires PlaceInv(s) && Enabled(s, Finish(c, q)) && s.pc[c].held == []
    ensures PlaceInv(FinishStep(s, c, q))
  {
    assert CpuOk(s, c);
    PlaceFrame(s, FinishStep(s, c, q), c);
  }

  lemma WakePlaces(s: State, step: Step)
    requires ClaimInv(s) && PlaceInv(s) && Enabled(s, step) && (step.WakeBegin? || step.WakeOne? || step.WakeEnd?)
    ensures PlaceInv(Apply(s, step))
  {
    assert CpuOk(s, step.c);
    PlaceFrame(s, Apply(s, step), step.c);
  }

  lemma TimerPlaces(s: State, step: Step)
    requires ClaimInv(s) && PlaceInv(s) && Enabled(s, step) && (step.TimerBegin? || step.TimerOne? || step.TimerEnd?)
    ensures PlaceInv(Apply(s, step))
  {
    assert CpuOk(s, step.c);
    PlaceFrame(s, Apply(s, step), step.c);
  }

  lemma RequeuePlaces(s: State, step: Step)
    requires ClaimInv(s) && PlaceInv(s) && Enabled(s, step)
    requires (step.RequeueBegin? || step.RequeueOne? || step.RequeueEnd?)
    ensures PlaceInv(Apply(s, step))
  {
    assert CpuOk(s, step.c);
    PlaceFrame(s, Apply(s, step), step.c);
  }

  lemma RelinkPlaces(s: State, step: Step)
    requires ClaimInv(s) && PlaceInv(s) && Enabled(s, step) && (step.Relink? || step.Unmove?)
    ensures PlaceInv(Apply(s, step))
  {
    assert CpuOk(s, step.c) && HandOk(s, step.c);
    PlaceFrame(s, Apply(s, step), step.c);
  }

  /** The reaper's victim, once claimed or found REAPABLE, is off every CPU. */
  lemma VictimOff(s: State, c: nat)
    requires ClaimInv(s) && PlaceInv(s) && ReapInv(s) && c < |s.pc| && s.pc[c].Reaping?
    requires s.pc[c].reap.Unhook? || s.pc[c].reap.Disarm? || s.pc[c].reap.Free? || s.pc[c].reap.FreeReapable?
    ensures s.pc[c].t < |s.th| && s.th[s.pc[c].t].place == Off
    ensures forall d :: 0 <= d < |s.pc| && d != c ==> HandsOff(s.pc[d], s.pc[c].t)
  {
    var t := s.pc[c].t;
    assert ReapOk(s, c) && HandOk(s, c) && ClaimOk(s, t) && PlaceOk(s, t);
    NotHeldElsewhere(s, t, c);
  }

  lemma LookPlaces(s: State, c: nat)
    requires PlaceInv(s) && c < |s.pc| && s.pc[c].Reaping? && s.pc[c].t < |s.th| && !s.pc[c].reap.Free?
    requires !s.pc[c].reap.FreeReapable?
    ensures PlaceInv(ReapNext(s, c))
  {
    assert CpuOk(s, c);
    PlaceFrame(s, ReapNext(s, c), c);
  }

  lemma ReapPlaces(s: State, step: Step)
    requires ClaimInv(s) && PlaceInv(s) && ReapInv(s) && Enabled(s, step) && (step.ReapBegin? || step.ReapStep?)
    ensures PlaceInv(Apply(s, step))
  {
    var c := step.c;
    if step.ReapBegin? {
      assert CpuOk(s, c);
      PlaceFrame(s, Apply(s, step), c);
    } else if s.pc[c].reap.Free? || s.pc[c].reap.FreeReapable? {
      VictimOff(s, c);
      FreePlace(s, c);
    } else {
      LookPlaces(s, c);
    }
  }

  lemma RunPlaces(s: State, step: Step)
    requires PlaceInv(s) && Enabled(s, step)
    requires step.Tick? || step.Kill? || Scheduling(step)
    ensures PlaceInv(Apply(s, step))
  {
    match step
    case Tick => PlacesSame(s, Apply(s, step));
    case Kill(_) => PlacesSame(s, Apply(s, step));
    case Spawn(_, proc, q) => SpawnPlace(s, proc, q);
    case Dispatch(c) => DispatchPlace(s, c);
    case Yield(c) => YieldPlace(s, c);
    case Exit(c) => ExitPlace(s, c);
    case Install(c) => InstallPlace(s, c);
    case ParkBegin(c, addr, d) => TurnPlace(s, c, Waiting(c), Parking(addr, d));
    case ParkFail(c) => TurnPlace(s, c, OnCpu(c), User);
    case Park(c) => ParkPlace(s, c);
    case LoadStatus(c) => LoadPlace(s, c);
    case Block(c) => BlockPlace(s, c);
    case SwitchedOut(c) => SwitchPlace(s, c);
    case Dispose(c) => DisposePlace(s, c);
  }

  lemma PlacesSame(s: State, s': State)
    requires PlaceInv(s) && s' == s.(clock := s'.clock, dead := s'.dead)
    ensures PlaceInv(s')
  {
    forall t | 0 <= t < |s.th| ensures PlaceOk(s', t) { assert PlaceOk(s, t); }
    forall q | 0 <= q < |s.pc| ensures CpuOk(s', q) { assert CpuOk(s, q); }
  }

  lemma PlacesKept(s: State, step: Step)
    requires ClaimInv(s) && PlaceInv(s) && ReapInv(s) && Enabled(s, step)
    ensures PlaceInv(Apply(s, step))
  {
    if step.Finish? {
      FinishPlaces(s, step.c, step.q);
    } else if step.WakeBegin? || step.WakeOne? || step.WakeEnd? {
      WakePlaces(s, step);
    } else if step.TimerBegin? || step.TimerOne? || step.TimerEnd? {
      TimerPlaces(s, step);
    } else if step.RequeueBegin? || step.RequeueOne? || step.RequeueEnd? {
      RequeuePlaces(s, step);
    } else if step.Relink? || step.Unmove? {
      RelinkPlaces(s, step);
    } else if step.ReapBegin? || step.ReapStep? {
      ReapPlaces(s, step);
    } else {
      RunPlaces(s, step);
    }
  }

  // -------------------------------------------------------------------------
  // Disposal
  // -------------------------------------------------------------------------

  /** What becomes of a thread of a dead process under its reaper. */
  ghost predicate Keeps(x: Thread, y: Thread) {
    && x.proc == y.proc
    && (x.place != Gone ==> y.place != Gone)
    && (Quelled(x.place) ==> Quelled(y.place))
    && (Settled(x.place) ==> Settled(y.place))
    && (x.ws.Reapable? ==> y.ws.Reapable?)
  }

  lemma ReapFrame(s: State, s': State, c: nat)
    requires ReapInv(s) && c < |s.pc| && |s'.pc| == |s.pc| && |s.th| <= |s'.th| && s.dead <= s'.dead
    requires forall d :: 0 <= d < |s.pc| && d != c ==> s'.pc[d] == s.pc[d]
    requires forall d :: 0 <= d < |s.pc| && d != c && s.pc[d].Reaping? ==>
               s.pc[d].t < |s.th| && Keeps(s.th[s.pc[d].t], s'.th[s.pc[d].t])
    requires s'.pc[c].Reaping? ==> s.pc[c].Reaping? || UmemFree(s)
    requires ReapOk(s', c)
    ensures ReapInv(s')
  {
    forall d | 0 <= d < |s.pc| ensures ReapOk(s', d) { assert ReapOk(s, d); }
  }

  /** What a step of another CPU does to a thread under the reaper. */
  ghost predicate AllKept(s: State, s': State) {
    |s.th| <= |s'.th| && forall t :: 0 <= t < |s.th| && s.th[t].proc in s.dead ==> Keeps(s.th[t], s'.th[t])
  }

  lemma ReapQuiet(s: State, s': State, c: nat)
    requires ReapInv(s) && c < |s.pc| && |s'.pc| == |s.pc| && s.dead <= s'.dead && AllKept(s, s')
    requires forall d :: 0 <= d < |s.pc| && d != c ==> s'.pc[d] == s.pc[d]
    requires !s'.pc[c].Reaping?
    ensures ReapInv(s')
  {
    forall d | 0 <= d < |s.pc| && d != c && s.pc[d].Reaping?
      ensures s.pc[d].t < |s.th| && Keeps(s.th[s.pc[d].t], s'.th[s.pc[d].t])
    {
      assert ReapOk(s, d);
    }
    ReapFrame(s, s', c);
  }

  predicate Starting(step: Step) {
    step.Spawn? || step.Dispatch? || step.Install? || step.Yield? || step.Exit?
  }

  lemma StartReaps(s: State, step: Step)
    requires PlaceInv(s) && ReapInv(s) && Enabled(s, step) && Starting(step)
    ensures ReapInv(Apply(s, step))
  {
    var c, s' := step.c, Apply(s, step);
    assert CpuOk(s, c) && ReapOk(s, c);
    if s.current[c].Some? { assert PlaceOk(s, s.current[c].value); }
    if step.Dispatch? { assert s.queue[c][0] in s.queue[c] && PlaceOk(s, s.queue[c][0]); }
    if step.Install? { assert PlaceOk(s, s.pc[c].t); }
    ReapQuiet(s, s', c);
  }

  lemma StopReaps(s: State, step: Step)
    requires PlaceInv(s) && ReapInv(s) && Enabled(s, step) && Scheduling(step) && !Starting(step) && !step.Dispose?
    ensures ReapInv(Apply(s, step))
  {
    var c, s' := step.c, Apply(s, step);
    assert CpuOk(s, c);
    if s.current[c].Some? { assert PlaceOk(s, s.current[c].value); }
    ReapQuiet(s, s', c);
  }

  lemma SeekReaps(s: State, step: Step)
    requires PlaceInv(s) && ClaimInv(s) && ReapInv(s) && Enabled(s, step)
    requires step.WakeBegin? || step.WakeOne? || step.WakeEnd? || step.TimerBegin? || step.TimerOne? || step.TimerEnd?
    ensures ReapInv(Apply(s, step))
  {
    ReapQuiet(s, Apply(s, step), step.c);
  }

  lemma RequeueReaps(s: State, step: Step)
    requires PlaceInv(s) && ReapInv(s) && Enabled(s, step)
    requires (step.RequeueBegin? || step.RequeueOne? || step.RequeueEnd?)
    ensures ReapInv(Apply(s, step))
  {
    ReapQuiet(s, Apply(s, step), step.c);
  }

  lemma RelinkReaps(s: State, step: Step)
    requires ClaimInv(s) && ReapInv(s) && Enabled(s, step) && (step.Relink? || step.Unmove?)
    ensures ReapInv(Apply(s, step))
  {
    assert HandOk(s, step.c);
    ReapQuiet(s, Apply(s, step), step.c);
  }

  lemma FinishReaps(s: State, c: nat, q: nat)
    requires PlaceInv(s) && ClaimInv(s) && ReapInv(s) && Enabled(s, Finish(c, q))
    ensures ReapInv(FinishStep(s, c, q))
  {
    assert HandOk(s, c) && CpuOk(s, c);
    if s.pc[c].held != [] { assert s.pc[c].held[0] in Held(s.pc[c]); }
    ReapQuiet(s, FinishStep(s, c, q), c);
  }

  lemma DestroyReaps(s: State, step: Step)
    requires PlaceInv(s) && ReapInv(s) && Enabled(s, step) && (step.Dispose? || step.ReapBegin?)
    requires step.ReapBegin? ==> s.th[step.t].proc in s.dead
    ensures ReapInv(Apply(s, step))
  {
    assert ReapOk(s, step.c);
    if step.ReapBegin? { assert PlaceOk(s, step.t); }
    ReapFrame(s, Apply(s, step), step.c);
  }

  lemma ReapReaps(s: State, c: nat)
    requires PlaceInv(s) && ReapInv(s) && Enabled(s, ReapStep(c))
    ensures ReapInv(ReapNext(s, c))
  {
    assert ReapOk(s, c) && PlaceOk(s, s.pc[c].t);
    ReapFrame(s, ReapNext(s, c), c);
  }

  lemma ReapsKept(s: State, step: Step)
    requires ClaimInv(s) && PlaceInv(s) && ReapInv(s) && Enabled(s, step)
    requires (step.ReapBegin? ==> s.th[step.t].proc in s.dead)
    ensures ReapInv(Apply(s, step))
  {
    if step.Tick? || step.Kill? {
      forall d | 0 <= d < |s.pc| ensures ReapOk(Apply(s, step), d) { assert ReapOk(s, d); }
    } else if step.Finish? {
      FinishReaps(s, step.c, step.q);
    } else if step.WakeBegin? || step.WakeOne? || step.WakeEnd? || step.TimerBegin? || step.TimerOne? ||
      step.TimerEnd? {
      SeekReaps(s, step);
    } else if step.RequeueBegin? || step.RequeueOne? || step.RequeueEnd? {
      RequeueReaps(s, step);
    } else if step.Relink? || step.Unmove? {
      RelinkReaps(s, step);
    } else if step.ReapBegin? || step.Dispose? {
      DestroyReaps(s, step);
    } else if step.ReapStep? {
      ReapReaps(s, step.c);
    } else if Starting(step) {
      StartReaps(s, step);
    } else {
      StopReaps(s, step);
    }
  }

  // -------------------------------------------------------------------------
  // Locks and time
  // -------------------------------------------------------------------------

  lemma LockFrame(s: State, s': State, c: nat)
    requires LockInv(s) && c < |s.pc| && |s'.pc| == |s.pc| && s'.hash == s.hash
    requires forall d :: 0 <= d < |s.pc| && d != c ==> s'.pc[d] == s.pc[d]
    requires forall b :: HasBucket(s'.pc[c], s.hash, b) ==> HasBucket(s.pc[c], s.hash, b) || BucketFree(s, b)
    ensures LockInv(s')
  {
  }

  lemma TakeLocks(s: State, step: Step)
    requires Wf(s) && LockInv(s) && Enabled(s, step)
    requires step.WakeBegin? || step.WakeOne? || step.RequeueBegin? || step.RequeueOne? || step.Relink? || step.Unmove?
    ensures LockInv(Apply(s, step))
  {
    LockFrame(s, Apply(s, step), step.c);
  }

  lemma RunLocks(s: State, step: Step)
    requires Wf(s) && LockInv(s) && Enabled(s, step)
    requires Scheduling(step)
    ensures LockInv(Apply(s, step))
  {
    LockFrame(s, Apply(s, step), step.c);
  }

  lemma DropLocks(s: State, step: Step)
    requires Wf(s) && LockInv(s) && Enabled(s, step)
    requires step.WakeEnd? || step.TimerBegin? || step.TimerOne? || step.TimerEnd? || step.RequeueEnd? ||
      step.ReapBegin?
    ensures LockInv(Apply(s, step))
  {
    LockFrame(s, Apply(s, step), step.c);
  }

  lemma LoneLocks(s: State, step: Step)
    requires Wf(s) && LockInv(s) && Enabled(s, step) && (step.ReapStep? || step.Finish?)
    ensures LockInv(Apply(s, step))
  {
    LockFrame(s, Apply(s, step), step.c);
  }

  lemma LocksKept(s: State, step: Step)
    requires Wf(s) && LockInv(s) && Enabled(s, step)
    ensures LockInv(Apply(s, step))
  {
    if step.Tick? || step.Kill? {
    } else if step.WakeBegin? || step.WakeOne? || step.RequeueBegin? || step.RequeueOne? || step.Relink? ||
      step.Unmove? {
      TakeLocks(s, step);
    } else if Scheduling(step) {
      RunLocks(s, step);
    } else if step.ReapStep? || step.Finish? {
      LoneLocks(s, step);
    } else {
      DropLocks(s, step);
    }
  }

  lemma TimeFrame(s: State, s': State, c: nat)
    requires TimeInv(s) && c < |s.pc| && |s'.pc| == |s.pc| && |s.th| <= |s'.th| && s'.clock == s.clock
    requires forall d :: 0 <= d < |s.pc| && d != c ==> s'.pc[d] == s.pc[d]
    requires forall t :: 0 <= t < |s.th| ==> s'.th[t].due == s.th[t].due
    requires forall t :: 0 <= t < |s'.th| && s'.th[t].result.TimedOut? ==>
               (t < |s.th| && s.th[t].result.TimedOut?) || Expired(s'.th[t], s.clock)
    requires LateOk(s', c)
    ensures TimeInv(s')
  {
    forall d | 0 <= d < |s.pc| ensures LateOk(s', d) { assert LateOk(s, d); }
  }

  lemma StartTimes(s: State, step: Step)
    requires Wf(s) && TimeInv(s) && Enabled(s, step) && Starting(step)
    ensures TimeInv(Apply(s, step))
  {
    assert LateOk(s, step.c);
    TimeFrame(s, Apply(s, step), step.c);
  }

  lemma StopTimes(s: State, step: Step)
    requires Wf(s) && TimeInv(s) && Enabled(s, step) && Scheduling(step) && !Starting(step) && !step.Park?
    ensures TimeInv(Apply(s, step))
  {
    assert LateOk(s, step.c);
    TimeFrame(s, Apply(s, step), step.c);
  }

  lemma SeekTimes(s: State, step: Step)
    requires Wf(s) && TimeInv(s) && ClaimInv(s) && Enabled(s, step)
    requires step.WakeBegin? || step.WakeOne? || step.WakeEnd? || step.TimerBegin? || step.TimerOne? || step.TimerEnd?
    ensures TimeInv(Apply(s, step))
  {
    if step.TimerOne? {
      ExpireTimes(s, step.c, step.e);
    } else {
      assert LateOk(s, step.c);
      TimeFrame(s, Apply(s, step), step.c);
    }
  }

  lemma ExpireTimes(s: State, c: nat, e: Deadline)
    requires Wf(s) && TimeInv(s) && ClaimInv(s) && Enabled(s, TimerOne(c, e))
    ensures TimeInv(Apply(s, TimerOne(c, e)))
  {
    assert LateOk(s, c) && EntryOk(s, e) && ClaimOk(s, e.tid);
    TimeFrame(s, Apply(s, TimerOne(c, e)), c);
  }

  lemma MoveTimes(s: State, step: Step)
    requires Wf(s) && TimeInv(s) && Enabled(s, step)
    requires step.RequeueBegin? || step.RequeueOne? || step.RequeueEnd? || step.Relink? || step.Unmove?
    ensures TimeInv(Apply(s, step))
  {
    TimeFrame(s, Apply(s, step), step.c);
  }

  lemma ReapTimes(s: State, step: Step)
    requires Wf(s) && TimeInv(s) && Enabled(s, step) && (step.ReapBegin? || step.ReapStep?)
    ensures TimeInv(Apply(s, step))
  {
    TimeFrame(s, Apply(s, step), step.c);
  }

  lemma FinishTimes(s: State, c: nat, q: nat)
    requires Wf(s) && TimeInv(s) && Enabled(s, Finish(c, q))
    ensures TimeInv(FinishStep(s, c, q))
  {
    assert LateOk(s, c);
    var s' := FinishStep(s, c, q);
    assert LateOk(s', c) by {
      if s'.pc[c].Finishing? && s'.pc[c].late {
        forall t | t in s'.pc[c].held ensures t < |s.th| && Expired(s'.th[t], s.clock) { assert t in s.pc[c].held; }
      }
    }
    TimeFrame(s, s', c);
  }

  /** A new wait starts with no result, and nobody still holds the last one. */
  lemma ParkTimes(s: State, c: nat)
    requires Wf(s) && TimeInv(s) && ClaimInv(s) && PlaceInv(s) && Enabled(s, Park(c))
    ensures TimeInv(ParkedAt(s, c))
  {
    var t, s' := s.current[c].value, ParkedAt(s, c);
    assert CpuOk(s, c) && PlaceOk(s, t);
    RunningIsFree(s, t);
    forall h | 0 <= h < |s.pc| ensures LateOk(s', h) { assert LateOk(s, h); }
  }

  lemma TimesKept(s: State, step: Step)
    requires TimeInv(s) && ClaimInv(s) && PlaceInv(s) && Enabled(s, step)
    ensures TimeInv(Apply(s, step))
  {
    if step.Tick? || step.Kill? {
      forall d | 0 <= d < |s.pc| ensures LateOk(Apply(s, step), d) { assert LateOk(s, d); }
    } else if step.Finish? {
      FinishTimes(s, step.c, step.q);
    } else if step.Park? {
      ParkTimes(s, step.c);
    } else if step.WakeBegin? || step.WakeOne? || step.WakeEnd? || step.TimerBegin? || step.TimerOne? ||
      step.TimerEnd? {
      SeekTimes(s, step);
    } else if Starting(step) {
      StartTimes(s, step);
    } else if Scheduling(step) {
      StopTimes(s, step);
    } else if step.ReapBegin? || step.ReapStep? {
      ReapTimes(s, step);
    } else {
      MoveTimes(s, step);
    }
  }

  // -------------------------------------------------------------------------
  // Runs
  // -------------------------------------------------------------------------

  ghost predicate Runs(s: State, steps: seq<Step>)
    requires Wf(s)
    decreases |steps|
  {
    steps == [] || (Enabled(s, steps[0]) && Runs(Apply(s, steps[0]), steps[1..]))
  }

  /** The step destroys no thread of a live process. */
  ghost predicate SparesLive(s: State, step: Step)
    requires Wf(s) && Enabled(s, step)
  {
    step.ReapBegin? ==> s.th[step.t].proc in s.dead
  }

  /** Every thread the run destroys is of a process that is dead when the call begins. */
  ghost predicate ReapsDead(s: State, steps: seq<Step>)
    requires Wf(s) && Runs(s, steps)
    decreases |steps|
  {
    steps == [] || (SparesLive(s, steps[0]) && ReapsDead(Apply(s, steps[0]), steps[1..]))
  }

  ghost function After(s: State, steps: seq<Step>): (s': State)
    requires Wf(s) && Runs(s, steps)
    ensures Wf(s')
    decreases |steps|
  {
    if steps == [] then s else After(Apply(s, steps[0]), steps[1..])
  }

  lemma StepInv(s: State, step: Step)
    requires Inv(s) && Enabled(s, step) && SparesLive(s, step)
    ensures Inv(Apply(s, step))
  {
    ClaimsKept(s, step);
    PlacesKept(s, step);
    ReapsKept(s, step);
    LocksKept(s, step);
    TimesKept(s, step);
  }

  lemma {:induction false} RunInv(s: State, steps: seq<Step>)
    requires Inv(s) && Runs(s, steps) && ReapsDead(s, steps)
    ensures Inv(After(s, steps))
    decreases |steps|
  {
    if steps != [] {
      StepInv(s, steps[0]);
      RunInv(Apply(s, steps[0]), steps[1..]);
    }
  }

  // -------------------------------------------------------------------------
  // What holds in every reachable state
  // -------------------------------------------------------------------------

  ghost predicate Reachable(s0: State, steps: seq<Step>, s: State) {
    Init(s0) && Runs(s0, steps) && ReapsDead(s0, steps) && s == After(s0, steps)
  }

  lemma ReachInv(s0: State, steps: seq<Step>, s: State)
    requires Reachable(s0, steps, s)
    ensures Inv(s)
  {
    InitInv(s0);
    RunInv(s0, steps);
  }

  ghost predicate OneCpu(s: State)
    requires Wf(s)
  {
    forall c, d :: 0 <= c < d < |s.pc| && s.current[c].Some? ==> s.current[d] != s.current[c]
  }

  ghost predicate OneQueue(s: State)
    requires Wf(s)
  {
    && (forall c :: 0 <= c < |s.pc| ==> NoDup(s.queue[c]))
    && (forall c, d, t :: 0 <= c < d < |s.pc| && t in s.queue[c] ==> t !in s.queue[d])
  }

  /** The only thread a queue can hold whose save is in flight is the one its own CPU is switching out. */
  ghost predicate QueuedSaved(s: State)
    requires Wf(s)
  {
    forall c: nat, t :: c < |s.pc| && t in s.queue[c] ==> SavedAt(s, c, t)
  }

  ghost predicate SavedAt(s: State, c: nat, t: nat)
    requires Wf(s) && c < |s.pc|
  {
    && t < |s.th| && s.th[t].status.Runnable?
    && (s.th[t].onCpu ==> s.current[c] == Some(t) && s.pc[c].Leaving?)
    && (forall d :: 0 <= d < |s.pc| && s.current[d] == Some(t) ==> s.th[t].onCpu)
  }

  lemma CurrentAt(s: State, c: nat)
    requires PlaceInv(s) && c < |s.pc| && s.current[c].Some?
    ensures s.current[c].value < |s.th| && OnIt(s.th[s.current[c].value].place, c) && s.th[s.current[c].value].onCpu
  {
    assert CpuOk(s, c) && PlaceOk(s, s.current[c].value);
  }

  lemma QueuedAt(s: State, c: nat, t: nat)
    requires PlaceInv(s) && c < |s.pc| && t in s.queue[c]
    ensures t < |s.th| && s.th[t].status.Runnable? && (s.th[t].place == Queued(c) || s.th[t].place == YieldOut(c))
    ensures s.th[t].onCpu ==> s.current[c] == Some(t) && s.pc[c].Leaving?
  {
    assert CpuOk(s, c) && PlaceOk(s, t);
  }

  lemma RunsOnce(s0: State, steps: seq<Step>, s: State)
    requires Reachable(s0, steps, s)
    ensures OneCpu(s) && OneQueue(s) && QueuedSaved(s)
  {
    ReachInv(s0, steps, s);
    PlacedOnce(s);
  }

  lemma PlacedOnce(s: State)
    requires PlaceInv(s)
    ensures OneCpu(s) && OneQueue(s) && QueuedSaved(s)
  {
    forall c, d | 0 <= c < d < |s.pc| && s.current[c].Some? ensures s.current[d] != s.current[c] {
      CurrentAt(s, c);
      if s.current[d].Some? { CurrentAt(s, d); }
    }
    forall c | 0 <= c < |s.pc| ensures NoDup(s.queue[c]) { assert CpuOk(s, c); }
    forall c, d, t | 0 <= c < d < |s.pc| && t in s.queue[c] ensures t !in s.queue[d] {
      QueuedAt(s, c, t);
      assert CpuOk(s, d);
    }
    forall c: nat, t | c < |s.pc| && t in s.queue[c] ensures SavedAt(s, c, t) {
      QueuedAt(s, c, t);
      forall d | 0 <= d < |s.pc| && s.current[d] == Some(t) ensures s.th[t].onCpu { CurrentAt(s, d); }
    }
  }

  /** Thread `t` is popped or about to be installed by CPU `c`. */
  ghost predicate Dispatching(s: State, c: nat, t: nat)
    requires Wf(s)
  {
    (Enabled(s, Dispatch(c)) && s.queue[c][0] == t) || (Enabled(s, Install(c)) && s.pc[c].t == t)
  }

  /** A thread that is dispatched has its context fully saved and no claim on it, up to the store of on_cpu. */
  lemma DispatchSafe(s0: State, steps: seq<Step>, s: State, c: nat, t: nat)
    requires Reachable(s0, steps, s) && Dispatching(s, c, t)
    ensures t < |s.th| && !s.th[t].onCpu && s.th[t].ws.Idle?
    ensures forall d :: 0 <= d < |s.pc| ==>
              s.current[d] != Some(t) && HandsOff(s.pc[d], t) && (d != c ==> t !in s.queue[d])
  {
    ReachInv(s0, steps, s);
    assert CpuOk(s, c);
    if Enabled(s, Dispatch(c)) { assert s.queue[c][0] in s.queue[c]; }
    assert PlaceOk(s, t);
    RunningIsFree(s, t);
    forall d | 0 <= d < |s.pc| ensures s.current[d] != Some(t) && (d != c ==> t !in s.queue[d]) { assert CpuOk(s, d); }
  }

  /** Each waiting thread: its one node, its deadline entry, its one winner. */
  ghost predicate WaitOk(s: State, t: nat)
    requires t < |s.th|
  {
    var x := s.th[t];
    && (forall k :: k in s.nodes && s.nodes[k] == t ==> k == x.key)
    && (forall e :: e in s.entries && e.tid == t ==> e == Deadline(x.dcpu, x.due, t) && !x.ws.Idle? && !x.ws.Reapable?)
    && ((x.ws.Parked? || x.ws.Moving?) && x.due != 0 ==> Deadline(x.dcpu, x.due, t) in s.entries)
    && (x.ws.Parked? ==> x.key in s.nodes && s.nodes[x.key] == t && forall c :: 0 <= c < |s.pc| ==>
          HandsOff(s.pc[c], t))
    && (x.ws.Claimed? ==> exists c :: 0 <= c < |s.pc| && Holds(s.pc[c], t) &&
                                      forall d :: 0 <= d < |s.pc| && d != c ==> HandsOff(s.pc[d], t))
    && (x.ws.Moving? ==> exists c :: 0 <= c < |s.pc| && s.pc[c].Relinking? && s.pc[c].t == t &&
                                     forall d :: 0 <= d < |s.pc| && d != c ==>
                                       HandsOff(s.pc[d], t) &&
                                       !HasBucket(s.pc[d], s.hash, s.hash(s.pc[c].from)) &&
                                         !HasBucket(s.pc[d], s.hash, s.hash(s.pc[c].to)))
  }

  lemma WaitersAccounted(s0: State, steps: seq<Step>, s: State, t: nat)
    requires Reachable(s0, steps, s) && t < |s.th|
    ensures WaitOk(s, t)
  {
    ReachInv(s0, steps, s);
    var x := s.th[t];
    assert ClaimOk(s, t);
    forall k | k in s.nodes && s.nodes[k] == t ensures k == x.key { assert NodeOk(s, k); }
    forall e | e in s.entries && e.tid == t ensures e == Deadline(x.dcpu, x.due, t) { assert EntryOk(s, e); }
    if !x.ws.Idle? {
      if x.owner.Some? { NotHeldElsewhere(s, t, x.owner.value); } else { NotHeldElsewhere(s, t, |s.pc|); }
    }
    if x.ws.Moving? {
      var c := x.owner.value;
      forall d | 0 <= d < |s.pc| && d != c
        ensures !HasBucket(s.pc[d], s.hash, s.hash(s.pc[c].from)) && !HasBucket(s.pc[d], s.hash, s.hash(s.pc[c].to))
      {
        assert HasBucket(s.pc[c], s.hash, s.hash(s.pc[c].from)) && HasBucket(s.pc[c], s.hash, s.hash(s.pc[c].to));
      }
    }
  }

  /** The step is thread `t` publishing a wait. */
  ghost predicate Parks(s: State, step: Step, t: nat) {
    step.Park? && step.c < |s.current| && s.current[step.c] == Some(t)
  }

  ghost predicate SameDue(s: State, s': State, t: nat) {
    t < |s.th| && t < |s'.th| && s'.th[t].due == s.th[t].due && s'.th[t].dcpu == s.th[t].dcpu
  }

  lemma DueStep(s: State, step: Step, t: nat)
    requires Wf(s) && Enabled(s, step) && t < |s.th| && !Parks(s, step, t)
    ensures SameDue(s, Apply(s, step), t)
  {
    if Starting(step) {
      DueStarts(s, step, t);
    } else if Scheduling(step) {
      DueStops(s, step, t);
    } else if step.Finish? || step.ReapStep? {
      DueEnds(s, step, t);
    } else {
      DueSeeks(s, step, t);
    }
  }

  lemma DueStarts(s: State, step: Step, t: nat)
    requires Wf(s) && Enabled(s, step) && t < |s.th| && Starting(step)
    ensures SameDue(s, Apply(s, step), t)
  {
  }

  lemma DueStops(s: State, step: Step, t: nat)
    requires Wf(s) && Enabled(s, step) && t < |s.th| && !Parks(s, step, t) && Scheduling(step) && !Starting(step)
    ensures SameDue(s, Apply(s, step), t)
  {
  }

  lemma DueEnds(s: State, step: Step, t: nat)
    requires Wf(s) && Enabled(s, step) && t < |s.th| && (step.Finish? || step.ReapStep?)
    ensures SameDue(s, Apply(s, step), t)
  {
  }

  lemma DueSeeks(s: State, step: Step, t: nat)
    requires Wf(s) && Enabled(s, step) && t < |s.th| && !Scheduling(step) && !step.Finish? && !step.ReapStep?
    ensures SameDue(s, Apply(s, step), t)
  {
  }

  /** Thread `t` waits, claimed or not, before each of the steps. */
  ghost predicate WaitsThrough(s: State, steps: seq<Step>, t: nat)
    requires Wf(s) && Runs(s, steps)
    decreases |steps|
  {
    steps == [] || (t < |s.th| && !s.th[t].ws.Idle? && WaitsThrough(Apply(s, steps[0]), steps[1..], t))
  }

  /** The deadline a wait was given stands until the wait is over, through every wake, requeue, expiry
      and reap. */
  lemma {:induction false} DeadlineStands(s: State, steps: seq<Step>, t: nat)
    requires Inv(s) && Runs(s, steps) && ReapsDead(s, steps) && t < |s.th| && WaitsThrough(s, steps, t)
    ensures SameDue(s, After(s, steps), t)
    decreases |steps|
  {
    if steps != [] {
      var step := steps[0];
      if step.Park? { assert CpuOk(s, step.c) && PlaceOk(s, s.current[step.c].value); }
      DueStep(s, step, t);
      StepInv(s, step);
      DeadlineStands(Apply(s, step), steps[1..], t);
    }
  }

  /** The kernel's own assertions, at the steps that make them. */
  ghost predicate AssertsHold(s: State, step: Step)
    requires Wf(s) && Enabled(s, step)
  {
    match step
    case Park(c) =>
      Key(s.pc[c].addr, s.nextSeq) !in s.nodes && forall e :: e in s.entries ==> e.tid != s.current[c].value
    case Relink(c) =>
      && s.th[s.pc[c].t].key in s.nodes && s.nodes[s.th[s.pc[c].t].key] == s.pc[c].t
      && Key(s.pc[c].to, s.nextSeq) !in s.nodes
    case Finish(c, _) =>
      s.pc[c].held != [] ==>
        var x := s.th[s.pc[c].held[0]];
        && (s.pc[c].stage.Unlink? ==> x.key in s.nodes && s.nodes[x.key] == s.pc[c].held[0])
        && (s.pc[c].stage.Cancel? && x.deadline != 0 ==> Deadline(x.dcpu, x.deadline, s.pc[c].held[0]) in s.entries)
        && (s.pc[c].stage.SetRunnable? ==> x.status.Blocked? && x.ws.Claimed?)
    case ReapStep(c) =>
      && (s.pc[c].reap.Unhook? ==> s.th[s.pc[c].t].key in s.nodes && s.nodes[s.th[s.pc[c].t].key] == s.pc[c].t)
      && (s.pc[c].reap.Disarm? && s.th[s.pc[c].t].deadline != 0 ==>
            Deadline(s.th[s.pc[c].t].dcpu, s.th[s.pc[c].t].deadline, s.pc[c].t) in s.entries)
    case _ => true
  }

  lemma NoAssertFires(s0: State, steps: seq<Step>, s: State, step: Step)
    requires Reachable(s0, steps, s) && Enabled(s, step)
    ensures AssertsHold(s, step)
  {
    ReachInv(s0, steps, s);
    if step.Park? {
      var t := s.current[step.c].value;
      assert CpuOk(s, step.c) && PlaceOk(s, t) && ClaimOk(s, t);
      forall k | k in s.nodes ensures k.num < s.nextSeq { assert NodeOk(s, k); }
      forall e | e in s.entries ensures e.tid != t { assert EntryOk(s, e); }
    } else if step.Relink? {
      RelinkKept(s, step.c);
    } else if step.ReapStep? {
      assert ReapOk(s, step.c) && ClaimOk(s, s.pc[step.c].t);
      ReapKept(s, step.c);
    } else if step.Finish? && s.pc[step.c].held != [] {
      assert HandOk(s, step.c) && s.pc[step.c].held[0] in Held(s.pc[step.c]) && ClaimOk(s, s.pc[step.c].held[0]);
      if s.pc[step.c].stage.Unlink? { FinishUnlinkKept(s, step.c, step.q); }
      if s.pc[step.c].stage.SetRunnable? { RunnablePlace(s, step.c, step.q); }
    }
  }

  // -------------------------------------------------------------------------
  // Disposal
  // -------------------------------------------------------------------------

  /** The step ends thread `t`: it exits, is culled at its dispatch, or is destroyed. */
  ghost predicate Ends(s: State, step: Step, t: nat)
    requires Wf(s) && Enabled(s, step)
  {
    || (step.Exit? && s.current[step.c].value == t)
    || (step.Dispatch? && s.queue[step.c][0] == t && s.th[t].proc in s.dead)
    || (step.ReapStep? && s.pc[step.c].t == t && (s.pc[step.c].reap.Free? || s.pc[step.c].reap.FreeReapable?))
  }

  /** It does so while the CPU that last switched the thread out has yet to load its status. */
  ghost predicate Overruns(s: State, step: Step)
    requires Wf(s) && Enabled(s, step)
  {
    exists d :: 0 <= d < |s.pc| && s.pc[d].Switched? && Ends(s, step, s.pc[d].t)
  }

  ghost predicate Prompt(s: State, steps: seq<Step>)
    requires Wf(s) && Runs(s, steps)
    decreases |steps|
  {
    steps == [] || (!Overruns(s, steps[0]) && Prompt(Apply(s, steps[0]), steps[1..]))
  }

  /** CPU `c` is about to dispose of a thread that is not its own, or to read one that is freed. */
  ghost predicate Misuses(s: State, c: nat)
    requires c < |s.pc|
  {
    || (s.pc[c].Switched? && s.pc[c].t < |s.th| && s.th[s.pc[c].t].freed)
    || (s.pc[c].Exited? && s.pc[c].t < |s.th| && s.th[s.pc[c].t].place != Disposing(c))
  }

  ghost predicate TidyAt(s: State, c: nat)
    requires c < |s.pc|
  {
    && (s.pc[c].Switched? ==>
          s.pc[c].t < |s.th| && !s.th[s.pc[c].t].freed &&
            (s.th[s.pc[c].t].status.Dead? ==> s.th[s.pc[c].t].place == Disposing(c)))
    && (s.pc[c].Exited? ==> s.pc[c].t < |s.th| && !s.th[s.pc[c].t].freed && s.th[s.pc[c].t].place == Disposing(c))
  }

  ghost predicate Tidy(s: State) {
    && (forall c :: 0 <= c < |s.pc| ==> TidyAt(s, c))
    && (forall t :: 0 <= t < |s.th| && s.th[t].freed ==> s.th[t].place == Gone)
  }

  /** A step of CPU `c` frees nobody, and ends nobody whose status is still to be loaded. */
  ghost predicate Gentle(s: State, s': State, c: nat) {
    && c < |s.pc| && |s'.pc| == |s.pc| && |s.th| <= |s'.th|
    && (forall d :: 0 <= d < |s.pc| && d != c ==> s'.pc[d] == s.pc[d])
    && (forall t :: |s.th| <= t < |s'.th| ==> !s'.th[t].freed)
    && (forall t :: 0 <= t < |s.th| ==> s'.th[t].freed == s.th[t].freed)
    && (forall t :: 0 <= t < |s.th| && (s.th[t].place == Gone || s.th[t].place.Disposing?) ==>
          s'.th[t].place == s.th[t].place)
    && (forall d :: 0 <= d < |s.pc| && s.pc[d].Switched? && s.pc[d].t < |s.th| && s'.th[s.pc[d].t].status.Dead? ==>
          s.th[s.pc[d].t].status.Dead?)
  }

  lemma GentleTidy(s: State, s': State, c: nat)
    requires Tidy(s) && Gentle(s, s', c) && TidyAt(s', c)
    ensures Tidy(s')
  {
    forall d | 0 <= d < |s'.pc| ensures TidyAt(s', d) { assert TidyAt(s, d); }
  }

  lemma StartTidy(s: State, step: Step)
    requires PlaceInv(s) && Tidy(s) && Enabled(s, step) && Starting(step) && !Overruns(s, step)
    ensures Tidy(Apply(s, step))
  {
    var c := step.c;
    assert CpuOk(s, c);
    if s.current[c].Some? { assert PlaceOk(s, s.current[c].value); }
    if step.Install? { assert PlaceOk(s, s.pc[c].t); }
    if step.Dispatch? {
      assert s.queue[c][0] in s.queue[c] && PlaceOk(s, s.queue[c][0]);
      DispatchTidy(s, c);
    } else {
      GentleTidy(s, Apply(s, step), c);
    }
  }

  lemma DispatchTidy(s: State, c: nat)
    requires Wf(s) && Tidy(s) && Enabled(s, Dispatch(c)) && !Overruns(s, Dispatch(c))
    requires s.th[s.queue[c][0]].place.Queued?
    ensures Tidy(Dispatched(s, c))
  {
    assert s.th[s.queue[c][0]].proc in s.dead ==> Ends(s, Dispatch(c), s.queue[c][0]);
    GentleTidy(s, Dispatched(s, c), c);
  }

  lemma StopTidy(s: State, step: Step)
    requires PlaceInv(s) && Tidy(s) && Enabled(s, step) && Scheduling(step) && !Starting(step) && !step.Dispose?
    ensures Tidy(Apply(s, step))
  {
    var c := step.c;
    assert CpuOk(s, c) && TidyAt(s, c);
    if s.current[c].Some? { assert PlaceOk(s, s.current[c].value); }
    GentleTidy(s, Apply(s, step), c);
  }

  lemma SeekTidy(s: State, step: Step)
    requires Wf(s) && Tidy(s) && Enabled(s, step)
    requires step.WakeBegin? || step.WakeOne? || step.WakeEnd? || step.TimerBegin? || step.TimerOne? || step.TimerEnd?
    ensures Tidy(Apply(s, step))
  {
    GentleTidy(s, Apply(s, step), step.c);
  }

  lemma MoveTidy(s: State, step: Step)
    requires Wf(s) && Tidy(s) && Enabled(s, step)
    requires step.RequeueBegin? || step.RequeueOne? || step.RequeueEnd? || step.Relink? || step.Unmove? ||
      step.ReapBegin?
    ensures Tidy(Apply(s, step))
  {
    GentleTidy(s, Apply(s, step), step.c);
  }

  lemma FinishTidy(s: State, c: nat, q: nat)
    requires ClaimInv(s) && PlaceInv(s) && Tidy(s) && Enabled(s, Finish(c, q))
    ensures Tidy(FinishStep(s, c, q))
  {
    FinishGentle(s, c, q);
    GentleTidy(s, FinishStep(s, c, q), c);
  }

  lemma FinishGentle(s: State, c: nat, q: nat)
    requires ClaimInv(s) && PlaceInv(s) && Enabled(s, Finish(c, q))
    ensures Gentle(s, FinishStep(s, c, q), c) && !FinishStep(s, c, q).pc[c].Switched?
    ensures !FinishStep(s, c, q).pc[c].Exited?
  {
    if s.pc[c].held != [] {
      assert CpuOk(s, c);
      FinishOne(s, c, q);
    }
  }

  lemma FinishOne(s: State, c: nat, q: nat)
    requires Wf(s) && Enabled(s, Finish(c, q)) && s.pc[c].held != []
    ensures |FinishStep(s, c, q).th| == |s.th|
    ensures forall u :: 0 <= u < |s.th| && u != s.pc[c].held[0] ==> FinishStep(s, c, q).th[u] == s.th[u]
  {
  }

  lemma DisposeTidy(s: State, c: nat)
    requires PlaceInv(s) && Tidy(s) && Enabled(s, Dispose(c))
    ensures Tidy(Disposed(s, c))
  {
    var s' := Disposed(s, c);
    assert TidyAt(s, c) && CpuOk(s, c);
    forall d | 0 <= d < |s'.pc| ensures TidyAt(s', d) { assert TidyAt(s, d); }
  }

  lemma ReapTidy(s: State, c: nat)
    requires Inv(s) && Tidy(s) && Enabled(s, ReapStep(c)) && !Overruns(s, ReapStep(c))
    ensures Tidy(ReapNext(s, c))
  {
    var s', t := ReapNext(s, c), s.pc[c].t;
    if s.pc[c].reap.Free? || s.pc[c].reap.FreeReapable? {
      VictimOff(s, c);
      assert Ends(s, ReapStep(c), t);
      forall d | 0 <= d < |s'.pc| ensures TidyAt(s', d) { assert TidyAt(s, d); }
    } else {
      GentleTidy(s, s', c);
    }
  }

  lemma TidyKept(s: State, step: Step)
    requires Inv(s) && Tidy(s) && Enabled(s, step) && !Overruns(s, step)
    ensures Tidy(Apply(s, step))
  {
    if step.Tick? || step.Kill? {
      forall d | 0 <= d < |s.pc| ensures TidyAt(Apply(s, step), d) { assert TidyAt(s, d); }
    } else if step.Dispose? {
      DisposeTidy(s, step.c);
    } else if Starting(step) {
      StartTidy(s, step);
    } else if Scheduling(step) {
      StopTidy(s, step);
    } else if step.Finish? {
      FinishTidy(s, step.c, step.q);
    } else if step.ReapStep? {
      ReapTidy(s, step.c);
    } else if step.WakeBegin? || step.WakeOne? || step.WakeEnd? || step.TimerBegin? || step.TimerOne? ||
      step.TimerEnd? {
      SeekTidy(s, step);
    } else {
      MoveTidy(s, step);
    }
  }

  lemma {:induction false} RunsTidy(s: State, steps: seq<Step>)
    requires Inv(s) && Tidy(s) && Runs(s, steps) && ReapsDead(s, steps) && Prompt(s, steps)
    ensures Inv(After(s, steps)) && Tidy(After(s, steps))
    decreases |steps|
  {
    if steps != [] {
      StepInv(s, steps[0]);
      TidyKept(s, steps[0]);
      RunsTidy(Apply(s, steps[0]), steps[1..]);
    }
  }

  lemma {:induction false} Snoc(s: State, steps: seq<Step>, e: Step)
    requires Wf(s) && Runs(s, steps) && Enabled(After(s, steps), e)
    ensures Runs(s, steps + [e]) && After(s, steps + [e]) == Apply(After(s, steps), e)
    ensures ReapsDead(s, steps) && SparesLive(After(s, steps), e) ==> ReapsDead(s, steps + [e])
    ensures Prompt(s, steps) && !Overruns(After(s, steps), e) ==> Prompt(s, steps + [e])
    decreases |steps|
  {
    if steps == [] {
      var z := Apply(s, e);
      assert steps + [e] == [e] && [e][1..] == [];
      assert Runs(z, []) && ReapsDead(z, []) && Prompt(z, []) && After(z, []) == z;
    } else {
      Snoc(Apply(s, steps[0]), steps[1..], e);
      assert (steps + [e])[1..] == steps[1..] + [e];
    }
  }

  lemma ReachTidy(s0: State, steps: seq<Step>, s: State)
    requires Reachable(s0, steps, s) && Prompt(s0, steps)
    ensures Inv(s) && Tidy(s)
  {
    InitInv(s0);
    RunsTidy(s0, steps);
  }

  /** Nothing refers to thread `t`. */
  ghost predicate Unreferenced(s: State, t: nat)
    requires Wf(s)
  {
    && (forall k :: k in s.nodes ==> s.nodes[k] != t)
    && (forall e :: e in s.entries ==> e.tid != t)
    && (forall c :: 0 <= c < |s.pc| ==>
          t !in s.queue[c] && s.current[c] != Some(t) && HandsOff(s.pc[c], t) && !Names(s.pc[c], t))
  }

  predicate Names(pc: Pc, t: nat) {
    (pc.Installing? || pc.Switched? || pc.Exited? || pc.Reaping?) && pc.t == t
  }

  lemma FreedClean(s: State, t: nat)
    requires Inv(s) && Tidy(s) && t < |s.th| && s.th[t].freed
    ensures !s.th[t].onCpu && Unreferenced(s, t)
  {
    assert PlaceOk(s, t) && ClaimOk(s, t);
    RunningIsFree(s, t);
    forall k | k in s.nodes ensures s.nodes[k] != t { assert NodeOk(s, k); }
    forall e | e in s.entries ensures e.tid != t { assert EntryOk(s, e); }
    forall c | 0 <= c < |s.pc| ensures t !in s.queue[c] && s.current[c] != Some(t) && !Names(s.pc[c], t) {
      assert CpuOk(s, c) && ReapOk(s, c) && TidyAt(s, c);
    }
  }

  /** A step leaves alone the threads its CPU does not refer to. */
  lemma UntouchedStep(s: State, step: Step, t: nat)
    requires Wf(s) && Enabled(s, step) && t < |s.th| && Unreferenced(s, t)
    ensures |s.th| <= |Apply(s, step).th| && Apply(s, step).th[t] == s.th[t]
  {
    if step.Finish? {
      UntouchedFinish(s, step.c, step.q, t);
    } else if Scheduling(step) {
      UntouchedRun(s, step, t);
    } else if step.ReapBegin? || step.ReapStep? || step.Tick? || step.Kill? {
      UntouchedReap(s, step, t);
    } else {
      UntouchedSeek(s, step, t);
    }
  }

  lemma UntouchedReap(s: State, step: Step, t: nat)
    requires Wf(s) && Enabled(s, step) && t < |s.th| && Unreferenced(s, t)
    requires (step.ReapBegin? || step.ReapStep? || step.Tick? || step.Kill?)
    ensures |s.th| == |Apply(s, step).th| && Apply(s, step).th[t] == s.th[t]
  {
  }

  lemma UntouchedSeek(s: State, step: Step, t: nat)
    requires Wf(s) && Enabled(s, step) && t < |s.th| && Unreferenced(s, t) && !step.Finish? && !Scheduling(step)
    requires !step.ReapBegin? && !step.ReapStep? && !step.Tick? && !step.Kill?
    ensures |s.th| == |Apply(s, step).th| && Apply(s, step).th[t] == s.th[t]
  {
  }

  lemma UntouchedRun(s: State, step: Step, t: nat)
    requires Wf(s) && Enabled(s, step) && t < |s.th| && Unreferenced(s, t) && Scheduling(step)
    ensures |s.th| <= |Apply(s, step).th| && Apply(s, step).th[t] == s.th[t]
  {
    if Starting(step) { UntouchedStart(s, step, t); }
  }

  lemma UntouchedStart(s: State, step: Step, t: nat)
    requires Wf(s) && Enabled(s, step) && t < |s.th| && Unreferenced(s, t) && Starting(step)
    ensures |s.th| <= |Apply(s, step).th| && Apply(s, step).th[t] == s.th[t]
  {
    if step.Dispatch? { assert s.queue[step.c][0] in s.queue[step.c]; }
  }

  lemma UntouchedFinish(s: State, c: nat, q: nat, t: nat)
    requires Wf(s) && Enabled(s, Finish(c, q)) && t < |s.th| && HandsOff(s.pc[c], t)
    ensures |FinishStep(s, c, q).th| == |s.th| && FinishStep(s, c, q).th[t] == s.th[t]
  {
    if s.pc[c].held != [] { assert s.pc[c].held[0] in Held(s.pc[c]); }
  }

  /** A freed thread is off-CPU, in no tree, queue or hand, and stays so: it is freed exactly once. */
  lemma {:induction false} FreedOnce(s0: State, steps: seq<Step>, s: State, more: seq<Step>, t: nat)
    requires Reachable(s0, steps, s) && Prompt(s0, steps) && Runs(s, more) && ReapsDead(s, more) && Prompt(s, more)
    requires t < |s.th| && s.th[t].freed
    ensures !s.th[t].onCpu && t < |After(s, more).th| && After(s, more).th[t] == s.th[t]
    ensures Unreferenced(After(s, more), t)
  {
    ReachTidy(s0, steps, s);
    FreedClean(s, t);
    StaysFreed(s, more, t);
  }

  lemma {:induction false} StaysFreed(s: State, more: seq<Step>, t: nat)
    requires Inv(s) && Tidy(s) && Runs(s, more) && ReapsDead(s, more) && Prompt(s, more) && t < |s.th| && s.th[t].freed
    ensures t < |After(s, more).th| && After(s, more).th[t] == s.th[t] && Unreferenced(After(s, more), t)
    decreases |more|
  {
    FreedClean(s, t);
    if more != [] {
      UntouchedStep(s, more[0], t);
      StepInv(s, more[0]);
      TidyKept(s, more[0]);
      StaysFreed(Apply(s, more[0]), more[1..], t);
    }
  }

  /** process_thread_exited asserts that the thread is in its process's index: it is. */
  lemma DisposeFinds(s0: State, steps: seq<Step>, s: State, c: nat)
    requires Reachable(s0, steps, s) && Prompt(s0, steps) && Enabled(s, Dispose(c))
    ensures !s.th[s.pc[c].t].freed && !s.th[s.pc[c].t].onCpu && s.th[s.pc[c].t].status.Dead?
    ensures forall d :: 0 <= d < |s.pc| && d != c ==> s.current[d] != Some(s.pc[c].t) && !Names(s.pc[d], s.pc[c].t)
  {
    ReachTidy(s0, steps, s);
    var t := s.pc[c].t;
    assert TidyAt(s, c) && PlaceOk(s, t);
    forall d | 0 <= d < |s.pc| && d != c ensures s.current[d] != Some(t) && !Names(s.pc[d], t) {
      assert CpuOk(s, d) && TidyAt(s, d) && ReapOk(s, d);
    }
  }

  ghost predicate LeadsToMisuse(s: State, step: Step)
    requires Wf(s) && Enabled(s, step)
  {
    exists more :: Runs(Apply(s, step), more) && ReapsDead(Apply(s, step), more) && Prompt(Apply(s, step), more) &&
                   MisusedIn(After(Apply(s, step), more))
  }

  ghost predicate MisusedIn(s: State) {
    exists c :: 0 <= c < |s.pc| && Misuses(s, c)
  }

  lemma TidyUse(s: State)
    requires Tidy(s)
    ensures !MisusedIn(s)
  {
    forall c | 0 <= c < |s.pc| ensures !Misuses(s, c) { assert TidyAt(s, c); }
  }

  /** "Freed exactly once" fails in scheduler_loop: the status of the thread just switched out is
      loaded after on_cpu is cleared, when the thread may already run elsewhere. A step does harm
      if and only if it ends a thread whose status some CPU has yet to load. */
  lemma EndExact(s0: State, steps: seq<Step>, s: State, step: Step)
    requires Reachable(s0, steps, s) && Prompt(s0, steps) && Enabled(s, step) && SparesLive(s, step)
    ensures LeadsToMisuse(s, step) <==> Overruns(s, step)
  {
    ReachTidy(s0, steps, s);
    if Overruns(s, step) {
      OverrunHarms(s, step);
    } else {
      StepInv(s, step);
      TidyKept(s, step);
      var s' := Apply(s, step);
      forall more | Runs(s', more) && ReapsDead(s', more) && Prompt(s', more) ensures !MisusedIn(After(s', more)) {
        RunsTidy(s', more);
        TidyUse(After(s', more));
      }
    }
  }

  lemma OverrunHarms(s: State, step: Step)
    requires Inv(s) && Tidy(s) && Enabled(s, step) && Overruns(s, step)
    ensures LeadsToMisuse(s, step)
  {
    var d :| 0 <= d < |s.pc| && s.pc[d].Switched? && Ends(s, step, s.pc[d].t);
    var s' := Apply(s, step);
    EndsAt(s, step, d);
    if step.ReapStep? {
      assert Misuses(s', d);
      assert Runs(s', []) && After(s', []) == s' && MisusedIn(s');
    } else {
      LateLoad(s', d);
    }
  }

  lemma EndsAt(s: State, step: Step, d: nat)
    requires Inv(s) && Tidy(s) && Enabled(s, step) && d < |s.pc| && s.pc[d].Switched? && Ends(s, step, s.pc[d].t)
    ensures Wf(Apply(s, step)) && |Apply(s, step).pc| == |s.pc| && Apply(s, step).pc[d] == s.pc[d]
    ensures s.pc[d].t < |Apply(s, step).th|
    ensures var x := Apply(s, step).th[s.pc[d].t];
            if step.ReapStep? then x.freed else x.status.Dead? && x.place != Disposing(d)
  {
    assert CpuOk(s, d);
  }

  lemma LateLoad(s: State, d: nat)
    requires Wf(s) && d < |s.pc| && s.pc[d].Switched? && s.pc[d].t < |s.th|
    requires s.th[s.pc[d].t].status.Dead? && s.th[s.pc[d].t].place != Disposing(d)
    ensures exists more :: Runs(s, more) && ReapsDead(s, more) && Prompt(s, more) && MisusedIn(After(s, more))
  {
    var e := LoadStatus(d);
    var z, more := Apply(s, e), [e];
    assert Misuses(z, d) && MisusedIn(z);
    assert more[1..] == [] && Runs(z, []) && After(z, []) == z;
    assert Runs(s, more) && After(s, more) == z;
    assert ReapsDead(z, []) && Prompt(z, []) && SparesLive(s, e) && !Overruns(s, e);
  }

  /** A wait that reports a timeout was given a deadline and the clock has reached it. */
  lemma TimeoutIsDue(s0: State, steps: seq<Step>, s: State, t: nat)
    requires Reachable(s0, steps, s) && t < |s.th| && s.th[t].result.TimedOut?
    ensures s.th[t].due != 0 && s.th[t].due <= s.clock
  {
    ReachInv(s0, steps, s);
  }
}
