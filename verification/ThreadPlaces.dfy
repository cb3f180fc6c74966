/** Where threads are: on at most one CPU or one runqueue, never dispatchable
    while a context save is in flight, and freed once, off-CPU and in no tree. */
module ThreadPlaces {
  import opened ThreadProtocol
  import opened ThreadClaims
  import opened Seqs

  ghost predicate PlaceOk(s: State, t: nat)
    requires Wf(s) && t < |s.th|
  {
    var x, n := s.th[t], |s.pc|;
    match x.place
    case Queued(q) => q < n && t in s.queue[q] && x.status.Runnable? && !x.onCpu && x.ws.Idle?
    case Picked(q) => q < n && s.pc[q].Installing? && s.pc[q].t == t && !x.onCpu && x.ws.Idle? &&
                      x.status == if s.pc[q].running then Running else Runnable
    case OnCpu(q) => q < n && s.current[q] == Some(t) && x.status.Running? && x.onCpu && x.ws.Idle? && !InWait(s.pc[q])
    case Waiting(q) => q < n && s.current[q] == Some(t) && x.status.Running? && x.onCpu &&
                       if x.ws.Idle? then s.pc[q].Parking? else s.pc[q].ParkCalled?
    case YieldOut(q) => q < n && s.current[q] == Some(t) && t in s.queue[q] && x.status.Runnable? && x.onCpu &&
                        x.ws.Idle? && s.pc[q].Leaving?
    case BlockOut(q) => q < n && s.current[q] == Some(t) && x.status.Blocked? && x.onCpu && !x.ws.Idle? &&
    s.pc[q].Leaving?
    case DeadOut(q) => q < n && s.current[q] == Some(t) && x.status.Dead? && x.onCpu && x.ws.Idle? && s.pc[q].Leaving?
    case Off => x.status.Blocked? && !x.onCpu && !x.ws.Idle?
    case InHand(q) => q < n && x.status.Runnable? && !x.onCpu && s.pc[q].Finishing? && s.pc[q].held != [] &&
                      s.pc[q].held[0] == t &&
                      if x.ws.Idle? then s.pc[q].stage.Enqueue? else s.pc[q].stage.Release?
    case Disposing(q) => q < n && x.status.Dead? && !x.onCpu && x.ws.Idle? &&
    (s.pc[q] == Switched(t) || s.pc[q] == Exited(t))
    case Gone => !x.onCpu && x.ws.Idle? && x.freed
  }

  /** The running thread has passed the dead check of a wait, or is on its way out. */
  predicate InWait(pc: Pc) {
    pc.Parking? || pc.ParkCalled? || pc.Leaving?
  }

  predicate OnIt(p: Place, q: nat) {
    p == OnCpu(q) || p == Waiting(q) || p == YieldOut(q) || p == BlockOut(q) || p == DeadOut(q)
  }

  /** The CPU runs kernel code that any thread or the idle loop may run. */
  predicate Anytime(pc: Pc) {
    pc.Waking? || pc.Timing? || pc.Finishing?
  }

  predicate ForThread(pc: Pc) {
    pc.User? || pc.Requeuing? || pc.Relinking? || pc.Reaping?
  }

  /** The CPU is in its scheduler loop, running no thread. */
  predicate Between(pc: Pc) {
    pc.Sched? || pc.Installing? || pc.Switched? || pc.Exited?
  }

  ghost predicate CpuOk(s: State, q: nat)
    requires Wf(s) && q < |s.pc|
  {
    && (s.current[q].None? ==> Between(s.pc[q]) || Anytime(s.pc[q]))
    && (s.current[q].Some? ==>
          && s.current[q].value < |s.th| && OnIt(s.th[s.current[q].value].place, q)
          && !Between(s.pc[q])
          && (s.pc[q].Parking? || s.pc[q].ParkCalled? ==> s.th[s.current[q].value].place == Waiting(q)))
    && (s.pc[q].Installing? ==> s.pc[q].t < |s.th| && s.th[s.pc[q].t].place == Picked(q))
    && (s.pc[q].Switched? ==> s.pc[q].t < |s.th|)
    && (s.pc[q].Exited? ==> s.pc[q].t < |s.th| && s.th[s.pc[q].t].status.Dead?)
    && (s.pc[q].Finishing? && s.pc[q].held != [] && s.pc[q].stage.SetRunnable? ==>
          s.pc[q].held[0] < |s.th| && s.th[s.pc[q].held[0]].place == Off)
    && (s.pc[q].Finishing? && s.pc[q].held != [] && (s.pc[q].stage.Release? || s.pc[q].stage.Enqueue?) ==>
          s.pc[q].held[0] < |s.th| && s.th[s.pc[q].held[0]].place == InHand(q))
    && NoDup(s.queue[q])
    && (forall t :: t in s.queue[q] ==> t < |s.th| && (s.th[t].place == Queued(q) || s.th[t].place == YieldOut(q)))
  }

  ghost predicate PlaceInv(s: State) {
    && Wf(s)
    && (forall t :: 0 <= t < |s.th| ==> PlaceOk(s, t))
    && (forall q :: 0 <= q < |s.pc| ==> CpuOk(s, q))
  }

  predicate SamePlace(x: Thread, y: Thread) {
    x.freed == y.freed && x.status == y.status && x.onCpu == y.onCpu && x.place == y.place && x.ws.Idle? == y.ws.Idle?
  }

  /** Kernel code between dispatch and park that moves no thread. */
  predicate Steady(pc: Pc) {
    || pc.Sched? || ForThread(pc) || pc.Waking? || pc.Timing?
    || (pc.Finishing? && (pc.held == [] || pc.stage.Unlink? || pc.stage.Cancel? || pc.stage.Decide? || pc.stage.Spin?))
  }

  lemma PlaceFrame(s: State, s': State, c: nat)
    requires PlaceInv(s) && Wf(s') && c < |s.pc| && |s'.pc| == |s.pc|
    requires s'.current == s.current && s'.queue == s.queue && |s'.th| == |s.th|
    requires forall t :: 0 <= t < |s.th| ==> SamePlace(s.th[t], s'.th[t])
    requires forall d :: 0 <= d < |s.pc| && d != c ==> s'.pc[d] == s.pc[d]
    requires s'.pc[c] == s.pc[c] || (Steady(s.pc[c]) && Steady(s'.pc[c]))
    requires s.current[c].None? ==> !ForThread(s'.pc[c])
    requires s.current[c].Some? ==> !s'.pc[c].Sched?
    ensures PlaceInv(s')
  {
    forall t | 0 <= t < |s'.th| ensures PlaceOk(s', t) { assert PlaceOk(s, t) && SamePlace(s.th[t], s'.th[t]); }
    forall q | 0 <= q < |s'.pc| ensures CpuOk(s', q) {
      assert CpuOk(s, q);
      CpuFrame(s, s', q);
    }
  }

  lemma CpuFrame(s: State, s': State, q: nat)
    requires Wf(s) && Wf(s') && |s'.pc| == |s.pc| && q < |s.pc| && CpuOk(s, q)
    requires s'.current == s.current && s'.queue == s.queue && |s'.th| == |s.th|
    requires forall t :: 0 <= t < |s.th| ==> SamePlace(s.th[t], s'.th[t])
    requires s'.pc[q] == s.pc[q] || (Steady(s.pc[q]) && Steady(s'.pc[q]))
    requires s'.pc[q] == s.pc[q] ||
      ((s.current[q].None? ==> !ForThread(s'.pc[q])) && (s.current[q].Some? ==> !s'.pc[q].Sched?))
    ensures CpuOk(s', q)
  {
  }

  /** Only thread `t` moves, by a step of CPU `c`. */
  ghost predicate OnlyMoves(s: State, s': State, c: nat, t: nat) {
    && Wf(s) && Wf(s') && c < |s.pc| && |s'.pc| == |s.pc| && t < |s.th| && |s'.th| == |s.th|
    && (forall u :: 0 <= u < |s.th| && u != t ==> SamePlace(s.th[u], s'.th[u]))
    && (forall d :: 0 <= d < |s.pc| && d != c ==> s'.pc[d] == s.pc[d] && s'.current[d] == s.current[d])
    && (forall d, u :: 0 <= d < |s.pc| && u != t ==> (u in s'.queue[d] <==> u in s.queue[d]))
    && (forall d :: 0 <= d < |s.pc| ==> NoDup(s'.queue[d]))
    && (s.current[c].Some? && s.current[c].value != t ==> s'.current[c] == s.current[c])
    && (s.th[t].status.Dead? ==> s'.th[t].status.Dead?)
  }

  /** Thread `u` is in the hands of CPU `c`'s program counter. */
  predicate AtPc(p: Place, c: nat) {
    p == InHand(c) || p == Disposing(c) || p == Picked(c)
  }

  predicate SameTurn(p: Pc, p': Pc) {
    p'.Leaving? == p.Leaving? && p'.ParkCalled? == p.ParkCalled? && p'.Parking? == p.Parking?
  }

  /** The other threads keep their places if CPU `c` had none of them in hand. */
  lemma OthersStay(s: State, s': State, c: nat, t: nat)
    requires PlaceInv(s) && OnlyMoves(s, s', c, t)
    requires forall u :: 0 <= u < |s.th| && u != t && (OnIt(s.th[u].place, c)) ==>
               SameTurn(s.pc[c], s'.pc[c])
    requires forall u :: 0 <= u < |s.th| && u != t ==> !AtPc(s.th[u].place, c)
    ensures forall u :: 0 <= u < |s.th| && u != t ==> PlaceOk(s', u)
  {
    forall u | 0 <= u < |s.th| && u != t ensures PlaceOk(s', u) {
      assert PlaceOk(s, u) && SamePlace(s.th[u], s'.th[u]);
    }
  }

  /** The other CPUs keep their state if `t` was not theirs. */
  lemma OtherCpusStay(s: State, s': State, c: nat, t: nat)
    requires PlaceInv(s) && OnlyMoves(s, s', c, t)
    requires forall d :: 0 <= d < |s.pc| && d != c ==> !OnIt(s.th[t].place, d) && !AtPc(s.th[t].place, d)
    requires s.th[t].place == Off ==>
               s'.th[t].place == Off || forall d :: 0 <= d < |s.pc| && d != c ==> HandsOff(s.pc[d], t)
    requires forall d :: 0 <= d < |s.pc| && d != c && t in s'.queue[d] ==> s'.th[t].place == Queued(d)
    ensures forall d :: 0 <= d < |s.pc| && d != c ==> CpuOk(s', d)
  {
    forall d | 0 <= d < |s.pc| && d != c ensures CpuOk(s', d) {
      assert CpuOk(s, d) && !AtPc(s.th[t].place, d);
    }
  }

  /** One thread moves by a step of one CPU. */
  lemma PlaceStep(s: State, s': State, c: nat, t: nat)
    requires PlaceInv(s) && OnlyMoves(s, s', c, t)
    requires forall u :: 0 <= u < |s.th| && u != t && (OnIt(s.th[u].place, c)) ==>
               SameTurn(s.pc[c], s'.pc[c])
    requires forall u :: 0 <= u < |s.th| && u != t ==> !AtPc(s.th[u].place, c)
    requires forall d :: 0 <= d < |s.pc| && d != c ==> !OnIt(s.th[t].place, d) && !AtPc(s.th[t].place, d)
    requires s.th[t].place == Off ==>
               s'.th[t].place == Off || forall d :: 0 <= d < |s.pc| && d != c ==> HandsOff(s.pc[d], t)
    requires forall d :: 0 <= d < |s.pc| && d != c && t in s'.queue[d] ==> s'.th[t].place == Queued(d)
    requires PlaceOk(s', t) && CpuOk(s', c)
    ensures PlaceInv(s')
  {
    OthersStay(s, s', c, t);
    OtherCpusStay(s, s', c, t);
  }

  // -------------------------------------------------------------------------
  // The steps that move a thread
  // -------------------------------------------------------------------------

  lemma Appended(xs: seq<nat>, x: nat)
    requires NoDup(xs) && x !in xs
    ensures NoDup(xs + [x])
  {
    forall i, j | 0 <= i < j < |xs| + 1 ensures (xs + [x])[i] != (xs + [x])[j] {
      assert xs[i] in xs;
    }
  }

  lemma SpawnPlace(s: State, proc: nat, q: nat)
    requires PlaceInv(s) && q < |s.pc|
    ensures PlaceInv(Spawned(s, proc, q))
  {
    var s' := Spawned(s, proc, q);
    assert s'.queue[q][|s.queue[q]|] == |s.th|;
    forall t | 0 <= t < |s'.th| ensures PlaceOk(s', t) { if t < |s.th| { assert PlaceOk(s, t); } }
    assert CpuOk(s, q);
    Appended(s.queue[q], |s.th|);
    forall d | 0 <= d < |s'.pc| ensures CpuOk(s', d) { assert CpuOk(s, d); }
  }

  lemma DispatchPlace(s: State, c: nat)
    requires PlaceInv(s) && c < |s.pc| && s.pc[c].Sched? && s.queue[c] != [] && s.queue[c][0] < |s.th|
    ensures PlaceInv(Dispatched(s, c))
  {
    var t, s' := s.queue[c][0], Dispatched(s, c);
    assert CpuOk(s, c) && t in s.queue[c] && PlaceOk(s, t);
    TailHeld(s.queue[c]);
    NobodyAt(s, c);
    Elsewhere(s, t);
    PlaceStep(s, s', c, t);
  }

  /** At the top of its loop a CPU has no thread. */
  lemma NobodyAt(s: State, c: nat)
    requires PlaceInv(s) && c < |s.pc| && s.pc[c].Sched?
    ensures forall u :: 0 <= u < |s.th| ==> !OnIt(s.th[u].place, c) && !AtPc(s.th[u].place, c)
  {
    forall u | 0 <= u < |s.th| ensures !OnIt(s.th[u].place, c) && !AtPc(s.th[u].place, c) {
      assert CpuOk(s, c) && PlaceOk(s, u);
    }
  }

  /** A thread is in no queue but that of the CPU its place names. */
  lemma Elsewhere(s: State, t: nat)
    requires PlaceInv(s) && t < |s.th|
    ensures forall d :: 0 <= d < |s.pc| && s.th[t].place != Queued(d) && s.th[t].place != YieldOut(d) ==>
              t !in s.queue[d]
    ensures forall d :: 0 <= d < |s.pc| ==> NoDup(s.queue[d])
  {
    forall d | 0 <= d < |s.pc|
      ensures NoDup(s.queue[d]) && (t in s.queue[d] ==> s.th[t].place == Queued(d) || s.th[t].place == YieldOut(d))
    {
      assert CpuOk(s, d);
    }
  }

  lemma InstallPlace(s: State, c: nat)
    requires PlaceInv(s) && c < |s.pc| && s.pc[c].Installing? && s.pc[c].t < |s.th|
    ensures PlaceInv(Installed(s, c))
  {
    var t := s.pc[c].t;
    assert CpuOk(s, c) && PlaceOk(s, t);
    forall u | 0 <= u < |s.th| && u != t
      ensures !OnIt(s.th[u].place, c) && !AtPc(s.th[u].place, c)
    {
      assert PlaceOk(s, u);
    }
    forall d | 0 <= d < |s.pc| ensures t !in s.queue[d] && NoDup(s.queue[d]) { assert CpuOk(s, d); }
    PlaceStep(s, Installed(s, c), c, t);
  }

  /** The running thread of a CPU, alone there. */
  lemma Alone(s: State, c: nat)
    requires PlaceInv(s) && Live(s, c) && (s.pc[c].User? || InWait(s.pc[c]))
    ensures OnIt(s.th[s.current[c].value].place, c) && PlaceOk(s, s.current[c].value)
    ensures forall u :: 0 <= u < |s.th| && u != s.current[c].value ==> !OnIt(s.th[u].place, c)
    ensures forall u :: 0 <= u < |s.th| ==> !AtPc(s.th[u].place, c)
    ensures forall d :: 0 <= d < |s.pc| ==> NoDup(s.queue[d]) && (d != c ==> s.current[c].value !in s.queue[d])
  {
    var t := s.current[c].value;
    assert CpuOk(s, c) && PlaceOk(s, t);
    forall u | 0 <= u < |s.th|
      ensures (u != t ==> !OnIt(s.th[u].place, c)) && !AtPc(s.th[u].place, c)
    {
      assert PlaceOk(s, u);
    }
    forall d | 0 <= d < |s.pc| ensures NoDup(s.queue[d]) && (d != c ==> t !in s.queue[d]) { assert CpuOk(s, d); }
  }

  lemma YieldPlace(s: State, c: nat)
    requires PlaceInv(s) && Live(s, c) && s.pc[c].User?
    ensures PlaceInv(Yielded(s, c))
  {
    Alone(s, c);
    assert CpuOk(s, c);
    PlaceStep(s, Yielded(s, c), c, s.current[c].value);
  }

  lemma ExitPlace(s: State, c: nat)
    requires PlaceInv(s) && Live(s, c) && s.pc[c].User?
    ensures PlaceInv(Exiting(s, c))
  {
    Alone(s, c);
    assert CpuOk(s, c);
    PlaceStep(s, Exiting(s, c), c, s.current[c].value);
  }

  lemma TurnPlace(s: State, c: nat, place: Place, pc: Pc)
    requires PlaceInv(s) && Live(s, c)
    requires (s.pc[c].User? && place == Waiting(c) && pc.Parking?) ||
      (s.pc[c].Parking? && place == OnCpu(c) && pc.User?)
    ensures PlaceInv(ParkTurned(s, c, place, pc))
  {
    Alone(s, c);
    assert CpuOk(s, c);
    PlaceStep(s, ParkTurned(s, c, place, pc), c, s.current[c].value);
  }

  lemma ParkPlace(s: State, c: nat)
    requires PlaceInv(s) && Live(s, c) && s.pc[c].Parking?
    ensures PlaceInv(ParkedAt(s, c))
  {
    Alone(s, c);
    assert CpuOk(s, c);
    PlaceStep(s, ParkedAt(s, c), c, s.current[c].value);
  }

  lemma BlockPlace(s: State, c: nat)
    requires PlaceInv(s) && Live(s, c) && s.pc[c].ParkCalled?
    ensures PlaceInv(BlockedOn(s, c))
  {
    Alone(s, c);
    assert CpuOk(s, c);
    PlaceStep(s, BlockedOn(s, c), c, s.current[c].value);
  }

  lemma SwitchPlace(s: State, c: nat)
    requires PlaceInv(s) && Live(s, c) && s.pc[c].Leaving?
    ensures PlaceInv(Descheduled(s, c))
  {
    Alone(s, c);
    assert CpuOk(s, c);
    PlaceStep(s, Descheduled(s, c), c, s.current[c].value);
  }

  lemma LoadPlace(s: State, c: nat)
    requires PlaceInv(s) && c < |s.pc| && s.pc[c].Switched? && s.pc[c].t < |s.th|
    ensures PlaceInv(StatusLoaded(s, c))
  {
    var s' := StatusLoaded(s, c);
    assert CpuOk(s, c) && PlaceOk(s, s.pc[c].t);
    forall t | 0 <= t < |s'.th| ensures PlaceOk(s', t) { assert PlaceOk(s, t); }
    forall q | 0 <= q < |s'.pc| ensures CpuOk(s', q) { assert CpuOk(s, q); }
  }

  lemma DisposePlace(s: State, c: nat)
    requires PlaceInv(s) && c < |s.pc| && s.pc[c].Exited? && s.pc[c].t < |s.th|
    ensures PlaceInv(Disposed(s, c))
  {
    var s', t := Disposed(s, c), s.pc[c].t;
    assert CpuOk(s, c) && PlaceOk(s, t);
    forall u | 0 <= u < |s'.th| ensures PlaceOk(s', u) { assert PlaceOk(s, u); }
    forall q | 0 <= q < |s'.pc| ensures CpuOk(s', q) { assert CpuOk(s, q); }
  }

  // -------------------------------------------------------------------------
  // The steps of a waker on the head of its list
  // -------------------------------------------------------------------------

  /** A claimed, descheduled thread is off every CPU and queue. */
  lemma ClaimedIsOff(s: State, c: nat, t: nat)
    requires ClaimInv(s) && PlaceInv(s) && c < |s.pc| && t < |s.th| && s.th[t].ws.Claimed? && s.th[t].owner == Some(c)
    requires !s.th[t].onCpu
    requires s.pc[c].Finishing? && s.pc[c].held != [] && s.pc[c].held[0] == t ==> !s.pc[c].stage.Release?
    requires NoDup(Held(s.pc[c]))
    ensures s.th[t].place == Off
  {
    assert PlaceOk(s, t);
    forall q | 0 <= q < |s.pc| && t in Held(s.pc[q]) && Holds(s.pc[q], t) ensures q == c { assert HandOk(s, q); }
  }

  /** The waker's list head: no other CPU has it. */
  lemma HeadAlone(s: State, c: nat)
    requires PlaceInv(s) && c < |s.pc| && s.pc[c].Finishing? && s.pc[c].held != [] && s.pc[c].held[0] < |s.th|
    requires s.th[s.pc[c].held[0]].place == Off || s.th[s.pc[c].held[0]].place == InHand(c)
    ensures forall u :: 0 <= u < |s.th| && u != s.pc[c].held[0] ==> !AtPc(s.th[u].place, c)
    ensures forall d :: 0 <= d < |s.pc| ==> NoDup(s.queue[d]) && s.pc[c].held[0] !in s.queue[d]
    ensures s.current[c] != Some(s.pc[c].held[0])
  {
    assert CpuOk(s, c);
    forall u | 0 <= u < |s.th| && u != s.pc[c].held[0] ensures !AtPc(s.th[u].place, c) {
      assert PlaceOk(s, u);
    }
    forall d | 0 <= d < |s.pc| ensures NoDup(s.queue[d]) && s.pc[c].held[0] !in s.queue[d] { assert CpuOk(s, d); }
  }

  lemma SpinPlace(s: State, c: nat, q: nat)
    requires ClaimInv(s) && PlaceInv(s) && c < |s.pc| && q < |s.pc| && s.pc[c].Finishing? && s.pc[c].held != []
    requires s.pc[c].held[0] < |s.th| && s.pc[c].stage.Spin? && !s.th[s.pc[c].held[0]].onCpu
    ensures PlaceInv(FinishStep(s, c, q))
  {
    var t, s' := s.pc[c].held[0], FinishStep(s, c, q);
    assert HandOk(s, c) && t in Held(s.pc[c]) && CpuOk(s, c);
    ClaimedIsOff(s, c, t);
    HeadAlone(s, c);
    assert PlaceOk(s, t);
    PlaceStep(s, s', c, t);
  }

  /** thread_unblock_claimed asserts that the thread is BLOCKED: it is. */
  lemma RunnablePlace(s: State, c: nat, q: nat)
    requires ClaimInv(s) && PlaceInv(s) && c < |s.pc| && q < |s.pc| && s.pc[c].Finishing? && s.pc[c].held != []
    requires s.pc[c].held[0] < |s.th| && s.pc[c].stage.SetRunnable?
    ensures s.th[s.pc[c].held[0]].status.Blocked? && s.th[s.pc[c].held[0]].ws.Claimed? && !s.th[s.pc[c].held[0]].onCpu
    ensures PlaceInv(FinishStep(s, c, q))
  {
    var t, s' := s.pc[c].held[0], FinishStep(s, c, q);
    assert HandOk(s, c) && t in Held(s.pc[c]) && CpuOk(s, c) && PlaceOk(s, t);
    HeadAlone(s, c);
    NotHeldElsewhere(s, t, c);
    PlaceStep(s, s', c, t);
  }

  lemma ReleasePlace(s: State, c: nat, q: nat)
    requires ClaimInv(s) && PlaceInv(s) && c < |s.pc| && q < |s.pc| && s.pc[c].Finishing? && s.pc[c].held != []
    requires s.pc[c].held[0] < |s.th| && s.pc[c].stage.Release?
    ensures PlaceInv(FinishStep(s, c, q))
  {
    var t, s' := s.pc[c].held[0], FinishStep(s, c, q);
    assert CpuOk(s, c) && PlaceOk(s, t);
    HeadAlone(s, c);
    PlaceStep(s, s', c, t);
  }

  lemma EnqueuePlace(s: State, c: nat, q: nat)
    requires ClaimInv(s) && PlaceInv(s) && c < |s.pc| && q < |s.pc| && s.pc[c].Finishing? && s.pc[c].held != []
    requires s.pc[c].held[0] < |s.th| && s.pc[c].stage.Enqueue?
    ensures PlaceInv(FinishStep(s, c, q))
  {
    var t, s' := s.pc[c].held[0], FinishStep(s, c, q);
    assert HandOk(s, c) && CpuOk(s, c) && PlaceOk(s, t);
    HeadAlone(s, c);
    EnqueueHere(s, c, q);
    PlaceStep(s, s', c, t);
  }

  lemma EnqueueHere(s: State, c: nat, q: nat)
    requires ClaimInv(s) && PlaceInv(s) && c < |s.pc| && q < |s.pc| && s.pc[c].Finishing? && s.pc[c].held != []
    requires s.pc[c].held[0] < |s.th| && s.pc[c].stage.Enqueue?
    ensures PlaceOk(FinishStep(s, c, q), s.pc[c].held[0]) && CpuOk(FinishStep(s, c, q), c)
  {
    var t := s.pc[c].held[0];
    assert HandOk(s, c) && CpuOk(s, c) && PlaceOk(s, t);
    HeadAlone(s, c);
  }

  lemma FreePlace(s: State, c: nat)
    requires PlaceInv(s) && c < |s.pc| && s.pc[c].Reaping? && s.pc[c].t < |s.th|
    requires s.pc[c].reap.Free? || s.pc[c].reap.FreeReapable?
    requires s.th[s.pc[c].t].place == Off
    requires forall d :: 0 <= d < |s.pc| && d != c ==> HandsOff(s.pc[d], s.pc[c].t)
    ensures PlaceInv(ReapNext(s, c))
  {
    var t, s' := s.pc[c].t, ReapNext(s, c);
    assert CpuOk(s, c) && PlaceOk(s, t);
    forall u | 0 <= u < |s.th| && u != t ensures !AtPc(s.th[u].place, c) { assert PlaceOk(s, u); }
    Elsewhere(s, t);
    FreeHere(s, c);
    PlaceStep(s, s', c, t);
  }

  lemma FreeHere(s: State, c: nat)
    requires PlaceInv(s) && c < |s.pc| && s.pc[c].Reaping? && s.pc[c].t < |s.th|
    requires s.pc[c].reap.Free? || s.pc[c].reap.FreeReapable?
    requires s.th[s.pc[c].t].place == Off
    ensures PlaceOk(ReapNext(s, c), s.pc[c].t) && CpuOk(ReapNext(s, c), c)
  {
    var t := s.pc[c].t;
    assert CpuOk(s, c) && PlaceOk(s, t);
    Elsewhere(s, t);
  }
}
