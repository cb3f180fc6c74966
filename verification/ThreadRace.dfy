/** proc_sys_thread_destroy on a thread of the caller's own, live process: on_cpu, status and
    wake_state are loaded one after the other, and a dispatch in between defeats the check.
    Whether the target's process is dead when the call begins decides it. */
module ThreadRace {
  import opened ThreadProtocol
  import opened ThreadClaims
  import opened ThreadPlaces
  import opened ThreadRuns
  import opened Seqs

  // -------------------------------------------------------------------------
  // The call, its victim queued on another CPU
  // -------------------------------------------------------------------------

  /** Threads of live processes only. */
  ghost predicate Lively(s: State, xs: seq<nat>) {
    forall i :: 0 <= i < |xs| ==> xs[i] < |s.th| && s.th[xs[i]].proc !in s.dead
  }

  /** CPU `c` may begin to destroy thread `t`, which waits in the queue of CPU `d` in its scheduler loop, or runs there;
      threads ahead of it are of live processes, and some bucket is free. */
  ghost predicate Poised(s: State, c: nat, d: nat, t: nat, addr: nat) {
    && Wf(s) && Enabled(s, ReapBegin(c, t)) && c != d && d < |s.pc| && BucketFree(s, s.hash(addr))
    && (|| (s.pc[d].Sched? && exists i :: 0 <= i < |s.queue[d]| && s.queue[d][i] == t && Lively(s, s.queue[d][..i]))
        || (s.pc[d].User? && s.current[d] == Some(t) && Lively(s, s.queue[d])))
  }

  /** Some continuation in which only threads of dead processes are destroyed besides ends with
      the thread destroyed and on a CPU. */
  ghost predicate DestroyedOnCpu(s: State, c: nat, t: nat)
    requires Wf(s) && Enabled(s, ReapBegin(c, t))
  {
    var s' := Apply(s, ReapBegin(c, t));
    exists more :: Runs(s', more) && ReapsDead(s', more) && CaughtOut(After(s', more), t)
  }

  ghost predicate CaughtOut(s: State, t: nat) {
    t < |s.th| && s.th[t].place == Gone && s.th[t].freed && s.th[t].onCpu
  }

  /** A destroyed thread is off every CPU, whatever runs beside, if its process was dead when the call
      began; if it was live, a dispatch can put it back on one first. */
  lemma DestroyExact(s0: State, steps: seq<Step>, s: State, c: nat, d: nat, t: nat, addr: nat)
    requires Reachable(s0, steps, s) && Poised(s, c, d, t, addr)
    ensures DestroyedOnCpu(s, c, t) <==> s.th[t].proc !in s.dead
  {
    ReachInv(s0, steps, s);
    if s.th[t].proc in s.dead {
      DeadIsSafe(s, c, t);
    } else {
      LiveIsNot(s, c, d, t, addr);
    }
  }

  lemma DeadIsSafe(s: State, c: nat, t: nat)
    requires Inv(s) && Enabled(s, ReapBegin(c, t)) && s.th[t].proc in s.dead
    ensures !DestroyedOnCpu(s, c, t)
  {
    var s' := Apply(s, ReapBegin(c, t));
    StepInv(s, ReapBegin(c, t));
    forall more | Runs(s', more) && ReapsDead(s', more) ensures !CaughtOut(After(s', more), t) {
      RunInv(s', more);
      if t < |After(s', more).th| { assert PlaceOk(After(s', more), t); }
    }
  }

  // -------------------------------------------------------------------------
  // The continuation
  // -------------------------------------------------------------------------

  /** Only CPUs `c` and `d` have moved since `s`: their program counters and the thread between them. */
  ghost predicate Mid(s: State, z: State, c: nat, d: nat, t: nat, pcC: Pc, pcD: Pc) {
    && Wf(s) && Wf(z) && |z.pc| == |s.pc| && c < |s.pc| && d < |s.pc| && c != d
    && z.hash == s.hash && z.dead == s.dead && t < |z.th| && z.th[t].proc !in z.dead
    && z.pc[c] == pcC && z.pc[d] == pcD && (forall q :: 0 <= q < |s.pc| && q != c && q != d ==> z.pc[q] == s.pc[q])
    && z.th[t].deadline == 0
    && (z.th[t].onCpu ==> z.current[d] == Some(t))
  }

  /** The state reached by `more` from `s`, which is all that matters of the run. */
  ghost predicate Reaches(s: State, more: seq<Step>, z: State) {
    Wf(s) && Runs(s, more) && ReapsDead(s, more) && After(s, more) == z
  }

  lemma Go(s: State, more: seq<Step>, z: State, e: Step)
    requires Reaches(s, more, z) && Enabled(z, e) && !e.ReapBegin?
    ensures Reaches(s, more + [e], Apply(z, e))
  {
    Snoc(s, more, e);
  }

  lemma StillFree(s: State, z: State, c: nat, d: nat, t: nat, pcC: Pc, pcD: Pc, addr: nat)
    requires Mid(s, z, c, d, t, pcC, pcD) && BucketFree(s, s.hash(addr)) && pcC.Reaping?
    requires !HasBucket(pcD, s.hash, s.hash(addr))
    ensures BucketFree(z, z.hash(addr))
  {
  }

  /** What the victim has done when CPU `d` is at `pcD`. */
  ghost predicate Done(x: Thread, pcD: Pc, addr: nat) {
    && (pcD.Sched? ==> !x.onCpu)
    && (pcD.Sched? || pcD.Installing? || pcD.User? || pcD.Parking? ==> x.ws.Idle?)
    && (pcD.User? || pcD.Parking? || pcD.ParkCalled? || pcD.Leaving? ==> x.onCpu)
    && (pcD.ParkCalled? || pcD.Leaving? ==> x.ws.Parked? && x.key.addr == addr)
    && (pcD.Leaving? ==> x.status.Blocked?)
  }

  ghost predicate At(s: State, z: State, c: nat, d: nat, t: nat, addr: nat, pcD: Pc) {
    && Mid(s, z, c, d, t, Reaping(t, Look), pcD) && Done(z.th[t], pcD, addr) && BucketFree(s, s.hash(addr))
    && (pcD.Sched? ==> z.queue[d] != [] && z.queue[d][0] == t)
  }

  /** The victim's own steps, from its pop to the store of BLOCKED. */
  ghost predicate Turn(t: nat, d: nat, addr: nat, pcD: Pc, e: Step, pcD': Pc) {
    || (pcD == Sched && e == Dispatch(d) && pcD' == Installing(t, false))
    || (pcD == Installing(t, false) && e == Install(d) && pcD' == Installing(t, true))
    || (pcD == Installing(t, true) && e == Install(d) && pcD' == User)
    || (pcD == User && e == ParkBegin(d, addr, 0) && pcD' == Parking(addr, 0))
    || (pcD == Parking(addr, 0) && e == Park(d) && pcD' == ParkCalled)
    || (pcD == ParkCalled && e == Block(d) && pcD' == Leaving)
  }

  lemma Dispatches(s: State, z: State, c: nat, d: nat, t: nat, addr: nat, pcD: Pc, e: Step, pcD': Pc)
    requires At(s, z, c, d, t, addr, pcD) && Turn(t, d, addr, pcD, e, pcD') && (e.Dispatch? || e.Install?)
    ensures Enabled(z, e) && At(s, Apply(z, e), c, d, t, addr, pcD')
  {
  }

  lemma Waits(s: State, z: State, c: nat, d: nat, t: nat, addr: nat, pcD: Pc, e: Step, pcD': Pc)
    requires At(s, z, c, d, t, addr, pcD) && Turn(t, d, addr, pcD, e, pcD') && !e.Dispatch? && !e.Install?
    ensures Enabled(z, e) && At(s, Apply(z, e), c, d, t, addr, pcD')
  {
    StillFree(s, z, c, d, t, Reaping(t, Look), pcD, addr);
  }

  lemma Turns(s: State, more: seq<Step>, z: State, c: nat, d: nat, t: nat, addr: nat, pcD: Pc, e: Step, pcD': Pc)
    requires Reaches(s, more, z) && At(s, z, c, d, t, addr, pcD) && Turn(t, d, addr, pcD, e, pcD')
    ensures Enabled(z, e) && Reaches(s, more + [e], Apply(z, e)) && At(s, Apply(z, e), c, d, t, addr, pcD')
  {
    if e.Dispatch? || e.Install? {
      Dispatches(s, z, c, d, t, addr, pcD, e, pcD');
    } else {
      Waits(s, z, c, d, t, addr, pcD, e, pcD');
    }
    Go(s, more, z, e);
  }

  lemma ToRunning(s: State, more: seq<Step>, z: State, c: nat, d: nat, t: nat, addr: nat)
    returns (more': seq<Step>, z': State)
    requires Reaches(s, more, z) && At(s, z, c, d, t, addr, Sched)
    ensures Reaches(s, more', z') && At(s, z', c, d, t, addr, User)
  {
    Turns(s, more, z, c, d, t, addr, Sched, Dispatch(d), Installing(t, false));
    more', z' := more + [Dispatch(d)], Apply(z, Dispatch(d));
    Turns(s, more', z', c, d, t, addr, Installing(t, false), Install(d), Installing(t, true));
    more', z' := more' + [Install(d)], Apply(z', Install(d));
    Turns(s, more', z', c, d, t, addr, Installing(t, true), Install(d), User);
    more', z' := more' + [Install(d)], Apply(z', Install(d));
  }

  lemma ToBlocked(s: State, more: seq<Step>, z: State, c: nat, d: nat, t: nat, addr: nat)
    returns (more': seq<Step>, z': State)
    requires Reaches(s, more, z) && At(s, z, c, d, t, addr, User)
    ensures Reaches(s, more', z') && At(s, z', c, d, t, addr, Leaving)
  {
    Turns(s, more, z, c, d, t, addr, User, ParkBegin(d, addr, 0), Parking(addr, 0));
    more', z' := more + [ParkBegin(d, addr, 0)], Apply(z, ParkBegin(d, addr, 0));
    Turns(s, more', z', c, d, t, addr, Parking(addr, 0), Park(d), ParkCalled);
    more', z' := more' + [Park(d)], Apply(z', Park(d));
    Turns(s, more', z', c, d, t, addr, ParkCalled, Block(d), Leaving);
    more', z' := more' + [Block(d)], Apply(z', Block(d));
  }

  /** What the reaper needs of its victim at stage `r`, still switching out. */
  ghost predicate Prey(x: Thread, r: Reap, addr: nat) {
    && x.onCpu && x.status.Blocked? && x.key.addr == addr
    && (if r.Look? || r.Load? || r.Claim? then x.ws.Parked? else x.ws.Claimed?)
  }

  ghost predicate Stage(r: Reap, r': Reap) {
    (r == Look && r' == Load) || (r == Load && r' == Claim) || (r == Claim && r' == Unhook) ||
    (r == Unhook && r' == Disarm) || (r == Disarm && r' == Free)
  }

  ghost predicate Close(s: State, z: State, c: nat, d: nat, t: nat, addr: nat, r: Reap) {
    Mid(s, z, c, d, t, Reaping(t, r), Leaving) && Prey(z.th[t], r, addr) && BucketFree(s, s.hash(addr))
  }

  lemma Closer(s: State, z: State, c: nat, d: nat, t: nat, addr: nat, r: Reap, r': Reap)
    requires Close(s, z, c, d, t, addr, r) && Stage(r, r')
    ensures Enabled(z, ReapStep(c)) && Close(s, Apply(z, ReapStep(c)), c, d, t, addr, r')
  {
    StillFree(s, z, c, d, t, Reaping(t, r), Leaving, addr);
  }

  lemma Closes(s: State, more: seq<Step>, z: State, c: nat, d: nat, t: nat, addr: nat, r: Reap, r': Reap)
    requires Reaches(s, more, z) && Close(s, z, c, d, t, addr, r) && Stage(r, r')
    ensures Enabled(z, ReapStep(c)) && Reaches(s, more + [ReapStep(c)], Apply(z, ReapStep(c)))
    ensures Close(s, Apply(z, ReapStep(c)), c, d, t, addr, r')
  {
    Closer(s, z, c, d, t, addr, r, r');
    Go(s, more, z, ReapStep(c));
  }

  lemma ToClaimed(s: State, more: seq<Step>, z: State, c: nat, d: nat, t: nat, addr: nat)
    returns (more': seq<Step>, z': State)
    requires Reaches(s, more, z) && Close(s, z, c, d, t, addr, Look)
    ensures Reaches(s, more', z') && Close(s, z', c, d, t, addr, Unhook)
  {
    Closes(s, more, z, c, d, t, addr, Look, Load);
    more', z' := more + [ReapStep(c)], Apply(z, ReapStep(c));
    Closes(s, more', z', c, d, t, addr, Load, Claim);
    more', z' := more' + [ReapStep(c)], Apply(z', ReapStep(c));
    Closes(s, more', z', c, d, t, addr, Claim, Unhook);
    more', z' := more' + [ReapStep(c)], Apply(z', ReapStep(c));
  }

  lemma ToGone(s: State, more: seq<Step>, z: State, c: nat, d: nat, t: nat, addr: nat)
    returns (more': seq<Step>, z': State)
    requires Reaches(s, more, z) && Close(s, z, c, d, t, addr, Unhook)
    ensures Reaches(s, more', z') && CaughtOut(z', t)
  {
    Closes(s, more, z, c, d, t, addr, Unhook, Disarm);
    more', z' := more + [ReapStep(c)], Apply(z, ReapStep(c));
    Closes(s, more', z', c, d, t, addr, Disarm, Free);
    more', z' := more' + [ReapStep(c)], Apply(z', ReapStep(c));
    Frees(s, z', c, d, t, addr);
    Go(s, more', z', ReapStep(c));
    more', z' := more' + [ReapStep(c)], Apply(z', ReapStep(c));
  }

  lemma Frees(s: State, z: State, c: nat, d: nat, t: nat, addr: nat)
    requires Close(s, z, c, d, t, addr, Free)
    ensures Enabled(z, ReapStep(c)) && CaughtOut(Apply(z, ReapStep(c)), t)
  {
  }

  lemma LiveIsNot(s: State, c: nat, d: nat, t: nat, addr: nat)
    requires Inv(s) && Poised(s, c, d, t, addr) && s.th[t].proc !in s.dead
    ensures DestroyedOnCpu(s, c, t)
  {
    var s' := Apply(s, ReapBegin(c, t));
    assert BucketFree(s', s'.hash(addr));
    var more, z := ToFront(s, s', c, d, t, addr);
    more, z := ToLook(s', more, z, c, d, t, addr);
    more, z := ToRunning(s', more, z, c, d, t, addr);
    more, z := ToBlocked(s', more, z, c, d, t, addr);
    more, z := ToClaimed(s', more, z, c, d, t, addr);
    more, z := ToGone(s', more, z, c, d, t, addr);
  }

  /** The reaper finds on_cpu clear. */
  lemma ToLook(s: State, more: seq<Step>, z: State, c: nat, d: nat, t: nat, addr: nat)
    returns (more': seq<Step>, z': State)
    requires Reaches(s, more, z) && Near(s, z, c, d, t, addr, [])
    ensures Reaches(s, more', z') && At(s, z', c, d, t, addr, Sched)
  {
    Looks(s, z, c, d, t, addr);
    Go(s, more, z, ReapStep(c));
    more', z' := more + [ReapStep(c)], Apply(z, ReapStep(c));
  }

  lemma Looks(s: State, z: State, c: nat, d: nat, t: nat, addr: nat)
    requires Near(s, z, c, d, t, addr, [])
    ensures Enabled(z, ReapStep(c)) && At(s, Apply(z, ReapStep(c)), c, d, t, addr, Sched)
  {
  }

  // -------------------------------------------------------------------------
  // The victim comes to the front of its queue
  // -------------------------------------------------------------------------

  /** The reaper is about to look; the victim is queued behind `ahead` on CPU `d`, which is in its scheduler loop. */
  ghost predicate Near(s: State, z: State, c: nat, d: nat, t: nat, addr: nat, ahead: seq<nat>) {
    && Mid(s, z, c, d, t, Reaping(t, Check), Sched) && !z.th[t].onCpu && z.th[t].ws.Idle? && BucketFree(s, s.hash(addr))
    && Lively(z, ahead) && t !in ahead && ahead + [t] <= z.queue[d]
  }

  /** Thread `x` from the front of the queue has its turn on CPU `d`; `rest` stands behind it up to the victim. */
  ghost predicate Passing(s: State, z: State, c: nat, d: nat, t: nat, addr: nat, x: nat, rest: seq<nat>, pcD: Pc) {
    && Mid(s, z, c, d, t, Reaping(t, Check), pcD) && !z.th[t].onCpu && z.th[t].ws.Idle? && BucketFree(s, s.hash(addr))
    && x != t && x < |z.th| && Lively(z, rest) && t !in rest && rest + [t] <= z.queue[d]
    && (pcD.User? || pcD.Leaving? ==> z.current[d] == Some(x))
    && (pcD.Leaving? || pcD.Switched? ==> z.th[x].status.Runnable?)
  }

  ghost predicate Pass(x: nat, d: nat, pcD: Pc, e: Step, pcD': Pc) {
    || (pcD == Installing(x, false) && e == Install(d) && pcD' == Installing(x, true))
    || (pcD == Installing(x, true) && e == Install(d) && pcD' == User)
    || (pcD == User && e == Yield(d) && pcD' == Leaving)
    || (pcD == Leaving && e == SwitchedOut(d) && pcD' == Switched(x))
    || (pcD == Switched(x) && e == LoadStatus(d) && pcD' == Sched)
  }

  lemma FrontPops(s: State, z: State, c: nat, d: nat, t: nat, addr: nat, ahead: seq<nat>)
    requires Near(s, z, c, d, t, addr, ahead) && ahead != []
    ensures Enabled(z, Dispatch(d))
    ensures Passing(s, Apply(z, Dispatch(d)), c, d, t, addr, ahead[0], ahead[1..], Installing(ahead[0], false))
  {
    var x := ahead[0];
    assert z.queue[d][0] == (ahead + [t])[0] == x && x in ahead;
    assert ahead + [t] == [x] + (ahead[1..] + [t]);
    var z' := Apply(z, Dispatch(d));
    assert z'.queue[d] == z.queue[d][1..];
    forall i | 0 <= i < |ahead[1..]|
      ensures ahead[1..][i] < |z'.th| && z'.th[ahead[1..][i]].proc !in z'.dead
    {
      assert ahead[1..][i] == ahead[i + 1];
    }
  }

  lemma PassOn(s: State, z: State, c: nat, d: nat, t: nat, addr: nat, x: nat, rest: seq<nat>, pcD: Pc, e: Step,
               pcD': Pc)
    requires Passing(s, z, c, d, t, addr, x, rest, pcD) && Pass(x, d, pcD, e, pcD')
    ensures Enabled(z, e) && Passing(s, Apply(z, e), c, d, t, addr, x, rest, pcD')
  {
  }

  lemma Passes(s: State, more: seq<Step>, z: State, c: nat, d: nat, t: nat, addr: nat, x: nat, rest: seq<nat>, pcD: Pc,
               e: Step, pcD': Pc)
    requires Reaches(s, more, z) && Passing(s, z, c, d, t, addr, x, rest, pcD) && Pass(x, d, pcD, e, pcD')
    ensures Enabled(z, e) && Reaches(s, more + [e], Apply(z, e))
    ensures Passing(s, Apply(z, e), c, d, t, addr, x, rest, pcD')
  {
    PassOn(s, z, c, d, t, addr, x, rest, pcD, e, pcD');
    Go(s, more, z, e);
  }

  lemma Runs3(s: State, more: seq<Step>, z: State, c: nat, d: nat, t: nat, addr: nat, x: nat, rest: seq<nat>)
    returns (more': seq<Step>, z': State)
    requires Reaches(s, more, z) && Passing(s, z, c, d, t, addr, x, rest, Installing(x, false))
    ensures Reaches(s, more', z') && Passing(s, z', c, d, t, addr, x, rest, Leaving)
  {
    Passes(s, more, z, c, d, t, addr, x, rest, Installing(x, false), Install(d), Installing(x, true));
    more', z' := more + [Install(d)], Apply(z, Install(d));
    Passes(s, more', z', c, d, t, addr, x, rest, Installing(x, true), Install(d), User);
    more', z' := more' + [Install(d)], Apply(z', Install(d));
    Passes(s, more', z', c, d, t, addr, x, rest, User, Yield(d), Leaving);
    more', z' := more' + [Yield(d)], Apply(z', Yield(d));
  }

  lemma Leaves(s: State, more: seq<Step>, z: State, c: nat, d: nat, t: nat, addr: nat, x: nat, rest: seq<nat>)
    returns (more': seq<Step>, z': State)
    requires Reaches(s, more, z) && Passing(s, z, c, d, t, addr, x, rest, Leaving)
    ensures Reaches(s, more', z') && Near(s, z', c, d, t, addr, rest)
  {
    Passes(s, more, z, c, d, t, addr, x, rest, Leaving, SwitchedOut(d), Switched(x));
    more', z' := more + [SwitchedOut(d)], Apply(z, SwitchedOut(d));
    Passes(s, more', z', c, d, t, addr, x, rest, Switched(x), LoadStatus(d), Sched);
    more', z' := more' + [LoadStatus(d)], Apply(z', LoadStatus(d));
  }

  /** The threads ahead run and yield, one after the other. */
  lemma {:induction false} Rotate(s: State, more: seq<Step>, z: State, c: nat, d: nat, t: nat, addr: nat,
                                  ahead: seq<nat>)
    returns (more': seq<Step>, z': State)
    requires Reaches(s, more, z) && Near(s, z, c, d, t, addr, ahead)
    ensures Reaches(s, more', z') && Near(s, z', c, d, t, addr, [])
    decreases |ahead|
  {
    more', z' := more, z;
    if ahead != [] {
      FrontPops(s, z, c, d, t, addr, ahead);
      Go(s, more, z, Dispatch(d));
      more', z' := more + [Dispatch(d)], Apply(z, Dispatch(d));
      more', z' := Runs3(s, more', z', c, d, t, addr, ahead[0], ahead[1..]);
      more', z' := Leaves(s, more', z', c, d, t, addr, ahead[0], ahead[1..]);
      more', z' := Rotate(s, more', z', c, d, t, addr, ahead[1..]);
    }
  }

  /** The running victim yields. */
  ghost predicate Yielding(s: State, z: State, c: nat, d: nat, t: nat, addr: nat, ahead: seq<nat>, pcD: Pc) {
    && Mid(s, z, c, d, t, Reaping(t, Check), pcD) && z.th[t].ws.Idle? && BucketFree(s, s.hash(addr))
    && Lively(z, ahead) && t !in ahead && z.queue[d] == (if pcD.User? then ahead else ahead + [t])
    && (pcD.User? || pcD.Leaving? ==> z.current[d] == Some(t))
    && (pcD.Leaving? || pcD.Switched? ==> z.th[t].status.Runnable?)
    && (pcD.Switched? || pcD.Sched? ==> !z.th[t].onCpu)
  }

  lemma YieldOn(s: State, more: seq<Step>, z: State, c: nat, d: nat, t: nat, addr: nat, ahead: seq<nat>, pcD: Pc,
                e: Step, pcD': Pc)
    requires Reaches(s, more, z) && Yielding(s, z, c, d, t, addr, ahead, pcD) && Pass(t, d, pcD, e, pcD') && !e.Install?
    ensures Enabled(z, e) && Reaches(s, more + [e], Apply(z, e)) && Yielding(s, Apply(z, e), c, d, t, addr, ahead, pcD')
  {
    Yields(s, z, c, d, t, addr, ahead, pcD, e, pcD');
    Go(s, more, z, e);
  }

  lemma Yields(s: State, z: State, c: nat, d: nat, t: nat, addr: nat, ahead: seq<nat>, pcD: Pc, e: Step, pcD': Pc)
    requires Yielding(s, z, c, d, t, addr, ahead, pcD) && Pass(t, d, pcD, e, pcD') && !e.Install?
    ensures Enabled(z, e) && Yielding(s, Apply(z, e), c, d, t, addr, ahead, pcD')
  {
  }

  lemma ToQueue(s: State, c: nat, d: nat, t: nat, addr: nat, ahead: seq<nat>) returns (more: seq<Step>, z: State)
    requires Yielding(s, s, c, d, t, addr, ahead, User)
    ensures Reaches(s, more, z) && Near(s, z, c, d, t, addr, ahead)
  {
    YieldOn(s, [], s, c, d, t, addr, ahead, User, Yield(d), Leaving);
    more, z := [] + [Yield(d)], Apply(s, Yield(d));
    YieldOn(s, more, z, c, d, t, addr, ahead, Leaving, SwitchedOut(d), Switched(t));
    more, z := more + [SwitchedOut(d)], Apply(z, SwitchedOut(d));
    YieldOn(s, more, z, c, d, t, addr, ahead, Switched(t), LoadStatus(d), Sched);
    more, z := more + [LoadStatus(d)], Apply(z, LoadStatus(d));
  }

  /** Wherever the victim was, it is first in its queue before the reaper looks. */
  lemma ToFront(s: State, s': State, c: nat, d: nat, t: nat, addr: nat) returns (more: seq<Step>, z: State)
    requires Inv(s) && Poised(s, c, d, t, addr) && s.th[t].proc !in s.dead && s' == Apply(s, ReapBegin(c, t))
    ensures Reaches(s', more, z) && Near(s', z, c, d, t, addr, [])
  {
    assert CpuOk(s, d) && PlaceOk(s, t) && ClaimOk(s, t);
    var ahead;
    if s.pc[d].Sched? {
      ahead := QueuedNear(s, s', c, d, t, addr);
      more, z := [], s';
    } else {
      ahead := s.queue[d];
      RunningNear(s, s', c, d, t, addr);
      more, z := ToQueue(s', c, d, t, addr, ahead);
    }
    more, z := Rotate(s', more, z, c, d, t, addr, ahead);
  }

  lemma QueuedNear(s: State, s': State, c: nat, d: nat, t: nat, addr: nat) returns (ahead: seq<nat>)
    requires Inv(s) && Poised(s, c, d, t, addr) && s.pc[d].Sched? && s.th[t].proc !in s.dead
    requires s' == Apply(s, ReapBegin(c, t))
    ensures Near(s', s', c, d, t, addr, ahead)
  {
    var i :| 0 <= i < |s.queue[d]| && s.queue[d][i] == t && Lively(s, s.queue[d][..i]);
    ahead := s.queue[d][..i];
    assert t in s.queue[d] && CpuOk(s, d) && PlaceOk(s, t) && ClaimOk(s, t);
    assert ahead + [t] == s.queue[d][..i + 1];
  }

  lemma RunningNear(s: State, s': State, c: nat, d: nat, t: nat, addr: nat)
    requires Inv(s) && Poised(s, c, d, t, addr) && s.pc[d].User? && s.th[t].proc !in s.dead
    requires s' == Apply(s, ReapBegin(c, t))
    ensures Yielding(s', s', c, d, t, addr, s.queue[d], User)
  {
    assert CpuOk(s, d) && PlaceOk(s, t) && ClaimOk(s, t);
  }

  // -------------------------------------------------------------------------
  // Such a state
  // -------------------------------------------------------------------------

  function Fresh(q: nat): (x: Thread) {
    Thread(7, Runnable, false, Idle, Key(0, 0), 0, 0, 0, None, Queued(q), false, NoResult)
  }

  function Booted(th: seq<Thread>, q0: seq<nat>, q1: seq<nat>): (s: State) {
    State(0, 0, a => 0, {}, map[], {}, th, [Sched, Sched], [None, None], [q0, q1])
  }

  lemma SpawnTwo() returns (s0: State, steps: seq<Step>, z: State)
    ensures Init(s0) && Reaches(s0, steps, z) && z.dead == {} && z.nodes == map[] && z.pc == [Sched, Sched]
    ensures z.current == [None, None]
    ensures z.th == [Fresh(0), Fresh(1)] && z.queue == [[0], [1]]
  {
    s0 := Booted([], [], []);
    Go(s0, [], s0, Spawn(0, 7, 0));
    z := Apply(s0, Spawn(0, 7, 0));
    steps := [] + [Spawn(0, 7, 0)];
    assert z.th == [Fresh(0)];
    assert z.queue[0] == [0] && z.queue[1] == [] && z.queue == [[0], []];
    Go(s0, steps, z, Spawn(0, 7, 1));
    z := Apply(z, Spawn(0, 7, 1));
    steps := steps + [Spawn(0, 7, 1)];
    assert z.th == [Fresh(0), Fresh(1)];
    assert z.queue[0] == [0] && z.queue[1] == [1] && z.queue == [[0], [1]];
  }

  /** The caller's dispatch on CPU 0. */
  lemma Caller(z: State)
    requires z.dead == {} && z.pc == [Sched, Sched] && z.current == [None, None] && z.th == [Fresh(0), Fresh(1)]
    requires z.queue == [[0], [1]]
    ensures Enabled(z, Dispatch(0)) && Enabled(Apply(z, Dispatch(0)), Install(0))
    ensures Picking(Apply(Apply(z, Dispatch(0)), Install(0)))
  {
  }

  ghost predicate Picking(y: State) {
    && y.dead == {} && y.pc == [Installing(0, true), Sched] && |y.current| == 2 && |y.th| == 2 && y.th[1] == Fresh(1)
    && y.th[0].proc == 7 && |y.queue| == 2 && y.queue[1] == [1]
  }

  lemma Installs(y: State)
    requires Picking(y)
    ensures Enabled(y, Install(0)) && Poised(Apply(y, Install(0)), 0, 1, 1, 0) && Apply(y, Install(0)).dead == {}
  {
    var z := Apply(y, Install(0));
    assert z.queue[1][0] == 1 && Lively(z, z.queue[1][..0]);
  }

  /** The exception is not empty: two threads of one process, one about to destroy the other. */
  lemma PoisedReachable() returns (s0: State, steps: seq<Step>, s: State)
    ensures Reachable(s0, steps, s) && Poised(s, 0, 1, 1, 0) && s.th[1].proc !in s.dead
  {
    s0, steps, s := SpawnTwo();
    Caller(s);
    Go(s0, steps, s, Dispatch(0));
    steps, s := steps + [Dispatch(0)], Apply(s, Dispatch(0));
    Go(s0, steps, s, Install(0));
    steps, s := steps + [Install(0)], Apply(s, Install(0));
    Installs(s);
    Go(s0, steps, s, Install(0));
    steps, s := steps + [Install(0)], Apply(s, Install(0));
  }
}
