/** Waiting, waking and disposing of threads as a state machine over the steps
    that other CPUs can interleave with: futex.c (claim, wake, requeue, expiry,
    reap), the deadline entries of timer.c, thread.c (park, unblock),
    scheduler.c (dispatch, cull, enqueue) and thread disposal in process.c.

    One CPU runs one kernel context.  A bucket, a timer tree or g_umem is held
    exactly while a CPU's program counter is in the section that holds it; what
    happens under such a lock and is visible only under it is one step, and
    every access to wake_state, status and on_cpu is a step of its own. */
module ThreadProtocol {
  import opened Seqs


  datatype WakeState = Idle | Parked | Moving | Claimed | Reapable
  datatype Status = Runnable | Running | Blocked | Dead

  /** Where a thread is; recorded beside the fields the kernel keeps, and tied to
      them by the invariant. */
  datatype Place =
    | Queued(q: nat)     // on a runqueue
    | Picked(q: nat)     // popped and found alive, on_cpu not yet stored
    | OnCpu(q: nat)      // dispatched
    | Waiting(q: nat)    // dispatched, and past the dead check of a wait
    | YieldOut(q: nat)   // requeued locally, its context save still in flight
    | BlockOut(q: nat)   // blocked, its context save still in flight
    | DeadOut(q: nat)    // exiting, still switching out
    | Off                // blocked and descheduled
    | InHand(q: nat)     // released by the CPU that claimed it, not yet enqueued
    | Disposing(q: nat)  // dead and descheduled, that CPU's to dispose of
    | Gone               // disposed of by the CPU or the reaper whose it was

  datatype Key = Key(addr: nat, num: nat)
  datatype Deadline = Deadline(cpu: nat, at: nat, tid: nat)
  datatype Result = NoResult | Woken | TimedOut

  datatype Thread = Thread(
    proc: nat, status: Status, onCpu: bool, ws: WakeState, key: Key,
    deadline: nat, dcpu: nat,    // 0: not armed
    due: nat,                    // the deadline this wait was given, 0 for none
    owner: Option<nat>,          // the CPU that claimed or is moving it
    place: Place, freed: bool, result: Result)

  /** Stages of disposing of a claimed thread (futex_expire_claimed's unlink, then
      finish_claimed and thread_unblock_claimed). */
  datatype Stage = Unlink | Cancel | Decide | Spin | SetRunnable | Release | Enqueue

  /** Stages of proc_sys_thread_destroy. */
  datatype Reap = Check | Look | Load | Claim | Unhook | Disarm | Free | FreeReapable

  datatype Pc =
    | Sched                                                    // top of scheduler_loop
    | Installing(t: nat, running: bool)                        // dead test passed; running: status stored
    | User                                                     // a thread runs here
    | Parking(addr: nat, deadline: nat)                        // dead check of the wait passed
    | ParkCalled                                               // parked, status not yet BLOCKED
    | Leaving                                                  // status stored, switching out
    | Switched(t: nat)                                         // on_cpu cleared, status not yet loaded
    | Exited(t: nat)                                           // process_thread_exited pending
    | Waking(addr: nat, seek: nat, cap: nat, held: seq<nat>)   // bucket of addr held
    | Timing(now: nat, mark: Deadline, held: seq<nat>)         // own timer lock held
    | Finishing(held: seq<nat>, stage: Stage, late: bool)      // late: these expired
    | Requeuing(from: nat, to: nat, seek: nat, left: nat)      // both buckets held
    | Relinking(from: nat, to: nat, seek: nat, left: nat, t: nat, linked: bool)
    | Reaping(t: nat, reap: Reap)                              // g_umem held

  datatype State = State(
    clock: nat, nextSeq: nat, hash: nat -> nat, dead: set<nat>,
    nodes: map<Key, nat>,        // all bucket trees: key to thread
    entries: set<Deadline>,      // all per-CPU deadline trees
    th: seq<Thread>,
    pc: seq<Pc>,
    current: seq<Option<nat>>,
    queue: seq<seq<nat>>)

  datatype Step =
    | Tick
    | Kill(ps: set<nat>)
    | Spawn(c: nat, proc: nat, q: nat)
    | Dispatch(c: nat)
    | Install(c: nat)
    | Yield(c: nat)
    | Exit(c: nat)
    | ParkBegin(c: nat, addr: nat, deadline: nat)
    | ParkFail(c: nat)
    | Park(c: nat)
    | Block(c: nat)
    | SwitchedOut(c: nat)
    | LoadStatus(c: nat)
    | Dispose(c: nat)
    | WakeBegin(c: nat, addr: nat, cap: nat)
    | WakeOne(c: nat, k: Key)
    | WakeEnd(c: nat)
    | TimerBegin(c: nat)
    | TimerOne(c: nat, e: Deadline)
    | TimerEnd(c: nat)
    | Finish(c: nat, q: nat)
    | RequeueBegin(c: nat, from: nat, to: nat, cap: nat)
    | RequeueOne(c: nat, k: Key)
    | Relink(c: nat)
    | Unmove(c: nat)
    | RequeueEnd(c: nat)
    | ReapBegin(c: nat, t: nat)
    | ReapStep(c: nat)

  const WAKE_BATCH: nat := 16
  const IRQ_BATCH: nat := 64

  ghost predicate Wf(s: State) {
    |s.pc| == |s.current| == |s.queue|
  }

  // -------------------------------------------------------------------------
  // Locks
  // -------------------------------------------------------------------------

  /** The CPU holds bucket `b`. */
  predicate HasBucket(pc: Pc, hash: nat -> nat, b: nat) {
    || (pc.Waking? && hash(pc.addr) == b)
    || ((pc.Requeuing? || pc.Relinking?) && (hash(pc.from) == b || hash(pc.to) == b))
  }

  ghost predicate BucketFree(s: State, b: nat) {
    forall c :: 0 <= c < |s.pc| ==> !HasBucket(s.pc[c], s.hash, b)
  }

  ghost predicate TimerFree(s: State, q: nat) {
    q < |s.pc| ==> !s.pc[q].Timing?
  }

  ghost predicate UmemFree(s: State) {
    forall c :: 0 <= c < |s.pc| ==> !s.pc[c].Reaping?
  }

  // -------------------------------------------------------------------------
  // Steps
  // -------------------------------------------------------------------------

  /** The node a lower-bound seek from (addr, seek) finds. */
  ghost predicate IsNext(nodes: map<Key, nat>, addr: nat, seek: nat, k: Key) {
    && k in nodes && k.addr == addr && k.num >= seek
    && forall m :: m in nodes && m.addr == addr && m.num >= seek ==> k.num <= m.num
  }

  predicate Before(d: Deadline, e: Deadline) {
    d.at < e.at || (d.at == e.at && d.tid <= e.tid)
  }

  /** The entry a lower-bound seek in CPU `c`'s deadline tree finds. */
  ghost predicate IsNextDue(entries: set<Deadline>, c: nat, seek: Deadline, e: Deadline) {
    && e in entries && e.cpu == c && Before(seek, e)
    && forall d :: d in entries && d.cpu == c && Before(seek, d) ==> Before(e, d)
  }

  function Back(s: State, c: nat): Pc
    requires Wf(s) && c < |s.pc|
  {
    if s.current[c].Some? then User else Sched
  }

  /** A thread is current on CPU `c`. */
  ghost predicate Live(s: State, c: nat) {
    Wf(s) && c < |s.pc| && s.current[c].Some? && s.current[c].value < |s.th|
  }

  ghost predicate Valid(s: State, t: nat) {
    t < |s.th|
  }

  ghost predicate CpuEnabled(s: State, c: nat, step: Step)
    requires Wf(s) && c < |s.pc|
  {
    match step
    case Spawn(_, proc, q) => (s.pc[c].User? || s.pc[c].Sched?) && q < |s.pc| && proc !in s.dead
    case Dispatch(_) => s.pc[c].Sched? && s.queue[c] != [] && Valid(s, s.queue[c][0])
    case Install(_) => s.pc[c].Installing? && Valid(s, s.pc[c].t)
    case Yield(_) => s.pc[c].User? && Live(s, c)
    case Exit(_) => s.pc[c].User? && Live(s, c)
    case ParkBegin(_, _, _) => s.pc[c].User? && Live(s, c) && s.th[s.current[c].value].proc !in s.dead
    case ParkFail(_) => s.pc[c].Parking? && Live(s, c)
    case Park(_) => s.pc[c].Parking? && Live(s, c) && BucketFree(s, s.hash(s.pc[c].addr))
    case Block(_) => s.pc[c].ParkCalled? && Live(s, c)
    case SwitchedOut(_) => s.pc[c].Leaving? && Live(s, c)
    case LoadStatus(_) => s.pc[c].Switched? && Valid(s, s.pc[c].t)
    case Dispose(_) => s.pc[c].Exited? && Valid(s, s.pc[c].t) && UmemFree(s)
    case WakeBegin(_, addr, cap) => (s.pc[c].User? || s.pc[c].Sched?) && cap <= WAKE_BATCH &&
    BucketFree(s, s.hash(addr))
    case WakeOne(_, k) =>
      && s.pc[c].Waking? && |s.pc[c].held| < s.pc[c].cap && IsNext(s.nodes, s.pc[c].addr, s.pc[c].seek, k)
      && Valid(s, s.nodes[k])
    case WakeEnd(_) =>
      s.pc[c].Waking? && (|s.pc[c].held| >= s.pc[c].cap || forall k :: !IsNext(s.nodes, s.pc[c].addr, s.pc[c].seek, k))
    case TimerBegin(_) => s.pc[c].User? || s.pc[c].Sched?
    case TimerOne(_, e) =>
      && s.pc[c].Timing? && |s.pc[c].held| < IRQ_BATCH && IsNextDue(s.entries, c, s.pc[c].mark, e)
      && e.at <= s.pc[c].now
      && Valid(s, e.tid) && !s.th[e.tid].ws.Moving? // spins while MOVING
    case TimerEnd(_) =>
      s.pc[c].Timing? &&
      (|s.pc[c].held| >= IRQ_BATCH || forall e :: IsNextDue(s.entries, c, s.pc[c].mark, e) ==> e.at > s.pc[c].now)
    case Finish(_, q) =>
      && s.pc[c].Finishing?
      && (s.pc[c].held != [] ==> Valid(s, s.pc[c].held[0]) && FinishEnabled(s, c, s.pc[c].held[0]))
      && q < |s.pc|
    case RequeueBegin(_, from, to, cap) =>
      s.pc[c].User? && from != to && BucketFree(s, s.hash(from)) && BucketFree(s, s.hash(to))
    case RequeueOne(_, k) =>
      s.pc[c].Requeuing? && s.pc[c].left > 0 && IsNext(s.nodes, s.pc[c].from, s.pc[c].seek, k) && Valid(s, s.nodes[k])
    case Relink(_) => s.pc[c].Relinking? && !s.pc[c].linked && Valid(s, s.pc[c].t)
    case Unmove(_) => s.pc[c].Relinking? && s.pc[c].linked && Valid(s, s.pc[c].t)
    case RequeueEnd(_) => s.pc[c].Requeuing?
    case ReapBegin(_, t) =>
      s.pc[c].User? && Live(s, c) && Valid(s, t) && !s.th[t].freed && UmemFree(s) &&
      (s.th[t].proc == s.th[s.current[c].value].proc || s.th[t].proc in s.dead)
    case ReapStep(_) => s.pc[c].Reaping? && Valid(s, s.pc[c].t) && ReapEnabled(s, c, s.pc[c].t)
    case _ => false
  }

  ghost predicate FinishEnabled(s: State, c: nat, t: nat)
    requires Wf(s) && c < |s.pc| && s.pc[c].Finishing? && t < |s.th|
  {
    match s.pc[c].stage
    case Unlink => BucketFree(s, s.hash(s.th[t].key.addr))
    case Cancel => s.th[t].deadline != 0 ==> TimerFree(s, s.th[t].dcpu)
    case Spin => !s.th[t].onCpu
    case _ => true
  }

  ghost predicate ReapEnabled(s: State, c: nat, t: nat)
    requires Wf(s) && c < |s.pc| && s.pc[c].Reaping? && t < |s.th|
  {
    match s.pc[c].reap
    case Claim => !s.th[t].ws.Moving? // spins while MOVING
    case Unhook => BucketFree(s, s.hash(s.th[t].key.addr))
    case Disarm => s.th[t].deadline != 0 ==> TimerFree(s, s.th[t].dcpu)
    case _ => true
  }

  ghost predicate Enabled(s: State, step: Step)
    requires Wf(s)
  {
    step.Tick? || step.Kill? || (step.c < |s.pc| && CpuEnabled(s, step.c, step))
  }

  /** timer_deadline_cancel: drop the armed entry, if there is one. */
  function Unarmed(s: State, t: nat): (es: set<Deadline>)
    requires t < |s.th|
  {
    if s.th[t].deadline == 0 then s.entries else s.entries - {Deadline(s.th[t].dcpu, s.th[t].deadline, t)}
  }

  /** The next stage of finish_claimed on the head of the list. */
  function FinishStep(s: State, c: nat, q: nat): (s': State)
    requires Wf(s) && c < |s.pc| && q < |s.pc| && s.pc[c].Finishing?
    requires s.pc[c].held != [] ==> s.pc[c].held[0] < |s.th|
    ensures Wf(s')
  {
    var held, late := s.pc[c].held, s.pc[c].late;
    if held == [] then s.(pc := s.pc[c := Back(s, c)])
    else
      var t := held[0];
      var x := s.th[t];
      var next := Finishing(held[1..], if late then Unlink else Cancel, late);
      match s.pc[c].stage
      case Unlink => s.(nodes := s.nodes - {x.key}, pc := s.pc[c := Finishing(held, Cancel, late)])
      case Cancel =>
        s.(entries := Unarmed(s, t), th := s.th[t := x.(deadline := 0)], pc := s.pc[c := Finishing(held, Decide, late)])
      case Decide =>
        if x.proc in s.dead then s.(th := s.th[t := x.(ws := Reapable, owner := None)], pc := s.pc[c := next])
        else s.(th := s.th[t := x.(result := if late then TimedOut else Woken)],
                pc := s.pc[c := Finishing(held, Spin, late)])
      case Spin => s.(pc := s.pc[c := Finishing(held, SetRunnable, late)])
      case SetRunnable =>
        s.(th := s.th[t := x.(status := Runnable, place := InHand(c))], pc := s.pc[c := Finishing(held, Release, late)])
      case Release =>
        s.(th := s.th[t := x.(ws := Idle, owner := None)], pc := s.pc[c := Finishing(held, Enqueue, late)])
      case Enqueue =>
        s.(queue := s.queue[q := s.queue[q] + [t]], th := s.th[t := x.(place := Queued(q))], pc := s.pc[c := next])
  }

  /** The next stage of proc_sys_thread_destroy on its victim. */
  function ReapNext(s: State, c: nat): (s': State)
    requires Wf(s) && c < |s.pc| && s.pc[c].Reaping? && s.pc[c].t < |s.th|
    ensures Wf(s')
  {
    var t := s.pc[c].t;
    var x := s.th[t];
    match s.pc[c].reap
    case Check =>
      if x.onCpu then s.(pc := s.pc[c := Back(s, c)]) else s.(pc := s.pc[c := Reaping(t, Look)])
    case Look =>
      if x.status != Blocked then s.(pc := s.pc[c := Back(s, c)]) else s.(pc := s.pc[c := Reaping(t, Load)])
    case Load =>
      if x.ws.Parked? then s.(pc := s.pc[c := Reaping(t, Claim)])
      else if x.ws.Reapable? then s.(pc := s.pc[c := Reaping(t, FreeReapable)])
      else s.(pc := s.pc[c := Back(s, c)])
    case Claim =>
      if x.ws.Parked? then
        s.(th := s.th[t := x.(ws := Claimed, owner := Some(c))], pc := s.pc[c := Reaping(t, Unhook)])
      else s.(pc := s.pc[c := Back(s, c)])
    case Unhook => s.(nodes := s.nodes - {x.key}, pc := s.pc[c := Reaping(t, Disarm)])
    case Disarm =>
      s.(entries := Unarmed(s, t), th := s.th[t := x.(deadline := 0)], pc := s.pc[c := Reaping(t, Free)])
    case _ => // Free, FreeReapable
      s.(th := s.th[t := x.(place := Gone, freed := true, owner := None, ws := Idle)], pc := s.pc[c := Back(s, c)])
  }

  /** uthread_spawn, the thread index, then scheduler_enqueue as publication. */
  function Spawned(s: State, proc: nat, q: nat): (s': State)
    requires Wf(s) && q < |s.queue|
    ensures Wf(s')
  {
    var t := Thread(proc, Runnable, false, Idle, Key(0, 0), 0, 0, 0, None, Queued(q), false, NoResult);
    s.(th := s.th + [t], queue := s.queue[q := s.queue[q] + [|s.th|]])
  }

  /** scheduler_loop: pop the head; cull it if its process died, else go on to run it. */
  function Dispatched(s: State, c: nat): (s': State)
    requires Wf(s) && c < |s.pc| && s.queue[c] != [] && s.queue[c][0] < |s.th|
    ensures Wf(s')
  {
    var t := s.queue[c][0];
    var rest := s.queue[c := s.queue[c][1..]];
    if s.th[t].proc in s.dead then
      s.(queue := rest, th := s.th[t := s.th[t].(status := Dead, place := Disposing(c))], pc := s.pc[c := Exited(t)])
    else
      s.(queue := rest, th := s.th[t := s.th[t].(place := Picked(c))], pc := s.pc[c := Installing(t, false)])
  }

  /** The two stores of a dispatch, status then on_cpu; a kill may have come before either. */
  function Installed(s: State, c: nat): (s': State)
    requires Wf(s) && c < |s.pc| && s.pc[c].Installing? && s.pc[c].t < |s.th|
    ensures Wf(s')
  {
    var t := s.pc[c].t;
    if !s.pc[c].running then
      s.(th := s.th[t := s.th[t].(status := Running)], pc := s.pc[c := Installing(t, true)])
    else
      s.(th := s.th[t := s.th[t].(onCpu := true, place := OnCpu(c))], current := s.current[c := Some(t)],
         pc := s.pc[c := User])
  }

  function Yielded(s: State, c: nat): (s': State)
    requires Live(s, c)
    ensures Wf(s')
  {
    var t := s.current[c].value;
    s.(queue := s.queue[c := s.queue[c] + [t]], th := s.th[t := s.th[t].(status := Runnable, place := YieldOut(c))],
       pc := s.pc[c := Leaving])
  }

  function Exiting(s: State, c: nat): (s': State)
    requires Live(s, c)
    ensures Wf(s')
  {
    var t := s.current[c].value;
    s.(th := s.th[t := s.th[t].(status := Dead, place := DeadOut(c))], pc := s.pc[c := Leaving])
  }

  /** futex_sys_wait past or before its check that the process is not dead. */
  function ParkTurned(s: State, c: nat, place: Place, pc: Pc): (s': State)
    requires Live(s, c)
    ensures Wf(s')
  {
    var t := s.current[c].value;
    s.(th := s.th[t := s.th[t].(place := place)], pc := s.pc[c := pc])
  }

  /** futex_sys_wait's critical section: node, deadline entry and PARKED together. */
  function ParkedAt(s: State, c: nat): (s': State)
    requires Live(s, c) && s.pc[c].Parking?
    ensures Wf(s')
  {
    var t, d := s.current[c].value, s.pc[c].deadline;
    var k := Key(s.pc[c].addr, s.nextSeq);
    s.(nextSeq := s.nextSeq + 1, nodes := s.nodes[k := t],
       entries := if d == 0 then s.entries else s.entries + {Deadline(c, d, t)},
       th := s.th[t := s.th[t].(ws := Parked, key := k, deadline := d, dcpu := c, due := d, result := NoResult)],
       pc := s.pc[c := ParkCalled])
  }

  function BlockedOn(s: State, c: nat): (s': State)
    requires Live(s, c)
    ensures Wf(s')
  {
    var t := s.current[c].value;
    s.(th := s.th[t := s.th[t].(status := Blocked, place := BlockOut(c))], pc := s.pc[c := Leaving])
  }

  /** scheduler_loop resumed: the context save is complete, on_cpu is cleared. */
  function Descheduled(s: State, c: nat): (s': State)
    requires Live(s, c)
    ensures Wf(s')
  {
    var t := s.current[c].value;
    var x := s.th[t];
    var place := match x.status case Dead => Disposing(c) case Blocked => Off case _ => Queued(c);
    s.(current := s.current[c := None], th := s.th[t := x.(onCpu := false, place := place)],
       pc := s.pc[c := Switched(t)])
  }

  /** The load of the status of the thread just switched out, which may be elsewhere by now. */
  function StatusLoaded(s: State, c: nat): (s': State)
    requires Wf(s) && c < |s.pc| && s.pc[c].Switched? && s.pc[c].t < |s.th|
    ensures Wf(s')
  {
    var t := s.pc[c].t;
    s.(pc := s.pc[c := if s.th[t].status.Dead? then Exited(t) else Sched])
  }

  /** process_thread_exited. */
  function Disposed(s: State, c: nat): (s': State)
    requires Wf(s) && c < |s.pc| && s.pc[c].Exited? && s.pc[c].t < |s.th|
    ensures Wf(s')
  {
    var t := s.pc[c].t;
    s.(th := s.th[t := s.th[t].(freed := true, place := if s.th[t].place == Disposing(c) then Gone else s.th[t].place)],
       pc := s.pc[c := Sched])
  }

  /** detach_batch_locked: one seek, one CAS, and the removal if it won. */
  function Detached(s: State, c: nat, k: Key): (s': State)
    requires Wf(s) && c < |s.pc| && s.pc[c].Waking? && k in s.nodes && s.nodes[k] < |s.th|
    ensures Wf(s')
  {
    var t, p := s.nodes[k], s.pc[c];
    if s.th[t].ws.Parked? then
      s.(nodes := s.nodes - {k}, th := s.th[t := s.th[t].(ws := Claimed, owner := Some(c))],
         pc := s.pc[c := Waking(p.addr, k.num + 1, p.cap, p.held + [t])])
    else
      s.(pc := s.pc[c := Waking(p.addr, k.num + 1, p.cap, p.held)])
  }

  /** timer_cpu_interrupt: one due entry, claimed and removed if still parked. */
  function ExpiredOne(s: State, c: nat, e: Deadline): (s': State)
    requires Wf(s) && c < |s.pc| && s.pc[c].Timing? && e.tid < |s.th|
    ensures Wf(s')
  {
    var t, p := e.tid, s.pc[c];
    var mark := Deadline(c, e.at, e.tid + 1);
    if s.th[t].ws.Parked? then
      s.(entries := s.entries - {e}, th := s.th[t := s.th[t].(ws := Claimed, owner := Some(c), deadline := 0)],
         pc := s.pc[c := Timing(p.now, mark, p.held + [t])])
    else
      s.(pc := s.pc[c := Timing(p.now, mark, p.held)])
  }

  /** futex_sys_requeue: one seek and the CAS to MOVING. */
  function MovingOne(s: State, c: nat, k: Key): (s': State)
    requires Wf(s) && c < |s.pc| && s.pc[c].Requeuing? && k in s.nodes && s.nodes[k] < |s.th|
    ensures Wf(s')
  {
    var t, p := s.nodes[k], s.pc[c];
    if s.th[t].ws.Parked? then
      s.(th := s.th[t := s.th[t].(ws := Moving, owner := Some(c))],
         pc := s.pc[c := Relinking(p.from, p.to, k.num + 1, p.left, t, false)])
    else
      s.(pc := s.pc[c := Requeuing(p.from, p.to, k.num + 1, p.left)])
  }

  /** The MOVING window: extract the node, rewrite the key, relink. */
  function Relinked(s: State, c: nat): (s': State)
    requires Wf(s) && c < |s.pc| && s.pc[c].Relinking? && s.pc[c].t < |s.th|
    ensures Wf(s')
  {
    var p := s.pc[c];
    var k := Key(p.to, s.nextSeq);
    s.(nextSeq := s.nextSeq + 1, nodes := (s.nodes - {s.th[p.t].key})[k := p.t],
       th := s.th[p.t := s.th[p.t].(key := k)], pc := s.pc[c := Relinking(p.from, p.to, p.seek, p.left, p.t, true)])
  }

  function Unmoved(s: State, c: nat): (s': State)
    requires Wf(s) && c < |s.pc| && s.pc[c].Relinking? && s.pc[c].t < |s.th|
    ensures Wf(s')
  {
    var p := s.pc[c];
    s.(th := s.th[p.t := s.th[p.t].(ws := Parked, owner := None)],
       pc := s.pc[c := Requeuing(p.from, p.to, p.seek, if p.left > 0 then p.left - 1 else 0)])
  }

  /** Steps of the scheduler and of a thread that starts, waits or ends. */
  predicate Scheduling(step: Step) {
    step.Spawn? || step.Dispatch? || step.Install? || step.Yield? || step.Exit? || step.ParkBegin? || step.ParkFail? ||
    step.Park? || step.Block? || step.SwitchedOut? || step.LoadStatus? || step.Dispose?
  }

  function Scheduled(s: State, step: Step): (s': State)
    requires Wf(s) && Enabled(s, step) && Scheduling(step)
    ensures Wf(s')
  {
    match step
    case Spawn(c, proc, q) => Spawned(s, proc, q)
    case Dispatch(c) => Dispatched(s, c)
    case Install(c) => Installed(s, c)
    case Yield(c) => Yielded(s, c)
    case Exit(c) => Exiting(s, c)
    case ParkBegin(c, addr, d) => ParkTurned(s, c, Waiting(c), Parking(addr, d))
    case ParkFail(c) => ParkTurned(s, c, OnCpu(c), User)
    case Park(c) => ParkedAt(s, c)
    case Block(c) => BlockedOn(s, c)
    case SwitchedOut(c) => Descheduled(s, c)
    case LoadStatus(c) => StatusLoaded(s, c)
    case Dispose(c) => Disposed(s, c)
  }

  function Apply(s: State, step: Step): (s': State)
    requires Wf(s) && Enabled(s, step)
    ensures Wf(s')
  {
    if Scheduling(step) then Scheduled(s, step)
    else
      match step
      case Tick => s.(clock := s.clock + 1)
      case Kill(ps) => s.(dead := s.dead + ps)
      case WakeBegin(c, addr, cap) => s.(pc := s.pc[c := Waking(addr, 0, cap, [])])
      case WakeOne(c, k) => Detached(s, c, k)
      case WakeEnd(c) => s.(pc := s.pc[c := Finishing(s.pc[c].held, Cancel, false)])
      case TimerBegin(c) => s.(pc := s.pc[c := Timing(s.clock, Deadline(c, 0, 0), [])])
      case TimerOne(c, e) => ExpiredOne(s, c, e)
      case TimerEnd(c) => s.(pc := s.pc[c := Finishing(s.pc[c].held, Unlink, true)])
      case Finish(c, q) => FinishStep(s, c, q)
      case RequeueBegin(c, from, to, cap) => s.(pc := s.pc[c := Requeuing(from, to, 0, cap)])
      case RequeueOne(c, k) => MovingOne(s, c, k)
      case Relink(c) => Relinked(s, c)
      case Unmove(c) => Unmoved(s, c)
      case RequeueEnd(c) => s.(pc := s.pc[c := Back(s, c)])
      case ReapBegin(c, t) => s.(pc := s.pc[c := Reaping(t, Check)])
      case ReapStep(c) => ReapNext(s, c)
  }
}
