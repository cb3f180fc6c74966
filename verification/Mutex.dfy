/** The three-state futex mutex of pthread.c as a state machine: one step per
    access to the word, the owner field or the kernel's waiting line.  Threads
    may try, lock, time out, recurse, unlock what they do not own and barge. */
module Mutex {
  import opened Seqs

  datatype Kind = Normal | Recursive | ErrorCheck
  datatype Result = Fresh | Ok | Busy | Deadlock | NotOwner | TooDeep | TimedOut | Failed

  datatype Pc =
    | Idle                       // outside the library
    | TryLoad(blocking: bool)    // pthread_mutex_trylock, or the first try of a lock
    | TryOwner(blocking: bool)
    | TryCas(blocking: bool)
    | Taken                      // won the word, owner not yet stored
    | Look                       // the contended loop
    | TakeMarked                 // saw 0: exchange 0 for 2
    | Mark                       // saw 1: exchange 1 for 2
    | Sleep                      // futex_wait(word, 2)
    | Parked
    | UnlockLoad
    | UnlockOwner
    | Clear
    | Swap                       // exchange the word for 0
    | WakeOwed                   // the word was 2

  /** `depth`: how many locks this thread has taken and not released. */
  datatype Thread = Thread(pc: Pc, depth: nat, last: Result)

  datatype State = State(
    kind: Kind, word: nat, owner: Option<nat>, recursion: nat,
    th: seq<Thread>,
    line: seq<nat>)              // parked on the word, first come first

  datatype Step =
    | CallTry(t: nat)
    | CallLock(t: nat)
    | CallUnlock(t: nat)
    | Go(t: nat)                 // the next access of a running thread
    | Expire(t: nat)             // the deadline of a parked thread
    | Poke(t: nat)               // any other wake on the address
    | Refuse(t: nat)             // the kernel cannot park (no memory, bad address)

  const DEPTH_MAX: nat := 0xFFFF_FFFF

  ghost predicate Enabled(s: State, step: Step) {
    && step.t < |s.th|
    && match step
       case CallTry(t) => s.th[t].pc.Idle?
       case CallLock(t) => s.th[t].pc.Idle?
       case CallUnlock(t) => s.th[t].pc.Idle?
       case Go(t) => !s.th[t].pc.Idle? && !s.th[t].pc.Parked?
       case Expire(t) => s.th[t].pc.Parked?
       case Poke(t) => s.th[t].pc.Parked?
       case Refuse(t) => s.th[t].pc.Sleep?
  }

  function At(s: State, t: nat, pc: Pc): (s': State)
    requires t < |s.th|
  {
    s.(th := s.th[t := s.th[t].(pc := pc)])
  }

  function Return(s: State, t: nat, r: Result): (s': State)
    requires t < |s.th|
  {
    s.(th := s.th[t := s.th[t].(pc := Idle, last := r)])
  }

  /** A failed try: trylock returns EBUSY, lock goes on to the contended loop. */
  function FailTry(s: State, t: nat, blocking: bool): (s': State)
    requires t < |s.th|
  {
    if blocking then At(s, t, Look) else Return(s, t, Busy)
  }

  /** The word was free and is now ours. */
  function Take(s: State, t: nat, word: nat): (s': State)
    requires t < |s.th|
  {
    s.(word := word, th := s.th[t := Thread(Taken, 1, s.th[t].last)])
  }

  function TryStep(s: State, t: nat): (s': State)
    requires t < |s.th|
  {
    var x := s.th[t];
    match x.pc
    case TryLoad(b) => At(s, t, if s.word != 0 then TryOwner(b) else TryCas(b))
    case TryOwner(b) =>
      if s.owner != Some(t) then At(s, t, TryCas(b))
      else if s.kind.Recursive? then
        if s.recursion == DEPTH_MAX then Return(s, t, TooDeep)
        else s.(recursion := s.recursion + 1, th := s.th[t := Thread(Idle, x.depth + 1, Ok)])
      else if s.kind.ErrorCheck? then Return(s, t, Deadlock)
      else FailTry(s, t, b)
    case TryCas(b) => if s.word == 0 then Take(s, t, 1) else FailTry(s, t, b)
    case _ => s // Taken
  }

  function LoopStep(s: State, t: nat): (s': State)
    requires t < |s.th|
  {
    match s.th[t].pc
    case Look => At(s, t, if s.word == 0 then TakeMarked else if s.word == 1 then Mark else Sleep)
    case TakeMarked => if s.word == 0 then Take(s, t, 2) else At(s, t, Look)
    case Mark => if s.word == 1 then At(s.(word := 2), t, Sleep) else At(s, t, Look)
    case _ => // Sleep: compare and park under the bucket lock
      if s.word == 2 then At(s.(line := s.line + [t]), t, Parked) else At(s, t, Look)
  }

  function UnlockStep(s: State, t: nat): (s': State)
    requires t < |s.th|
  {
    var x := s.th[t];
    match x.pc
    case UnlockLoad => if s.word == 0 then Return(s, t, NotOwner) else At(s, t, UnlockOwner)
    case UnlockOwner =>
      if s.owner != Some(t) then Return(s, t, NotOwner)
      else if s.kind.Recursive? && s.recursion > 1 then
        s.(recursion := s.recursion - 1, th := s.th[t := Thread(Idle, if x.depth > 0 then x.depth - 1 else 0, Ok)])
      else At(s, t, Clear)
    case Clear => At(s.(recursion := 0, owner := None), t, Swap)
    case Swap =>
      s.(word := 0, th := s.th[t := Thread(if s.word == 2 then WakeOwed else Idle, 0, Ok)])
    case _ => // WakeOwed
      if s.line == [] then At(s, t, Idle) else At(WakeHead(s), t, Idle)
  }

  /** futex wake of one: the longest waiting thread returns to its loop. */
  function WakeHead(s: State): (s': State)
    requires s.line != []
    ensures |s'.th| == |s.th|
  {
    if s.line[0] < |s.th| then At(s.(line := s.line[1..]), s.line[0], Look) else s
  }

  function Minus(xs: seq<nat>, t: nat): (ys: seq<nat>) {
    if xs == [] then [] else if xs[0] == t then xs[1..] else [xs[0]] + Minus(xs[1..], t)
  }

  function Apply(s: State, step: Step): (s': State)
    requires Enabled(s, step)
  {
    match step
    case CallTry(t) => At(s, t, TryLoad(false))
    case CallLock(t) => At(s, t, TryLoad(true))
    case CallUnlock(t) => At(s, t, UnlockLoad)
    case Expire(t) => Return(s.(line := Minus(s.line, t)), t, TimedOut)
    case Poke(t) => At(s.(line := Minus(s.line, t)), t, Look)
    case Refuse(t) => Return(s, t, Failed)
    case Go(t) =>
      match s.th[t].pc
      case TryLoad(_) => TryStep(s, t)
      case TryOwner(_) => TryStep(s, t)
      case TryCas(_) => TryStep(s, t)
      case Taken => Return(s.(owner := Some(t), recursion := 1), t, Ok)
      case Look => LoopStep(s, t)
      case TakeMarked => LoopStep(s, t)
      case Mark => LoopStep(s, t)
      case Sleep => LoopStep(s, t)
      case _ => UnlockStep(s, t)
  }

  // -------------------------------------------------------------------------
  // The invariant
  // -------------------------------------------------------------------------

  ghost predicate Holder(s: State, t: nat) {
    t < |s.th| && s.th[t].depth > 0
  }

  /** At most one thread holds the mutex, and the word is nonzero exactly then. */
  ghost predicate Exclusive(s: State) {
    && s.word <= 2
    && (forall t: nat, u: nat :: Holder(s, t) && Holder(s, u) ==> t == u)
    && (s.word != 0 <==> exists t: nat :: Holder(s, t))
  }

  /** The owner field and the recursion count tell the truth about the holder. */
  ghost predicate OwnerOk(s: State, t: nat)
    requires t < |s.th|
  {
    var x := s.th[t];
    && (x.pc.Taken? || x.pc.Clear? || x.pc.Swap? ==> x.depth == 1)
    && (x.pc.Clear? ==> s.owner == Some(t))
    && (x.depth > 0 ==> (s.owner == Some(t) <==> !x.pc.Taken? && !x.pc.Swap?))
    && (s.owner == Some(t) ==> x.depth > 0 && s.recursion == x.depth)
    && (x.depth > 0 ==> !x.pc.TryCas? && !x.pc.WakeOwed?)
    && (x.depth > 1 ==> s.kind.Recursive?)
  }

  ghost predicate Owned(s: State) {
    && (s.owner.Some? ==> s.owner.value < |s.th|)
    && forall t :: 0 <= t < |s.th| ==> OwnerOk(s, t)
  }

  ghost predicate Lined(s: State) {
    && NoDup(s.line)
    && (forall t :: t in s.line ==> t < |s.th| && s.th[t].pc.Parked?)
    && (forall t :: 0 <= t < |s.th| && s.th[t].pc.Parked? ==> t in s.line)
  }

  /** A running thread that still owes a wake or a contended retry. */
  predicate Owes(pc: Pc) {
    pc.WakeOwed? || pc.Look? || pc.TakeMarked? || pc.Mark?
  }

  ghost predicate NoneLost(s: State) {
    s.line != [] ==> s.word == 2 || exists t :: 0 <= t < |s.th| && Owes(s.th[t].pc)
  }

  ghost predicate Inv(s: State) {
    Exclusive(s) && Owned(s) && Lined(s) && NoneLost(s)
  }

  ghost predicate Init(s: State) {
    && s.word == 0 && s.owner.None? && s.line == []
    && forall t :: 0 <= t < |s.th| ==> s.th[t] == Thread(Idle, 0, Fresh)
  }

  // -------------------------------------------------------------------------
  // Steps keep it
  // -------------------------------------------------------------------------

  lemma {:induction false} MinusKeeps(xs: seq<nat>, t: nat)
    requires NoDup(xs)
    ensures NoDup(Minus(xs, t)) && forall u :: u in Minus(xs, t) <==> u in xs && u != t
  {
    if xs != [] {
      Tail(xs);
      MinusKeeps(xs[1..], t);
      var r := Minus(xs[1..], t);
      forall j | 0 <= j < |r| ensures r[j] != xs[0] { assert r[j] in r; }
      assert xs == [xs[0]] + xs[1..];
    }
  }

  lemma Tail(xs: seq<nat>)
    requires xs != [] && NoDup(xs)
    ensures NoDup(xs[1..]) && forall u :: u in xs[1..] <==> u in xs && u != xs[0]
  {
    assert xs == [xs[0]] + xs[1..];
  }

  /** Only thread `t` moved. */
  ghost predicate Only(s: State, s': State, t: nat) {
    t < |s.th| && |s'.th| == |s.th| && s'.kind == s.kind && forall u :: 0 <= u < |s.th| && u != t ==>
        s'.th[u] == s.th[u]
  }

  lemma Steady(s: State, s': State, t: nat)
    requires Exclusive(s) && Only(s, s', t) && s'.word == s.word
    requires s'.th[t].depth > 0 <==> s.th[t].depth > 0
    ensures Exclusive(s')
  {
    forall u: nat ensures Holder(s', u) <==> Holder(s, u) { }
  }

  lemma Acquired(s: State, s': State, t: nat)
    requires Exclusive(s) && Only(s, s', t) && s.word == 0 && 0 < s'.word <= 2 && s'.th[t].depth > 0
    ensures Exclusive(s')
  {
    forall u: nat | u != t ensures !Holder(s', u) { assert Holder(s', u) ==> Holder(s, u); }
    assert Holder(s', t);
  }

  lemma Released(s: State, s': State, t: nat)
    requires Exclusive(s) && Only(s, s', t) && s'.word == 0 && s'.th[t].depth == 0 && Holder(s, t)
    ensures Exclusive(s')
  {
    forall u: nat ensures !Holder(s', u) { assert Holder(s', u) ==> Holder(s, u); }
  }

  lemma WakesOne(s: State, t: nat)
    requires Inv(s) && t < |s.th| && s.th[t].pc.WakeOwed?
    ensures Inv(UnlockStep(s, t))
  {
    var s' := UnlockStep(s, t);
    assert OwnerOk(s, t);
    if s.line == [] {
      Steady(s, s', t);
      forall u | 0 <= u < |s.th| ensures OwnerOk(s', u) { assert OwnerOk(s, u); }
    } else {
      WakesHead(s, t);
    }
  }

  lemma WakesHead(s: State, t: nat)
    requires Inv(s) && t < |s.th| && s.th[t].pc.WakeOwed? && s.line != []
    ensures Inv(UnlockStep(s, t))
  {
    var h, w, s' := s.line[0], WakeHead(s), UnlockStep(s, t);
    assert h in s.line && OwnerOk(s, t);
    Steady(s, w, h);
    Steady(w, s', t);
    forall u | 0 <= u < |s.th| ensures OwnerOk(s', u) { assert OwnerOk(s, u); }
    Tail(s.line);
    assert Owes(s'.th[h].pc);
  }

  lemma ExclusiveKept(s: State, step: Step)
    requires Inv(s) && Enabled(s, step) && !(step.Go? && s.th[step.t].pc.WakeOwed?)
    ensures Exclusive(Apply(s, step))
  {
    var t, s' := step.t, Apply(s, step);
    assert OwnerOk(s, t);
    if step.Go? && s.word == 0 && (s.th[t].pc.TryCas? || s.th[t].pc.TakeMarked?) {
      Acquired(s, s', t);
    } else if step.Go? && s.th[t].pc.Swap? {
      Released(s, s', t);
    } else if step.Go? && s.th[t].pc.Mark? && s.word == 1 {
      Steady(s, s'.(word := 1), t);
      forall u: nat ensures Holder(s', u) <==> Holder(s, u) { }
    } else {
      if step.Go? && s.owner == Some(t) { assert s.recursion == s.th[t].depth; }
      Steady(s, s', t);
    }
  }

  lemma TryOwned(s: State, t: nat)
    requires Inv(s) && t < |s.th| && (s.th[t].pc.TryLoad? || s.th[t].pc.TryOwner? || s.th[t].pc.TryCas?)
    ensures Owned(TryStep(s, t)) && Lined(TryStep(s, t))
  {
    var s' := TryStep(s, t);
    forall u | 0 <= u < |s.th| ensures OwnerOk(s', u) {
      assert OwnerOk(s, u) && OwnerOk(s, t);
      assert Holder(s, u) && Holder(s, t) ==> u == t;
      assert s.word == 0 ==> !Holder(s, u) && !Holder(s, t);
    }
  }

  lemma LoopOwned(s: State, t: nat)
    requires Inv(s) && t < |s.th|
    requires (s.th[t].pc.Look? || s.th[t].pc.TakeMarked? || s.th[t].pc.Mark? || s.th[t].pc.Sleep?)
    ensures Owned(LoopStep(s, t)) && Lined(LoopStep(s, t))
  {
    var s' := LoopStep(s, t);
    forall u | 0 <= u < |s.th| ensures OwnerOk(s', u) {
      assert OwnerOk(s, u) && OwnerOk(s, t);
      assert s.word == 0 ==> !Holder(s, u) && !Holder(s, t);
    }
  }

  lemma UnlockOwned(s: State, t: nat)
    requires Inv(s) && t < |s.th|
    requires (s.th[t].pc.UnlockLoad? || s.th[t].pc.UnlockOwner? || s.th[t].pc.Clear? || s.th[t].pc.Swap?)
    ensures Owned(UnlockStep(s, t)) && Lined(UnlockStep(s, t))
  {
    var s' := UnlockStep(s, t);
    forall u | 0 <= u < |s.th| ensures OwnerOk(s', u) {
      assert OwnerOk(s, u) && OwnerOk(s, t);
      assert Holder(s, u) && Holder(s, t) ==> u == t;
    }
  }

  lemma CallOwned(s: State, step: Step)
    requires Inv(s) && Enabled(s, step) && (step.Go? ==> s.th[step.t].pc.Taken?)
    ensures Owned(Apply(s, step)) && Lined(Apply(s, step))
  {
    var t, s' := step.t, Apply(s, step);
    MinusKeeps(s.line, t);
    forall u | 0 <= u < |s.th| ensures OwnerOk(s', u) {
      assert OwnerOk(s, u) && OwnerOk(s, t);
      assert Holder(s, u) && Holder(s, t) ==> u == t;
    }
  }

  lemma OwnedKept(s: State, step: Step)
    requires Inv(s) && Enabled(s, step) && !(step.Go? && s.th[step.t].pc.WakeOwed?)
    ensures Owned(Apply(s, step)) && Lined(Apply(s, step))
  {
    var t := step.t;
    if !step.Go? || s.th[t].pc.Taken? {
      CallOwned(s, step);
    } else if s.th[t].pc.TryLoad? || s.th[t].pc.TryOwner? || s.th[t].pc.TryCas? {
      TryOwned(s, t);
    } else if s.th[t].pc.Look? || s.th[t].pc.TakeMarked? || s.th[t].pc.Mark? || s.th[t].pc.Sleep? {
      LoopOwned(s, t);
    } else {
      UnlockOwned(s, t);
    }
  }

  lemma LostKept(s: State, step: Step)
    requires Inv(s) && Enabled(s, step) && !(step.Go? && s.th[step.t].pc.WakeOwed?)
    ensures NoneLost(Apply(s, step))
  {
    var t, s' := step.t, Apply(s, step);
    MinusKeeps(s.line, t);
    if s'.line != [] && s'.word != 2 && !Owes(s'.th[t].pc) {
      assert OwnerOk(s, t);
      var u :| 0 <= u < |s.th| && Owes(s.th[u].pc);
      assert s'.th[u] == s.th[u];
    }
  }

  lemma StepInv(s: State, step: Step)
    requires Inv(s) && Enabled(s, step)
    ensures Inv(Apply(s, step))
  {
    if step.Go? && s.th[step.t].pc.WakeOwed? {
      WakesOne(s, step.t);
    } else {
      ExclusiveKept(s, step);
      OwnedKept(s, step);
      LostKept(s, step);
    }
  }

  // -------------------------------------------------------------------------
  // Runs
  // -------------------------------------------------------------------------

  ghost predicate Runs(s: State, steps: seq<Step>)
    decreases |steps|
  {
    steps == [] || (Enabled(s, steps[0]) && Runs(Apply(s, steps[0]), steps[1..]))
  }

  ghost function After(s: State, steps: seq<Step>): (s': State)
    requires Runs(s, steps)
    decreases |steps|
  {
    if steps == [] then s else After(Apply(s, steps[0]), steps[1..])
  }

  lemma {:induction false} RunInv(s: State, steps: seq<Step>)
    requires Inv(s) && Runs(s, steps)
    ensures Inv(After(s, steps))
    decreases |steps|
  {
    if steps != [] {
      StepInv(s, steps[0]);
      RunInv(Apply(s, steps[0]), steps[1..]);
    }
  }

  lemma ReachInv(s: State, steps: seq<Step>)
    requires Init(s) && Runs(s, steps)
    ensures Inv(After(s, steps))
  {
    RunInv(s, steps);
  }

  /** Mutual exclusion: two threads never hold the mutex at once. */
  lemma MutualExclusion(s: State, steps: seq<Step>, t: nat, u: nat)
    requires Init(s) && Runs(s, steps) && Holder(After(s, steps), t) && Holder(After(s, steps), u)
    ensures t == u && After(s, steps).word != 0
  {
    ReachInv(s, steps);
  }

  /** No lost wakeup: whoever is parked, the word says so or somebody still owes. */
  lemma NoLostWakeup(s: State, steps: seq<Step>, t: nat)
    requires Init(s) && Runs(s, steps) && t < |After(s, steps).th| && After(s, steps).th[t].pc.Parked?
    ensures After(s, steps).word == 2 || exists u ::
              0 <= u < |After(s, steps).th| && u != t && Owes(After(s, steps).th[u].pc)
  {
    ReachInv(s, steps);
  }

  /** When nobody is inside the library, a parked thread waits for a holder whose unlock will wake. */
  lemma ParkedBehindHolder(s: State, steps: seq<Step>, t: nat)
    requires Init(s) && Runs(s, steps) && t < |After(s, steps).th| && After(s, steps).th[t].pc.Parked?
    requires forall u :: 0 <= u < |After(s, steps).th| ==>
               After(s, steps).th[u].pc.Idle? || After(s, steps).th[u].pc.Parked?
    ensures After(s, steps).word == 2 && exists u: nat :: Holder(After(s, steps), u) && After(s, steps).owner == Some(u)
  {
    ReachInv(s, steps);
    var z := After(s, steps);
    var u: nat :| Holder(z, u);
    assert OwnerOk(z, u);
  }

  /** Unlocking: refused without effect unless the caller holds the mutex; else one level less, and at the
      last level on to the stores that free it. */
  lemma UnlockExact(s: State, steps: seq<Step>, t: nat)
    requires Init(s) && Runs(s, steps) && Enabled(After(s, steps), Go(t)) && After(s, steps).th[t].pc.UnlockOwner?
    ensures Holder(After(s, steps), t) <==> After(s, steps).owner == Some(t)
    ensures !Holder(After(s, steps), t) ==> Apply(After(s, steps), Go(t)) == Return(After(s, steps), t, NotOwner)
    ensures Holder(After(s, steps), t) ==>
              var z, z' := After(s, steps), Apply(After(s, steps), Go(t));
              if z.th[t].depth > 1
                then z'.th[t] == Thread(Idle, z.th[t].depth - 1, Ok) && z'.word == z.word && z'.owner == Some(t)
              else z' == At(z, t, Clear)
  {
    ReachInv(s, steps);
    assert OwnerOk(After(s, steps), t);
  }

  /** How many of a thread's own accesses are left to the exchange that frees the mutex. */
  function Left(x: Thread): (n: nat) {
    if x.depth != 1 then 0 else if x.pc.UnlockOwner? then 3 else if x.pc.Clear? then 2 else if x.pc.Swap? then 1 else 0
  }

  function Own(steps: seq<Step>, t: nat): (n: nat) {
    if steps == [] then 0 else (if steps[0] == Go(t) then 1 else 0) + Own(steps[1..], t)
  }

  /** Nobody holds the mutex, and thread `t` has released it. */
  ghost predicate Freed(s: State, t: nat) {
    t < |s.th| && s.word == 0 && s.owner.None? && s.recursion == 0 && s.th[t].depth == 0 && s.th[t].last.Ok? &&
      forall u: nat :: !Holder(s, u)
  }

  /** Others do not disturb an unlock under way. */
  lemma UnlockGoesOn(s: State, step: Step, t: nat)
    requires Inv(s) && Enabled(s, step) && t < |s.th| && Left(s.th[t]) > 0
    ensures step.t != t ==>
              t < |Apply(s, step).th| && Apply(s, step).th[t] == s.th[t] && Apply(s, step).recursion == s.recursion
    ensures step == Go(t) && Left(s.th[t]) > 1 ==>
              t < |Apply(s, step).th| && Left(Apply(s, step).th[t]) == Left(s.th[t]) - 1
    ensures step.t == t ==> step == Go(t)
  {
    assert OwnerOk(s, t) && OwnerOk(s, step.t) && Holder(s, t);
    assert Holder(s, step.t) ==> step.t == t;
    if step.Go? && s.th[step.t].pc.WakeOwed? && s.line != [] { assert s.line[0] in s.line; }
  }

  lemma SwapReleases(s: State, t: nat)
    requires Inv(s) && Enabled(s, Go(t)) && Left(s.th[t]) == 1 && s.recursion == 0
    ensures Freed(Apply(s, Go(t)), t)
  {
    StepInv(s, Go(t));
    assert OwnerOk(s, t);
    var s' := Apply(s, Go(t));
    forall u | 0 <= u < |s'.th| ensures s'.owner != Some(u) { assert OwnerOk(s', u); }
  }

  lemma {:induction false} Unlocks(s: State, more: seq<Step>, t: nat)
    requires Inv(s) && Runs(s, more) && t < |s.th| && 0 < Left(s.th[t]) == Own(more, t) && more != []
    requires more[|more| - 1] == Go(t)
    requires s.th[t].pc.Swap? ==> s.recursion == 0
    ensures Freed(After(s, more), t)
    decreases |more|
  {
    var s' := Apply(s, more[0]);
    UnlockGoesOn(s, more[0], t);
    StepInv(s, more[0]);
    if |more| == 1 {
      assert more[1..] == [];
      SwapReleases(s, t);
    } else {
      assert more[1..][|more| - 2] == Go(t);
      OwnLast(more[1..], t);
      Unlocks(s', more[1..], t);
    }
  }

  lemma {:induction false} OwnLast(steps: seq<Step>, t: nat)
    requires steps != [] && steps[|steps| - 1] == Go(t)
    ensures Own(steps, t) > 0
  {
    if |steps| > 1 { OwnLast(steps[1..], t); }
  }

  /** The holder's last unlock frees the mutex: whatever others do in between, at its third access from here on
      the word is 0, there is no owner, and nobody holds it. */
  lemma UnlockReleases(s: State, steps: seq<Step>, more: seq<Step>, t: nat)
    requires Init(s) && Runs(s, steps) && Runs(After(s, steps), more) && t < |After(s, steps).th|
    requires After(s, steps).th[t].pc.UnlockOwner? && After(s, steps).th[t].depth == 1
    requires Own(more, t) == 3 && more[|more| - 1] == Go(t)
    ensures Freed(After(After(s, steps), more), t)
  {
    ReachInv(s, steps);
    Unlocks(After(s, steps), more, t);
  }

  // -------------------------------------------------------------------------
  // What a lock or try returns
  // -------------------------------------------------------------------------

  /** Thread `x` is inside a lock call (`blocking`) or a try, begun with `depth` locks held. */
  ghost predicate Asking(x: Thread, depth: nat, blocking: bool) {
    match x.pc
    case TryLoad(b) => b == blocking && x.depth == depth
    case TryOwner(b) => b == blocking && x.depth == depth
    case TryCas(b) => b == blocking && x.depth == depth
    case Taken => x.depth == 1 && depth == 0
    case Look => blocking && x.depth == depth
    case TakeMarked => blocking && x.depth == depth
    case Mark => blocking && x.depth == depth
    case Sleep => blocking && x.depth == depth
    case Parked => blocking && x.depth == depth
    case _ => false
  }

  /** Word, owner, count and everybody's locks are as they were. */
  ghost predicate Untouched(s: State, s': State) {
    && s'.word == s.word && s'.owner == s.owner && s'.recursion == s.recursion && |s'.th| == |s.th|
    && forall u :: 0 <= u < |s.th| ==> s'.th[u].depth == s.th[u].depth
  }

  /** The caller holds the mutex, one level deeper than `depth`, and the fields say so. */
  ghost predicate Got(s: State, t: nat, depth: nat) {
    Holder(s, t) && s.th[t].depth == depth + 1 && s.owner == Some(t) && s.recursion == depth + 1 && s.word != 0
  }

  /** What each result means, for the step that ends a call begun with `depth` locks held. */
  ghost predicate Outcome(s: State, step: Step, s': State, t: nat, depth: nat, blocking: bool) {
    && t < |s.th| && t < |s'.th| && s'.th[t].pc.Idle?
    && (s'.th[t].last.Ok? <==> Got(s', t, depth))
    && (!s'.th[t].last.Ok? ==> Untouched(s, s') && s'.th[t].depth == depth)
    && match s'.th[t].last
       case Ok => step == Go(t)
       case Busy => step == Go(t) && !blocking && s.word != 0 && (Holder(s, t) ==> s.kind.Normal?)
       case Deadlock => step == Go(t) && s.kind.ErrorCheck? && Holder(s, t)
       case TooDeep => step == Go(t) && s.kind.Recursive? && Holder(s, t) && depth == DEPTH_MAX
       case TimedOut => step == Expire(t) && blocking
       case Failed => step == Refuse(t) && blocking
       case _ => false
  }

  lemma OthersAsk(s: State, step: Step, t: nat, depth: nat, blocking: bool)
    requires Inv(s) && Enabled(s, step) && t < |s.th| && Asking(s.th[t], depth, blocking) && step.t != t
    ensures t < |Apply(s, step).th| && Asking(Apply(s, step).th[t], depth, blocking)
  {
    if step.Go? && s.th[step.t].pc.WakeOwed? && s.line != [] { assert s.line[0] in s.line; }
  }

  lemma OwnAsk(s: State, step: Step, t: nat, depth: nat, blocking: bool)
    requires Inv(s) && Enabled(s, step) && t < |s.th| && Asking(s.th[t], depth, blocking) && step.t == t
    ensures t < |Apply(s, step).th|
    ensures Asking(Apply(s, step).th[t], depth, blocking) || Outcome(s, step, Apply(s, step), t, depth, blocking)
  {
    assert OwnerOk(s, t);
    assert s.word == 0 ==> !Holder(s, t);
    assert Holder(s, t) ==> s.word != 0;
  }

  /** The rest of a call of thread `t`: it is inside the library up to the last step, and outside then. */
  ghost predicate Calls(s: State, more: seq<Step>, t: nat)
    requires Runs(s, more)
    decreases |more|
  {
    t < |s.th| &&
    if more == [] then s.th[t].pc.Idle? else !s.th[t].pc.Idle? && Calls(Apply(s, more[0]), more[1..], t)
  }

  /** The state before the last step. */
  ghost function Before(s: State, more: seq<Step>): (w: State)
    requires Runs(s, more) && more != []
    decreases |more|
  {
    if |more| == 1 then s else Before(Apply(s, more[0]), more[1..])
  }

  lemma {:induction false} CallRuns(s: State, more: seq<Step>, t: nat, depth: nat, blocking: bool)
    requires Inv(s) && Runs(s, more) && more != [] && Calls(s, more, t) && Asking(s.th[t], depth, blocking)
    ensures Outcome(Before(s, more), more[|more| - 1], After(s, more), t, depth, blocking)
    decreases |more|
  {
    var s' := Apply(s, more[0]);
    if more[0].t == t { OwnAsk(s, more[0], t, depth, blocking); } else { OthersAsk(s, more[0], t, depth, blocking); }
    StepInv(s, more[0]);
    if |more| == 1 {
      assert more[1..] == [];
    } else {
      assert more[1..][|more| - 2] == more[|more| - 1];
      CallRuns(s', more[1..], t, depth, blocking);
    }
  }

  /** Every call of pthread_mutex_trylock or pthread_mutex_lock, whatever others do meanwhile: it returns success if and
      only if the caller then holds the mutex one level deeper than when the call began, and any other result says
      what stood in the way and leaves the mutex alone. */
  lemma LockMeansHeld(s: State, steps: seq<Step>, call: Step, more: seq<Step>)
    requires Init(s) && Runs(s, steps) && Enabled(After(s, steps), call) && (call.CallTry? || call.CallLock?)
    requires Runs(Apply(After(s, steps), call), more) && Calls(Apply(After(s, steps), call), more, call.t)
    ensures more != []
    ensures var z := Apply(After(s, steps), call);
            Outcome(Before(z, more), more[|more| - 1], After(z, more), call.t, After(s, steps).th[call.t].depth,
                    call.CallLock?)
  {
    ReachInv(s, steps);
    var w := After(s, steps);
    StepInv(w, call);
    CallRuns(Apply(w, call), more, call.t, w.th[call.t].depth, call.CallLock?);
  }

  /** How far a call is from taking a free mutex. */
  function Far(pc: Pc): (n: nat) {
    if pc.Sleep? || pc.Mark? then 4 else if pc.Look? || pc.TryLoad? || pc.TryOwner? then 3
    else if pc.TakeMarked? || pc.TryCas? then 2 else if pc.Taken? then 1 else 0
  }

  lemma Nearer(s: State, t: nat, blocking: bool)
    requires Inv(s) && t < |s.th| && Asking(s.th[t], 0, blocking) && !s.th[t].pc.Parked?
    requires s.word == 0 || s.th[t].pc.Taken?
    ensures Enabled(s, Go(t)) && t < |Apply(s, Go(t)).th|
    ensures var s' := Apply(s, Go(t));
            if s.th[t].pc.Taken? then s'.th[t].pc.Idle? && Got(s', t, 0)
            else Asking(s'.th[t], 0, blocking) && !s'.th[t].pc.Parked? && (s'.word == 0 || s'.th[t].pc.Taken?) &&
                 Far(s'.th[t].pc) < Far(s.th[t].pc)
  {
    assert OwnerOk(s, t);
    assert s.th[t].pc.Taken? ==> Holder(s, t);
  }

  /** A call that finds the word free, and is not disturbed, succeeds: nothing but others keeps it from the mutex. */
  lemma {:induction false} FreeIsTaken(s: State, t: nat, blocking: bool) returns (more: seq<Step>)
    requires Inv(s) && t < |s.th| && Asking(s.th[t], 0, blocking) && !s.th[t].pc.Parked?
    requires s.word == 0 || s.th[t].pc.Taken?
    ensures Runs(s, more) && Calls(s, more, t) && Got(After(s, more), t, 0)
    ensures forall i :: 0 <= i < |more| ==> more[i] == Go(t)
    decreases Far(s.th[t].pc)
  {
    Nearer(s, t, blocking);
    var s' := Apply(s, Go(t));
    if s.th[t].pc.Taken? {
      more := [];
    } else {
      StepInv(s, Go(t));
      more := FreeIsTaken(s', t, blocking);
    }
    var rest := more;
    more := [Go(t)] + rest;
    assert more[1..] == rest;
  }
}
