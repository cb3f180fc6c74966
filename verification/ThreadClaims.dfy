/** What every interleaving of wait, wake, requeue, expiry and reap keeps: each
    parked thread has its bucket node and deadline entry, each claimed thread
    exactly one winner, and no removal can miss. */
module ThreadClaims {
  import opened ThreadProtocol
  import opened Seqs

  // -------------------------------------------------------------------------
  // Who holds a claimed thread, and whether its node is still in the tree
  // -------------------------------------------------------------------------

  /** The CPU's claim on `t` is live. */
  predicate Holds(pc: Pc, t: nat) {
    match pc
    case Waking(_, _, _, held) => t in held
    case Timing(_, _, held) => t in held
    case Finishing(held, stage, _) => t in held && !(stage.Enqueue? && held != [] && held[0] == t)
    case Reaping(v, reap) => t == v && (reap.Unhook? || reap.Disarm? || reap.Free?)
    case Relinking(_, _, _, _, v, _) => t == v
    case _ => false
  }

  /** The winner has not yet removed the bucket node of `t`. */
  predicate HasNode(pc: Pc, t: nat) {
    match pc
    case Timing(_, _, held) => t in held
    case Finishing(held, stage, late) => late && t in held && (stage.Unlink? || held[0] != t)
    case Reaping(v, reap) => t == v && reap.Unhook?
    case Relinking(_, _, _, _, v, _) => t == v
    case _ => false
  }

  function Held(pc: Pc): (xs: seq<nat>) {
    if pc.Waking? || pc.Timing? || pc.Finishing? then pc.held else []
  }

  // -------------------------------------------------------------------------
  // The invariant
  // -------------------------------------------------------------------------

  ghost predicate ClaimOk(s: State, t: nat)
    requires t < |s.th|
  {
    var x := s.th[t];
    && (x.deadline != 0 ==> Deadline(x.dcpu, x.deadline, t) in s.entries && x.deadline == x.due)
    && (x.ws.Parked? || x.ws.Moving? ==> x.deadline == x.due)
    && match x.ws
       case Idle => x.owner.None? && x.deadline == 0
       case Parked => x.owner.None? && x.key in s.nodes && s.nodes[x.key] == t
       case Moving => x.owner.Some? && x.owner.value < |s.pc| && s.pc[x.owner.value].Relinking? &&
                      s.pc[x.owner.value].t == t && x.key in s.nodes && s.nodes[x.key] == t
       case Claimed => x.owner.Some? && x.owner.value < |s.pc| && !s.pc[x.owner.value].Relinking? &&
                       Holds(s.pc[x.owner.value], t) &&
                       (HasNode(s.pc[x.owner.value], t) ==> x.key in s.nodes && s.nodes[x.key] == t)
       case Reapable => x.owner.None? && x.deadline == 0
  }

  ghost predicate NodeOk(s: State, k: Key)
    requires k in s.nodes
  {
    var t := s.nodes[k];
    && t < |s.th| && s.th[t].key == k && k.num < s.nextSeq
    && (|| s.th[t].ws.Parked? || s.th[t].ws.Moving?
        || (s.th[t].ws.Claimed? && s.th[t].owner.Some? && s.th[t].owner.value < |s.pc| &&
            HasNode(s.pc[s.th[t].owner.value], t)))
  }

  ghost predicate EntryOk(s: State, e: Deadline) {
    e.tid < |s.th| && e.at != 0 && s.th[e.tid].deadline == e.at && s.th[e.tid].dcpu == e.cpu
  }

  ghost predicate HandOk(s: State, c: nat)
    requires c < |s.pc|
  {
    && NoDup(Held(s.pc[c]))
    && (forall t :: t in Held(s.pc[c]) ==> t < |s.th|)
    && (forall t :: t in Held(s.pc[c]) && Holds(s.pc[c], t) ==> s.th[t].ws.Claimed? && s.th[t].owner == Some(c))
    && (s.pc[c].Finishing? && s.pc[c].stage.Enqueue? ==>
          s.pc[c].held != [] && s.pc[c].held[0] < |s.th| && s.th[s.pc[c].held[0]].ws.Idle?)
    && (s.pc[c].Finishing? && s.pc[c].stage.Unlink? ==> s.pc[c].late)
    && (s.pc[c].Finishing? && s.pc[c].held != [] && !s.pc[c].stage.Unlink? && !s.pc[c].stage.Cancel? ==>
          s.pc[c].held[0] < |s.th| && s.th[s.pc[c].held[0]].deadline == 0)
    && (s.pc[c].Reaping? && s.pc[c].reap.Free? ==> s.pc[c].t < |s.th| && s.th[s.pc[c].t].deadline == 0)
    && (s.pc[c].Relinking? ==> s.pc[c].t < |s.th| && s.th[s.pc[c].t].ws.Moving? && s.th[s.pc[c].t].owner == Some(c))
    && (s.pc[c].Reaping? ==> s.pc[c].t < |s.th|)
    && (s.pc[c].Reaping? && Holds(s.pc[c], s.pc[c].t) ==>
          s.th[s.pc[c].t].ws.Claimed? && s.th[s.pc[c].t].owner == Some(c))
  }

  ghost predicate ClaimInv(s: State) {
    && Wf(s)
    && (forall t :: 0 <= t < |s.th| ==> ClaimOk(s, t))
    && (forall k :: k in s.nodes ==> NodeOk(s, k))
    && (forall e :: e in s.entries ==> EntryOk(s, e))
    && (forall c :: 0 <= c < |s.pc| ==> HandOk(s, c))
  }

  /** The fields the claim protocol reads are the same. */
  predicate SameClaim(x: Thread, y: Thread) {
    && x.ws == y.ws && x.key == y.key && x.deadline == y.deadline && x.dcpu == y.dcpu && x.due == y.due
    && x.owner == y.owner
  }

  /** A program counter that holds no claim and moves nothing. */
  predicate Empty(pc: Pc) {
    Held(pc) == [] && !pc.Relinking? && !pc.Finishing? && !(pc.Reaping? && Holds(pc, pc.t))
  }

  /** Steps that neither claim, move, release nor touch a tree keep the invariant. */
  lemma ClaimFrame(s: State, s': State, c: nat)
    requires ClaimInv(s) && Wf(s') && c < |s.pc| && |s'.pc| == |s.pc|
    requires s'.nodes == s.nodes && s'.entries == s.entries && s'.nextSeq == s.nextSeq
    requires |s.th| <= |s'.th| && forall t :: 0 <= t < |s.th| ==> SameClaim(s.th[t], s'.th[t])
    requires forall t :: |s.th| <= t < |s'.th| ==> s'.th[t].ws.Idle? && s'.th[t].owner.None? && s'.th[t].deadline == 0
    requires forall d :: 0 <= d < |s.pc| && d != c ==> s'.pc[d] == s.pc[d]
    requires s'.pc[c] == s.pc[c] || (Empty(s.pc[c]) && Empty(s'.pc[c]) && (s'.pc[c].Reaping? ==> s'.pc[c].t < |s.th|))
    ensures ClaimInv(s')
  {
    forall t | 0 <= t < |s'.th| ensures ClaimOk(s', t) {
      if t < |s.th| { assert ClaimOk(s, t) && SameClaim(s.th[t], s'.th[t]); }
    }
    forall k | k in s'.nodes ensures NodeOk(s', k) { assert NodeOk(s, k); }
    forall e | e in s'.entries ensures EntryOk(s', e) { assert EntryOk(s, e); }
    forall d | 0 <= d < |s'.pc| ensures HandOk(s', d) {
      assert HandOk(s, d);
    }
  }

  // -------------------------------------------------------------------------
  // One CPU acts on one thread
  // -------------------------------------------------------------------------

  /** CPU `d` has nothing to do with thread `t`. */
  predicate HandsOff(pc: Pc, t: nat) {
    t !in Held(pc) && !(pc.Relinking? && pc.t == t) && !(pc.Reaping? && Holds(pc, pc.t) && pc.t == t)
  }

  lemma NotHeldElsewhere(s: State, t: nat, c: nat)
    requires ClaimInv(s) && t < |s.th| && !s.th[t].ws.Idle?
    requires s.th[t].owner == Some(c) || s.th[t].owner.None?
    ensures forall d :: 0 <= d < |s.pc| && d != c ==> HandsOff(s.pc[d], t)
  {
    forall d | 0 <= d < |s.pc| && d != c ensures HandsOff(s.pc[d], t) { assert HandOk(s, d); }
  }

  /** Only thread `t` and CPU `c` change; CPU `c` holds the other threads as before. */
  ghost predicate OnlyThread(s: State, s': State, c: nat, t: nat) {
    && Wf(s) && Wf(s') && c < |s.pc| && |s'.pc| == |s.pc| && t < |s.th| && |s'.th| == |s.th| && s.nextSeq <= s'.nextSeq
    && (forall u :: 0 <= u < |s.th| && u != t ==> SameClaim(s.th[u], s'.th[u]))
    && (forall d :: 0 <= d < |s.pc| && d != c ==> s'.pc[d] == s.pc[d] && HandsOff(s.pc[d], t))
    && (forall u :: u != t && Holds(s.pc[c], u) ==>
          Holds(s'.pc[c], u) && HasNode(s'.pc[c], u) == HasNode(s.pc[c], u) &&
            s'.pc[c].Relinking? == s.pc[c].Relinking? == false)
    && (forall k :: k in s.nodes && s.nodes[k] != t ==> k in s'.nodes && s'.nodes[k] == s.nodes[k])
    && (forall k :: k in s'.nodes && s'.nodes[k] != t ==> k in s.nodes && s.nodes[k] == s'.nodes[k])
    && (forall e :: e in s.entries && e.tid != t ==> e in s'.entries)
    && (forall e :: e in s'.entries && e.tid != t ==> e in s.entries)
  }

  /** Then the invariant of everything else is kept. */
  lemma OthersKept(s: State, s': State, c: nat, t: nat)
    requires ClaimInv(s) && OnlyThread(s, s', c, t)
    ensures forall u :: 0 <= u < |s.th| && u != t ==> ClaimOk(s', u)
    ensures forall k :: k in s'.nodes && s'.nodes[k] != t ==> NodeOk(s', k)
    ensures forall e :: e in s'.entries && e.tid != t ==> EntryOk(s', e)
    ensures forall d :: 0 <= d < |s.pc| && d != c ==> HandOk(s', d)
  {
    forall u | 0 <= u < |s.th| && u != t ensures ClaimOk(s', u) {
      assert ClaimOk(s, u) && SameClaim(s.th[u], s'.th[u]);
      if s.th[u].owner == Some(c) { assert Holds(s.pc[c], u); }
    }
    forall k | k in s'.nodes && s'.nodes[k] != t ensures NodeOk(s', k) {
      assert NodeOk(s, k) && ClaimOk(s, s.nodes[k]) && SameClaim(s.th[s.nodes[k]], s'.th[s.nodes[k]]);
    }
    forall e | e in s'.entries && e.tid != t ensures EntryOk(s', e) { assert EntryOk(s, e); }
    forall d | 0 <= d < |s.pc| && d != c ensures HandOk(s', d) { assert HandOk(s, d); }
  }

  /** ...and what is left to check is thread `t` and CPU `c`. */
  lemma ClaimStep(s: State, s': State, c: nat, t: nat)
    requires ClaimInv(s) && OnlyThread(s, s', c, t)
    requires ClaimOk(s', t) && HandOk(s', c)
    requires forall k :: k in s'.nodes && s'.nodes[k] == t ==> NodeOk(s', k)
    requires forall e :: e in s'.entries && e.tid == t ==> EntryOk(s', e)
    ensures ClaimInv(s')
  {
    OthersKept(s, s', c, t);
  }

  lemma ParkKept(s: State, c: nat)
    requires ClaimInv(s) && Live(s, c) && s.pc[c].Parking? && s.th[s.current[c].value].ws.Idle?
    requires forall h :: 0 <= h < |s.pc| ==> HandsOff(s.pc[h], s.current[c].value)
    ensures ClaimInv(ParkedAt(s, c))
  {
    var t := s.current[c].value;
    var s' := ParkedAt(s, c);
    assert ClaimOk(s, t);
    forall k | k in s.nodes ensures s.nodes[k] != t && k.num < s.nextSeq { assert NodeOk(s, k); }
    forall e | e in s.entries ensures e.tid != t { assert EntryOk(s, e); }
    ClaimStep(s, s', c, t);
  }

  lemma DetachKept(s: State, c: nat, k: Key)
    requires ClaimInv(s) && c < |s.pc| && s.pc[c].Waking? && k in s.nodes && s.nodes[k] < |s.th|
    ensures ClaimInv(Detached(s, c, k))
  {
    var t, s' := s.nodes[k], Detached(s, c, k);
    assert NodeOk(s, k) && ClaimOk(s, t) && HandOk(s, c);
    if s.th[t].ws.Parked? {
      NotHeldElsewhere(s, t, c);
      forall m | m in s'.nodes ensures s'.nodes[m] != t { assert NodeOk(s, m); }
      forall e | e in s'.entries && e.tid == t ensures EntryOk(s', e) { assert EntryOk(s, e); }
      ClaimStep(s, s', c, t);
    } else {
      forall e | e in s'.entries && e.tid == t ensures EntryOk(s', e) { assert EntryOk(s, e); }
      SeekOn(s, s', c);
    }
  }

  /** Moving on in a seek loop without winning anything. */
  lemma SeekOn(s: State, s': State, c: nat)
    requires ClaimInv(s) && c < |s.pc| && s' == s.(pc := s'.pc) && |s'.pc| == |s.pc|
    requires forall d :: 0 <= d < |s.pc| && d != c ==> s'.pc[d] == s.pc[d]
    requires (s.pc[c].Waking? && s'.pc[c].Waking?) || (s.pc[c].Timing? && s'.pc[c].Timing?) ||
      (s.pc[c].Requeuing? && s'.pc[c].Requeuing?)
    requires Held(s'.pc[c]) == Held(s.pc[c])
    ensures ClaimInv(s')
  {
    assert HandOk(s, c);
    forall t | 0 <= t < |s.th| ensures ClaimOk(s', t) { assert ClaimOk(s, t); }
    forall k | k in s.nodes ensures NodeOk(s', k) { assert NodeOk(s, k); }
    forall e | e in s.entries ensures EntryOk(s', e) { assert EntryOk(s, e); }
    forall d | 0 <= d < |s.pc| ensures HandOk(s', d) { assert HandOk(s, d); }
  }

  lemma ExpireKept(s: State, c: nat, e: Deadline)
    requires ClaimInv(s) && c < |s.pc| && s.pc[c].Timing? && e in s.entries && e.cpu == c && e.tid < |s.th|
    ensures ClaimInv(ExpiredOne(s, c, e))
  {
    var t, s' := e.tid, ExpiredOne(s, c, e);
    assert EntryOk(s, e) && ClaimOk(s, t) && HandOk(s, c);
    if s.th[t].ws.Parked? {
      NotHeldElsewhere(s, t, c);
      forall d | d in s'.entries ensures d.tid != t { assert EntryOk(s, d); }
      forall k | k in s'.nodes && s'.nodes[k] == t ensures NodeOk(s', k) { assert NodeOk(s, k); }
      ClaimStep(s, s', c, t);
    } else {
      SeekOn(s, s', c);
    }
  }

  lemma FinishUnlinkKept(s: State, c: nat, q: nat)
    requires ClaimInv(s) && c < |s.pc| && q < |s.pc| && s.pc[c].Finishing? && s.pc[c].held != []
    requires s.pc[c].stage.Unlink?
    ensures s.pc[c].held[0] < |s.th|
    ensures s.th[s.pc[c].held[0]].key in s.nodes && s.nodes[s.th[s.pc[c].held[0]].key] == s.pc[c].held[0]
    ensures ClaimInv(FinishStep(s, c, q))
  {
    var t := s.pc[c].held[0];
    assert HandOk(s, c) && t in Held(s.pc[c]);
    var s' := FinishStep(s, c, q);
    assert ClaimOk(s, t);
    NotHeldElsewhere(s, t, c);
    forall k | k in s'.nodes ensures s'.nodes[k] != t { assert NodeOk(s, k); }
    forall e | e in s'.entries && e.tid == t ensures EntryOk(s', e) { assert EntryOk(s, e); }
    ClaimStep(s, s', c, t);
  }

  lemma FinishCancelKept(s: State, c: nat, q: nat)
    requires ClaimInv(s) && c < |s.pc| && q < |s.pc| && s.pc[c].Finishing? && s.pc[c].held != []
    requires s.pc[c].stage.Cancel?
    requires s.pc[c].held[0] < |s.th|
    ensures ClaimInv(FinishStep(s, c, q))
  {
    var t := s.pc[c].held[0];
    assert HandOk(s, c) && t in Held(s.pc[c]);
    var s' := FinishStep(s, c, q);
    assert ClaimOk(s, t);
    NotHeldElsewhere(s, t, c);
    forall k | k in s'.nodes ensures s'.nodes[k] != t { assert NodeOk(s, k); }
    forall e | e in s'.entries ensures e.tid != t { assert EntryOk(s, e); }
    ClaimStep(s, s', c, t);
  }

  /** A CPU acts on the head of its list after the trees are clear of it. */
  lemma HeadKept(s: State, s': State, c: nat, t: nat)
    requires ClaimInv(s) && Wf(s') && c < |s.pc| && s.pc[c].Finishing? && s.pc[c].held != []
    requires t == s.pc[c].held[0] < |s.th|
    requires !s.pc[c].stage.Unlink? && !s.pc[c].stage.Cancel?
    requires s'.nodes == s.nodes && s'.entries == s.entries && s'.nextSeq == s.nextSeq
    requires |s'.th| == |s.th| && |s'.pc| == |s.pc|
    requires forall u :: 0 <= u < |s.th| && u != t ==> s'.th[u] == s.th[u]
    requires forall d :: 0 <= d < |s.pc| && d != c ==> s'.pc[d] == s.pc[d] && HandsOff(s.pc[d], t)
    requires forall u :: u != t && Holds(s.pc[c], u) ==>
               Holds(s'.pc[c], u) && HasNode(s'.pc[c], u) == HasNode(s.pc[c], u)
    requires s'.pc[c].Finishing? && ClaimOk(s', t) && HandOk(s', c)
    ensures ClaimInv(s')
  {
    assert HandOk(s, c) && t in Held(s.pc[c]) && ClaimOk(s, t);
    forall k | k in s'.nodes ensures s'.nodes[k] != t { assert NodeOk(s, k); }
    forall e | e in s'.entries ensures e.tid != t { assert EntryOk(s, e); }
    ClaimStep(s, s', c, t);
  }

  /** The stages after the trees are clear that keep the thread in hand. */
  lemma FinishLateKept(s: State, c: nat, q: nat)
    requires ClaimInv(s) && c < |s.pc| && q < |s.pc| && s.pc[c].Finishing? && s.pc[c].held != []
    requires s.pc[c].held[0] < |s.th| && (s.pc[c].stage.Decide? || s.pc[c].stage.Spin? || s.pc[c].stage.SetRunnable?)
    requires s.pc[c].stage.Decide? ==> s.th[s.pc[c].held[0]].proc !in s.dead
    ensures ClaimInv(FinishStep(s, c, q))
  {
    var t := s.pc[c].held[0];
    assert HandOk(s, c) && t in Held(s.pc[c]) && ClaimOk(s, t);
    NotHeldElsewhere(s, t, c);
    HeadKept(s, FinishStep(s, c, q), c, t);
  }

  lemma FinishReleaseKept(s: State, c: nat, q: nat)
    requires ClaimInv(s) && c < |s.pc| && q < |s.pc| && s.pc[c].Finishing? && s.pc[c].held != []
    requires s.pc[c].held[0] < |s.th| && s.pc[c].stage.Release?
    ensures ClaimInv(FinishStep(s, c, q))
  {
    var t := s.pc[c].held[0];
    assert HandOk(s, c) && t in Held(s.pc[c]) && ClaimOk(s, t);
    NotHeldElsewhere(s, t, c);
    HeadKept(s, FinishStep(s, c, q), c, t);
  }

  /** The head leaves the list: published REAPABLE, or enqueued. */
  lemma FinishPopKept(s: State, c: nat, q: nat)
    requires ClaimInv(s) && c < |s.pc| && q < |s.pc| && s.pc[c].Finishing? && s.pc[c].held != []
    requires s.pc[c].held[0] < |s.th|
    requires s.pc[c].stage.Enqueue? || (s.pc[c].stage.Decide? && s.th[s.pc[c].held[0]].proc in s.dead)
    requires forall d :: 0 <= d < |s.pc| && d != c ==> HandsOff(s.pc[d], s.pc[c].held[0])
    ensures ClaimInv(FinishStep(s, c, q))
  {
    var held, t := s.pc[c].held, s.pc[c].held[0];
    assert HandOk(s, c) && t in Held(s.pc[c]) && ClaimOk(s, t);
    TailHeld(held);
    var s' := FinishStep(s, c, q);
    assert s'.pc[c] == Finishing(held[1..], if s.pc[c].late then Unlink else Cancel, s.pc[c].late);
    forall u | u != t && Holds(s.pc[c], u)
      ensures Holds(s'.pc[c], u) && HasNode(s'.pc[c], u) == HasNode(s.pc[c], u)
    {
      assert u in held[1..];
    }
    forall u | u in Held(s'.pc[c])
      ensures u < |s.th| && s'.th[u].ws.Claimed? && s'.th[u].owner == Some(c)
    {
      assert u in held && u != t && Holds(s.pc[c], u);
    }
    HeadKept(s, s', c, t);
  }

  lemma TailHeld(xs: seq<nat>)
    requires NoDup(xs) && xs != []
    ensures NoDup(xs[1..]) && xs[0] !in xs[1..]
    ensures forall u :: u in xs && u != xs[0] ==> u in xs[1..]
  {
  }

  /** The held list changes hands between the loops of one CPU. */
  lemma HandOver(s: State, s': State, c: nat)
    requires ClaimInv(s) && c < |s.pc| && s' == s.(pc := s'.pc) && |s'.pc| == |s.pc|
    requires forall d :: 0 <= d < |s.pc| && d != c ==> s'.pc[d] == s.pc[d]
    requires || (s.pc[c].Waking? && s'.pc[c] == Finishing(s.pc[c].held, Cancel, false))
             || (s.pc[c].Timing? && s'.pc[c] == Finishing(s.pc[c].held, Unlink, true))
             || (s.pc[c].Finishing? && s.pc[c].held == [] && Empty(s'.pc[c]) && !s'.pc[c].Reaping?)
    ensures ClaimInv(s')
  {
    assert HandOk(s, c);
    forall t | 0 <= t < |s.th| ensures ClaimOk(s', t) { assert ClaimOk(s, t); }
    forall k | k in s.nodes ensures NodeOk(s', k) { assert NodeOk(s, k); }
    forall e | e in s.entries ensures EntryOk(s', e) { assert EntryOk(s, e); }
    forall d | 0 <= d < |s.pc| ensures HandOk(s', d) { assert HandOk(s, d); }
  }

  lemma MoveKept(s: State, c: nat, k: Key)
    requires ClaimInv(s) && c < |s.pc| && s.pc[c].Requeuing? && k in s.nodes && s.nodes[k] < |s.th|
    ensures ClaimInv(MovingOne(s, c, k))
  {
    var t, s' := s.nodes[k], MovingOne(s, c, k);
    assert NodeOk(s, k) && ClaimOk(s, t) && HandOk(s, c);
    if s.th[t].ws.Parked? {
      NotHeldElsewhere(s, t, c);
      forall m | m in s'.nodes && s'.nodes[m] == t ensures NodeOk(s', m) { assert NodeOk(s, m); }
      forall e | e in s'.entries && e.tid == t ensures EntryOk(s', e) { assert EntryOk(s, e); }
      ClaimStep(s, s', c, t);
    } else {
      SeekOn(s, s', c);
    }
  }

  /** The relink keeps the deadline and finds and places the node without fail. */
  lemma RelinkKept(s: State, c: nat)
    requires ClaimInv(s) && c < |s.pc| && s.pc[c].Relinking? && s.pc[c].t < |s.th|
    ensures s.th[s.pc[c].t].key in s.nodes && s.nodes[s.th[s.pc[c].t].key] == s.pc[c].t
    ensures Key(s.pc[c].to, s.nextSeq) !in s.nodes
    ensures ClaimInv(Relinked(s, c))
    ensures var x, x' := s.th[s.pc[c].t], Relinked(s, c).th[s.pc[c].t];
            Relinked(s, c).entries == s.entries && x'.deadline == x.deadline == x.due == x'.due && x'.dcpu == x.dcpu
    ensures s.th[s.pc[c].t].due != 0 ==> Deadline(s.th[s.pc[c].t].dcpu, s.th[s.pc[c].t].due, s.pc[c].t) in s.entries
  {
    var t, s' := s.pc[c].t, Relinked(s, c);
    assert HandOk(s, c) && ClaimOk(s, t);
    NotHeldElsewhere(s, t, c);
    forall k | k in s.nodes ensures k.num < s.nextSeq && (s.nodes[k] == t ==> k == s.th[t].key) { assert NodeOk(s, k); }
    forall e | e in s'.entries && e.tid == t ensures EntryOk(s', e) { assert EntryOk(s, e); }
    ClaimStep(s, s', c, t);
  }

  lemma UnmoveKept(s: State, c: nat)
    requires ClaimInv(s) && c < |s.pc| && s.pc[c].Relinking? && s.pc[c].t < |s.th|
    ensures ClaimInv(Unmoved(s, c))
  {
    var t, s' := s.pc[c].t, Unmoved(s, c);
    assert HandOk(s, c) && ClaimOk(s, t);
    NotHeldElsewhere(s, t, c);
    forall k | k in s'.nodes && s'.nodes[k] == t ensures NodeOk(s', k) { assert NodeOk(s, k); }
    forall e | e in s'.entries && e.tid == t ensures EntryOk(s', e) { assert EntryOk(s, e); }
    ClaimStep(s, s', c, t);
  }

  lemma ReapKept(s: State, c: nat)
    requires ClaimInv(s) && c < |s.pc| && s.pc[c].Reaping? && s.pc[c].t < |s.th|
    requires s.pc[c].reap.FreeReapable? ==> s.th[s.pc[c].t].ws.Reapable?
    ensures s.pc[c].reap.Unhook? ==>
              s.th[s.pc[c].t].key in s.nodes && s.nodes[s.th[s.pc[c].t].key] == s.pc[c].t
    ensures ClaimInv(ReapNext(s, c))
  {
    var t, s' := s.pc[c].t, ReapNext(s, c);
    assert HandOk(s, c) && ClaimOk(s, t);
    if s.pc[c].reap.Check? || s.pc[c].reap.Look? || s.pc[c].reap.Load? || (s.pc[c].reap.Claim? && !s.th[t].ws.Parked?) {
      ClaimFrame(s, s', c);
    } else {
      NotHeldElsewhere(s, t, c);
      ReapActs(s, c);
    }
  }

  /** The reaper at work on a victim it has claimed, or found PARKED or REAPABLE. */
  ghost predicate Acts(s: State, c: nat) {
    && ClaimInv(s) && c < |s.pc| && s.pc[c].Reaping? && s.pc[c].t < |s.th|
    && (forall d :: 0 <= d < |s.pc| && d != c ==> HandsOff(s.pc[d], s.pc[c].t))
    && (s.pc[c].reap.FreeReapable? ==> s.th[s.pc[c].t].ws.Reapable?)
    && (s.pc[c].reap.Claim? ==> s.th[s.pc[c].t].ws.Parked?)
  }

  lemma ReapActs(s: State, c: nat)
    requires Acts(s, c) && !s.pc[c].reap.Check? && !s.pc[c].reap.Look? && !s.pc[c].reap.Load?
    ensures ClaimInv(ReapNext(s, c))
  {
    match s.pc[c].reap
    case Claim => ReapClaims(s, c);
    case Unhook => ReapUnhooks(s, c);
    case Disarm => ReapDisarms(s, c);
    case _ => ReapFrees(s, c);
  }

  lemma ReapClaims(s: State, c: nat)
    requires Acts(s, c) && s.pc[c].reap.Claim?
    ensures ClaimInv(ReapNext(s, c))
  {
    var t, s' := s.pc[c].t, ReapNext(s, c);
    assert HandOk(s, c) && ClaimOk(s, t);
    forall k | k in s'.nodes && s'.nodes[k] == t ensures NodeOk(s', k) { assert NodeOk(s, k); }
    forall e | e in s'.entries && e.tid == t ensures EntryOk(s', e) { assert EntryOk(s, e); }
    ClaimStep(s, s', c, t);
  }

  lemma ReapUnhooks(s: State, c: nat)
    requires Acts(s, c) && s.pc[c].reap.Unhook?
    ensures ClaimInv(ReapNext(s, c))
  {
    var t, s' := s.pc[c].t, ReapNext(s, c);
    assert HandOk(s, c) && ClaimOk(s, t);
    forall k | k in s'.nodes ensures s'.nodes[k] != t { assert NodeOk(s, k); }
    forall e | e in s'.entries && e.tid == t ensures EntryOk(s', e) { assert EntryOk(s, e); }
    ClaimStep(s, s', c, t);
  }

  lemma ReapDisarms(s: State, c: nat)
    requires Acts(s, c) && s.pc[c].reap.Disarm?
    ensures ClaimInv(ReapNext(s, c))
  {
    var t, s' := s.pc[c].t, ReapNext(s, c);
    assert HandOk(s, c) && ClaimOk(s, t);
    forall k | k in s'.nodes ensures s'.nodes[k] != t { assert NodeOk(s, k); }
    forall e | e in s'.entries ensures e.tid != t { assert EntryOk(s, e); }
    ClaimStep(s, s', c, t);
  }

  lemma ReapFrees(s: State, c: nat)
    requires Acts(s, c) && (s.pc[c].reap.Free? || s.pc[c].reap.FreeReapable?)
    ensures ClaimInv(ReapNext(s, c))
  {
    var t, s' := s.pc[c].t, ReapNext(s, c);
    assert HandOk(s, c) && ClaimOk(s, t);
    forall k | k in s'.nodes ensures s'.nodes[k] != t { assert NodeOk(s, k); }
    forall e | e in s'.entries ensures e.tid != t { assert EntryOk(s, e); }
    ClaimStep(s, s', c, t);
  }
}
