/** Waiting lines of futex.c: all bucket trees as one map from (address, sequence)
    to thread, with the seek loops of wake and requeue.  The order within an
    address is the order of sequence numbers, that is, of arrival. */
module FutexQueue {
  import opened ThreadProtocol

  const REQUEUE_BATCH: nat := 16
  const WORD32: nat := 0x1_0000_0000

  type Tree = map<Key, nat>
  type States = map<nat, WakeState>

  /** The threads waiting on `addr` with a sequence number below `n`, in order. */
  function Line(m: Tree, addr: nat, n: nat): (xs: seq<nat>) {
    if n == 0 then []
    else Line(m, addr, n - 1) + if Key(addr, n - 1) in m then [m[Key(addr, n - 1)]] else []
  }

  predicate IsParked(st: States, t: nat) {
    t in st && st[t].Parked?
  }

  /** Those of them that a claim can win. */
  function Claimable(m: Tree, st: States, addr: nat, n: nat): (xs: seq<nat>) {
    if n == 0 then []
    else Claimable(m, st, addr, n - 1) +
         if Key(addr, n - 1) in m && IsParked(st, m[Key(addr, n - 1)]) then [m[Key(addr, n - 1)]] else []
  }

  function Keep(xs: seq<nat>, st: States): (ys: seq<nat>) {
    if xs == [] then []
    else Keep(xs[..|xs| - 1], st) + if IsParked(st, xs[|xs| - 1]) then [xs[|xs| - 1]] else []
  }

  function Without(xs: seq<nat>, gone: seq<nat>): (ys: seq<nat>) {
    if xs == [] then []
    else Without(xs[..|xs| - 1], gone) + if xs[|xs| - 1] in gone then [] else [xs[|xs| - 1]]
  }

  function First(xs: seq<nat>, k: nat): (ys: seq<nat>) {
    if |xs| <= k then xs else xs[..k]
  }

  function Drop(m: Tree, gone: seq<nat>): (r: Tree) {
    map k | k in m && m[k] !in gone :: m[k]
  }

  /** `xs` joins the line of `addr` under the sequence numbers from `n` on. */
  function Append(m: Tree, addr: nat, n: nat, xs: seq<nat>): (r: Tree)
    decreases |xs|
  {
    if xs == [] then m else Append(m, addr, n, xs[..|xs| - 1])[Key(addr, n + |xs| - 1) := xs[|xs| - 1]]
  }

  // -------------------------------------------------------------------------
  // Lines
  // -------------------------------------------------------------------------

  /** The claimable threads are the parked ones of the line, in its order. */
  lemma {:induction false} ClaimableIsKept(m: Tree, st: States, addr: nat, n: nat)
    ensures Claimable(m, st, addr, n) == Keep(Line(m, addr, n), st)
  {
    if n != 0 {
      ClaimableIsKept(m, st, addr, n - 1);
      var xs, ys := Line(m, addr, n), Line(m, addr, n - 1);
      if Key(addr, n - 1) in m { assert xs[..|xs| - 1] == ys; } else { assert xs == ys; }
    }
  }

  lemma {:induction false} ClaimablePrefix(m: Tree, st: States, addr: nat, a: nat, b: nat)
    requires a <= b
    ensures Claimable(m, st, addr, a) <= Claimable(m, st, addr, b)
    decreases b
  {
    if a < b { ClaimablePrefix(m, st, addr, a, b - 1); }
  }

  lemma {:induction false} ClaimableGap(m: Tree, st: States, addr: nat, a: nat, b: nat)
    requires a <= b && forall i: nat :: a <= i < b ==> Key(addr, i) !in m
    ensures Claimable(m, st, addr, a) == Claimable(m, st, addr, b)
    decreases b
  {
    if a < b { ClaimableGap(m, st, addr, a, b - 1); }
  }

  lemma {:induction false} ClaimableIn(m: Tree, st: States, addr: nat, n: nat, t: nat)
    requires t in Claimable(m, st, addr, n)
    ensures exists i: nat :: i < n && Key(addr, i) in m && m[Key(addr, i)] == t && IsParked(st, t)
  {
    if Key(addr, n - 1) in m && m[Key(addr, n - 1)] == t && IsParked(st, t) {
    } else {
      ClaimableIn(m, st, addr, n - 1, t);
    }
  }

  lemma {:induction false} LineDrop(m: Tree, gone: seq<nat>, addr: nat, n: nat)
    ensures Line(Drop(m, gone), addr, n) == Without(Line(m, addr, n), gone)
  {
    if n != 0 {
      LineDrop(m, gone, addr, n - 1);
      var xs, ys := Line(m, addr, n), Line(m, addr, n - 1);
      if Key(addr, n - 1) in m { assert xs[..|xs| - 1] == ys; } else { assert xs == ys; }
    }
  }

  lemma {:induction false} WithoutNone(xs: seq<nat>, gone: seq<nat>)
    requires forall t :: t in xs ==> t !in gone
    ensures Without(xs, gone) == xs
  {
    if xs != [] { WithoutNone(xs[..|xs| - 1], gone); }
  }

  lemma {:induction false} LineBeyond(m: Tree, addr: nat, n: nat, k: nat)
    requires n <= k && forall i: nat :: n <= i < k ==> Key(addr, i) !in m
    ensures Line(m, addr, k) == Line(m, addr, n)
    decreases k
  {
    if n < k { LineBeyond(m, addr, n, k - 1); }
  }

  lemma {:induction false} LineSame(m: Tree, m': Tree, addr: nat, n: nat)
    requires forall i: nat :: i < n ==> (Key(addr, i) in m <==> Key(addr, i) in m')
    requires forall i: nat :: i < n && Key(addr, i) in m ==> m'[Key(addr, i)] == m[Key(addr, i)]
    ensures Line(m', addr, n) == Line(m, addr, n)
  {
    if n != 0 { LineSame(m, m', addr, n - 1); }
  }

  lemma {:induction false} AppendAt(m: Tree, addr: nat, n: nat, xs: seq<nat>, k: Key)
    ensures k in Append(m, addr, n, xs) <==> (k.addr == addr && n <= k.num < n + |xs|) || k in m
    ensures k in Append(m, addr, n, xs) ==>
              Append(m, addr, n, xs)[k] == if k.addr == addr && n <= k.num < n + |xs| then xs[k.num - n] else m[k]
    decreases |xs|
  {
    if xs != [] { AppendAt(m, addr, n, xs[..|xs| - 1], k); }
  }

  /** Joiners stand behind those already in the line, in their own order. */
  lemma {:induction false} LineAppend(m: Tree, addr: nat, n: nat, xs: seq<nat>)
    ensures Line(Append(m, addr, n, xs), addr, n + |xs|) == Line(m, addr, n) + xs
    decreases |xs|
  {
    if xs != [] {
      var ys, t := xs[..|xs| - 1], xs[|xs| - 1];
      LineAppend(m, addr, n, ys);
      var m', k := Append(m, addr, n, ys), Key(addr, n + |ys|);
      LineSame(m', m'[k := t], addr, n + |ys|);
      assert Append(m, addr, n, xs) == m'[k := t];
      assert Line(m, addr, n) + xs == (Line(m, addr, n) + ys) + [t];
      assert Line(m'[k := t], addr, n + |ys| + 1) == Line(m'[k := t], addr, n + |ys|) + [t];
    } else {
      assert Line(m, addr, n) + xs == Line(m, addr, n);
    }
  }

  lemma LineAppendElse(m: Tree, addr: nat, n: nat, xs: seq<nat>, a: nat)
    requires a != addr && forall i: nat :: n <= i ==> Key(a, i) !in m
    ensures Line(Append(m, addr, n, xs), a, n + |xs|) == Line(m, a, n)
  {
    forall i: nat
      ensures Key(a, i) in m <==> Key(a, i) in Append(m, addr, n, xs)
    {
      AppendAt(m, addr, n, xs, Key(a, i));
    }
    forall i: nat | Key(a, i) in m
      ensures Append(m, addr, n, xs)[Key(a, i)] == m[Key(a, i)]
    {
      AppendAt(m, addr, n, xs, Key(a, i));
    }
    LineSame(m, Append(m, addr, n, xs), a, n);
    LineBeyond(Append(m, addr, n, xs), a, n, n + |xs|);
  }

  lemma AppendDrop(m: Tree, k: Key, addr: nat, n: nat, xs: seq<nat>)
    requires k.num < n
    ensures Append(m - {k}, addr, n, xs) == Append(m, addr, n, xs) - {k}
  {
    var l, r := Append(m - {k}, addr, n, xs), Append(m, addr, n, xs) - {k};
    forall j ensures (j in l <==> j in r) && (j in l ==> l[j] == r[j]) {
      AppendAt(m, addr, n, xs, j);
      AppendAt(m - {k}, addr, n, xs, j);
    }
  }

  // -------------------------------------------------------------------------
  // The buckets
  // -------------------------------------------------------------------------

  datatype WaitResult = Waiting | Again | NoMem
  datatype RequeueResult = Invalid | Stale | Moved(n: nat)

  /** The front of the claimable waiters: as many as were asked for, or sixteen, or all, whichever is least. */
  ghost predicate Batch(xs: seq<nat>, claimable: seq<nat>, count: nat) {
    && xs <= claimable && |xs| <= count && |xs| <= 16
    && (|xs| == count || |xs| == 16 || xs == claimable)
  }

  class Buckets {
    var waiters: Tree
    var nextSeq: nat
    var waitKey: map<nat, Key>
    var deadline: map<nat, nat>
    var state: States

    ghost predicate Valid()
      reads this
    {
      && (forall k :: k in waiters ==> k.num < nextSeq && waiters[k] in waitKey && waitKey[waiters[k]] == k)
      && (forall t :: IsParked(state, t) ==> t in waitKey && waitKey[t] in waiters && waiters[waitKey[t]] == t)
    }

    /** The line of `addr`, first come first. */
    ghost function Queue(addr: nat): (xs: seq<nat>)
      reads this
    {
      Line(waiters, addr, nextSeq)
    }

    constructor ()
      ensures Valid() && forall a :: Queue(a) == []
    {
      waiters, nextSeq, waitKey, deadline, state := map[], 0, map[], map[], map[];
      new;
      forall a ensures Line(waiters, a, nextSeq) == [] { }
    }

    /** The tree's lower-bound seek: the first waiter on `addr` not before `seek`. */
    method LowerBound(addr: nat, seek: nat) returns (found: bool, k: Key)
      requires Valid()
      ensures found <==> exists i: nat :: seek <= i && Key(addr, i) in waiters
      ensures found ==> IsNext(waiters, addr, seek, k)
    {
      var n := seek;
      k := Key(addr, seek);
      while n < nextSeq
        invariant forall i: nat :: seek <= i < n ==> Key(addr, i) !in waiters
        invariant seek <= n
      {
        if Key(addr, n) in waiters { return true, Key(addr, n); }
        n := n + 1;
      }
      found := false;
    }

    /** futex_sys_wait from the compare to PARKED; `word` is what the load under the
        bucket lock saw, `room` and `timer` whether the two insertions find memory. */
    method Wait(t: nat, addr: nat, word: nat, expected: nat, due: nat, room: bool, timer: bool) returns (r: WaitResult)
      requires Valid() && !IsParked(state, t)
      requires forall k :: k in waiters ==> waiters[k] != t
      modifies this
      ensures Valid()
      ensures r == if word != expected % WORD32 then Again else if !room || (due != 0 && !timer) then NoMem
        else WaitResult.Waiting
      ensures r.Waiting? ==>
                Queue(addr) == old(Queue(addr)) + [t] && IsParked(state, t) && t in deadline && deadline[t] == due
      ensures !r.Waiting? ==> waiters == old(waiters) && state == old(state)
      ensures forall a :: a != addr || !r.Waiting? ==> Queue(a) == old(Queue(a))
      ensures forall u :: u != t ==> IsParked(state, u) == old(IsParked(state, u)) &&
                                     (u in deadline <==> u in old(deadline)) &&
                                     (u in deadline ==> deadline[u] == old(deadline)[u])
    {
      if word != expected % WORD32 { return Again; }
      var k := Key(addr, nextSeq);
      nextSeq := nextSeq + 1;
      Reserved(old(waiters), old(nextSeq), addr, t);
      if !room { return NoMem; }
      waiters := waiters[k := t];
      waitKey := waitKey[t := k];
      deadline := deadline[t := 0];
      if due != 0 && !timer {
        waiters := waiters - {k};
        assert waiters == old(waiters);
        return NoMem;
      }
      deadline := deadline[t := due];
      state := state[t := Parked];
      r := WaitResult.Waiting;
    }

    /** Thread states: those in `batch` claimed, the others as in `st`. */
    ghost predicate Took(batch: seq<nat>, st: States)
      reads this
    {
      && (forall t :: t in batch ==> t in state && state[t].Claimed?)
      && (forall t :: t !in batch ==> (t in state <==> t in st) && (t in state ==> state[t] == st[t]))
    }

    /** detach_batch_locked: claim and detach the first `cap` claimable waiters. */
    method DetachBatch(addr: nat, cap: nat) returns (batch: seq<nat>)
      requires Valid()
      modifies this`waiters, this`state
      ensures Valid()
      ensures batch == First(Keep(old(Queue(addr)), old(state)), cap)
      ensures forall a :: Queue(a) == if a == addr then Without(old(Queue(a)), batch) else old(Queue(a))
      ensures Took(batch, old(state))
    {
      ghost var m, st := waiters, state;
      batch := [];
      var seek, more := 0, true;
      while |batch| < cap && more
        invariant Valid() && seek <= nextSeq && |batch| <= cap
        invariant batch == Claimable(m, st, addr, seek) && waiters == Drop(m, batch) && Took(batch, st)
        invariant !more ==> Claimable(m, st, addr, seek) == Claimable(m, st, addr, nextSeq)
        decreases nextSeq - seek, more
      {
        more, seek, batch := DetachOne(addr, seek, batch, m, st);
      }
      ClaimablePrefix(m, st, addr, seek, nextSeq);
      ClaimableIsKept(m, st, addr, nextSeq);
      forall a ensures Queue(a) == if a == addr then Without(Line(m, a, nextSeq), batch) else Line(m, a, nextSeq) {
        LineDrop(m, batch, a, nextSeq);
        if a != addr { Elsewhere(m, st, addr, seek, a, nextSeq, batch); }
      }
    }

    /** One round of the seek loop. */
    method DetachOne(addr: nat, seek: nat, batch: seq<nat>, ghost m: Tree, ghost st: States)
      returns (more: bool, next: nat, batch': seq<nat>)
      requires Valid() && seek <= nextSeq && batch == Claimable(m, st, addr, seek) && waiters == Drop(m, batch)
      requires Took(batch, st)
      requires OneKey(m) && forall k :: k in m ==> k.num < nextSeq
      modifies this`waiters, this`state
      ensures Valid() && seek <= next <= nextSeq && |batch| <= |batch'| <= |batch| + 1
      ensures more ==> seek < next
      ensures batch' == Claimable(m, st, addr, next) && waiters == Drop(m, batch') && Took(batch', st)
      ensures !more ==> Claimable(m, st, addr, next) == Claimable(m, st, addr, nextSeq)
    {
      var k;
      more, k := LowerBound(addr, seek);
      batch' := batch;
      if !more {
        next := seek;
        NoNext(m, st, addr, seek, nextSeq, batch);
        return;
      }
      next := k.num + 1;
      NextClaimable(m, st, addr, seek, k, batch);
      if waiters[k] in state && state[waiters[k]].Parked? {
        DropOne(m, batch, k);
        batch' := batch + [waiters[k]];
        Claim(k);
      }
    }

    /** wake_batch, up to the release of the bucket. */
    method Wake(addr: nat, count: nat) returns (batch: seq<nat>)
      requires Valid()
      modifies this`waiters, this`state
      ensures Valid()
      ensures Batch(batch, Keep(old(Queue(addr)), old(state)), count)
      ensures forall a :: Queue(a) == if a == addr then Without(old(Queue(a)), batch) else old(Queue(a))
      ensures Took(batch, old(state))
    {
      var cap := if count < WAKE_BATCH then count else WAKE_BATCH;
      batch := DetachBatch(addr, cap);
    }

    /** futex_sys_requeue: `word` is what the load under both bucket locks saw. */
    method Requeue(from: nat, to: nat, word: nat, expected: nat, count: nat)
      returns (r: RequeueResult, ghost moved: seq<nat>)
      requires Valid()
      modifies this
      ensures Valid() && state == old(state) && deadline == old(deadline)
      ensures r == if from % 4 != 0 || to % 4 != 0 || from == to then Invalid
                   else if word != expected % WORD32 then Stale else Moved(|moved|)
      ensures !r.Moved? ==> waiters == old(waiters) && nextSeq == old(nextSeq)
      ensures r.Moved? ==> Batch(moved, Keep(old(Queue(from)), old(state)), count)
      ensures r.Moved? ==>
                Shifted(waiters, nextSeq, old(waiters), old(nextSeq), from, to, moved) &&
                waiters.Values == old(waiters.Values)
    {
      moved := [];
      if from % 4 != 0 || to % 4 != 0 || from == to {
        r := Invalid;
      } else if word != expected % WORD32 {
        r := Stale;
      } else {
        var k;
        var cap := if count < REQUEUE_BATCH then count else REQUEUE_BATCH;
        k, moved := MoveAll(from, to, cap);
        r := Moved(k);
      }
    }

    method MoveAll(from: nat, to: nat, cap: nat) returns (k: nat, ghost moved: seq<nat>)
      requires Valid() && from != to
      modifies this
      ensures Valid() && k == |moved| && state == old(state) && deadline == old(deadline)
      ensures moved == First(Keep(old(Queue(from)), old(state)), cap)
      ensures Shifted(waiters, nextSeq, old(waiters), old(nextSeq), from, to, moved)
      ensures waiters.Values == old(waiters.Values)
    {
      ghost var m, st, n, seek := waiters, state, nextSeq, 0;
      OneNode();
      k, seek, moved := MoveBatch(from, to, cap);
      Requeued(waiters, m, st, from, seek, to, n, moved, cap);
      assert nextSeq == n + |moved|;
    }

    lemma OneNode()
      requires Valid()
      ensures OneKey(waiters)
    {
    }

    /** The loop of futex_sys_requeue. */
    method MoveBatch(from: nat, to: nat, cap: nat) returns (k: nat, ghost seek': nat, ghost moved: seq<nat>)
      requires Valid() && from != to
      modifies this
      ensures Valid() && k == |moved| && nextSeq == old(nextSeq) + k && state == old(state) && deadline == old(deadline)
      ensures moved == First(Claimable(old(waiters), old(state), from, old(nextSeq)), cap)
      ensures moved == Claimable(old(waiters), old(state), from, seek')
      ensures waiters == Append(Drop(old(waiters), moved), to, old(nextSeq), moved)
    {
      ghost var m, st, n := waiters, state, nextSeq;
      moved, k := [], 0;
      var seek, more := 0, true;
      while k < cap && more
        invariant Valid() && seek <= n && k == |moved| <= cap && nextSeq == n + k
        invariant state == st && deadline == old(deadline)
        invariant moved == Claimable(m, st, from, seek) && waiters == Append(Drop(m, moved), to, n, moved)
        invariant !more ==> Claimable(m, st, from, seek) == Claimable(m, st, from, n)
        decreases n - seek, more
      {
        var won;
        more, won, seek, moved := RequeueOne(from, to, seek, moved, m, st, n);
        if won { k := k + 1; }
      }
      ClaimablePrefix(m, st, from, seek, n);
      seek' := seek;
    }

    /** One round of requeue's seek loop. */
    method RequeueOne(from: nat, to: nat, seek: nat, ghost moved: seq<nat>, ghost m: Tree, ghost st: States,
                      ghost n: nat)
      returns (more: bool, won: bool, next: nat, ghost moved': seq<nat>)
      requires Valid() && from != to && seek <= n && nextSeq == n + |moved| && state == st
      requires moved == Claimable(m, st, from, seek) && waiters == Append(Drop(m, moved), to, n, moved)
      requires OneKey(m) && forall k :: k in m ==> k.num < n
      modifies this
      ensures Valid() && seek <= next <= n && |moved'| == |moved| + (if won then 1 else 0) && nextSeq == n + |moved'|
      ensures state == st && deadline == old(deadline)
      ensures more ==> seek < next
      ensures moved' == Claimable(m, st, from, next) && waiters == Append(Drop(m, moved'), to, n, moved')
      ensures !more ==> Claimable(m, st, from, next) == Claimable(m, st, from, n)
    {
      var k;
      more, k := LowerBound(from, seek);
      moved', won := moved, false;
      if !more {
        next := seek;
        NoNextMoved(m, st, from, to, seek, n, moved);
        return;
      }
      NextHere(m, moved, from, to, n, seek, k);
      NextClaimable(m, st, from, seek, k, moved);
      next := k.num + 1;
      won := waiters[k] in state && state[waiters[k]].Parked?;
      if won {
        moved' := moved + [waiters[k]];
        MoveOn(k, to, moved, m, n);
      }
    }

    method MoveOn(k: Key, to: nat, ghost moved: seq<nat>, ghost m: Tree, ghost n: nat)
      requires Valid() && k in waiters && IsParked(state, waiters[k]) && nextSeq == n + |moved|
      requires OneKey(m) && k in m && k.num < n && m[k] == waiters[k] && waiters == Append(Drop(m, moved), to, n, moved)
      modifies this
      ensures Valid() && nextSeq == old(nextSeq) + 1 && state == old(state) && deadline == old(deadline)
      ensures waiters == Append(Drop(m, moved + [m[k]]), to, n, moved + [m[k]])
    {
      AfterMove(m, moved, k, to, n);
      MoveNode(k, to);
    }

    /** The MOVING window: extract the node, rewrite the key, relink it, release. */
    method MoveNode(k: Key, to: nat)
      requires Valid() && k in waiters && IsParked(state, waiters[k])
      modifies this
      ensures Valid() && nextSeq == old(nextSeq) + 1 && state == old(state) && deadline == old(deadline)
      ensures waiters == (old(waiters) - {k})[Key(to, old(nextSeq)) := old(waiters[k])]
    {
      var t := waiters[k];
      state := state[t := Moving];
      waiters := waiters - {k};
      var newKey := Key(to, nextSeq);
      nextSeq := nextSeq + 1;
      waitKey := waitKey[t := newKey];
      waiters := waiters[newKey := t];
      state := state[t := Parked];
    }

    /** The winning exchange and the removal under the same bucket lock. */
    method Claim(k: Key)
      requires Valid() && k in waiters
      modifies this`waiters, this`state
      ensures Valid() && waiters == old(waiters) - {k} && state == old(state)[old(waiters[k]) := Claimed]
    {
      state := state[waiters[k] := Claimed];
      waiters := waiters - {k};
    }
  }

  /** Taking a sequence number moves nobody; a node under it stands last. */
  lemma Reserved(m: Tree, n: nat, addr: nat, t: nat)
    requires forall k :: k in m ==> k.num < n
    ensures forall a :: Line(m, a, n + 1) == Line(m, a, n)
    ensures forall a :: Line(m[Key(addr, n) := t], a, n + 1) == Line(m, a, n) + if a == addr then [t] else []
  {
    forall a ensures Line(m, a, n + 1) == Line(m, a, n) { LineBeyond(m, a, n, n + 1); }
    forall a ensures Line(m[Key(addr, n) := t], a, n + 1) == Line(m, a, n) + if a == addr then [t] else [] {
      LineSame(m, m[Key(addr, n) := t], a, n);
    }
  }

  /** No thread has two nodes. */
  ghost predicate OneKey(m: Tree) {
    forall k, j :: k in m && j in m && m[k] == m[j] ==> k == j
  }

  lemma NextClaimable(m: Tree, st: States, addr: nat, seek: nat, k: Key, batch: seq<nat>)
    requires batch == Claimable(m, st, addr, seek) && OneKey(m) && IsNext(Drop(m, batch), addr, seek, k)
    ensures k in m && m[k] !in batch
    ensures Claimable(m, st, addr, k.num + 1) == batch + if IsParked(st, m[k]) then [m[k]] else []
  {
    Untouched(m, st, addr, seek, batch);
    forall i: nat | seek <= i < k.num ensures Key(addr, i) !in m { }
    ClaimableGap(m, st, addr, seek, k.num);
    assert k == Key(addr, k.num);
  }

  /** A seek at the source address does not see the nodes appended at the target. */
  lemma NextHere(m: Tree, moved: seq<nat>, from: nat, to: nat, n: nat, seek: nat, k: Key)
    requires from != to && IsNext(Append(Drop(m, moved), to, n, moved), from, seek, k)
    ensures IsNext(Drop(m, moved), from, seek, k) && Append(Drop(m, moved), to, n, moved)[k] == m[k]
  {
    AppendAt(Drop(m, moved), to, n, moved, k);
    forall j | j in Drop(m, moved) && j.addr == from && j.num >= seek ensures k.num <= j.num {
      AppendAt(Drop(m, moved), to, n, moved, j);
    }
  }

  lemma Requeued(m': Tree, m: Tree, st: States, from: nat, seek: nat, to: nat, n: nat, moved: seq<nat>, cap: nat)
    requires m' == Append(Drop(m, moved), to, n, moved) && moved == First(Claimable(m, st, from, n), cap)
    requires moved == Claimable(m, st, from, seek) && OneKey(m) && from != to && (forall k :: k in m ==> k.num < n)
    ensures moved == First(Keep(Line(m, from, n), st), cap)
    ensures Shifted(m', n + |moved|, m, n, from, to, moved) && m'.Values == m.Values
  {
    ClaimableIsKept(m, st, from, n);
    Population(m, st, from, seek, to, n, moved);
    RequeuedLines(m, st, from, seek, to, n, moved);
  }

  lemma NoNextMoved(m: Tree, st: States, from: nat, to: nat, seek: nat, n: nat, moved: seq<nat>)
    requires moved == Claimable(m, st, from, seek) && OneKey(m) && seek <= n && from != to
    requires !exists i: nat :: seek <= i && Key(from, i) in Append(Drop(m, moved), to, n, moved)
    ensures Claimable(m, st, from, n) == moved
  {
    forall i: nat ensures Key(from, i) in Append(Drop(m, moved), to, n, moved) <==> Key(from, i) in Drop(m, moved) {
      AppendAt(Drop(m, moved), to, n, moved, Key(from, i));
    }
    NoNext(m, st, from, seek, n, moved);
  }

  lemma AfterMove(m: Tree, moved: seq<nat>, k: Key, to: nat, n: nat)
    requires OneKey(m) && k in m && k.num < n
    ensures Append(Drop(m, moved + [m[k]]), to, n, moved + [m[k]]) ==
            (Append(Drop(m, moved), to, n, moved) - {k})[Key(to, n + |moved|) := m[k]]
  {
    DropOne(m, moved, k);
    AppendDrop(Drop(m, moved), k, to, n, moved);
    var xs := moved + [m[k]];
    assert xs[..|xs| - 1] == moved;
  }

  /** Lines `m'` are lines `m` after `moved` went from one address to the other. */
  ghost predicate Shifted(m': Tree, n': nat, m: Tree, n: nat, from: nat, to: nat, moved: seq<nat>) {
    forall a :: Line(m', a, n') == if a == from then Without(Line(m, a, n), moved)
                                   else if a == to then Line(m, a, n) + moved else Line(m, a, n)
  }

  /** Who stands where after a requeue. */
  lemma RequeuedLines(m: Tree, st: States, from: nat, seek: nat, to: nat, n: nat, moved: seq<nat>)
    requires moved == Claimable(m, st, from, seek) && OneKey(m) && from != to && (forall k :: k in m ==> k.num < n)
    ensures Shifted(Append(Drop(m, moved), to, n, moved), n + |moved|, m, n, from, to, moved)
  {
    forall a ensures Line(Append(Drop(m, moved), to, n, moved), a, n + |moved|) ==
                     if a == from then Without(Line(m, a, n), moved)
                     else if a == to then Line(m, a, n) + moved else Line(m, a, n)
    {
      LineDrop(m, moved, a, n);
      if a != from { Elsewhere(m, st, from, seek, a, n, moved); }
      if a == to { LineAppend(Drop(m, moved), to, n, moved); } else { LineAppendElse(Drop(m, moved), to, n, moved, a); }
    }
  }

  /** Requeue loses nobody and invents nobody. */
  lemma Population(m: Tree, st: States, from: nat, seek: nat, to: nat, n: nat, moved: seq<nat>)
    requires moved == Claimable(m, st, from, seek) && forall k :: k in m ==> k.num < n
    ensures Append(Drop(m, moved), to, n, moved).Values == m.Values
  {
    var m' := Append(Drop(m, moved), to, n, moved);
    forall t | t in m.Values ensures t in m'.Values {
      var k :| k in m && m[k] == t;
      if t in moved {
        var i :| 0 <= i < |moved| && moved[i] == t;
        AppendAt(Drop(m, moved), to, n, moved, Key(to, n + i));
        assert Key(to, n + i) in m';
      } else {
        AppendAt(Drop(m, moved), to, n, moved, k);
        assert k in m';
      }
    }
    forall t | t in m'.Values ensures t in m.Values {
      var k :| k in m' && m'[k] == t;
      AppendAt(Drop(m, moved), to, n, moved, k);
      if t in moved { ClaimableIn(m, st, from, seek, t); }
    }
  }

  lemma NoNext(m: Tree, st: States, addr: nat, seek: nat, n: nat, batch: seq<nat>)
    requires batch == Claimable(m, st, addr, seek) && OneKey(m) && seek <= n
    requires !exists i: nat :: seek <= i && Key(addr, i) in Drop(m, batch)
    ensures Claimable(m, st, addr, n) == batch
  {
    Untouched(m, st, addr, seek, batch);
    ClaimableGap(m, st, addr, seek, n);
  }

  lemma DropOne(m: Tree, gone: seq<nat>, k: Key)
    requires OneKey(m) && k in m
    ensures Drop(m, gone) - {k} == Drop(m, gone + [m[k]])
  {
  }

  /** What was detached so far stands before `seek`. */
  lemma Untouched(m: Tree, st: States, addr: nat, seek: nat, batch: seq<nat>)
    requires batch == Claimable(m, st, addr, seek) && OneKey(m)
    ensures forall i: nat :: seek <= i ==> (Key(addr, i) in m <==> Key(addr, i) in Drop(m, batch))
  {
    forall i: nat | seek <= i && Key(addr, i) in m ensures m[Key(addr, i)] !in batch {
      if m[Key(addr, i)] in batch { ClaimableIn(m, st, addr, seek, m[Key(addr, i)]); }
    }
  }

  /** The detached threads stand in no other line. */
  lemma Elsewhere(m: Tree, st: States, addr: nat, seek: nat, a: nat, n: nat, batch: seq<nat>)
    requires batch == Claimable(m, st, addr, seek) && a != addr
    requires OneKey(m)
    ensures Without(Line(m, a, n), batch) == Line(m, a, n)
  {
    forall t | t in Line(m, a, n) ensures t !in batch {
      LineIn(m, a, n, t);
      if t in batch { ClaimableIn(m, st, addr, seek, t); }
    }
    WithoutNone(Line(m, a, n), batch);
  }

  lemma {:induction false} LineIn(m: Tree, addr: nat, n: nat, t: nat)
    requires t in Line(m, addr, n)
    ensures exists i: nat :: i < n && Key(addr, i) in m && m[Key(addr, i)] == t
  {
    if Key(addr, n - 1) in m && m[Key(addr, n - 1)] == t {
    } else {
      LineIn(m, addr, n - 1, t);
    }
  }
}
