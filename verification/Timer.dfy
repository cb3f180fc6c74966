/** The per-CPU timer of timer.c: the tree of parked deadlines, the running quantum
    and the one local one-shot request that must serve them all. */
module Timer {
  import opened Seqs


  /** Deadlines are ordered by time, then by thread. */
  datatype Key = Key(at: nat, tid: nat)

  const WORD64_MAX: nat := 0xFFFF_FFFF_FFFF_FFFF
  const TICK: nat := 1000
  const IRQ_BATCH: nat := 64

  predicate Le(a: Key, b: Key) {
    a.at < b.at || (a.at == b.at && a.tid <= b.tid)
  }

  /** When a request made at `now` for the time `due` fires: whole microseconds, at least one. */
  function Fires(now: nat, due: nat): (t: nat)
    ensures now + TICK <= t && due <= t && (due <= now ==> t == now + TICK)
    ensures t < (if due > now then due else now + 1) + TICK
  {
    var delta := if due > now then due - now else 0;
    var us := delta / TICK + if delta % TICK != 0 then 1 else 0;
    now + TICK * if us == 0 then 1 else us
  }

  lemma FiresMonotone(now: nat, a: nat, b: nat)
    requires a <= b
    ensures Fires(now, a) <= Fires(now, b)
  {
    var x, y := if a > now then a - now else 0, if b > now then b - now else 0;
    if x / TICK == y / TICK {
      assert x % TICK <= y % TICK;
    } else {
      assert x / TICK < y / TICK;
    }
  }

  /** The least key of `s` not before `seek`: the tree's lower-bound query. */
  ghost predicate IsFirst(s: set<Key>, seek: Key, r: Option<Key>) {
    && (r.Some? ==> r.value in s && Le(seek, r.value) && forall k :: k in s && Le(seek, k) ==> Le(r.value, k))
    && (r.None? ==> forall k :: k in s ==> !Le(seek, k))
  }

  method LowerBound(s: set<Key>, seek: Key) returns (r: Option<Key>)
    ensures IsFirst(s, seek, r)
  {
    r := None;
    var rest, done: set<Key> := s, {};
    while rest != {}
      invariant rest + done == s && IsFirst(done, seek, r)
      decreases |rest|
    {
      var k :| k in rest;
      rest, done := rest - {k}, done + {k};
      if Le(seek, k) && (r.None? || Le(k, r.value)) { r := Some(k); }
    }
  }

  class Cpu {
    var deadlines: set<Key>
    var quantum: nat             // 0: none
    var shot: Option<nat>        // when the programmed one-shot fires
    ghost var programmed: nat    // when it was programmed

    /** The request fires no later than one made for this obligation alone would have. */
    ghost predicate Serves(due: nat)
      reads this
    {
      shot.Some? && shot.value <= Fires(programmed, due)
    }

    ghost predicate Prompt()
      reads this
    {
      && (forall k :: k in deadlines ==> k.at != 0 && Serves(k.at))
      && (quantum != 0 ==> Serves(quantum))
    }

    constructor ()
      ensures Prompt() && deadlines == {} && quantum == 0 && shot.None?
    {
      deadlines, quantum, shot, programmed := {}, 0, None, 0;
    }

    /** program_local_locked: one request for the earliest obligation, none if there is none. */
    method Program(now: nat)
      requires forall k :: k in deadlines ==> k.at != 0
      modifies this`shot, this`programmed
      ensures Prompt() && (shot.Some? ==> programmed == now)
      ensures shot.None? <==> deadlines == {} && quantum == 0
      ensures shot.Some? ==>
                exists due ::
                  shot.value == Fires(now, due) && (due == quantum || exists k :: k in deadlines && k.at == due)
    {
      var due := quantum;
      var first := LowerBound(deadlines, Key(0, 0));
      if first.Some? && (due == 0 || first.value.at < due) { due := first.value.at; }
      if due == 0 {
        shot := None;
        return;
      }
      shot := Some(Fires(now, due));
      programmed := now;
      forall k | k in deadlines ensures Serves(k.at) { FiresMonotone(now, due, k.at); }
      if quantum != 0 { FiresMonotone(now, due, quantum); }
    }

    /** timer_cpu_dispatch: a fresh quantum, saturated at the end of time. */
    method Dispatch(now: nat, ns: nat)
      requires Prompt() && now <= WORD64_MAX && ns > 0
      modifies this`quantum, this`shot, this`programmed
      ensures Prompt() && shot.Some? && quantum == if WORD64_MAX - now < ns then WORD64_MAX else now + ns
    {
      quantum := if WORD64_MAX - now < ns then WORD64_MAX else now + ns;
      Program(now);
    }

    /** timer_cpu_idle: no quantum, but the parked deadlines are still served. */
    method Idle(now: nat)
      requires Prompt()
      modifies this`quantum, this`shot, this`programmed
      ensures Prompt() && quantum == 0
    {
      quantum := 0;
      Program(now);
    }

    /** timer_deadline_arm: reprograms only when the new entry is the earliest obligation, which is enough. */
    method Arm(now: nat, k: Key, room: bool) returns (ok: bool)
      requires Prompt() && k.at != 0 && k !in deadlines
      modifies this`deadlines, this`shot, this`programmed
      ensures Prompt() && ok == room && deadlines == (if ok then old(deadlines) + {k} else old(deadlines))
      ensures !ok ==> shot == old(shot)
    {
      if !room { return false; }
      ok := true;
      deadlines := deadlines + {k};
      var first := LowerBound(deadlines, Key(0, 0));
      if first.Some? && first.value.at == k.at && first.value.tid == k.tid && (quantum == 0 || k.at < quantum) {
        Program(now);
      } else {
        assert k in deadlines && Le(Key(0, 0), k);
        if first.value != k {
          assert first.value in old(deadlines) && Le(first.value, k);
          FiresMonotone(programmed, first.value.at, k.at);
        } else {
          FiresMonotone(programmed, quantum, k.at);
        }
        assert Serves(k.at);
      }
    }

    /** timer_deadline_cancel: removing an obligation never needs a new request. */
    method Cancel(k: Key)
      requires Prompt()
      modifies this`deadlines
      ensures Prompt() && deadlines == old(deadlines) - {k}
    {
      deadlines := deadlines - {k};
    }

    /** A due entry whose waiter can still be claimed. */
    ghost predicate Claimable(now: nat, parked: set<nat>, k: Key) {
      k.at <= now && k.tid in parked
    }

    /** The claim loop of timer_cpu_interrupt: due waiters in order, up to the batch. */
    method ClaimDue(now: nat, parked: set<nat>) returns (expired: seq<Key>)
      modifies this`deadlines
      ensures |expired| <= IRQ_BATCH && deadlines == old(deadlines) - (set k | k in expired)
      ensures forall k :: k in expired ==> k in old(deadlines) && Claimable(now, parked, k)
      ensures forall i, j :: 0 <= i < j < |expired| ==> Le(expired[i], expired[j]) && expired[i] != expired[j]
      ensures forall k, e :: k in deadlines && Claimable(now, parked, k) && e in expired ==> Le(e, k)
      ensures |expired| < IRQ_BATCH ==> forall k :: k in deadlines ==> !Claimable(now, parked, k)
    {
      expired := [];
      var seek := Key(0, 0);
      var more := true;
      ghost var todo := deadlines;
      while |expired| < IRQ_BATCH && more
        invariant |expired| <= IRQ_BATCH && todo <= old(deadlines)
        invariant forall k :: k in todo <==> k in old(deadlines) && Le(seek, k)
        invariant forall k :: k in expired ==> k in old(deadlines) && Claimable(now, parked, k) && !Le(seek, k)
        invariant deadlines == old(deadlines) - (set k | k in expired)
        invariant forall i, j :: 0 <= i < j < |expired| ==> Le(expired[i], expired[j]) && expired[i] != expired[j]
        invariant forall k :: k in old(deadlines) && !Le(seek, k) && Claimable(now, parked, k) ==> k in expired
        invariant !more ==> forall k :: k in deadlines ==> !Claimable(now, parked, k)
        decreases todo, more
      {
        var r := LowerBound(deadlines, seek);
        if r.None? || r.value.at > now {
          more := false;
        } else {
          var k := r.value;
          ghost var before := todo;
          todo := set j | j in todo && Le(Key(k.at, k.tid + 1), j);
          assert k in before && k !in todo && todo <= before;
          forall j | j in old(deadlines) && Le(seek, j) && !Le(Key(k.at, k.tid + 1), j)
            ensures j == k
          {
            assert j in deadlines;
          }
          forall i | 0 <= i < |expired| ensures Le(expired[i], k) && expired[i] != k { assert expired[i] in expired; }
          seek := Key(k.at, k.tid + 1);
          if k.tid in parked {
            deadlines := deadlines - {k};
            expired := expired + [k];
          }
        }
      }
    }

    /** timer_cpu_interrupt: claims due waiters and asks for the next shot, at once if due entries are left. */
    method Interrupt(now: nat, parked: set<nat>) returns (expired: seq<Key>, quantumExpired: bool)
      requires Prompt()
      modifies this
      ensures Prompt() && |expired| <= IRQ_BATCH && deadlines == old(deadlines) - (set k | k in expired)
      ensures forall k :: k in expired ==> k in old(deadlines) && Claimable(now, parked, k)
      ensures forall i, j :: 0 <= i < j < |expired| ==> Le(expired[i], expired[j]) && expired[i] != expired[j]
      ensures forall k, e :: k in deadlines && Claimable(now, parked, k) && e in expired ==> Le(e, k)
      ensures |expired| < IRQ_BATCH ==> forall k :: k in deadlines ==> !Claimable(now, parked, k)
      ensures quantumExpired == (old(quantum) != 0 && old(quantum) <= now)
      ensures quantum == (if quantumExpired then 0 else old(quantum))
      ensures forall k :: k in deadlines && k.at <= now ==> shot == Some(now + TICK)
    {
      expired := ClaimDue(now, parked);
      quantumExpired := quantum != 0 && quantum <= now;
      if quantumExpired { quantum := 0; }
      Program(now);
    }
  }
}
