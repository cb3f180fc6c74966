/** A flush can always return: from every reachable state there is a continuation that ends the call, also for
    a CPU that waits for the slot while its own acknowledgement is awaited. */
module ShootdownProgress {
  import opened Shootdown

  predicate InFlush(pc: Pc) {
    pc.Taking? || pc.WaitSlot? || OwnsSlot(pc)
  }

  /** A run of `more` from `s` to `z`, with CPU `f` inside the one flush all the time. */
  ghost predicate Goes(s: State, more: seq<Step>, z: State, f: nat)
    decreases |more|
  {
    && Wf(s) && f < |s.pc| && InFlush(s.pc[f])
    && if more == [] then z == s else Enabled(s, more[0]) && Goes(Apply(s, more[0]), more[1..], z, f)
  }

  // -------------------------------------------------------------------------
  // What is left to do
  // -------------------------------------------------------------------------

  ghost function Sum(w: nat -> nat, n: nat): (k: nat) {
    if n == 0 then 0 else Sum(w, n - 1) + w(n - 1)
  }

  lemma {:induction false} SumSame(w: nat -> nat, w': nat -> nat, n: nat)
    requires forall c: nat :: c < n ==> w'(c) == w(c)
    ensures Sum(w', n) == Sum(w, n)
  {
    if n > 0 { SumSame(w, w', n - 1); }
  }

  lemma {:induction false} SumLess(w: nat -> nat, w': nat -> nat, n: nat, c: nat)
    requires c < n && w'(c) < w(c) && forall d: nat :: d < n && d != c ==> w'(d) == w(d)
    ensures Sum(w', n) < Sum(w, n)
  {
    if c == n - 1 { SumSame(w, w', n - 1); } else { SumLess(w, w', n - 1, c); }
  }

  /** What CPU `c` has yet to do for the request in flight. */
  function Unacked(s: State, c: nat): (n: nat) {
    if c !in s.need || c >= |s.svc| then 0 else if s.svc[c].Quiet? then 3 else if s.svc[c].SawBit? then 2 else 1
  }

  function Flags(s: State, c: nat): (n: nat) {
    if c < |s.pc| && s.pc[c].Flagging? then 1 else 0
  }

  /** The stages the slot's owner has before it. */
  function Stages(s: State, c: nat): (n: nat) {
    if c >= |s.pc| then 0 else if s.pc[c].Publishing? then 4 else if s.pc[c].Scanning? then 3
    else if s.pc[c].Local? then 2 else if s.pc[c].WaitAcks? then 1 else 0
  }

  function Scans(s: State, c: nat): (n: nat) {
    if c < |s.pc| && s.pc[c].Scanning? && s.pc[c].i <= |s.pc| then |s.pc| - s.pc[c].i else 0
  }

  ghost function Acks(s: State): (n: nat) { Sum(c => Unacked(s, c), |s.pc|) }
  ghost function Flaggers(s: State): (n: nat) { Sum(c => Flags(s, c), |s.pc|) }
  ghost function SlotWork(s: State): (n: nat) { Sum(c => Stages(s, c), |s.pc|) }
  ghost function ScanWork(s: State): (n: nat) { Sum(c => Scans(s, c), |s.pc|) }

  /** Where the call is: collecting ranges, waiting for the slot, or owning it. */
  function Part(pc: Pc): (n: nat) {
    if pc.Taking? then 2 else if pc.WaitSlot? then 1 else 0
  }

  ghost function Major(s: State, f: nat): (n: nat)
    requires f < |s.pc|
  {
    if s.pc[f].Taking? && s.pc[f].i <= |s.pc[f].ases| then |s.pc[f].ases| - s.pc[f].i else SlotWork(s)
  }

  ghost function Minor(s: State, f: nat): (n: nat)
    requires f < |s.pc|
  {
    if s.pc[f].Taking? then Flaggers(s) else ScanWork(s)
  }

  /** Less is left of the call of CPU `f` in `s'` than in `s`. */
  ghost predicate Nearer(s: State, s': State, f: nat)
    requires f < |s.pc| && f < |s'.pc|
  {
    || Part(s'.pc[f]) < Part(s.pc[f])
    || (Part(s'.pc[f]) == Part(s.pc[f]) &&
        (|| Major(s', f) < Major(s, f)
         || (Major(s', f) == Major(s, f) &&
             (Minor(s', f) < Minor(s, f) || (Minor(s', f) == Minor(s, f) && Acks(s') < Acks(s))))))
  }

  /** The step is possible, the call goes on, and less of it is left. */
  ghost predicate Helps(s: State, e: Step, f: nat)
    requires Wf(s) && f < |s.pc|
  {
    && Enabled(s, e) && f < |Apply(s, e).pc| && InFlush(Apply(s, e).pc[f]) && Nearer(s, Apply(s, e), f)
  }

  // -------------------------------------------------------------------------
  // The steps that help
  // -------------------------------------------------------------------------

  lemma SamePcs(s: State, s': State)
    requires s'.pc == s.pc
    ensures SlotWork(s') == SlotWork(s) && ScanWork(s') == ScanWork(s) && Flaggers(s') == Flaggers(s)
  {
    SumSame(c => Stages(s, c), c => Stages(s', c), |s.pc|);
    SumSame(c => Scans(s, c), c => Scans(s', c), |s.pc|);
    SumSame(c => Flags(s, c), c => Flags(s', c), |s.pc|);
  }

  function ServiceStep(s: State, c: nat): (e: Step)
    requires c < |s.svc|
  {
    match s.svc[c] case Quiet => SeeBit(c) case SawBit => Invalidate(c) case Invalidated => Ack(c)
  }

  /** A CPU whose bit is set serves the request, whatever else it is in the middle of. */
  lemma Serve(s: State, c: nat, f: nat)
    requires Wf(s) && SlotInv(s) && c in s.need && f < |s.pc| && InFlush(s.pc[f])
    ensures c < |s.pc| && Helps(s, ServiceStep(s, c), f)
  {
    var s' := Apply(s, ServiceStep(s, c));
    SamePcs(s, s');
    SumLess(d => Unacked(s, d), d => Unacked(s', d), |s.pc|, c);
  }

  lemma FlagEnds(s: State, m: nat, f: nat)
    requires Wf(s) && SlotInv(s) && m < |s.pc| && s.pc[m].Flagging? && s.svc[m].Quiet? && f < |s.pc| && s.pc[f].Taking?
    ensures Helps(s, FlagEnd(m), f)
  {
    var s' := Apply(s, FlagEnd(m));
    SumLess(d => Flags(s, d), d => Flags(s', d), |s.pc|, m);
  }

  /** The owner of the slot moves on by one stage. */
  lemma OwnerMoves(s: State, g: nat, f: nat) returns (e: Step)
    requires Wf(s) && SlotInv(s) && g < |s.pc| && OwnsSlot(s.pc[g])
    requires f < |s.pc| && InFlush(s.pc[f]) && !s.pc[f].Taking?
    requires g == f || s.pc[f].WaitSlot?
    requires g == f ==> !(s.pc[f].WaitAcks? && s.need == {})
    ensures Helps(s, e, f)
  {
    if !s.svc[g].Quiet? {
      e := ServiceStep(s, g);
      Serve(s, g, f);
    } else if s.pc[g].WaitAcks? && s.need != {} {
      var c :| c in s.need;
      Serve(s, c, f);
      e := ServiceStep(s, c);
    } else if s.pc[g].Scanning? && s.pc[g].i < |s.pc| {
      e := ScanOne(g);
      ScanHelps(s, g, f);
    } else {
      e := if s.pc[g].Publishing? then Publish(g) else if s.pc[g].Scanning? then StoreMask(g)
           else if s.pc[g].Local? then FlushLocal(g) else Release(g);
      StageHelps(s, g, f, e);
    }
  }

  lemma ScanHelps(s: State, g: nat, f: nat)
    requires Wf(s) && g < |s.pc| && s.pc[g].Scanning? && s.pc[g].i < |s.pc| && s.svc[g].Quiet?
    requires f < |s.pc| && (g == f || s.pc[f].WaitSlot?)
    ensures Helps(s, ScanOne(g), f)
  {
    var s' := Apply(s, ScanOne(g));
    SumSame(c => Stages(s, c), c => Stages(s', c), |s.pc|);
    SumLess(c => Scans(s, c), c => Scans(s', c), |s.pc|, g);
  }

  lemma StageHelps(s: State, g: nat, f: nat, e: Step)
    requires Wf(s) && g < |s.pc| && OwnsSlot(s.pc[g]) && s.svc[g].Quiet? && f < |s.pc| && (g == f || s.pc[f].WaitSlot?)
    requires Enabled(s, e)
    requires e == Publish(g) || e == StoreMask(g) || e == FlushLocal(g) || (e == Release(g) && g != f)
    ensures Helps(s, e, f)
  {
    var s' := Apply(s, e);
    SumLess(c => Stages(s, c), c => Stages(s', c), |s.pc|, g);
  }

  /** The call can return now. */
  ghost predicate CanReturn(s: State, f: nat)
    requires Wf(s) && f < |s.pc|
  {
    Returns(s, TakeDone(f), f) || Returns(s, Release(f), f)
  }

  lemma TakingHelped(s: State, f: nat) returns (e: Step)
    requires Wf(s) && SlotInv(s) && f < |s.pc| && s.pc[f].Taking? && !CanReturn(s, f)
    ensures Helps(s, e, f)
  {
    if !s.svc[f].Quiet? {
      e := ServiceStep(s, f);
      Serve(s, f, f);
    } else if s.pc[f].i == |s.pc[f].ases| {
      e := TakeDone(f);
    } else {
      var a := s.pc[f].ases[s.pc[f].i];
      if Unlocked(s, a) {
        e := TakeOne(f);
      } else {
        var m :| 0 <= m < |s.pc| && s.pc[m].Flagging? && s.pc[m].a == a;
        if s.svc[m].Quiet? {
          e := FlagEnd(m);
          FlagEnds(s, m, f);
        } else {
          e := ServiceStep(s, m);
          Serve(s, m, f);
        }
      }
    }
  }

  lemma Helped(s: State, f: nat) returns (e: Step)
    requires Wf(s) && SlotInv(s) && f < |s.pc| && InFlush(s.pc[f]) && !CanReturn(s, f)
    ensures Helps(s, e, f)
  {
    if s.pc[f].Taking? {
      e := TakingHelped(s, f);
    } else if s.pc[f].WaitSlot? && !s.busy {
      if s.svc[f].Quiet? {
        e := GetSlot(f);
      } else {
        e := ServiceStep(s, f);
        Serve(s, f, f);
      }
    } else {
      var g := OwnerOf(s, f);
      e := OwnerMoves(s, g, f);
    }
  }

  lemma OwnerOf(s: State, f: nat) returns (g: nat)
    requires Wf(s) && SlotInv(s) && f < |s.pc| && InFlush(s.pc[f]) && !s.pc[f].Taking? && !CanReturn(s, f)
    requires s.pc[f].WaitSlot? ==> s.busy
    ensures g < |s.pc| && OwnsSlot(s.pc[g]) && (g == f || s.pc[f].WaitSlot?)
    ensures g == f ==> !(s.pc[f].WaitAcks? && s.need == {})
  {
    if s.pc[f].WaitSlot? { g :| 0 <= g < |s.pc| && OwnsSlot(s.pc[g]); } else { g := f; }
  }

  // -------------------------------------------------------------------------
  // The continuation
  // -------------------------------------------------------------------------

  lemma {:induction false} ComesBack(s: State, f: nat) returns (more: seq<Step>, z: State)
    requires Wf(s) && SlotInv(s) && f < |s.pc| && InFlush(s.pc[f])
    ensures Goes(s, more, z, f) && Wf(z) && f < |z.pc| && CanReturn(z, f)
    decreases Part(s.pc[f]), Major(s, f), Minor(s, f), Acks(s)
  {
    if CanReturn(s, f) {
      more, z := [], s;
    } else {
      var e := Helped(s, f);
      SlotKept(s, e);
      var rest;
      rest, z := ComesBack(Apply(s, e), f);
      more := [e] + rest;
      assert more[1..] == rest;
    }
  }

  /** g_tlb_busy is set exactly while some CPU is between taking and releasing the slot, and that is one CPU. */
  lemma SlotExact(tr: seq<State>, steps: seq<Step>, n: nat)
    requires Run(tr, steps) && n < |tr|
    ensures tr[n].busy <==> exists c :: 0 <= c < |tr[n].pc| && OwnsSlot(tr[n].pc[c])
    ensures forall c, d :: 0 <= c < |tr[n].pc| && 0 <= d < |tr[n].pc| ==>
              (OwnsSlot(tr[n].pc[c]) && OwnsSlot(tr[n].pc[d]) ==> c == d)
  {
    RunInv(tr, steps, n);
  }

  /** From every state of every run in which a CPU is inside a flush, some continuation lets that call return. */
  lemma FlushCanReturn(tr: seq<State>, steps: seq<Step>, n: nat, f: nat) returns (more: seq<Step>, z: State, last: Step)
    requires Run(tr, steps) && n < |tr| && f < |tr[n].pc| && InFlush(tr[n].pc[f])
    ensures Goes(tr[n], more, z, f) && Wf(z) && Returns(z, last, f) && Apply(z, last).pc[f] == Running
  {
    RunInv(tr, steps, n);
    more, z := ComesBack(tr[n], f);
    last := if Returns(z, TakeDone(f), f) then TakeDone(f) else Release(f);
  }
}
