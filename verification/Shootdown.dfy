/** The cross-CPU TLB shootdown (paging.c: as_flag's locking, as_flush_multi,
    tlb_service_local, as_switch) as a state machine over single stores and
    loads, for any number of CPUs and any interleaving.

    A translation is an opaque value; what as_flag changes and which range it
    then marks dirty is proved in module PageFrames.  Hardware may cache the
    present translation of the loaded space, or drop a cached one, at any time. */
module Shootdown {

  datatype Range = Range(lo: nat, hi: nat) {
    predicate Has(p: nat) { lo <= p < hi }
    function Join(r: Range): (j: Range)
      ensures forall p :: Has(p) || r.Has(p) ==> j.Has(p)
    {
      Range(if lo < r.lo then lo else r.lo, if hi > r.hi then hi else r.hi)
    }
    predicate Some() { lo < hi }
  }

  const CLEAN: Range := Range(0x10_0000_0000_0000, 0)

  /** A cached translation; `born` is when the walk that filled it read the tree. */
  datatype Cached = Cached(page: nat, value: int, born: nat)

  /** Where a CPU is in the kernel. `ases` are the spaces an as_flush_multi call
      lists, `r` the union range it took, `t` when it had taken all of it. */
  datatype Pc =
    | Running
    | Flagging(a: nat, r: Range)                    // inside as_flag, lock of `a` held
    | Taking(ases: seq<nat>, i: nat, r: Range)      // snapshot loop, `i` spaces done
    | WaitSlot(ases: seq<nat>, r: Range, t: nat)    // spinning on g_tlb_busy
    | Publishing(ases: seq<nat>, r: Range, t: nat)  // slot owned, fields not yet stored
    | Scanning(ases: seq<nat>, r: Range, t: nat, i: nat, targets: set<nat>)
    | Local(ases: seq<nat>, r: Range, t: nat)       // need_mask stored
    | WaitAcks(ases: seq<nat>, r: Range, t: nat)
    | Switching(a: nat)                             // current_as stored, CR3 not yet

  /** How far tlb_service_local has got on a CPU. */
  datatype Service = Quiet | SawBit | Invalidated

  datatype Request = Request(ases: seq<nat>, r: Range)

  datatype State = State(
    clock: nat,
    view: (nat, nat) -> int,     // space, page: what a walk finds now
    dirty: map<nat, Range>,      // per space; no entry means clean
    busy: bool,                  // g_tlb_busy
    req: Request,                // g_tlb_req, without need_mask
    need: set<nat>,              // need_mask
    pc: seq<Pc>,
    svc: seq<Service>,
    cur: seq<nat>,               // current_as of each CPU
    cr3: seq<nat>,               // the space each CPU's CR3 holds
    tlb: seq<set<Cached>>)

  datatype Step =
    | FlagBegin(c: nat, a: nat, r: Range)
    | FlagWrite(c: nat, v: (nat, nat) -> int)
    | FlagEnd(c: nat)
    | FlushBegin(c: nat, ases: seq<nat>)
    | TakeOne(c: nat)
    | TakeDone(c: nat)
    | GetSlot(c: nat)
    | Publish(c: nat)
    | ScanOne(c: nat)
    | StoreMask(c: nat)
    | FlushLocal(c: nat)
    | Release(c: nat)
    | SeeBit(c: nat)
    | Invalidate(c: nat)
    | Ack(c: nat)
    | SwitchStore(c: nat, a: nat)
    | SwitchLoad(c: nat)
    | Fill(c: nat, p: nat)
    | Drop(c: nat, e: Cached)

  function DirtyOf(s: State, a: nat): Range {
    if a in s.dirty then s.dirty[a] else CLEAN
  }

  ghost predicate Wf(s: State) {
    |s.pc| == |s.svc| == |s.cur| == |s.cr3| == |s.tlb|
  }

  /** mut_lock of space `a` is free. */
  ghost predicate Unlocked(s: State, a: nat) {
    forall m :: 0 <= m < |s.pc| ==> !(s.pc[m].Flagging? && s.pc[m].a == a)
  }

  /** paging.c: tlb_invalidate_local.  Few pages go one by one, many with CR3;
      either way everything cached in the range goes. */
  function Evicted(t: set<Cached>, r: Range): (u: set<Cached>)
    ensures u <= t && forall e :: e in u ==> !r.Has(e.page)
  {
    if r.hi - r.lo < 8 then set e | e in t && !r.Has(e.page) else {}
  }

  ghost predicate Enabled(s: State, step: Step)
    requires Wf(s)
  {
    // A CPU inside tlb_service_local takes no other kernel step.
    step.c < |s.pc| &&
      (step.SeeBit? || step.Invalidate? || step.Ack? || step.Fill? || step.Drop? || s.svc[step.c].Quiet?) &&
    match step
    case FlagBegin(c, a, r) => s.pc[c].Running? && Unlocked(s, a)
    case FlagWrite(c, v) =>
      s.pc[c].Flagging? && forall a, p :: !(a == s.pc[c].a && s.pc[c].r.Has(p)) ==> v(a, p) == s.view(a, p)
    case FlagEnd(c) => s.pc[c].Flagging?
    case FlushBegin(c, ases) => s.pc[c].Running?
    case TakeOne(c) => s.pc[c].Taking? && s.pc[c].i < |s.pc[c].ases| && Unlocked(s, s.pc[c].ases[s.pc[c].i])
    case TakeDone(c) => s.pc[c].Taking? && s.pc[c].i == |s.pc[c].ases|
    case GetSlot(c) => s.pc[c].WaitSlot? && !s.busy
    case Publish(c) => s.pc[c].Publishing?
    case ScanOne(c) => s.pc[c].Scanning? && s.pc[c].i < |s.pc|
    case StoreMask(c) => s.pc[c].Scanning? && s.pc[c].i == |s.pc|
    case FlushLocal(c) => s.pc[c].Local?
    case Release(c) => s.pc[c].WaitAcks? && s.need == {}
    case SeeBit(c) => s.svc[c].Quiet? && c in s.need
    case Invalidate(c) => s.svc[c].SawBit?
    case Ack(c) => s.svc[c].Invalidated?
    case SwitchStore(c, a) => s.pc[c].Running?
    case SwitchLoad(c) => s.pc[c].Switching?
    case Fill(c, p) => true
    case Drop(c, e) => true
  }

  function Apply(s: State, step: Step): (s': State)
    requires Wf(s) && Enabled(s, step)
    ensures Wf(s')
  {
    var c := step.c;
    var u := s.(clock := s.clock + 1);
    match step
    case FlagBegin(_, a, r) => u.(pc := s.pc[c := Flagging(a, r)])
    case FlagWrite(_, v) => u.(view := v)
    case FlagEnd(_) =>
      u.(dirty := s.dirty[s.pc[c].a := DirtyOf(s, s.pc[c].a).Join(s.pc[c].r)], pc := s.pc[c := Running])
    case FlushBegin(_, ases) => u.(pc := s.pc[c := Taking(ases, 0, CLEAN)])
    case TakeOne(_) =>
      var a := s.pc[c].ases[s.pc[c].i];
      var d := DirtyOf(s, a);
      if d.Some() then
        u.(dirty := s.dirty - {a}, pc := s.pc[c := Taking(s.pc[c].ases, s.pc[c].i + 1, s.pc[c].r.Join(d))])
      else
        u.(pc := s.pc[c := Taking(s.pc[c].ases, s.pc[c].i + 1, s.pc[c].r)])
    case TakeDone(_) =>
      if s.pc[c].r.Some() then u.(pc := s.pc[c := WaitSlot(s.pc[c].ases, s.pc[c].r, s.clock)])
      else u.(pc := s.pc[c := Running])
    case GetSlot(_) => u.(busy := true, pc := s.pc[c := Publishing(s.pc[c].ases, s.pc[c].r, s.pc[c].t)])
    case Publish(_) =>
      u.(req := Request(s.pc[c].ases, s.pc[c].r), pc := s.pc[c := Scanning(s.pc[c].ases, s.pc[c].r, s.pc[c].t, 0, {})])
    case ScanOne(_) =>
      var i := s.pc[c].i;
      var hit := i != c && s.cur[i] in s.req.ases;
      u.(pc := s.pc[c := Scanning(s.pc[c].ases, s.pc[c].r, s.pc[c].t, i + 1, s.pc[c].targets + if hit then {i}
                                  else {})])
    case StoreMask(_) => u.(need := s.pc[c].targets, pc := s.pc[c := Local(s.pc[c].ases, s.pc[c].r, s.pc[c].t)])
    case FlushLocal(_) =>
      u.(tlb := if s.cur[c] in s.req.ases then s.tlb[c := Evicted(s.tlb[c], s.pc[c].r)] else s.tlb,
         pc := s.pc[c := WaitAcks(s.pc[c].ases, s.pc[c].r, s.pc[c].t)])
    case Release(_) => u.(busy := false, pc := s.pc[c := Running])
    case SeeBit(_) => u.(svc := s.svc[c := SawBit])
    case Invalidate(_) =>
      u.(tlb := if s.cur[c] in s.req.ases then s.tlb[c := Evicted(s.tlb[c], s.req.r)] else s.tlb,
         svc := s.svc[c := Invalidated])
    case Ack(_) => u.(need := s.need - {c}, svc := s.svc[c := Quiet])
    case SwitchStore(_, a) => u.(cur := s.cur[c := a], pc := s.pc[c := Switching(a)])
    case SwitchLoad(_) => u.(cr3 := s.cr3[c := s.pc[c].a], tlb := s.tlb[c := {}], pc := s.pc[c := Running])
    case Fill(_, p) => u.(tlb := s.tlb[c := s.tlb[c] + {Cached(p, s.view(s.cr3[c], p), s.clock)}])
    case Drop(_, e) => u.(tlb := s.tlb[c := s.tlb[c] - {e}])
  }

  // -------------------------------------------------------------------------
  // The slot: at most one request in flight, its fields stable
  // -------------------------------------------------------------------------

  predicate OwnsSlot(pc: Pc) {
    pc.Publishing? || pc.Scanning? || pc.Local? || pc.WaitAcks?
  }

  predicate Awaits(pc: Pc) {
    pc.Local? || pc.WaitAcks?
  }

  /** Some CPU is between taking and releasing the slot. */
  ghost predicate Owned(pcs: seq<Pc>) {
    exists c :: 0 <= c < |pcs| && OwnsSlot(pcs[c])
  }

  ghost predicate Known(s: State, cs: set<nat>) {
    forall c :: c in cs ==> c < |s.pc|
  }

  ghost predicate SlotInv(s: State)
    requires Wf(s)
  {
    && (forall c, d :: 0 <= c < d < |s.pc| ==> !(OwnsSlot(s.pc[c]) && OwnsSlot(s.pc[d])))
    && (s.busy <==> Owned(s.pc))
    && (forall c :: 0 <= c < |s.pc| && OwnsSlot(s.pc[c]) && !s.pc[c].Publishing? ==>
          s.req == Request(s.pc[c].ases, s.pc[c].r))
    && (forall c :: 0 <= c < |s.pc| && (s.pc[c].Publishing? || s.pc[c].Scanning?) ==> s.need == {})
    && (s.need != {} ==> exists c :: 0 <= c < |s.pc| && Awaits(s.pc[c]))
    && (forall c :: 0 <= c < |s.pc| && s.svc[c] != Quiet ==> c in s.need)
    && (forall c :: 0 <= c < |s.pc| && s.pc[c].Scanning? ==> s.pc[c].i <= |s.pc| && Known(s, s.pc[c].targets))
    && Known(s, s.need)
    && (forall c :: 0 <= c < |s.pc| && s.pc[c].Taking? ==> s.pc[c].i <= |s.pc[c].ases|)
  }

  /** Steps that leave the slot, the request and the mask alone. */
  predicate OffSlot(step: Step) {
    || step.FlagBegin? || step.FlagWrite? || step.FlagEnd? || step.FlushBegin? || step.TakeOne? || step.TakeDone?
    || step.SwitchStore? || step.SwitchLoad? || step.Fill? || step.Drop?
  }

  predicate InService(step: Step) {
    step.SeeBit? || step.Invalidate? || step.Ack?
  }

  lemma OffSlotFrame(s: State, step: Step)
    requires Wf(s) && Enabled(s, step) && OffSlot(step)
    ensures var s' := Apply(s, step);
            && s'.busy == s.busy && s'.req == s.req && s'.need == s.need && s'.svc == s.svc && |s'.pc| == |s.pc|
            && (forall c :: 0 <= c < |s.pc| && c != step.c ==> s'.pc[c] == s.pc[c])
            && (s'.pc[step.c] == s.pc[step.c] || (!OwnsSlot(s.pc[step.c]) && !OwnsSlot(s'.pc[step.c])))
            && (s'.pc[step.c].Taking? && s.pc[step.c] != s'.pc[step.c] ==> s'.pc[step.c].i <= |s'.pc[step.c].ases|)
  {
  }

  lemma SlotFrame(s: State, s': State, k: nat)
    requires Wf(s) && Wf(s') && SlotInv(s) && |s'.pc| == |s.pc| && k < |s.pc|
    requires s'.busy == s.busy && s'.req == s.req && s'.need == s.need && s'.svc == s.svc
    requires forall c :: 0 <= c < |s.pc| && c != k ==> s'.pc[c] == s.pc[c]
    requires s'.pc[k] == s.pc[k] || (!OwnsSlot(s.pc[k]) && !OwnsSlot(s'.pc[k]))
    requires s'.pc[k].Taking? && s.pc[k] != s'.pc[k] ==> s'.pc[k].i <= |s'.pc[k].ases|
    ensures SlotInv(s')
  {
    if s.need != {} {
      var f :| 0 <= f < |s.pc| && Awaits(s.pc[f]);
      assert Awaits(s'.pc[f]);
    }
  }

  lemma SlotKeptOff(s: State, step: Step)
    requires Wf(s) && SlotInv(s) && Enabled(s, step) && OffSlot(step)
    ensures SlotInv(Apply(s, step))
  {
    OffSlotFrame(s, step);
    SlotFrame(s, Apply(s, step), step.c);
  }

  lemma SlotKeptService(s: State, step: Step)
    requires Wf(s) && SlotInv(s) && Enabled(s, step) && InService(step)
    ensures SlotInv(Apply(s, step))
  {
    assert Apply(s, step).pc == s.pc;
  }

  lemma SlotKeptOwner(s: State, step: Step)
    requires Wf(s) && SlotInv(s) && Enabled(s, step) && !OffSlot(step) && !InService(step)
    ensures SlotInv(Apply(s, step))
  {
    if step.StoreMask? || step.Release? { SlotHandedOn(s, step); } else { SlotWalked(s, step); }
  }

  lemma SlotHandedOn(s: State, step: Step)
    requires Wf(s) && SlotInv(s) && Enabled(s, step) && (step.StoreMask? || step.Release?)
    ensures SlotInv(Apply(s, step))
  {
    var s', c := Apply(s, step), step.c;
    assert OwnsSlot(s.pc[c]);
    if step.StoreMask? { assert OwnsSlot(s'.pc[c]); }
    if s'.need != {} { assert Awaits(s'.pc[c]); }
    forall d | 0 <= d < |s.pc| && d != c ensures !OwnsSlot(s'.pc[d]) { assert s'.pc[d] == s.pc[d]; }
  }

  lemma SlotWalked(s: State, step: Step)
    requires Wf(s) && SlotInv(s) && Enabled(s, step) && !OffSlot(step) && !InService(step) && !step.StoreMask?
    requires !step.Release?
    ensures SlotInv(Apply(s, step))
  {
    var s' := Apply(s, step);
    assert OwnsSlot(s'.pc[step.c]);
    if s'.need != {} { assert Awaits(s'.pc[step.c]); }
  }

  /** At most one request is in flight, and while any need_mask bit is set its
      fields are those of the one initiator that awaits it. */
  lemma SlotKept(s: State, step: Step)
    requires Wf(s) && SlotInv(s) && Enabled(s, step)
    ensures SlotInv(Apply(s, step))
  {
    if OffSlot(step) { SlotKeptOff(s, step); }
    else if InService(step) { SlotKeptService(s, step); }
    else { SlotKeptOwner(s, step); }
  }

  // -------------------------------------------------------------------------
  // Coherence: every stale translation is somebody's unfinished business
  // -------------------------------------------------------------------------

  /** CR3 lags current_as only between the two statements of as_switch. */
  ghost predicate LoadInv(s: State)
    requires Wf(s)
  {
    forall c :: 0 <= c < |s.pc| ==> if s.pc[c].Switching? then s.pc[c].a == s.cur[c] else s.cr3[c] == s.cur[c]
  }

  /** CPU `f` still has to evict, or to mark dirty, page `p` of space `a` for CPU `c`. */
  ghost predicate Owes(s: State, f: nat, c: nat, a: nat, p: nat)
    requires Wf(s)
  {
    f < |s.pc| && match s.pc[f]
    case Flagging(b, r) => a == b && r.Has(p)
    case Taking(ases, i, r) => i <= |ases| && a in ases[..i] && r.Has(p)
    case WaitSlot(ases, r, t) => a in ases && r.Has(p)
    case Publishing(ases, r, t) => a in ases && r.Has(p)
    case Scanning(ases, r, t, i, targets) => a in ases && r.Has(p) && (c >= i || c in targets || c == f)
    case Local(ases, r, t) => a in ases && r.Has(p) && (c == f || Unserved(s, c))
    case WaitAcks(ases, r, t) => a in ases && r.Has(p) && Unserved(s, c)
    case _ => false
  }

  ghost predicate Unserved(s: State, c: nat)
    requires Wf(s)
  {
    c < |s.svc| && c in s.need && s.svc[c] != Invalidated
  }

  /** A cached translation is current, or dirty, or owed, or about to be lost
      because its CPU is between the two statements of as_switch. */
  ghost predicate Fine(s: State, c: nat, e: Cached)
    requires Wf(s) && c < |s.pc|
  {
    || e.value == s.view(s.cr3[c], e.page)
    || s.cr3[c] != s.cur[c]
    || DirtyOf(s, s.cr3[c]).Has(e.page)
    || exists f: nat :: Owes(s, f, c, s.cr3[c], e.page)
  }

  ghost predicate Coherent(s: State)
    requires Wf(s)
  {
    forall c, e :: 0 <= c < |s.pc| && e in s.tlb[c] ==> Fine(s, c, e)
  }

  ghost predicate Inv(s: State) {
    Wf(s) && SlotInv(s) && LoadInv(s) && Coherent(s) && PurgeInv(s)
  }

  // What a flush has already achieved on a CPU.

  /** Flush `f` has dealt with CPU `c`: found it elsewhere, or evicted there. */
  ghost predicate Dealt(s: State, f: nat, c: nat)
    requires Wf(s)
  {
    f < |s.pc| && c < |s.pc| && match s.pc[f]
    case Scanning(_, _, _, i, targets) => c < i && c !in targets && c != f
    case Local(_, _, _) => c != f && !Unserved(s, c)
    case WaitAcks(_, _, _) => !Unserved(s, c)
    case _ => false
  }

  /** Nothing cached in the range for a listed space predates the flush. */
  ghost predicate Purged(s: State, f: nat, c: nat)
    requires Wf(s) && f < |s.pc| && c < |s.pc| && OwnsSlot(s.pc[f])
  {
    forall e :: e in s.tlb[c] && s.cr3[c] in s.pc[f].ases && s.cr3[c] == s.cur[c] && s.pc[f].r.Has(e.page) ==>
      e.born >= s.pc[f].t
  }

  /** The flush took its range in the past. */
  predicate Stamped(pc: Pc, clock: nat) {
    pc.WaitSlot? || OwnsSlot(pc) ==> pc.t <= clock
  }

  ghost predicate PurgeInv(s: State)
    requires Wf(s)
  {
    && (forall f: nat :: f < |s.pc| ==> Stamped(s.pc[f], s.clock))
    && (forall f, c :: Dealt(s, f, c) ==> Purged(s, f, c))
  }

  lemma LoadKept(s: State, step: Step)
    requires Wf(s) && LoadInv(s) && Enabled(s, step)
    ensures LoadInv(Apply(s, step))
  {
    if !step.SwitchStore? && !step.SwitchLoad? { LoadAside(s, step); }
  }

  lemma LoadAside(s: State, step: Step)
    requires Wf(s) && LoadInv(s) && Enabled(s, step) && !step.SwitchStore? && !step.SwitchLoad?
    ensures LoadInv(Apply(s, step))
  {
    var s' := Apply(s, step);
    SameSpaces(s, step);
    forall c | 0 <= c < |s.pc| && c != step.c ensures s'.pc[c] == s.pc[c] { OtherPc(s, step, c); }
  }

  lemma SameSpaces(s: State, step: Step)
    requires Wf(s) && Enabled(s, step) && !step.SwitchStore? && !step.SwitchLoad?
    ensures var s' := Apply(s, step);
            && s'.cur == s.cur && s'.cr3 == s.cr3 && |s'.pc| == |s.pc|
            && (s'.pc[step.c] == s.pc[step.c] || (!s.pc[step.c].Switching? && !s'.pc[step.c].Switching?))
  {
  }

  lemma OwesFrame(s: State, s': State, f: nat, c: nat, a: nat, p: nat)
    requires Wf(s) && Wf(s') && Owes(s, f, c, a, p) && |s'.pc| == |s.pc| && s'.pc[f] == s.pc[f]
    requires Awaits(s.pc[f]) && Unserved(s, c) ==> Unserved(s', c)
    ensures Owes(s', f, c, a, p)
  {
  }

  /** What was owed before a step is still owed after it, unless the step is one
      that evicts, hands over, or finishes. */
  lemma OwesKept(s: State, step: Step, f: nat, c: nat, a: nat, p: nat)
    requires Wf(s) && SlotInv(s) && Enabled(s, step) && Owes(s, f, c, a, p) && c < |s.pc|
    requires OffSlot(step) ==> f != step.c || step.FlagWrite? || step.Fill? || step.Drop?
    requires InService(step) ==> c != step.c || step.SeeBit?
    requires !OffSlot(step) && !InService(step) ==> f != step.c
    ensures Owes(Apply(s, step), f, c, a, p)
  {
    if OffSlot(step) { OffSlotFrame(s, step); }
    OwesFrame(s, Apply(s, step), f, c, a, p);
  }

  lemma FineByFlag(s: State, step: Step, c: nat, e: Cached)
    requires Wf(s) && SlotInv(s) && LoadInv(s) && Enabled(s, step)
    requires (step.FlagBegin? || step.FlagWrite? || step.FlagEnd?)
    requires c < |s.pc| && Fine(s, c, e)
    ensures Fine(Apply(s, step), c, e)
  {
    var s' := Apply(s, step);
    var a := s.cr3[c];
    if s.pc[step.c].Flagging? && s.pc[step.c].a == a && s.pc[step.c].r.Has(e.page) {
      if step.FlagWrite? { assert Owes(s', step.c, c, a, e.page); }
    } else if exists f: nat :: Owes(s, f, c, a, e.page) {
      var f: nat :| Owes(s, f, c, a, e.page);
      assert f != step.c;
      OwesKept(s, step, f, c, a, e.page);
    }
  }

  lemma FineByTakeOne(s: State, k: nat, c: nat, e: Cached)
    requires Wf(s) && SlotInv(s) && LoadInv(s) && Enabled(s, TakeOne(k)) && c < |s.pc| && Fine(s, c, e)
    ensures Fine(Apply(s, TakeOne(k)), c, e)
  {
    var s' := Apply(s, TakeOne(k));
    var a, ases, i := s.cr3[c], s.pc[k].ases, s.pc[k].i;
    assert ases[..i + 1] == ases[..i] + [ases[i]];
    if DirtyOf(s, a).Has(e.page) && a == ases[i] {
      assert Owes(s', k, c, a, e.page);
    } else if exists f: nat :: Owes(s, f, c, a, e.page) {
      var f: nat :| Owes(s, f, c, a, e.page);
      OwesTakeOne(s, k, f, c, a, e.page);
    }
  }

  lemma OwesTakeOne(s: State, k: nat, f: nat, c: nat, a: nat, p: nat)
    requires Wf(s) && SlotInv(s) && Enabled(s, TakeOne(k)) && c < |s.pc| && Owes(s, f, c, a, p)
    ensures Owes(Apply(s, TakeOne(k)), f, c, a, p)
  {
    var ases, i := s.pc[k].ases, s.pc[k].i;
    if f != k { OwesKept(s, TakeOne(k), f, c, a, p); } else { assert ases[..i + 1] == ases[..i] + [ases[i]]; }
  }

  lemma FineByTake(s: State, step: Step, c: nat, e: Cached)
    requires Wf(s) && SlotInv(s) && LoadInv(s) && Enabled(s, step) && (step.FlushBegin? || step.TakeDone?)
    requires c < |s.pc| && Fine(s, c, e)
    ensures Fine(Apply(s, step), c, e)
  {
    var s' := Apply(s, step);
    var a, k := s.cr3[c], step.c;
    if exists f: nat :: Owes(s, f, c, a, e.page) {
      var f: nat :| Owes(s, f, c, a, e.page);
      if f != k {
        OwesKept(s, step, f, c, a, e.page);
      } else {
        var ases := s.pc[k].ases;
        assert ases[..|ases|] == ases;
        assert Owes(s', k, c, a, e.page);
      }
    }
  }

  lemma FineBySwitch(s: State, step: Step, c: nat, e: Cached)
    requires Wf(s) && SlotInv(s) && LoadInv(s) && Enabled(s, step)
    requires (step.SwitchStore? || step.SwitchLoad? || step.Fill? || step.Drop?)
    requires c < |s.pc| && e in Apply(s, step).tlb[c] && (e in s.tlb[c] ==> Fine(s, c, e))
    ensures Fine(Apply(s, step), c, e)
  {
    var a := s.cr3[c];
    if e in s.tlb[c] && !(step.c == c && step.SwitchLoad?) && exists f: nat :: Owes(s, f, c, a, e.page) {
      var f: nat :| Owes(s, f, c, a, e.page);
      OwesKept(s, step, f, c, a, e.page);
    }
  }

  lemma FineByService(s: State, step: Step, c: nat, e: Cached)
    requires Wf(s) && SlotInv(s) && LoadInv(s) && Enabled(s, step) && InService(step)
    requires c < |s.pc| && e in Apply(s, step).tlb[c] && (e in s.tlb[c] ==> Fine(s, c, e))
    ensures Fine(Apply(s, step), c, e)
  {
    var s' := Apply(s, step);
    var a := s.cr3[c];
    assert e in s.tlb[c];
    if exists f: nat :: Owes(s, f, c, a, e.page) {
      var f: nat :| Owes(s, f, c, a, e.page);
      if c != step.c || step.SeeBit? {
        OwesKept(s, step, f, c, a, e.page);
      } else if !OwnsSlot(s.pc[f]) {
        OwesFrame(s, s', f, c, a, e.page);
      } else {
        ServedHere(s, step, f, c, e);
      }
    }
  }

  /** The initiator that a served CPU answers is the only one that could have
      been owed anything there. */
  lemma ServedHere(s: State, step: Step, f: nat, c: nat, e: Cached)
    requires Wf(s) && SlotInv(s) && LoadInv(s) && Enabled(s, step) && (step.Invalidate? || step.Ack?)
    requires step.c == c < |s.pc|
    requires f < |s.pc| && OwnsSlot(s.pc[f]) && Owes(s, f, c, s.cr3[c], e.page)
    requires e in Apply(s, step).tlb[c]
    ensures s.cr3[c] != s.cur[c] || Owes(Apply(s, step), f, c, s.cr3[c], e.page)
  {
    assert c in s.need;
    var g :| 0 <= g < |s.pc| && Awaits(s.pc[g]);
    assert f == g;
  }

  lemma FineByOwner(s: State, step: Step, c: nat, e: Cached)
    requires Wf(s) && SlotInv(s) && LoadInv(s) && Enabled(s, step) && !OffSlot(step) && !InService(step)
    requires c < |s.pc| && e in Apply(s, step).tlb[c] && (e in s.tlb[c] ==> Fine(s, c, e))
    ensures Fine(Apply(s, step), c, e)
  {
    var s' := Apply(s, step);
    var a := s.cr3[c];
    assert e in s.tlb[c];
    if exists f: nat :: Owes(s, f, c, a, e.page) {
      var f: nat :| Owes(s, f, c, a, e.page);
      if f != step.c {
        OwesKept(s, step, f, c, a, e.page);
      } else {
        OwnerOwes(s, step, c, e);
      }
    }
  }

  /** The initiator's own next step discharges what it owed a CPU, or still owes it. */
  lemma OwnerOwes(s: State, step: Step, c: nat, e: Cached)
    requires Wf(s) && SlotInv(s) && LoadInv(s) && Enabled(s, step) && !OffSlot(step) && !InService(step)
    requires c < |s.pc| && e in Apply(s, step).tlb[c] && Owes(s, step.c, c, s.cr3[c], e.page)
    ensures s.cr3[c] != s.cur[c] || Owes(Apply(s, step), step.c, c, s.cr3[c], e.page)
  {
  }

  lemma CoherentKept(s: State, step: Step)
    requires Inv(s) && Enabled(s, step)
    ensures Coherent(Apply(s, step))
  {
    var s' := Apply(s, step);
    forall c, e | 0 <= c < |s'.pc| && e in s'.tlb[c]
      ensures Fine(s', c, e)
    {
      if step.FlagBegin? || step.FlagWrite? || step.FlagEnd? { FineByFlag(s, step, c, e); }
      else if step.TakeOne? { FineByTakeOne(s, step.c, c, e); }
      else if step.FlushBegin? || step.TakeDone? { FineByTake(s, step, c, e); }
      else if OffSlot(step) { FineBySwitch(s, step, c, e); }
      else if InService(step) { FineByService(s, step, c, e); }
      else { FineByOwner(s, step, c, e); }
    }
  }

  // -------------------------------------------------------------------------
  // What one flush guarantees when it returns
  // -------------------------------------------------------------------------

  lemma PurgedFrame(s: State, s': State, f: nat, c: nat)
    requires Wf(s) && Wf(s') && |s'.pc| == |s.pc| && f < |s.pc| && c < |s.pc|
    requires OwnsSlot(s.pc[f]) && OwnsSlot(s'.pc[f]) && Purged(s, f, c) && s.pc[f].t <= s.clock
    requires s'.pc[f].ases == s.pc[f].ases && s'.pc[f].r == s.pc[f].r && s'.pc[f].t == s.pc[f].t
    requires (s'.cr3[c] == s.cr3[c] && (s'.cur[c] == s.cur[c] || s'.cr3[c] != s'.cur[c])) || s'.tlb[c] == {}
    requires forall e :: e in s'.tlb[c] ==> e in s.tlb[c] || e.born == s.clock
    ensures Purged(s', f, c)
  {
  }

  lemma PurgeKeptOff(s: State, step: Step, f: nat, c: nat)
    requires Wf(s) && SlotInv(s) && LoadInv(s) && PurgeInv(s) && Enabled(s, step) && OffSlot(step)
    requires Dealt(Apply(s, step), f, c)
    ensures Purged(Apply(s, step), f, c)
  {
    OffSlotFrame(s, step);
    assert Dealt(s, f, c);
    if !(step.SwitchStore? && step.c == c) { PurgedFrame(s, Apply(s, step), f, c); }
    else { SwitchStorePurged(s, step.a, f, c); }
  }

  /** Between the two statements of as_switch CR3 lags, unless it already held
      the space; then nothing that was purged comes back. */
  lemma SwitchStorePurged(s: State, a: nat, f: nat, c: nat)
    requires Wf(s) && LoadInv(s) && Enabled(s, SwitchStore(c, a)) && f < |s.pc|
    requires OwnsSlot(s.pc[f]) && Purged(s, f, c)
    ensures OwnsSlot(Apply(s, SwitchStore(c, a)).pc[f]) && Purged(Apply(s, SwitchStore(c, a)), f, c)
  {
    assert s.cr3[c] == s.cur[c];
  }

  lemma PurgeKeptService(s: State, step: Step, f: nat, c: nat)
    requires Wf(s) && SlotInv(s) && LoadInv(s) && PurgeInv(s) && Enabled(s, step) && InService(step)
    requires Dealt(Apply(s, step), f, c)
    ensures Purged(Apply(s, step), f, c)
  {
    var s' := Apply(s, step);
    if Dealt(s, f, c) {
      PurgedFrame(s, s', f, c);
    } else {
      assert step.Invalidate? && step.c == c && c in s.need;
      var g :| 0 <= g < |s.pc| && Awaits(s.pc[g]);
      assert f == g;
    }
  }

  /** Only the slot's owner, or the CPU that takes it, is on the way from GetSlot to Release. */
  lemma OwnerActs(s: State, step: Step, f: nat)
    requires Wf(s) && SlotInv(s) && Enabled(s, step) && !OffSlot(step) && !InService(step) && f < |s.pc|
    ensures OwnsSlot(Apply(s, step).pc[f]) ==> f == step.c
  {
    if f != step.c { OtherPc(s, step, f); }
  }

  lemma PurgeKeptOwner(s: State, step: Step, f: nat, c: nat)
    requires Wf(s) && SlotInv(s) && LoadInv(s) && PurgeInv(s) && Enabled(s, step) && !OffSlot(step) && !InService(step)
    requires Dealt(Apply(s, step), f, c)
    ensures Purged(Apply(s, step), f, c)
  {
    var s' := Apply(s, step);
    OwnerActs(s, step, f);
    if Dealt(s, f, c) {
      PurgedFrame(s, s', f, c);
    } else if step.ScanOne? {
      assert c == s.pc[f].i && s.cur[c] !in s.pc[f].ases;
    } else {
      assert step.FlushLocal? && c == f;
    }
  }

  lemma StampKept(s: State, step: Step, f: nat)
    requires Wf(s) && Enabled(s, step) && f < |s.pc| && Stamped(s.pc[f], s.clock)
    ensures Stamped(Apply(s, step).pc[f], Apply(s, step).clock)
  {
    if f == step.c { StampOwn(s, step); } else { OtherPc(s, step, f); }
  }

  lemma StampOwn(s: State, step: Step)
    requires Wf(s) && Enabled(s, step) && Stamped(s.pc[step.c], s.clock)
    ensures Stamped(Apply(s, step).pc[step.c], Apply(s, step).clock)
  {
  }

  lemma PurgeKeptAt(s: State, step: Step, f: nat, c: nat)
    requires Wf(s) && SlotInv(s) && LoadInv(s) && PurgeInv(s) && Enabled(s, step) && Dealt(Apply(s, step), f, c)
    ensures Purged(Apply(s, step), f, c)
  {
    if OffSlot(step) { PurgeKeptOff(s, step, f, c); }
    else if InService(step) { PurgeKeptService(s, step, f, c); }
    else { PurgeKeptOwner(s, step, f, c); }
  }

  lemma PurgeKept(s: State, step: Step)
    requires Wf(s) && SlotInv(s) && LoadInv(s) && PurgeInv(s) && Enabled(s, step)
    ensures PurgeInv(Apply(s, step))
  {
    var s' := Apply(s, step);
    forall f: nat | f < |s'.pc| ensures Stamped(s'.pc[f], s'.clock) {
      assert Stamped(s.pc[f], s.clock);
      StampKept(s, step, f);
    }
    forall f, c | Dealt(s', f, c) ensures Purged(s', f, c) { PurgeKeptAt(s, step, f, c); }
  }

  lemma InvKept(s: State, step: Step)
    requires Inv(s) && Enabled(s, step)
    ensures Inv(Apply(s, step))
  {
    SlotKept(s, step);
    LoadKept(s, step);
    CoherentKept(s, step);
    PurgeKept(s, step);
  }

  // -------------------------------------------------------------------------
  // Whole runs
  // -------------------------------------------------------------------------

  ghost predicate Init(s: State) {
    && Wf(s) && s.need == {} && s.dirty == map[] && !s.busy && s.cr3 == s.cur
    && forall c :: 0 <= c < |s.pc| ==> s.pc[c] == Running && s.svc[c] == Quiet && s.tlb[c] == {}
  }

  ghost predicate Takes(s: State, step: Step, s': State) {
    Wf(s) && Enabled(s, step) && s' == Apply(s, step)
  }

  /** `tr` is a run from boot: any interleaving of any length. */
  ghost predicate Run(tr: seq<State>, steps: seq<Step>) {
    && |tr| == |steps| + 1 && Init(tr[0])
    && forall i :: 0 <= i < |steps| ==> Takes(tr[i], steps[i], tr[i + 1])
  }

  lemma {:induction false} RunInv(tr: seq<State>, steps: seq<Step>, n: nat)
    requires Run(tr, steps) && n < |tr|
    ensures Inv(tr[n])
  {
    if n == 0 {
      InitInv(tr[0]);
    } else {
      RunInv(tr, steps, n - 1);
      assert Takes(tr[n - 1], steps[n - 1], tr[n - 1 + 1]);
      InvKept(tr[n - 1], steps[n - 1]);
    }
  }

  lemma InitInv(s: State)
    requires Init(s)
    ensures Inv(s)
  {
  }

  /** When as_flush_multi returns, no CPU still caches a translation of a listed
      space that it filled before the flush had taken its range -- except a CPU
      that is between the two statements of as_switch, whose next step of its
      own reloads CR3. */
  lemma FlushReturns(tr: seq<State>, steps: seq<Step>, n: nat, f: nat, c: nat, e: Cached)
    requires Run(tr, steps) && n < |tr| && Wf(tr[n]) && Enabled(tr[n], Release(f))
    requires c < |tr[n].pc| && e in Apply(tr[n], Release(f)).tlb[c]
    requires tr[n].cr3[c] in tr[n].pc[f].ases && tr[n].pc[f].r.Has(e.page)
    ensures e.born >= tr[n].pc[f].t || (tr[n].pc[c].Switching? && tr[n].cr3[c] != tr[n].pc[c].a)
  {
    RunInv(tr, steps, n);
    assert Dealt(tr[n], f, c);
    assert Purged(tr[n], f, c);
  }

  /** A stale translation is never lost track of: its range is dirty, or some CPU
      still owes its eviction, or its CPU is about to reload CR3. */
  lemma StaleIsOwed(tr: seq<State>, steps: seq<Step>, n: nat, c: nat, e: Cached)
    requires Run(tr, steps) && n < |tr| && Wf(tr[n]) && c < |tr[n].pc| && e in tr[n].tlb[c]
    requires tr[n].cr3[c] == tr[n].cur[c] && e.value != tr[n].view(tr[n].cr3[c], e.page)
    ensures DirtyOf(tr[n], tr[n].cr3[c]).Has(e.page) || exists f: nat :: Owes(tr[n], f, c, tr[n].cr3[c], e.page)
  {
    RunInv(tr, steps, n);
    assert Fine(tr[n], c, e);
  }

  /** With no flag or flush under way and every dirty range taken, all CPUs
      outside as_switch cache only what the trees say now. */
  lemma QuietIsCoherent(tr: seq<State>, steps: seq<Step>, n: nat, c: nat, e: Cached)
    requires Run(tr, steps) && n < |tr| && Wf(tr[n]) && c < |tr[n].pc| && e in tr[n].tlb[c]
    requires forall f :: 0 <= f < |tr[n].pc| ==> tr[n].pc[f].Running? || tr[n].pc[f].Switching?
    requires tr[n].dirty == map[] && !tr[n].pc[c].Switching?
    ensures e.value == tr[n].view(tr[n].cr3[c], e.page)
  {
    RunInv(tr, steps, n);
    assert Fine(tr[n], c, e);
  }

  // -------------------------------------------------------------------------
  // Change a page, then flush
  // -------------------------------------------------------------------------

  /** The step takes the dirty range of space `a`. */
  ghost predicate TakesFrom(s: State, step: Step, a: nat) {
    && step.TakeOne? && step.c < |s.pc| && s.pc[step.c].Taking? && s.pc[step.c].i < |s.pc[step.c].ases|
    && s.pc[step.c].ases[s.pc[step.c].i] == a
  }

  lemma DirtyStays(s: State, step: Step, s': State, a: nat, p: nat)
    requires Takes(s, step, s') && DirtyOf(s, a).Has(p) && !TakesFrom(s, step, a)
    ensures DirtyOf(s', a).Has(p)
  {
  }

  /** CPU `f`'s call has page `p` of space `a` in its range, taken no earlier than `t0`. */
  ghost predicate Carries(s: State, f: nat, a: nat, p: nat, t0: nat)
    requires Wf(s)
  {
    f < |s.pc| && s.clock >= t0 && match s.pc[f]
    case Taking(ases, i, r) => i <= |ases| && a in ases[..i] && r.Has(p)
    case WaitSlot(ases, r, t) => a in ases && r.Has(p) && t >= t0
    case Publishing(ases, r, t) => a in ases && r.Has(p) && t >= t0
    case Scanning(ases, r, t, _, _) => a in ases && r.Has(p) && t >= t0
    case Local(ases, r, t) => a in ases && r.Has(p) && t >= t0
    case WaitAcks(ases, r, t) => a in ases && r.Has(p) && t >= t0
    case _ => false
  }

  lemma OtherPc(s: State, step: Step, f: nat)
    requires Wf(s) && Enabled(s, step) && f < |s.pc| && f != step.c
    ensures f < |Apply(s, step).pc| && Apply(s, step).pc[f] == s.pc[f]
  {
  }

  lemma CarriesOn(s: State, step: Step, s': State, f: nat, a: nat, p: nat, t0: nat)
    requires Takes(s, step, s') && Carries(s, f, a, p, t0) && step != Release(f)
    ensures Wf(s') && Carries(s', f, a, p, t0)
  {
    if step.c != f {
      OtherPc(s, step, f);
    } else if step.TakeOne? {
      var ases, i := s.pc[f].ases, s.pc[f].i;
      assert ases[..i + 1] == ases[..i] + [ases[i]];
    } else if step.TakeDone? {
      assert s.pc[f].ases[..s.pc[f].i] == s.pc[f].ases;
    }
  }

  lemma FirstTake(s: State, f: nat, a: nat, p: nat)
    requires Wf(s) && Enabled(s, TakeOne(f)) && TakesFrom(s, TakeOne(f), a) && DirtyOf(s, a).Has(p)
    ensures Carries(Apply(s, TakeOne(f)), f, a, p, s.clock)
  {
    var ases, i := s.pc[f].ases, s.pc[f].i;
    assert ases[..i + 1] == ases[..i] + [ases[i]];
  }

  /** Nobody takes space `a`'s range in steps k..m. */
  ghost predicate Untaken(tr: seq<State>, steps: seq<Step>, k: nat, m: nat, a: nat)
    requires Run(tr, steps) && m <= |steps|
  {
    forall j :: k <= j < m ==> !TakesFrom(tr[j], steps[j], a)
  }

  lemma DirtyStep(tr: seq<State>, steps: seq<Step>, i: nat, a: nat, p: nat)
    requires Run(tr, steps) && i < |steps| && !TakesFrom(tr[i], steps[i], a) && DirtyOf(tr[i], a).Has(p)
    ensures DirtyOf(tr[i + 1], a).Has(p)
  {
    assert Takes(tr[i], steps[i], tr[i + 1]);
    DirtyStays(tr[i], steps[i], tr[i + 1], a, p);
  }

  lemma {:induction false} StaysDirty(tr: seq<State>, steps: seq<Step>, k: nat, m: nat, a: nat, p: nat)
    requires Run(tr, steps) && k <= m <= |steps| && Untaken(tr, steps, k, m, a) && DirtyOf(tr[k], a).Has(p)
    ensures DirtyOf(tr[m], a).Has(p)
    decreases m
  {
    if k < m {
      var n := m - 1;
      assert Untaken(tr, steps, k, n, a) && !TakesFrom(tr[n], steps[n], a);
      StaysDirty(tr, steps, k, n, a, p);
      DirtyStep(tr, steps, n, a, p);
    }
  }

  /** CPU `f` finishes changing page `p` of `a` at step k, and takes `a`'s range at step m. */
  ghost predicate ChangesThenTakes(tr: seq<State>, steps: seq<Step>, k: nat, m: nat, f: nat, a: nat, p: nat) {
    && Run(tr, steps) && k < m < |steps| && steps[k] == FlagEnd(f) && Takes(tr[k], steps[k], tr[k + 1])
    && tr[k].pc[f].a == a && tr[k].pc[f].r.Has(p)
    && steps[m] == TakeOne(f) && Takes(tr[m], steps[m], tr[m + 1]) && TakesFrom(tr[m], steps[m], a)
  }

  /** The call that takes at step m has not returned by state n. */
  ghost predicate InCall(steps: seq<Step>, m: nat, n: nat, f: nat) {
    n <= |steps| && forall j :: m < j < n ==> steps[j] != Release(f)
  }

  lemma {:induction false} CarriedTo(tr: seq<State>, steps: seq<Step>, m: nat, n: nat, f: nat, a: nat, p: nat, t0: nat)
    requires Run(tr, steps) && m < n && InCall(steps, m, n, f) && Wf(tr[m + 1]) && Carries(tr[m + 1], f, a, p, t0)
    ensures Wf(tr[n]) && Carries(tr[n], f, a, p, t0)
    decreases n
  {
    if n > m + 1 {
      CarriedTo(tr, steps, m, n - 1, f, a, p, t0);
      assert Takes(tr[n - 1], steps[n - 1], tr[n - 1 + 1]);
      CarriesOn(tr[n - 1], steps[n - 1], tr[n], f, a, p, t0);
    }
  }

  /** If nobody else takes the range between a CPU's change and its own take, its flush has the page. */
  lemma OwnTake(tr: seq<State>, steps: seq<Step>, k: nat, m: nat, n: nat, f: nat, a: nat, p: nat)
    requires ChangesThenTakes(tr, steps, k, m, f, a, p) && m < n && InCall(steps, m, n, f)
    requires Untaken(tr, steps, k + 1, m, a)
    ensures Wf(tr[n]) && Carries(tr[n], f, a, p, tr[m].clock)
  {
    assert DirtyOf(tr[k + 1], a).Has(p);
    StaysDirty(tr, steps, k + 1, m, a, p);
    FirstTake(tr[m], f, a, p);
    CarriedTo(tr, steps, m, n, f, a, p, tr[m].clock);
  }

  lemma {:induction false} ClockGrows(tr: seq<State>, steps: seq<Step>, k: nat, m: nat)
    requires Run(tr, steps) && k <= m < |tr|
    ensures tr[m].clock == tr[k].clock + m - k
    decreases m
  {
    if k < m {
      ClockGrows(tr, steps, k, m - 1);
      assert Takes(tr[m - 1], steps[m - 1], tr[m - 1 + 1]);
    }
  }

  /** The caller's own guarantee. A CPU changes a page and then flushes its space; if no other CPU took the
      dirty range in between, then when the flush returns no CPU caches a translation of the page that it
      filled before the change was complete, except between the two statements of as_switch. */
  lemma ChangeThenFlush(tr: seq<State>, steps: seq<Step>, k: nat, m: nat, n: nat, f: nat, a: nat, p: nat, c: nat,
                        e: Cached)
    requires ChangesThenTakes(tr, steps, k, m, f, a, p) && m < n && InCall(steps, m, n, f)
    requires Untaken(tr, steps, k + 1, m, a)
    requires Wf(tr[n]) && Enabled(tr[n], Release(f)) && c < |tr[n].pc| && e in Apply(tr[n], Release(f)).tlb[c]
    requires tr[n].cr3[c] == a && e.page == p
    ensures e.born > tr[k].clock || (tr[n].pc[c].Switching? && tr[n].cr3[c] != tr[n].pc[c].a)
  {
    OwnTake(tr, steps, k, m, n, f, a, p);
    ClockGrows(tr, steps, k, m);
    FlushReturns(tr, steps, n, f, c, e);
  }

  // -------------------------------------------------------------------------
  // A flush that finds its range already taken
  // -------------------------------------------------------------------------

  /** The call has nothing left to take: it returns at once. */
  ghost predicate ReturnsEarly(s: State, f: nat)
    requires Wf(s)
  {
    Enabled(s, TakeDone(f)) && !s.pc[f].r.Some()
  }

  /** A flush that returns early after its CPU changed the page was overtaken: another take of the space
      came between. */
  lemma EarlyMeansTaken(tr: seq<State>, steps: seq<Step>, k: nat, m: nat, n: nat, f: nat, a: nat, p: nat)
    requires ChangesThenTakes(tr, steps, k, m, f, a, p) && m < n && InCall(steps, m, n, f)
    requires Wf(tr[n]) && ReturnsEarly(tr[n], f)
    ensures !Untaken(tr, steps, k + 1, m, a)
  {
    if Untaken(tr, steps, k + 1, m, a) { OwnTake(tr, steps, k, m, n, f, a, p); }
  }

  ghost predicate StaleAt(s: State, a: nat, p: nat, c: nat)
    requires Wf(s)
  {
    c < |s.pc| && s.cr3[c] == s.cur[c] == a && exists e :: e in s.tlb[c] && e.page == p && e.value != s.view(a, p)
  }

  ghost predicate NoStale(s: State, a: nat, p: nat)
    requires Wf(s)
  {
    forall c: nat :: !StaleAt(s, a, p, c)
  }

  /** Some flush under way has page `p` in its range and has not yet reached CPU `c`. */
  ghost predicate Owed(s: State, c: nat, a: nat, p: nat)
    requires Wf(s)
  {
    exists g: nat :: Owes(s, g, c, a, p)
  }

  /** The step by which a flush of CPU `f` returns, at once or with all acknowledgements. */
  ghost predicate Returns(s: State, step: Step, f: nat)
    requires Wf(s)
  {
    (step == TakeDone(f) && ReturnsEarly(s, f)) || (step == Release(f) && Enabled(s, step))
  }

  /** What a call may rely on, however it returns: with the page not dirty again, it is clean on return exactly
      when no CPU that another flush has yet to reach still caches an old translation. */
  lemma ReturnExact(tr: seq<State>, steps: seq<Step>, n: nat, step: Step, f: nat, a: nat, p: nat)
    requires Run(tr, steps) && n < |tr| && Wf(tr[n]) && Returns(tr[n], step, f) && !DirtyOf(tr[n], a).Has(p)
    ensures NoStale(Apply(tr[n], step), a, p) <==> forall c: nat :: Owed(tr[n], c, a, p) ==> !StaleAt(tr[n], a, p, c)
  {
    var z, z' := tr[n], Apply(tr[n], step);
    forall c: nat ensures StaleAt(z', a, p, c) <==> StaleAt(z, a, p, c) { }
    forall c: nat | StaleAt(z, a, p, c) ensures Owed(z, c, a, p) {
      var e :| e in z.tlb[c] && e.page == p && e.value != z.view(a, p);
      StaleIsOwed(tr, steps, n, c, e);
    }
  }
}
