/** The remaining steps on the graph: protection, devices, moves, rings, threads
    and the process tree. */
module UmemProcs {
  import opened UmemGraph
  import opened UmemSteps
  import opened UmemEdges
  import opened Seqs

  // -------------------------------------------------------------------------
  // Protection and devices
  // -------------------------------------------------------------------------

  /** as_flag on one process's tree. */
  function Reflagged(g: Graph, p: nat, lo: nat, hi: nat, f: Prot): (g': Graph)
    requires p in g.trees
  {
    g.(trees := g.trees[p := Flagged(g.trees[p], lo, hi, f)])
  }

  lemma ProtectGood(g: Graph, lists: Lists, p: nat, base: nat, lo: nat, hi: nat, f: Prot)
    requires Good(g, lists) && p in g.trees && base in g.blocks && base <= lo && hi <= base + g.blocks[base].bytes
    requires (p in g.owned && base in g.owned[p]) || (p in g.views && base in g.views[p])
    requires base in g.pins && g.pins[base] == 0
    ensures Good(Reflagged(g, p, lo, hi, f), lists)
  {
    var g' := Reflagged(g, p, lo, hi, f);
    FlyOver(g, g', base);
    RangePinned(g.blocks, g.edges, g.rings, g.pins, g.threads, g.trees, p, base, lo, hi, f);
    LiveFamily(g.kin, g.owned, g.views, g.threads, g.trees, g.owned, g.views, g'.trees);
    forall q: nat, a: nat ensures MapAt(g.owned, g.views, g.blocks, g'.trees, g.kernel, g.flight, q, a) {
      assert MapAt(g.owned, g.views, g.blocks, g.trees, g.kernel, g.flight, q, a);
      if q == p && lo <= a < hi { assert Covers(g.blocks, base, a); }
    }
  }

  /** The kernel alias of a device range, fixed in the kernel's and every process's tree. */
  function Aliased(g: Graph, base: nat, bytes: nat, f: Prot): (g': Graph) {
    g.(kernel := Flagged(g.kernel, base, base + bytes, f),
       trees := map p | p in g.trees :: Flagged(g.trees[p], base, base + bytes, f))
  }

  /** No address of the range is RAM. */
  ghost predicate NoRam(ram: nat -> bool, base: nat, bytes: nat) {
    forall a: nat :: base <= a < base + bytes ==> !ram(a)
  }

  /** A range without RAM that meets no device block meets no block. */
  lemma DeviceClear(g: Graph, lists: Lists, base: nat, bytes: nat)
    requires Good(g, lists) && bytes > 0 && NoRam(g.ram, base, bytes)
    requires forall b :: b in g.blocks && !g.blocks[b].ram ==> b + g.blocks[b].bytes <= base || base + bytes <= b
    ensures Clear(g.blocks, base, bytes)
  {
    forall b: nat ensures ClearAt(g.blocks, base, bytes, b) {
      if b in g.blocks && g.blocks[b].ram {
        var a := if b < base then base else b;
        assert CoverAt(g.blocks, g.kernel, g.ram, b, a) && ApartAt(g.blocks, b, b);
      }
    }
  }

  lemma AliasGood(g: Graph, lists: Lists, base: nat, bytes: nat, f: Prot)
    requires Good(g, lists) && Clear(g.blocks, base, bytes) && NoRam(g.ram, base, bytes) && U !in f
    ensures Good(Aliased(g, base, bytes, f), lists)
    ensures Uniform(Aliased(g, base, bytes, f).kernel, g.ram, base, bytes, f, false)
  {
    var g' := Aliased(g, base, bytes, f);
    forall p: nat, a: nat ensures MapAt(g.owned, g.views, g.blocks, g'.trees, g'.kernel, g'.flight, p, a) {
      assert MapAt(g.owned, g.views, g.blocks, g.trees, g.kernel, g.flight, p, a);
    }
    forall a: nat ensures KernelAt(g.blocks, g'.kernel, g.ram, a) { assert KernelAt(g.blocks, g.kernel, g.ram, a); }
    forall b: nat, a: nat ensures CoverAt(g.blocks, g'.kernel, g.ram, b, a) {
      assert CoverAt(g.blocks, g.kernel, g.ram, b, a) && ClearAt(g.blocks, base, bytes, b);
    }
    forall t: nat ensures ThreadAt(g.blocks, g.edges, g.rings, g'.trees, g.threads, t) {
      assert ThreadAt(g.blocks, g.edges, g.rings, g.trees, g.threads, t);
      if t in g.threads && g.threads[t].pin.Some? { assert ClearAt(g.blocks, base, bytes, g.threads[t].pin.value); }
    }
    assert g'.trees.Keys == g.trees.Keys;
    LiveFamily(g.kin, g.owned, g.views, g.threads, g.trees, g.owned, g.views, g'.trees);
    forall a: nat ensures UniformAt(g'.kernel, g.ram, base, bytes, f, false, a) { }
    forall a: nat ensures CalmAt(g, g', a) { if AnyAloft(g.flight, a) { RamAloft(g, a); } }
    FlyOn(g, g');
  }

  // -------------------------------------------------------------------------
  // Moving a block to another owner
  // -------------------------------------------------------------------------

  /** umem_move_locked after its checks: a view the receiver had is replaced by ownership. */
  function Moved(g: Graph, base: nat, to: nat, f: Prot): (g': Graph)
    requires base in g.blocks && g.blocks[base].owner in g.owned && to in g.owned && to in g.views && to in g.ends
    requires g.blocks[base].owner in g.trees && to in g.trees && g.blocks[base].owner != to
  {
    var from, x, e := g.blocks[base].owner, g.blocks[base], Edge(base, to);
    var hi := base + x.bytes;
    var r := if e in g.edges then Detached(g.ends, g.edges, e) else (g.ends, g.edges);
    g.(ends := r.0, edges := r.1 - {e}, views := g.views[to := g.views[to] - {base}],
       owned := g.owned[from := g.owned[from] - {base}][to := g.owned[to] + {base}],
       blocks := g.blocks[base := x.(owner := to)],
       trees := g.trees[from := Flagged(g.trees[from], base, hi, x.kernel)][to := Flagged(g.trees[to], base, hi, f)])
  }

  ghost predicate CanMove(g: Graph, base: nat, to: nat) {
    && base in g.blocks && g.blocks[base].owner in g.owned && to in g.owned && to in g.views && to in g.ends
    && g.blocks[base].owner in g.trees && to in g.trees && g.blocks[base].owner != to
    && base in g.pins && g.pins[base] == 0
  }

  lemma MovePending(g: Graph, lists: Lists, base: nat, to: nat, f: Prot) returns (lists': Lists)
    requires Good(g, lists) && CanMove(g, base, to)
    ensures var g' := Moved(g, base, to, f);
            EndsOk(g'.kin, g'.ends, lists') && Pending(g'.ends, g'.edges, lists', None) &&
            forall d: Edge :: d in g'.edges <==> d in g.edges && d != Edge(base, to)
  {
    var e := Edge(base, to);
    if e in g.edges {
      EdgeReady(g, lists, e);
      RevokePending(g, lists, e);
      lists' := lists[e.to := Without(lists[e.to], e)];
    } else {
      assert g.edges - {e} == g.edges;
      lists' := lists;
    }
  }

  lemma MoveOwned(own: Owned, bs: Blocks, index: set<nat>, own': Owned, bs': Blocks, base: nat, to: nat)
    requires Apart(bs) && OwnedOk(own, bs, index) && base in bs && bs[base].owner in own && to in own
    requires bs[base].owner != to
    requires own' == own[bs[base].owner := own[bs[base].owner] - {base}][to := own[to] + {base}]
    requires bs' == bs[base := bs[base].(owner := to)]
    ensures Apart(bs') && OwnedOk(own', bs', index)
  {
    forall b: nat, c: nat ensures ApartAt(bs', b, c) { assert ApartAt(bs, b, c); }
    forall b: nat ensures OwnerAt(own', bs', index, b) { assert OwnerAt(own, bs, index, b); }
    forall p: nat, b: nat ensures OwnAt(own', bs', p, b) { assert OwnAt(own, bs, p, b); }
  }

  lemma MoveShared(vs: Views, bs: Blocks, es: Edges, kernel: Tree, ram: nat -> bool, vs': Views, bs': Blocks,
                   es': Edges, base: nat, to: nat)
    requires Shared(vs, bs, es) && KernelOk(bs, kernel, ram) && base in bs && to in vs
    requires forall d: Edge :: d in es' <==> d in es && d != Edge(base, to)
    requires vs' == vs[to := vs[to] - {base}] && bs' == bs[base := bs[base].(owner := to)]
    ensures Shared(vs', bs', es') && KernelOk(bs', kernel, ram)
  {
    forall d: Edge ensures SharerAt(vs', bs', es', d) { assert SharerAt(vs, bs, es, d); }
    forall p: nat, b: nat ensures ViewAt(vs', es', p, b) { assert ViewAt(vs, es, p, b); }
    forall a: nat ensures KernelAt(bs', kernel, ram, a) { assert KernelAt(bs, kernel, ram, a); }
    forall b: nat, a: nat ensures CoverAt(bs', kernel, ram, b, a) { assert CoverAt(bs, kernel, ram, b, a); }
  }

  lemma MoveMapped(own: Owned, vs: Views, bs: Blocks, trees: map<nat, Tree>, kernel: Tree, fl: Flights,
                   ram: nat -> bool,
                   own': Owned, vs': Views, bs': Blocks, trees': map<nat, Tree>, base: nat, from: nat, to: nat, f: Prot)
    requires Mapped(own, vs, bs, trees, kernel, fl) && KernelOk(bs, kernel, ram) && base in bs && from in own
    requires to in own && from != to
    requires from in trees && to in trees && to in vs
    requires own' == own[from := own[from] - {base}][to := own[to] + {base}]
    requires vs' == vs[to := vs[to] - {base}] && bs' == bs[base := bs[base].(owner := to)] && from in vs
    requires base !in vs[from]
    requires trees' == trees[from := Flagged(trees[from], base, base + bs[base].bytes, bs[base].kernel)]
                            [to := Flagged(trees[to], base, base + bs[base].bytes, f)]
    ensures Mapped(own', vs', bs', trees', kernel, fl)
  {
    forall p: nat, a: nat ensures MapAt(own', vs', bs', trees', kernel, fl, p, a) {
      assert MapAt(own, vs, bs, trees, kernel, fl, p, a) && CoverAt(bs, kernel, ram, base, a);
      if p in trees && Covers(bs, base, a) && p == to {
        assert Covers(bs', base, a) && base in own'[p];
      } else if p in trees && !(Covers(bs, base, a) && p == from) && Reaches(own, vs, bs, p, a) {
        var b :| Covers(bs, b, a) && ((p in own && b in own[p]) || (p in vs && b in vs[p]));
        assert Covers(bs', b, a);
      }
    }
  }

  lemma MovePinned(bs: Blocks, es: Edges, rings: set<nat>, pins: map<nat, nat>, ths: map<nat, Tcb>,
                   trees: map<nat, Tree>,
                   bs': Blocks, es': Edges, base: nat, to: nat)
    requires Pinned(bs, es, rings, pins, ths, trees) && base in bs && base in pins && pins[base] == 0
    requires bs' == bs[base := bs[base].(owner := to)] && forall d: Edge :: d in es' ==> d in es
    ensures Pinned(bs', es', rings, pins, ths, trees)
  {
    assert PinsAt(bs, pins, ths, base);
    forall t: nat ensures ThreadAt(bs', es', rings, trees, ths, t) {
      assert ThreadAt(bs, es, rings, trees, ths, t);
      assert t in ths && ths[t].pin == Some(base) ==> t in PinsOf(ths, base);
    }
    forall b: nat ensures PinsAt(bs', pins, ths, b) { assert PinsAt(bs, pins, ths, b); }
    forall b: nat ensures RingAt(bs', es', rings, b) { assert RingAt(bs, es, rings, b); }
  }

  /** Both trees change over the moved block, which nobody pins. */
  lemma FlagBoth(bs: Blocks, es: Edges, rings: set<nat>, pins: map<nat, nat>, ths: map<nat, Tcb>, trees: map<nat, Tree>,
                 base: nat, from: nat, to: nat, f: Prot, h: Prot)
    requires Pinned(bs, es, rings, pins, ths, trees) && Apart(bs) && base in bs && base in pins && pins[base] == 0
    requires from in trees && to in trees && from != to
    ensures Pinned(bs, es, rings, pins, ths, trees[from := Flagged(trees[from], base, base + bs[base].bytes, f)]
                                                  [to := Flagged(trees[to], base, base + bs[base].bytes, h)])
  {
    FlaggedPinned(bs, es, rings, pins, ths, trees, from, base, f);
    FlaggedPinned(bs, es, rings, pins, ths, trees[from := Flagged(trees[from], base, base + bs[base].bytes, f)], to,
                  base, h);
  }

  lemma MoveTrees(g: Graph, lists: Lists, base: nat, to: nat, f: Prot)
    requires Good(g, lists) && CanMove(g, base, to)
    ensures var g' := Moved(g, base, to, f); Mapped(g'.owned, g'.views, g'.blocks, g'.trees, g'.kernel, g'.flight)
  {
    var g', from := Moved(g, base, to, f), g.blocks[base].owner;
    assert ProcAt(g.kin, g.owned, g.views, g.threads, g.trees, from) && ViewAt(g.views, g.edges, from, base);
    assert SharerAt(g.views, g.blocks, g.edges, Edge(base, from));
    MoveMapped(g.owned, g.views, g.blocks, g.trees, g.kernel, g.flight, g.ram, g'.owned, g'.views, g'.blocks, g'.trees,
               base, from, to, f);
  }

  lemma MovePins(g: Graph, lists: Lists, base: nat, to: nat, f: Prot)
    requires Good(g, lists) && CanMove(g, base, to)
    requires forall d: Edge :: d in Moved(g, base, to, f).edges ==> d in g.edges
    ensures var g' := Moved(g, base, to, f); Pinned(g'.blocks, g'.edges, g'.rings, g'.pins, g'.threads, g'.trees)
  {
    var g', x := Moved(g, base, to, f), g.blocks[base];
    FlagBoth(g.blocks, g.edges, g.rings, g.pins, g.threads, g.trees, base, x.owner, to, x.kernel, f);
    MovePinned(g.blocks, g.edges, g.rings, g.pins, g.threads, g'.trees, g'.blocks, g'.edges, base, to);
  }

  lemma MoveIndexes(g: Graph, lists: Lists, base: nat, to: nat, f: Prot)
    requires Good(g, lists) && CanMove(g, base, to)
    requires forall d: Edge :: d in Moved(g, base, to, f).edges <==> d in g.edges && d != Edge(base, to)
    ensures var g' := Moved(g, base, to, f);
            && Apart(g'.blocks) && OwnedOk(g'.owned, g'.blocks, g'.index) && Shared(g'.views, g'.blocks, g'.edges)
            && KernelOk(g'.blocks, g'.kernel, g'.ram)
  {
    var g' := Moved(g, base, to, f);
    MoveOwned(g.owned, g.blocks, g.index, g'.owned, g'.blocks, base, to);
    MoveShared(g.views, g.blocks, g.edges, g.kernel, g.ram, g'.views, g'.blocks, g'.edges, base, to);
  }

  lemma MoveFlies(g: Graph, base: nat, to: nat, f: Prot)
    requires Flying(g.blocks, g.ram, g.threads, g.trees, g.flight) && CanMove(g, base, to)
    ensures var g' := Moved(g, base, to, f); Flying(g'.blocks, g'.ram, g'.threads, g'.trees, g'.flight)
  {
    FlyOver(g, Moved(g, base, to, f), base);
  }

  lemma MoveGood(g: Graph, lists: Lists, base: nat, to: nat, f: Prot) returns (lists': Lists)
    requires Good(g, lists) && CanMove(g, base, to)
    ensures Good(Moved(g, base, to, f), lists')
  {
    lists' := MovePending(g, lists, base, to, f);
    var g' := Moved(g, base, to, f);
    MoveIndexes(g, lists, base, to, f);
    MoveRest(g, lists, base, to, f);
  }

  lemma MoveRest(g: Graph, lists: Lists, base: nat, to: nat, f: Prot)
    requires Good(g, lists) && CanMove(g, base, to)
    requires forall d: Edge :: d in Moved(g, base, to, f).edges <==> d in g.edges && d != Edge(base, to)
    ensures var g' := Moved(g, base, to, f);
            && Pinned(g'.blocks, g'.edges, g'.rings, g'.pins, g'.threads, g'.trees)
            && Mapped(g'.owned, g'.views, g'.blocks, g'.trees, g'.kernel, g'.flight)
            && Family(g'.kin, g'.owned, g'.views, g'.threads, g'.trees)
            && Flying(g'.blocks, g'.ram, g'.threads, g'.trees, g'.flight)
  {
    var g' := Moved(g, base, to, f);
    MovePins(g, lists, base, to, f);
    MoveTrees(g, lists, base, to, f);
    MoveFlies(g, base, to, f);
    MoveFamily(g, base, to, f);
  }

  lemma MoveFamily(g: Graph, base: nat, to: nat, f: Prot)
    requires Family(g.kin, g.owned, g.views, g.threads, g.trees) && CanMove(g, base, to)
    ensures var g' := Moved(g, base, to, f); Family(g'.kin, g'.owned, g'.views, g'.threads, g'.trees)
  {
    var g' := Moved(g, base, to, f);
    LiveFamily(g.kin, g.owned, g.views, g.threads, g.trees, g'.owned, g'.views, g'.trees);
  }

  // -------------------------------------------------------------------------
  // Rings and thread completions
  // -------------------------------------------------------------------------

  lemma RingGood(g: Graph, lists: Lists, base: nat)
    requires Good(g, lists) && base in g.blocks && g.blocks[base].ram && Private(g.edges, base) && base in g.pins
    requires g.pins[base] == 0
    ensures Good(g.(rings := g.rings + {base}), lists)
  {
    var rings' := g.rings + {base};
    assert PinsAt(g.blocks, g.pins, g.threads, base);
    forall t: nat ensures ThreadAt(g.blocks, g.edges, rings', g.trees, g.threads, t) {
      assert ThreadAt(g.blocks, g.edges, g.rings, g.trees, g.threads, t);
      assert t in g.threads && g.threads[t].pin == Some(base) ==> t in PinsOf(g.threads, base);
    }
    forall b: nat ensures RingAt(g.blocks, g.edges, rings', b) { assert RingAt(g.blocks, g.edges, g.rings, b); }
  }

  function Repinned(pins: map<nat, nat>, pin: Option<nat>, d: int): (r: map<nat, nat>) {
    if pin.Some? && pin.value in pins && pins[pin.value] + d >= 0 then pins[pin.value := pins[pin.value] + d] else pins
  }

  function Spawned(g: Graph, t: nat, x: Tcb): (g': Graph) {
    g.(threads := g.threads[t := x], pins := Repinned(g.pins, x.pin, 1))
  }

  lemma SpawnPins(bs: Blocks, es: Edges, rings: set<nat>, pins: map<nat, nat>, ths: map<nat, Tcb>,
                  trees: map<nat, Tree>, t: nat, x: Tcb)
    requires Pinned(bs, es, rings, pins, ths, trees) && t !in ths && PinAt(bs, es, rings, trees, x)
    ensures Pinned(bs, es, rings, Repinned(pins, x.pin, 1), ths[t := x], trees)
  {
    var ths', pins' := ths[t := x], Repinned(pins, x.pin, 1);
    forall u: nat ensures ThreadAt(bs, es, rings, trees, ths', u) { assert ThreadAt(bs, es, rings, trees, ths, u); }
    forall b: nat ensures PinsAt(bs, pins', ths', b) {
      assert PinsAt(bs, pins, ths, b);
      PinsGrow(ths, t, x, b);
    }
  }

  lemma PinsGrow(ths: map<nat, Tcb>, t: nat, x: Tcb, b: nat)
    requires t !in ths
    ensures |PinsOf(ths[t := x], b)| == |PinsOf(ths, b)| + if x.pin == Some(b) then 1 else 0
  {
    assert PinsOf(ths[t := x], b) == PinsOf(ths, b) + (if x.pin == Some(b) then {t} else {});
  }

  lemma SpawnGood(g: Graph, lists: Lists, t: nat, x: Tcb)
    requires Good(g, lists) && t !in g.threads && x.proc in g.trees && PinAt(g.blocks, g.edges, g.rings, g.trees, x)
    ensures Good(Spawned(g, t, x), lists)
  {
    var g' := Spawned(g, t, x);
    SpawnPins(g.blocks, g.edges, g.rings, g.pins, g.threads, g.trees, t, x);
    assert ProcAt(g.kin, g.owned, g.views, g.threads, g.trees, x.proc);
    forall u: nat ensures HomeAt(g.kin, g'.threads, u) { assert HomeAt(g.kin, g.threads, u); }
    forall p: nat
      ensures ProcAt(g.kin, g.owned, g.views, g'.threads, g.trees, p)
    {
      assert ProcAt(g.kin, g.owned, g.views, g.threads, g.trees, p);
    }
    forall a: nat ensures CalmAt(g, g', a) { }
    FlyOn(g, g');
  }

  function Ended(g: Graph, t: nat): (g': Graph)
    requires t in g.threads
    ensures g'.kin == g.kin && g'.threads == g.threads - {t}
  {
    g.(threads := g.threads - {t}, pins := Repinned(g.pins, g.threads[t].pin, -1))
  }

  /** channel_thread_complete_locked's assertions hold: the block is there, owned and pinned. */
  lemma EndGood(g: Graph, lists: Lists, t: nat)
    requires Good(g, lists) && t in g.threads && t !in g.flight
    ensures g.threads[t].pin.Some? ==>
              var b := g.threads[t].pin.value;
                b in g.blocks && g.blocks[b].owner == g.threads[t].proc && b in g.pins && g.pins[b] > 0
    ensures Good(Ended(g, t), lists)
  {
    var g', x := Ended(g, t), g.threads[t];
    assert ThreadAt(g.blocks, g.edges, g.rings, g.trees, g.threads, t);
    if x.pin.Some? {
      assert PinsAt(g.blocks, g.pins, g.threads, x.pin.value) && t in PinsOf(g.threads, x.pin.value);
    }
    forall u: nat ensures ThreadAt(g.blocks, g.edges, g.rings, g.trees, g'.threads, u) {
      assert ThreadAt(g.blocks, g.edges, g.rings, g.trees, g.threads, u);
    }
    forall b: nat ensures PinsAt(g.blocks, g'.pins, g'.threads, b) {
      assert PinsAt(g.blocks, g.pins, g.threads, b);
      assert PinsOf(g'.threads, b) == PinsOf(g.threads, b) - (if x.pin == Some(b) then {t} else {});
    }
    forall u: nat ensures HomeAt(g.kin, g'.threads, u) { assert HomeAt(g.kin, g.threads, u); }
    forall p: nat
      ensures ProcAt(g.kin, g.owned, g.views, g'.threads, g.trees, p)
    {
      assert ProcAt(g.kin, g.owned, g.views, g.threads, g.trees, p);
    }
    forall a: nat ensures CalmAt(g, g', a) { }
    FlyOn(g, g');
  }

  // -------------------------------------------------------------------------
  // The process tree
  // -------------------------------------------------------------------------

  /** Death is inherited and never undone. */
  lemma {:induction false} DeadStays(kin: map<nat, Kin>, kin': map<nat, Kin>, p: nat)
    requires forall q: nat :: q in kin && q in kin' ==>
               kin'[q].parent == kin[q].parent && (kin[q].dead ==> kin'[q].dead)
    requires forall q: nat :: q in kin && q <= p ==> q in kin'
    requires Dead(kin, p)
    ensures Dead(kin', p)
  {
    if !kin[p].dead { DeadStays(kin, kin', kin[p].parent.value); }
  }

  function Born(g: Graph, parent: nat, p: nat): (g': Graph)
    requires parent in g.kin
  {
    g.(kin := g.kin[parent := g.kin[parent].(children := g.kin[parent].children + {p})][p := Kin(Some(parent), false,
                                                                                                 {})],
       owned := g.owned[p := {}], views := g.views[p := map[]], ends := g.ends[p := Ends(None, None)],
         trees := g.trees[p := g.kernel])
  }

  lemma BornFamily(g: Graph, lists: Lists, parent: nat, p: nat)
    requires Good(g, lists) && parent in g.kin && parent in g.trees && p !in g.kin && parent < p
    requires forall q: nat :: q in g.kin ==> q < p
    ensures var g' := Born(g, parent, p); Family(g'.kin, g'.owned, g'.views, g'.threads, g'.trees)
  {
    var g' := Born(g, parent, p);
    forall q: nat ensures KinAt(g'.kin, q) { assert KinAt(g.kin, q) && KinAt(g.kin, parent); }
    forall t: nat ensures HomeAt(g'.kin, g'.threads, t) { assert HomeAt(g.kin, g.threads, t); }
    forall q: nat ensures ProcAt(g'.kin, g'.owned, g'.views, g'.threads, g'.trees, q) {
      assert ProcAt(g.kin, g.owned, g.views, g.threads, g.trees, q) &&
        ProcAt(g.kin, g.owned, g.views, g.threads, g.trees, parent);
      if q in g.kin && q !in g.trees { DeadStays(g.kin, g'.kin, q); }
    }
  }

  lemma BornOwned(own: Owned, vs: Views, bs: Blocks, index: set<nat>, es: Edges, p: nat)
    requires OwnedOk(own, bs, index) && Shared(vs, bs, es) && p !in own && p !in vs
    ensures OwnedOk(own[p := {}], bs, index) && Shared(vs[p := map[]], bs, es)
  {
    var own', vs' := own[p := {}], vs[p := map[]];
    forall b: nat ensures OwnerAt(own', bs, index, b) { assert OwnerAt(own, bs, index, b); }
    forall q: nat, b: nat ensures OwnAt(own', bs, q, b) { assert OwnAt(own, bs, q, b); }
    forall e: Edge ensures SharerAt(vs', bs, es, e) { assert SharerAt(vs, bs, es, e); }
    forall q: nat, b: nat ensures ViewAt(vs', es, q, b) { assert ViewAt(vs, es, q, b); }
  }

  lemma BornGood(g: Graph, lists: Lists, parent: nat, p: nat)
    requires Good(g, lists) && parent in g.kin && parent in g.trees && p !in g.kin && parent < p
    requires forall q: nat :: q in g.kin ==> q < p
    ensures Good(Born(g, parent, p), lists[p := []])
  {
    var g', lists' := Born(g, parent, p), lists[p := []];
    BornFamily(g, lists, parent, p);
    assert ProcAt(g.kin, g.owned, g.views, g.threads, g.trees, p) && EndsAt(g.kin, g.ends, lists, p);
    BornOwned(g.owned, g.views, g.blocks, g.index, g.edges, p);
    forall q: nat
      ensures EndsAt(g'.kin, g'.ends, lists', q)
    {
      assert EndsAt(g.kin, g.ends, lists, q) && EndsAt(g.kin, g.ends, lists, parent);
    }
    BornRest(g, lists, parent, p);
  }

  lemma BornRest(g: Graph, lists: Lists, parent: nat, p: nat)
    requires Good(g, lists) && parent in g.kin && p !in g.kin && p !in g.trees && p !in g.ends && p !in lists
    requires p !in g.owned && p !in g.views
    ensures var g' := Born(g, parent, p);
            && Pending(g'.ends, g'.edges, lists[p := []], None)
            && Mapped(g'.owned, g'.views, g'.blocks, g'.trees, g'.kernel, g'.flight)
            && Pinned(g'.blocks, g'.edges, g'.rings, g'.pins, g'.threads, g'.trees)
            && Flying(g'.blocks, g'.ram, g'.threads, g'.trees, g'.flight)
  {
    BornPending(g.ends, g.edges, lists, p);
    BornMapped(g.owned, g.views, g.blocks, g.trees, g.kernel, g.flight, p);
    BornPinned(g.blocks, g.edges, g.rings, g.pins, g.threads, g.trees, g.kernel, p);
    forall a: nat ensures CalmAt(g, Born(g, parent, p), a) { }
    FlyOn(g, Born(g, parent, p));
  }

  lemma BornPending(ends: Procs, es: Edges, lists: Lists, p: nat)
    requires Pending(ends, es, lists, None) && p !in ends && p !in lists
    ensures Pending(ends[p := Ends(None, None)], es, lists[p := []], None)
  {
    var ends', lists' := ends[p := Ends(None, None)], lists[p := []];
    forall e: Edge | e.to == p ensures EdgeAt(ends', es, lists', None, e) { assert EdgeAt(ends, es, lists, None, e); }
    PendingStep(ends, es, lists, None, ends', es, lists', None, p);
  }

  lemma BornMapped(own: Owned, vs: Views, bs: Blocks, trees: map<nat, Tree>, kernel: Tree, fl: Flights, p: nat)
    requires Mapped(own, vs, bs, trees, kernel, fl) && p !in own && p !in vs && p !in trees
    ensures Mapped(own[p := {}], vs[p := map[]], bs, trees[p := kernel], kernel, fl)
  {
    var own', vs', trees' := own[p := {}], vs[p := map[]], trees[p := kernel];
    forall q: nat, a: nat ensures MapAt(own', vs', bs, trees', kernel, fl, q, a) {
      assert MapAt(own, vs, bs, trees, kernel, fl, q, a);
      if q in trees && Reaches(own, vs, bs, q, a) {
        var b :| Covers(bs, b, a) && ((q in own && b in own[q]) || (q in vs && b in vs[q]));
        assert Covers(bs, b, a) && ((q in own' && b in own'[q]) || (q in vs' && b in vs'[q]));
      }
    }
  }

  lemma BornPinned(bs: Blocks, es: Edges, rings: set<nat>, pins: map<nat, nat>, ths: map<nat, Tcb>,
                   trees: map<nat, Tree>, tree: Tree, p: nat)
    requires Pinned(bs, es, rings, pins, ths, trees) && p !in trees
    ensures Pinned(bs, es, rings, pins, ths, trees[p := tree])
  {
    var trees' := trees[p := tree];
    forall t: nat ensures ThreadAt(bs, es, rings, trees', ths, t) { assert ThreadAt(bs, es, rings, trees, ths, t); }
  }

  lemma KillGood(g: Graph, lists: Lists, p: nat)
    requires Good(g, lists) && p in g.kin
    ensures Good(g.(kin := g.kin[p := g.kin[p].(dead := true)]), lists)
  {
    var kin' := g.kin[p := g.kin[p].(dead := true)];
    forall q: nat ensures KinAt(kin', q) { assert KinAt(g.kin, q); }
    forall t: nat ensures HomeAt(kin', g.threads, t) { assert HomeAt(g.kin, g.threads, t); }
    forall q: nat ensures ProcAt(kin', g.owned, g.views, g.threads, g.trees, q) {
      assert ProcAt(g.kin, g.owned, g.views, g.threads, g.trees, q);
      if q in g.kin && q !in g.trees { DeadStays(g.kin, kin', q); }
    }
    forall q: nat ensures EndsAt(kin', g.ends, lists, q) { assert EndsAt(g.kin, g.ends, lists, q); }
  }

  /** proc_sys_destroy, first call: the page tree goes. */
  lemma UntreeGood(g: Graph, lists: Lists, p: nat)
    requires Good(g, lists) && Bare(g.owned, g.views, g.threads, g.kin, p)
    ensures Good(g.(trees := g.trees - {p}), lists)
  {
    var trees' := g.trees - {p};
    forall q: nat, a: nat ensures MapAt(g.owned, g.views, g.blocks, trees', g.kernel, g.flight, q, a) {
      assert MapAt(g.owned, g.views, g.blocks, g.trees, g.kernel, g.flight, q, a);
    }
    forall t: nat ensures ThreadAt(g.blocks, g.edges, g.rings, trees', g.threads, t) {
      assert ThreadAt(g.blocks, g.edges, g.rings, g.trees, g.threads, t);
    }
    forall q: nat
      ensures ProcAt(g.kin, g.owned, g.views, g.threads, trees', q)
    {
      assert ProcAt(g.kin, g.owned, g.views, g.threads, g.trees, q);
    }
    UntreeFlying(g, p);
  }

  /** A process without threads has no allocation under way. */
  lemma UntreeFlying(g: Graph, p: nat)
    requires Flying(g.blocks, g.ram, g.threads, g.trees, g.flight) && forall t :: t in g.threads ==>
               g.threads[t].proc != p
    ensures Flying(g.blocks, g.ram, g.threads, g.trees - {p}, g.flight)
  {
    var g' := g.(trees := g.trees - {p});
    forall a: nat ensures CalmAt(g, g', a) {
      forall t: nat | t in g.flight ensures g.flight[t].proc != p { assert FlightAt(g.threads, g.trees, g.flight, t); }
    }
    FlyOn(g, g');
  }

  /** Second call: the process leaves every index. */
  function Buried(g: Graph, p: nat): (g': Graph)
    requires p in g.kin && g.kin[p].parent.Some? && g.kin[p].parent.value in g.kin
  {
    var q := g.kin[p].parent.value;
    g.(kin := g.kin[q := g.kin[q].(children := g.kin[q].children - {p})] - {p}, owned := g.owned - {p},
       views := g.views - {p},
       ends := g.ends - {p})
  }

  /** Nothing in the graph names process `p`. */
  ghost predicate Unnamed(g: Graph, p: nat) {
    && (forall b :: b in g.blocks ==> g.blocks[b].owner != p)
    && (forall e :: e in g.edges ==> e.to != p)
    && (forall q :: q in g.kin ==> q != p && g.kin[q].parent != Some(p) && p !in g.kin[q].children)
    && (forall t :: t in g.threads ==> g.threads[t].proc != p)
    && p !in g.owned && p !in g.views && p !in g.ends && p !in g.trees
  }

  lemma BuryUnnamed(g: Graph, lists: Lists, p: nat)
    requires Good(g, lists) && p in g.kin && p !in g.trees && g.kin[p].parent.Some? && g.kin[p].parent.value in g.kin
    ensures Unnamed(Buried(g, p), p)
  {
    assert ProcAt(g.kin, g.owned, g.views, g.threads, g.trees, p) && KinAt(g.kin, p);
    forall b | b in g.blocks ensures g.blocks[b].owner != p { assert OwnerAt(g.owned, g.blocks, g.index, b); }
    forall e | e in g.edges ensures e.to != p { assert SharerAt(g.views, g.blocks, g.edges, e); }
    forall q | q in g.kin && q != p
      ensures g.kin[q].parent != Some(p) && (p in g.kin[q].children ==> q == g.kin[p].parent.value)
    {
      assert KinAt(g.kin, q);
    }
  }

  lemma BuryFamily(g: Graph, lists: Lists, p: nat)
    requires Good(g, lists) && p in g.kin && p !in g.trees && g.kin[p].parent.Some? && g.kin[p].parent.value in g.kin
    ensures var g' := Buried(g, p); Family(g'.kin, g'.owned, g'.views, g'.threads, g'.trees)
  {
    var g' := Buried(g, p);
    BuryUnnamed(g, lists, p);
    forall q: nat ensures KinAt(g'.kin, q) { assert KinAt(g.kin, q) && KinAt(g.kin, p); }
    forall t: nat ensures HomeAt(g'.kin, g'.threads, t) { assert HomeAt(g.kin, g.threads, t); }
    forall q: nat ensures ProcAt(g'.kin, g'.owned, g'.views, g'.threads, g'.trees, q) {
      assert ProcAt(g.kin, g.owned, g.views, g.threads, g.trees, q);
      if q in g'.kin && q !in g'.trees { DeadWithout(g.kin, g'.kin, p, q); }
    }
  }

  /** A childless process is nobody's ancestor. */
  lemma {:induction false} DeadWithout(kin: map<nat, Kin>, kin': map<nat, Kin>, p: nat, q: nat)
    requires Dead(kin, q) && q != p
    requires forall r: nat :: r in kin && r != p ==>
               r in kin' && kin'[r].parent == kin[r].parent && kin'[r].dead == kin[r].dead && kin[r].parent != Some(p)
    ensures Dead(kin', q)
  {
    if !kin[q].dead { DeadWithout(kin, kin', p, kin[q].parent.value); }
  }

  lemma BuryGood(g: Graph, lists: Lists, p: nat)
    requires Good(g, lists) && p in g.kin && p !in g.trees && g.kin[p].parent.Some? && g.kin[p].parent.value in g.kin
    ensures Good(Buried(g, p), lists - {p})
  {
    var g', lists' := Buried(g, p), lists - {p};
    BuryUnnamed(g, lists, p);
    BuryFamily(g, lists, p);
    forall b: nat ensures OwnerAt(g'.owned, g'.blocks, g'.index, b) { assert OwnerAt(g.owned, g.blocks, g.index, b); }
    forall q: nat, b: nat ensures OwnAt(g'.owned, g'.blocks, q, b) { assert OwnAt(g.owned, g.blocks, q, b); }
    forall e: Edge
      ensures SharerAt(g'.views, g'.blocks, g'.edges, e)
    {
      assert SharerAt(g.views, g.blocks, g.edges, e);
    }
    forall q: nat, b: nat ensures ViewAt(g'.views, g'.edges, q, b) { assert ViewAt(g.views, g.edges, q, b); }
    forall q: nat ensures EndsAt(g'.kin, g'.ends, lists', q) { assert EndsAt(g.kin, g.ends, lists, q); }
    BuryRest(g, lists, p);
  }

  lemma BuryRest(g: Graph, lists: Lists, p: nat)
    requires Good(g, lists) && p in g.kin && p !in g.trees && g.kin[p].parent.Some? && g.kin[p].parent.value in g.kin
    requires Unnamed(Buried(g, p), p)
    ensures var g' := Buried(g, p);
            && Pending(g'.ends, g'.edges, lists - {p}, None)
            && Mapped(g'.owned, g'.views, g'.blocks, g'.trees, g'.kernel, g'.flight)
  {
    var g', lists' := Buried(g, p), lists - {p};
    PendingStep(g.ends, g.edges, lists, None, g'.ends, g'.edges, lists', None, p);
    forall q: nat, a: nat ensures MapAt(g'.owned, g'.views, g'.blocks, g'.trees, g'.kernel, g'.flight, q, a) {
      assert MapAt(g.owned, g.views, g.blocks, g.trees, g.kernel, g.flight, q, a);
      if q in g.trees && Reaches(g.owned, g.views, g.blocks, q, a) {
        var b :| Covers(g.blocks, b, a) && ((q in g.owned && b in g.owned[q]) || (q in g.views && b in g.views[q]));
        assert Covers(g'.blocks, b, a);
      }
    }
  }

  // -------------------------------------------------------------------------
  // Reaper authority
  // -------------------------------------------------------------------------

  /** `a` is a proper ancestor of `p`. */
  predicate Above(kin: map<nat, Kin>, a: nat, p: nat) {
    p in kin && kin[p].parent.Some? && kin[p].parent.value < p &&
    (kin[p].parent.value == a || Above(kin, a, kin[p].parent.value))
  }

  /** A process is dead if and only if it or one of its ancestors was marked. */
  lemma {:induction false} DeadExact(kin: map<nat, Kin>, p: nat)
    ensures Dead(kin, p) <==>
            exists a: nat :: a in kin && kin[a].dead && ((a == p && p in kin) || Above(kin, a, p))
  {
    if p in kin && kin[p].parent.Some? && kin[p].parent.value < p {
      var q := kin[p].parent.value;
      DeadExact(kin, q);
      if Dead(kin, q) {
        var a: nat :| a in kin && kin[a].dead && ((a == q && q in kin) || Above(kin, a, q));
        assert Above(kin, a, p);
      }
      if a: nat :| a in kin && kin[a].dead && Above(kin, a, p) {
        assert a == q || Above(kin, a, q);
      }
    }
  }

  lemma {:induction false} DeadBelow(kin: map<nat, Kin>, a: nat, p: nat)
    requires Above(kin, a, p) && Dead(kin, a)
    ensures Dead(kin, p)
  {
    if kin[p].parent.value != a { DeadBelow(kin, a, kin[p].parent.value); }
  }

  /** A process may be reaped by exactly those proper ancestors whose child on the way to it is dead. */
  lemma {:induction false} ReaperExact(kin: map<nat, Kin>, caller: nat, p: nat)
    requires forall q: nat :: KinAt(kin, q)
    ensures Walk(kin, caller, p) <==>
            exists d: nat :: d in kin && d != caller && kin[d].parent == Some(caller) && caller < d && Dead(kin, d) &&
              (d == p || Above(kin, d, p))
  {
    assert KinAt(kin, p);
    if p in kin && kin[p].parent.Some? && kin[p].parent.value != caller {
      var q := kin[p].parent.value;
      ReaperExact(kin, caller, q);
      if Walk(kin, caller, p) {
        var d: nat :| d in kin && d != caller && kin[d].parent == Some(caller) && caller < d && Dead(kin, d) &&
          (d == q || Above(kin, d, q));
        assert d == p || Above(kin, d, p);
      }
      if d: nat :|
        d in kin && d != caller && kin[d].parent == Some(caller) && caller < d && Dead(kin, d) &&
        (d == p || Above(kin, d, p))
      {
        assert d == q || Above(kin, d, q);
        DeadBelow(kin, d, p);
        WalkAway(kin, caller, q);
      }
    } else {
      forall d: nat | d in kin && kin[d].parent == Some(caller) && caller < d && Dead(kin, d) &&
      (d == p || Above(kin, d, p))
        ensures Dead(kin, p)
      {
        if d != p { DeadBelow(kin, d, p); }
      }
      if p in kin && kin[p].parent == Some(caller) {
        assert Walk(kin, caller, p) ==> caller < p && (p == p || Above(kin, p, p));
      }
    }
  }

  lemma WalkAway(kin: map<nat, Kin>, caller: nat, q: nat)
    requires Walk(kin, caller, q)
    ensures caller < q
  {
  }
}
