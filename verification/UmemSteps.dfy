/** What adding and removing blocks and edges does to the ownership graph. */
module UmemSteps {
  import opened UmemGraph
  import opened Seqs

  // -------------------------------------------------------------------------
  // A new block
  // -------------------------------------------------------------------------

  ghost predicate ClearAt(bs: Blocks, base: nat, bytes: nat, b: nat) {
    b in bs ==> b + bs[b].bytes <= base || base + bytes <= b
  }

  /** [base, base+bytes) meets no block. */
  ghost predicate Clear(bs: Blocks, base: nat, bytes: nat) {
    bytes > 0 && forall b: nat :: ClearAt(bs, base, bytes, b)
  }

  /** The kernel maps the whole range as `f`, and it is RAM or not throughout. */
  ghost predicate Uniform(kernel: Tree, ram: nat -> bool, base: nat, bytes: nat, f: Prot, r: bool) {
    forall a: nat :: UniformAt(kernel, ram, base, bytes, f, r, a)
  }

  ghost predicate UniformAt(kernel: Tree, ram: nat -> bool, base: nat, bytes: nat, f: Prot, r: bool, a: nat) {
    base <= a < base + bytes ==> kernel(a) == f && ram(a) == r
  }

  /** The addresses of the range are all RAM. */
  ghost predicate AllRam(ram: nat -> bool, base: nat, bytes: nat) {
    forall a: nat :: base <= a < base + bytes ==> ram(a)
  }

  lemma RamUniform(bs: Blocks, kernel: Tree, ram: nat -> bool, base: nat, bytes: nat)
    requires KernelOk(bs, kernel, ram) && AllRam(ram, base, bytes)
    ensures Uniform(kernel, ram, base, bytes, PRISTINE, true)
  {
    forall a: nat
      ensures UniformAt(kernel, ram, base, bytes, PRISTINE, true, a)
    {
      assert KernelAt(bs, kernel, ram, a);
    }
  }

  lemma NewBlock(own: Owned, vs: Views, bs: Blocks, index: set<nat>, es: Edges, kernel: Tree, ram: nat -> bool,
                 base: nat, x: Block)
    requires Apart(bs) && OwnedOk(own, bs, index) && Shared(vs, bs, es) && KernelOk(bs, kernel, ram)
    requires Clear(bs, base, x.bytes) && x.owner in own && Uniform(kernel, ram, base, x.bytes, x.kernel, x.ram)
    ensures base !in bs && Apart(bs[base := x])
    ensures OwnedOk(own[x.owner := own[x.owner] + {base}], bs[base := x], index + {base})
    ensures Shared(vs, bs[base := x], es) && KernelOk(bs[base := x], kernel, ram)
  {
    var bs', own' := bs[base := x], own[x.owner := own[x.owner] + {base}];
    assert ClearAt(bs, base, x.bytes, base) && ApartAt(bs, base, base);
    forall b: nat, c: nat ensures ApartAt(bs', b, c) {
      assert ApartAt(bs, b, c) && ClearAt(bs, base, x.bytes, b) && ClearAt(bs, base, x.bytes, c);
    }
    forall b: nat ensures OwnerAt(own', bs', index + {base}, b) { assert OwnerAt(own, bs, index, b); }
    forall p: nat, b: nat ensures OwnAt(own', bs', p, b) { assert OwnAt(own, bs, p, b); }
    forall e: Edge ensures SharerAt(vs, bs', es, e) { assert SharerAt(vs, bs, es, e); }
    forall a: nat ensures KernelAt(bs', kernel, ram, a) { assert KernelAt(bs, kernel, ram, a); }
    forall b: nat, a: nat ensures CoverAt(bs', kernel, ram, b, a) {
      assert CoverAt(bs, kernel, ram, b, a) && UniformAt(kernel, ram, base, x.bytes, x.kernel, x.ram, a);
    }
  }

  lemma NewMapped(own: Owned, vs: Views, bs: Blocks, trees: map<nat, Tree>, kernel: Tree, fl: Flights, base: nat,
                  x: Block, f: Prot)
    requires Mapped(own, vs, bs, trees, kernel, fl) && base !in bs && x.owner in own && x.owner in trees
    ensures Mapped(own[x.owner := own[x.owner] + {base}], vs, bs[base := x],
                   trees[x.owner := Flagged(trees[x.owner], base, base + x.bytes, f)], kernel, fl)
  {
    var own', bs' := own[x.owner := own[x.owner] + {base}], bs[base := x];
    var trees' := trees[x.owner := Flagged(trees[x.owner], base, base + x.bytes, f)];
    forall p: nat, a: nat ensures MapAt(own', vs, bs', trees', kernel, fl, p, a) {
      assert MapAt(own, vs, bs, trees, kernel, fl, p, a);
      if Reaches(own, vs, bs, p, a) {
        var b :| Covers(bs, b, a) && ((p in own && b in own[p]) || (p in vs && b in vs[p]));
        assert Covers(bs', b, a);
      } else if p == x.owner && base <= a < base + x.bytes {
        assert Covers(bs', base, a);
      }
    }
  }

  lemma NewBlockPinned(bs: Blocks, es: Edges, rings: set<nat>, pins: map<nat, nat>, ths: map<nat, Tcb>,
                       trees: map<nat, Tree>, base: nat, x: Block)
    requires Pinned(bs, es, rings, pins, ths, trees) && base !in bs
    ensures Pinned(bs[base := x], es, rings, pins[base := 0], ths, trees)
  {
    var bs', pins' := bs[base := x], pins[base := 0];
    forall t: nat ensures ThreadAt(bs', es, rings, trees, ths, t) { assert ThreadAt(bs, es, rings, trees, ths, t); }
    forall t: nat | t in ths ensures ths[t].pin != Some(base) { assert ThreadAt(bs, es, rings, trees, ths, t); }
    assert PinsOf(ths, base) == {};
    forall b: nat ensures PinsAt(bs', pins', ths, b) { assert PinsAt(bs, pins, ths, b); }
    forall b: nat ensures RingAt(bs', es, rings, b) { assert RingAt(bs, es, rings, b); }
  }

  /** Pins survive a change of some tree outside all blocks. */
  lemma ClearPinned(bs: Blocks, es: Edges, rings: set<nat>, pins: map<nat, nat>, ths: map<nat, Tcb>,
                    trees: map<nat, Tree>,
                    p: nat, base: nat, bytes: nat, f: Prot)
    requires Pinned(bs, es, rings, pins, ths, trees) && Clear(bs, base, bytes) && p in trees
    ensures Pinned(bs, es, rings, pins, ths, trees[p := Flagged(trees[p], base, base + bytes, f)])
  {
    var trees' := trees[p := Flagged(trees[p], base, base + bytes, f)];
    forall t: nat ensures ThreadAt(bs, es, rings, trees', ths, t) {
      assert ThreadAt(bs, es, rings, trees, ths, t);
      if t in ths && ths[t].pin.Some? { assert ClearAt(bs, base, bytes, ths[t].pin.value); }
    }
  }

  /** Processes with a page tree may own, view and map what they like. */
  lemma LiveFamily(kin: map<nat, Kin>, own: Owned, vs: Views, ths: map<nat, Tcb>, trees: map<nat, Tree>,
                   own': Owned, vs': Views, trees': map<nat, Tree>)
    requires Family(kin, own, vs, ths, trees) && trees'.Keys == trees.Keys
    requires forall p: nat :: (p in own' <==> p in own) && (p in vs' <==> p in vs)
    requires forall p: nat :: p !in trees && p in own ==> own'[p] == own[p]
    requires forall p: nat :: p !in trees && p in vs ==> vs'[p] == vs[p]
    ensures Family(kin, own', vs', ths, trees')
  {
    forall p: nat ensures ProcAt(kin, own', vs', ths, trees', p) {
      assert ProcAt(kin, own, vs, ths, trees, p);
      assert p in trees' <==> p in trees'.Keys;
    }
  }

  // -------------------------------------------------------------------------
  // A tree restored over a block
  // -------------------------------------------------------------------------

  /** Process `q` reaches in the new graph all it reached, except block `base` if it is `p`. */
  ghost predicate KeepsAt(own: Owned, vs: Views, bs: Blocks, own': Owned, vs': Views, bs': Blocks, p: nat, base: nat,
                          q: nat, b: nat) {
    (q != p || b != base) && b in bs && ((q in own && b in own[q]) || (q in vs && b in vs[q])) ==>
      b in bs' && bs'[b].bytes == bs[b].bytes && ((q in own' && b in own'[q]) || (q in vs' && b in vs'[q]))
  }

  /** Writing the kernel's mapping over a block its process no longer reaches. */
  lemma LeftMapped(own: Owned, vs: Views, bs: Blocks, trees: map<nat, Tree>, kernel: Tree, fl: Flights,
                   ram: nat -> bool,
                   own': Owned, vs': Views, bs': Blocks, p: nat, base: nat)
    requires Mapped(own, vs, bs, trees, kernel, fl) && KernelOk(bs, kernel, ram) && base in bs && p in trees
    requires forall q: nat, b: nat :: KeepsAt(own, vs, bs, own', vs', bs', p, base, q, b)
    ensures Mapped(own', vs', bs', trees[p := Flagged(trees[p], base, base + bs[base].bytes, bs[base].kernel)], kernel,
                   fl)
  {
    var trees' := trees[p := Flagged(trees[p], base, base + bs[base].bytes, bs[base].kernel)];
    forall q: nat, a: nat ensures MapAt(own', vs', bs', trees', kernel, fl, q, a) {
      assert MapAt(own, vs, bs, trees, kernel, fl, q, a) && CoverAt(bs, kernel, ram, base, a);
      if q == p && Covers(bs, base, a) {
      } else if Reaches(own, vs, bs, q, a) {
        var b :| Covers(bs, b, a) && ((q in own && b in own[q]) || (q in vs && b in vs[q]));
        assert KeepsAt(own, vs, bs, own', vs', bs', p, base, q, b);
        assert Covers(bs', b, a);
      }
    }
  }

  /** Pins survive a change of some tree inside a block they do not pin. */
  lemma RangePinned(bs: Blocks, es: Edges, rings: set<nat>, pins: map<nat, nat>, ths: map<nat, Tcb>,
                    trees: map<nat, Tree>,
                    p: nat, base: nat, lo: nat, hi: nat, f: Prot)
    requires Pinned(bs, es, rings, pins, ths, trees) && Apart(bs) && base in bs && p in trees && base in pins
    requires base <= lo && hi <= base + bs[base].bytes && (bs[base].owner == p ==> pins[base] == 0)
    ensures Pinned(bs, es, rings, pins, ths, trees[p := Flagged(trees[p], lo, hi, f)])
  {
    var trees' := trees[p := Flagged(trees[p], lo, hi, f)];
    forall t: nat ensures ThreadAt(bs, es, rings, trees', ths, t) {
      assert ThreadAt(bs, es, rings, trees, ths, t) && PinsAt(bs, pins, ths, base);
      if t in ths && ths[t].pin.Some? {
        assert ApartAt(bs, base, ths[t].pin.value) && ApartAt(bs, ths[t].pin.value, base);
        assert ths[t].pin == Some(base) ==> t in PinsOf(ths, base);
      }
    }
  }

  lemma FlaggedPinned(bs: Blocks, es: Edges, rings: set<nat>, pins: map<nat, nat>, ths: map<nat, Tcb>,
                      trees: map<nat, Tree>,
                      p: nat, base: nat, f: Prot)
    requires Pinned(bs, es, rings, pins, ths, trees) && Apart(bs) && base in bs && p in trees && base in pins
    requires bs[base].owner == p ==> pins[base] == 0
    ensures Pinned(bs, es, rings, pins, ths, trees[p := Flagged(trees[p], base, base + bs[base].bytes, f)])
  {
    RangePinned(bs, es, rings, pins, ths, trees, p, base, base, base + bs[base].bytes, f);
  }

  // -------------------------------------------------------------------------
  // A block removed
  // -------------------------------------------------------------------------

  lemma GoneBlock(own: Owned, vs: Views, bs: Blocks, index: set<nat>, es: Edges, kernel: Tree, ram: nat -> bool,
                  base: nat)
    requires Apart(bs) && OwnedOk(own, bs, index) && Shared(vs, bs, es) && KernelOk(bs, kernel, ram)
    requires base in bs && bs[base].owner in own && Private(es, base)
    ensures Apart(bs - {base}) && Clear(bs - {base}, base, bs[base].bytes)
    ensures OwnedOk(own[bs[base].owner := own[bs[base].owner] - {base}], bs - {base}, index - {base})
    ensures Shared(vs, bs - {base}, es) && KernelOk(bs - {base}, kernel, ram)
    ensures forall p: nat :: p in vs ==> base !in vs[p]
  {
    var bs', own' := bs - {base}, own[bs[base].owner := own[bs[base].owner] - {base}];
    forall b: nat, c: nat ensures ApartAt(bs', b, c) { assert ApartAt(bs, b, c); }
    assert ApartAt(bs, base, base);
    forall b: nat ensures ClearAt(bs', base, bs[base].bytes, b) { assert ApartAt(bs, b, base) && ApartAt(bs, base, b); }
    forall b: nat ensures OwnerAt(own', bs', index - {base}, b) { assert OwnerAt(own, bs, index, b); }
    forall p: nat, b: nat ensures OwnAt(own', bs', p, b) { assert OwnAt(own, bs, p, b); }
    forall e: Edge ensures SharerAt(vs, bs', es, e) { assert SharerAt(vs, bs, es, e); }
    forall p: nat | p in vs ensures base !in vs[p] { assert ViewAt(vs, es, p, base); }
    forall a: nat ensures KernelAt(bs', kernel, ram, a) { assert KernelAt(bs, kernel, ram, a); }
    forall b: nat, a: nat ensures CoverAt(bs', kernel, ram, b, a) { assert CoverAt(bs, kernel, ram, b, a); }
  }

  lemma GonePinned(bs: Blocks, es: Edges, rings: set<nat>, pins: map<nat, nat>, ths: map<nat, Tcb>,
                   trees: map<nat, Tree>, base: nat)
    requires Pinned(bs, es, rings, pins, ths, trees) && base in bs && base in pins && pins[base] == 0
    ensures Pinned(bs - {base}, es, rings - {base}, pins - {base}, ths, trees)
  {
    var bs', rings' := bs - {base}, rings - {base};
    assert PinsAt(bs, pins, ths, base);
    forall t: nat ensures ThreadAt(bs', es, rings', trees, ths, t) {
      assert ThreadAt(bs, es, rings, trees, ths, t);
      assert t in ths && ths[t].pin == Some(base) ==> t in PinsOf(ths, base);
    }
    forall b: nat ensures PinsAt(bs', pins - {base}, ths, b) { assert PinsAt(bs, pins, ths, b); }
    forall b: nat ensures RingAt(bs', es, rings', b) { assert RingAt(bs, es, rings, b); }
  }

  // -------------------------------------------------------------------------
  // An edge added or removed
  // -------------------------------------------------------------------------

  lemma EdgeShared(vs: Views, bs: Blocks, es: Edges, e: Edge, l: Link)
    requires Shared(vs, bs, es) && e !in es && e.base in bs && e.to in vs && e.to != bs[e.base].owner
    ensures e.base !in vs[e.to] && Shared(vs[e.to := WithView(vs[e.to], e)], bs, es[e := l])
  {
    var vs', es' := vs[e.to := WithView(vs[e.to], e)], es[e := l];
    assert ViewAt(vs, es, e.to, e.base);
    forall f: Edge ensures SharerAt(vs', bs, es', f) { assert SharerAt(vs, bs, es, f); }
    forall p: nat, b: nat ensures ViewAt(vs', es', p, b) { assert ViewAt(vs, es, p, b); }
  }

  /** Only the links of edges changed. */
  lemma RelinkShared(vs: Views, bs: Blocks, es: Edges, es': Edges)
    requires Shared(vs, bs, es) && forall e: Edge :: e in es' <==> e in es
    ensures Shared(vs, bs, es')
  {
    forall f: Edge ensures SharerAt(vs, bs, es', f) { assert SharerAt(vs, bs, es, f); }
    forall p: nat, b: nat ensures ViewAt(vs, es', p, b) { assert ViewAt(vs, es, p, b); }
  }

  lemma CutShared(vs: Views, bs: Blocks, es: Edges, e: Edge)
    requires Shared(vs, bs, es) && e in es && e.to in vs
    ensures Shared(vs[e.to := vs[e.to] - {e.base}], bs, es - {e})
  {
    var vs', es' := vs[e.to := vs[e.to] - {e.base}], es - {e};
    forall f: Edge ensures SharerAt(vs', bs, es', f) { assert SharerAt(vs, bs, es, f); }
    forall p: nat, b: nat ensures ViewAt(vs', es', p, b) { assert ViewAt(vs, es, p, b); }
  }

  /** A new edge may only be to a block without pins and that is no ring. */
  lemma EdgePinned(bs: Blocks, es: Edges, es': Edges, rings: set<nat>, pins: map<nat, nat>, ths: map<nat, Tcb>,
                   trees: map<nat, Tree>)
    requires Pinned(bs, es, rings, pins, ths, trees)
    requires forall e: Edge :: e in es' && e !in es ==> e.base in pins && pins[e.base] == 0 && e.base !in rings
    ensures Pinned(bs, es', rings, pins, ths, trees)
  {
    forall t: nat ensures ThreadAt(bs, es', rings, trees, ths, t) {
      assert ThreadAt(bs, es, rings, trees, ths, t);
      if t in ths && ths[t].pin.Some? {
        var b := ths[t].pin.value;
        assert PinsAt(bs, pins, ths, b) && t in PinsOf(ths, b);
      }
    }
    forall b: nat ensures RingAt(bs, es', rings, b) { assert RingAt(bs, es, rings, b); }
  }

  lemma EdgeMapped(own: Owned, vs: Views, bs: Blocks, trees: map<nat, Tree>, kernel: Tree, fl: Flights, e: Edge,
                   f: Prot)
    requires Mapped(own, vs, bs, trees, kernel, fl) && e.base in bs && e.to in vs && e.to in trees
    ensures Mapped(own, vs[e.to := WithView(vs[e.to], e)], bs,
                   trees[e.to := Flagged(trees[e.to], e.base, e.base + bs[e.base].bytes, f)], kernel, fl)
  {
    var vs' := vs[e.to := WithView(vs[e.to], e)];
    var trees' := trees[e.to := Flagged(trees[e.to], e.base, e.base + bs[e.base].bytes, f)];
    forall p: nat, a: nat ensures MapAt(own, vs', bs, trees', kernel, fl, p, a) {
      assert MapAt(own, vs, bs, trees, kernel, fl, p, a);
      if Reaches(own, vs, bs, p, a) {
        var b :| Covers(bs, b, a) && ((p in own && b in own[p]) || (p in vs && b in vs[p]));
        assert Covers(bs, b, a) && ((p in own && b in own[p]) || (p in vs' && b in vs'[p]));
      } else if p == e.to && Covers(bs, e.base, a) {
        assert e.base in vs'[p];
      }
    }
  }

  /** A process with a block, a view or a thread has a page tree. */
  lemma HasTree(kin: map<nat, Kin>, own: Owned, vs: Views, ths: map<nat, Tcb>, trees: map<nat, Tree>, p: nat)
    requires Family(kin, own, vs, ths, trees)
    requires (p in own && own[p] != {}) || (p in vs && vs[p] != map[]) ||
      (exists t: nat :: t in ths && ths[t].proc == p) ||
             (p in kin && !Dead(kin, p))
    ensures p in trees && p in kin && p in own && p in vs
  {
    assert ProcAt(kin, own, vs, ths, trees, p);
    if t: nat :| t in ths && ths[t].proc == p { assert HomeAt(kin, ths, t); }
  }

  // -------------------------------------------------------------------------
  // Consequences
  // -------------------------------------------------------------------------

  /** User access is only ever inside a block the process owns or views, or one that it is just allocating; other RAM
      is pristine. */
  lemma UserInside(own: Owned, vs: Views, bs: Blocks, trees: map<nat, Tree>, kernel: Tree, fl: Flights,
                   ram: nat -> bool, p: nat, a: nat)
    requires Mapped(own, vs, bs, trees, kernel, fl) && KernelOk(bs, kernel, ram) && p in trees
    ensures U in trees[p](a) ==> Reaches(own, vs, bs, p, a) || Aloft(fl, p, a)
    ensures ram(a) && !Reaches(own, vs, bs, p, a) && !Aloft(fl, p, a) ==> trees[p](a) == PRISTINE
  {
    assert MapAt(own, vs, bs, trees, kernel, fl, p, a) && KernelAt(bs, kernel, ram, a);
  }

  /** A range that meets no block and no allocation under way is mapped in every tree as in the kernel's. */
  lemma ClearIsKernel(own: Owned, vs: Views, bs: Blocks, trees: map<nat, Tree>, kernel: Tree, fl: Flights, base: nat,
                      bytes: nat)
    requires Mapped(own, vs, bs, trees, kernel, fl) && Clear(bs, base, bytes)
    requires forall a: nat :: base <= a < base + bytes ==> !AnyAloft(fl, a)
    ensures forall p: nat, a: nat :: p in trees && base <= a < base + bytes ==> trees[p](a) == kernel(a)
  {
    forall p: nat, a: nat | p in trees && base <= a < base + bytes ensures trees[p](a) == kernel(a) {
      assert MapAt(own, vs, bs, trees, kernel, fl, p, a);
      assert forall b: nat :: ClearAt(bs, base, bytes, b) ==> !Covers(bs, b, a);
      if Aloft(fl, p, a) {
        var t :| t in fl && fl[t].proc == p && Over(fl[t], a);
        assert AnyAloft(fl, a);
      }
    }
  }

  // -------------------------------------------------------------------------
  // Whole steps
  // -------------------------------------------------------------------------

  /** Process `p` gets the block, mapped as `f`. */
  function Inserted(g: Graph, p: nat, base: nat, x: Block, f: Prot): (g': Graph)
    requires p in g.owned && p in g.trees
  {
    g.(trees := g.trees[p := Flagged(g.trees[p], base, base + x.bytes, f)], owned := g.owned[p := g.owned[p] + {base}],
       blocks := g.blocks[base := x], index := g.index + {base}, pins := g.pins[base := 0])
  }

  lemma InsertGood(g: Graph, lists: Lists, p: nat, base: nat, x: Block, f: Prot)
    requires Good(g, lists) && p in g.trees && x.owner == p && Clear(g.blocks, base, x.bytes)
    requires Uniform(g.kernel, g.ram, base, x.bytes, x.kernel, x.ram)
    requires forall a: nat :: base <= a < base + x.bytes ==> !AnyAloft(g.flight, a)
    ensures p in g.owned && base !in g.blocks && Good(Inserted(g, p, base, x, f), lists)
  {
    assert ProcAt(g.kin, g.owned, g.views, g.threads, g.trees, p);
    NewBlock(g.owned, g.views, g.blocks, g.index, g.edges, g.kernel, g.ram, base, x);
    NewMapped(g.owned, g.views, g.blocks, g.trees, g.kernel, g.flight, base, x, f);
    InsertPinned(g, p, base, x, f);
    InsertFamily(g, p, base, x, f);
    InsertFlies(g, p, base, x, f);
  }

  lemma InsertPinned(g: Graph, p: nat, base: nat, x: Block, f: Prot)
    requires Pinned(g.blocks, g.edges, g.rings, g.pins, g.threads, g.trees) && p in g.trees && p in g.owned
    requires base !in g.blocks && Clear(g.blocks, base, x.bytes)
    ensures var g' := Inserted(g, p, base, x, f); Pinned(g'.blocks, g'.edges, g'.rings, g'.pins, g'.threads, g'.trees)
  {
    var g' := Inserted(g, p, base, x, f);
    ClearPinned(g.blocks, g.edges, g.rings, g.pins, g.threads, g.trees, p, base, x.bytes, f);
    NewBlockPinned(g.blocks, g.edges, g.rings, g.pins, g.threads, g'.trees, base, x);
  }

  lemma InsertFamily(g: Graph, p: nat, base: nat, x: Block, f: Prot)
    requires Family(g.kin, g.owned, g.views, g.threads, g.trees) && p in g.trees && p in g.owned
    ensures var g' := Inserted(g, p, base, x, f); Family(g'.kin, g'.owned, g'.views, g'.threads, g'.trees)
  {
    var g' := Inserted(g, p, base, x, f);
    LiveFamily(g.kin, g.owned, g.views, g.threads, g.trees, g'.owned, g'.views, g'.trees);
  }

  lemma InsertFlies(g: Graph, p: nat, base: nat, x: Block, f: Prot)
    requires Flying(g.blocks, g.ram, g.threads, g.trees, g.flight) && p in g.owned && p in g.trees
    requires forall a: nat :: base <= a < base + x.bytes ==> !AnyAloft(g.flight, a)
    ensures var g' := Inserted(g, p, base, x, f); Flying(g'.blocks, g'.ram, g'.threads, g'.trees, g'.flight)
  {
    var g' := Inserted(g, p, base, x, f);
    forall a: nat ensures CalmAt(g, g', a) { }
    FlyOn(g, g');
  }

  // -------------------------------------------------------------------------
  // An allocation, which flags its block before it enters the indexes
  // -------------------------------------------------------------------------

  /** The range is RAM that no block and no allocation under way has. */
  ghost predicate Unused(g: Graph, base: nat, bytes: nat) {
    Clear(g.blocks, base, bytes) && forall a: nat :: UnusedAt(g, base, bytes, a)
  }

  ghost predicate UnusedAt(g: Graph, base: nat, bytes: nat, a: nat) {
    base <= a < base + bytes ==> g.ram(a) && !AnyAloft(g.flight, a)
  }

  /** Thread `t`'s process maps the range, which nothing names yet. */
  function Flown(g: Graph, t: nat, f: Flight): (g': Graph)
    requires f.proc in g.trees
  {
    g.(trees := g.trees[f.proc := Flagged(g.trees[f.proc], f.base, f.base + f.bytes, f.prot)],
       flight := g.flight[t := f])
  }

  lemma FlownMapped(g: Graph, t: nat, f: Flight)
    requires Mapped(g.owned, g.views, g.blocks, g.trees, g.kernel, g.flight) && f.proc in g.trees && t !in g.flight
    ensures var g' := Flown(g, t, f); Mapped(g'.owned, g'.views, g'.blocks, g'.trees, g'.kernel, g'.flight)
  {
    var g' := Flown(g, t, f);
    forall p: nat, a: nat ensures MapAt(g.owned, g.views, g.blocks, g'.trees, g.kernel, g'.flight, p, a) {
      assert MapAt(g.owned, g.views, g.blocks, g.trees, g.kernel, g.flight, p, a);
      if p == f.proc && Over(f, a) {
        assert t in g'.flight && g'.flight[t].proc == p && Over(g'.flight[t], a);
      } else if Aloft(g.flight, p, a) {
        var u :| u in g.flight && g.flight[u].proc == p && Over(g.flight[u], a);
        assert u in g'.flight && g'.flight[u].proc == p && Over(g'.flight[u], a);
      }
    }
  }

  lemma FlownFlying(g: Graph, t: nat, f: Flight)
    requires Flying(g.blocks, g.ram, g.threads, g.trees, g.flight) && t in g.threads && t !in g.flight
    requires f.proc == g.threads[t].proc && f.proc in g.trees && Unused(g, f.base, f.bytes)
    ensures var g' := Flown(g, t, f); Flying(g'.blocks, g'.ram, g'.threads, g'.trees, g'.flight)
  {
    var g' := Flown(g, t, f);
    forall u: nat
      ensures FlightAt(g'.threads, g'.trees, g'.flight, u)
    {
      assert FlightAt(g.threads, g.trees, g.flight, u);
    }
    forall u: nat, a: nat ensures FlownAt(g'.blocks, g'.ram, g'.trees, g'.flight, u, a) {
      assert FlownAt(g.blocks, g.ram, g.trees, g.flight, u, a) && UnusedAt(g, f.base, f.bytes, a);
      if u == t && Over(f, a) {
        forall b | b in g.blocks ensures !Covers(g.blocks, b, a) { assert ClearAt(g.blocks, f.base, f.bytes, b); }
        forall v | v in g.flight
          ensures !Over(g.flight[v], a)
        {
          assert Over(g.flight[v], a) ==> AnyAloft(g.flight, a);
        }
      } else if u in g.flight && Over(g.flight[u], a) {
        assert AnyAloft(g.flight, a);
      }
    }
  }

  lemma FlownGood(g: Graph, lists: Lists, t: nat, f: Flight)
    requires Good(g, lists) && t in g.threads && t !in g.flight && f.proc == g.threads[t].proc && f.proc in g.trees
    requires Unused(g, f.base, f.bytes)
    ensures Good(Flown(g, t, f), lists)
  {
    var g' := Flown(g, t, f);
    FlownMapped(g, t, f);
    FlownFlying(g, t, f);
    ClearPinned(g.blocks, g.edges, g.rings, g.pins, g.threads, g.trees, f.proc, f.base, f.bytes, f.prot);
    LiveFamily(g.kin, g.owned, g.views, g.threads, g.trees, g.owned, g.views, g'.trees);
  }

  function NewRam(f: Flight): (x: Block) {
    Block(f.bytes, true, f.proc, true, PRISTINE, {})
  }

  /** The block of thread `t`'s allocation enters its owner's tree and the global index; no mapping changes. */
  function Landed(g: Graph, t: nat): (g': Graph)
    requires t in g.flight && g.flight[t].proc in g.owned
  {
    var f := g.flight[t];
    g.(owned := g.owned[f.proc := g.owned[f.proc] + {f.base}], blocks := g.blocks[f.base := NewRam(f)],
       index := g.index + {f.base},
       pins := g.pins[f.base := 0], flight := g.flight - {t})
  }

  /** What the flags of an allocation under way say about its range. */
  lemma FlightClear(g: Graph, lists: Lists, t: nat)
    requires Good(g, lists) && t in g.flight
    ensures var f := g.flight[t];
            f.proc in g.owned && f.proc in g.trees && Clear(g.blocks, f.base, f.bytes) && AllRam(g.ram, f.base, f.bytes)
  {
    var f := g.flight[t];
    assert FlightAt(g.threads, g.trees, g.flight, t) && ProcAt(g.kin, g.owned, g.views, g.threads, g.trees, f.proc);
    forall b: nat ensures ClearAt(g.blocks, f.base, f.bytes, b) {
      assert ApartAt(g.blocks, b, b);
      var a := if b < f.base then f.base else b;
      assert FlownAt(g.blocks, g.ram, g.trees, g.flight, t, a);
      assert b in g.blocks && Over(f, a) ==> !Covers(g.blocks, b, a);
    }
    forall a: nat | f.base <= a < f.base + f.bytes
      ensures g.ram(a)
    {
      assert FlownAt(g.blocks, g.ram, g.trees, g.flight, t, a) && Over(f, a);
    }
  }

  lemma LandMapped(g: Graph, t: nat)
    requires Mapped(g.owned, g.views, g.blocks, g.trees, g.kernel, g.flight) && t in g.flight
    requires g.flight[t].proc in g.owned && g.flight[t].base !in g.blocks
    ensures var g' := Landed(g, t); Mapped(g'.owned, g'.views, g'.blocks, g'.trees, g'.kernel, g'.flight)
  {
    var g', f := Landed(g, t), g.flight[t];
    forall p: nat, a: nat ensures MapAt(g'.owned, g'.views, g'.blocks, g'.trees, g'.kernel, g'.flight, p, a) {
      assert MapAt(g.owned, g.views, g.blocks, g.trees, g.kernel, g.flight, p, a);
      if Reaches(g.owned, g.views, g.blocks, p, a) {
        var b :| Covers(g.blocks, b, a) && ((p in g.owned && b in g.owned[p]) || (p in g.views && b in g.views[p]));
        assert Covers(g'.blocks, b, a);
      } else if Aloft(g.flight, p, a) {
        var u :| u in g.flight && g.flight[u].proc == p && Over(g.flight[u], a);
        if u == t {
          assert Covers(g'.blocks, f.base, a) && f.base in g'.owned[p];
        } else {
          assert u in g'.flight && Over(g'.flight[u], a);
        }
      }
    }
  }

  lemma LandFlying(g: Graph, t: nat)
    requires Flying(g.blocks, g.ram, g.threads, g.trees, g.flight) && t in g.flight && g.flight[t].proc in g.owned
    ensures var g' := Landed(g, t); Flying(g'.blocks, g'.ram, g'.threads, g'.trees, g'.flight)
  {
    var g', f := Landed(g, t), g.flight[t];
    forall u: nat
      ensures FlightAt(g'.threads, g'.trees, g'.flight, u)
    {
      assert FlightAt(g.threads, g.trees, g.flight, u);
    }
    forall u: nat, a: nat ensures FlownAt(g'.blocks, g'.ram, g'.trees, g'.flight, u, a) {
      assert FlownAt(g.blocks, g.ram, g.trees, g.flight, u, a);
      if u in g'.flight && Over(g'.flight[u], a) {
        forall b | b in g'.blocks ensures !Covers(g'.blocks, b, a) { assert b != f.base ==> b in g.blocks; }
      }
    }
  }

  lemma LandGood(g: Graph, lists: Lists, t: nat)
    requires Good(g, lists) && t in g.flight
    ensures var f := g.flight[t]; f.proc in g.owned && f.base !in g.blocks && Good(Landed(g, t), lists)
    ensures var f := g.flight[t]; f.proc in g.trees && forall a: nat :: Over(f, a) ==> g.trees[f.proc](a) == f.prot
  {
    var f := g.flight[t];
    FlightClear(g, lists, t);
    RamUniform(g.blocks, g.kernel, g.ram, f.base, f.bytes);
    NewBlock(g.owned, g.views, g.blocks, g.index, g.edges, g.kernel, g.ram, f.base, NewRam(f));
    NewBlockPinned(g.blocks, g.edges, g.rings, g.pins, g.threads, g.trees, f.base, NewRam(f));
    LandMapped(g, t);
    LandFlying(g, t);
    LiveFamily(g.kin, g.owned, g.views, g.threads, g.trees, Landed(g, t).owned, g.views, g.trees);
    forall a: nat | Over(f, a)
      ensures g.trees[f.proc](a) == f.prot
    {
      assert FlownAt(g.blocks, g.ram, g.trees, g.flight, t, a);
    }
  }

  /** The block leaves its owner, whose tree is restored over it. */
  function Removed(g: Graph, base: nat): (g': Graph)
    requires base in g.blocks && g.blocks[base].owner in g.owned && g.blocks[base].owner in g.trees
  {
    var x, p := g.blocks[base], g.blocks[base].owner;
    g.(trees := g.trees[p := Flagged(g.trees[p], base, base + x.bytes, x.kernel)],
       owned := g.owned[p := g.owned[p] - {base}],
       blocks := g.blocks - {base}, index := g.index - {base}, rings := g.rings - {base}, pins := g.pins - {base})
  }

  ghost predicate RestoredAt(g: Graph, bs: Blocks, base: nat, q: nat, a: nat) {
    q in g.trees && Covers(bs, base, a) ==>
        g.trees[q](a) == bs[base].kernel && (bs[base].ram ==> g.trees[q](a) == PRISTINE)
  }

  /** Every page tree maps the block as the kernel does, pristine if it is RAM. */
  ghost predicate Restored(g: Graph, bs: Blocks, base: nat) {
    forall q: nat, a: nat :: RestoredAt(g, bs, base, q, a)
  }

  lemma OwnerLive(g: Graph, lists: Lists, base: nat)
    requires Good(g, lists) && base in g.blocks
    ensures g.blocks[base].owner in g.owned && g.blocks[base].owner in g.trees && base in g.pins
  {
    assert OwnerAt(g.owned, g.blocks, g.index, base) && PinsAt(g.blocks, g.pins, g.threads, base);
    HasTree(g.kin, g.owned, g.views, g.threads, g.trees, g.blocks[base].owner);
  }

  lemma RemoveGood(g: Graph, lists: Lists, base: nat)
    requires Good(g, lists) && base in g.blocks && Private(g.edges, base) && base in g.pins && g.pins[base] == 0
    requires g.blocks[base].owner in g.owned && g.blocks[base].owner in g.trees
    ensures Good(Removed(g, base), lists) && Restored(Removed(g, base), g.blocks, base)
  {
    var x, p, g' := g.blocks[base], g.blocks[base].owner, Removed(g, base);
    GoneBlock(g.owned, g.views, g.blocks, g.index, g.edges, g.kernel, g.ram, base);
    FlaggedPinned(g.blocks, g.edges, g.rings, g.pins, g.threads, g.trees, p, base, x.kernel);
    GonePinned(g.blocks, g.edges, g.rings, g.pins, g.threads, g'.trees, base);
    LiveFamily(g.kin, g.owned, g.views, g.threads, g.trees, g'.owned, g'.views, g'.trees);
    RemoveMapped(g, lists, base);
    FlyOver(g, g', base);
  }

  lemma RemoveMapped(g: Graph, lists: Lists, base: nat)
    requires Good(g, lists) && base in g.blocks && Private(g.edges, base)
    requires g.blocks[base].owner in g.owned && g.blocks[base].owner in g.trees
    requires Clear(g.blocks - {base}, base, g.blocks[base].bytes) && forall p: nat :: p in g.views ==>
               base !in g.views[p]
    ensures var g' := Removed(g, base);
            Mapped(g'.owned, g'.views, g'.blocks, g'.trees, g'.kernel, g'.flight) && Restored(g', g.blocks, base)
  {
    var p, g' := g.blocks[base].owner, Removed(g, base);
    forall q: nat, b: nat ensures KeepsAt(g.owned, g.views, g.blocks, g'.owned, g'.views, g'.blocks, p, base, q, b) {
      assert OwnAt(g.owned, g.blocks, q, b);
    }
    LeftMapped(g.owned, g.views, g.blocks, g.trees, g.kernel, g.flight, g.ram, g'.owned, g'.views, g'.blocks, p, base);
    forall a: nat | base <= a < base + g.blocks[base].bytes ensures !AnyAloft(g.flight, a) {
      assert Covers(g.blocks, base, a);
      BlockCalm(g, base, a);
    }
    ClearIsKernel(g'.owned, g'.views, g'.blocks, g'.trees, g'.kernel, g'.flight, base, g.blocks[base].bytes);
    forall q: nat, a: nat ensures RestoredAt(g', g.blocks, base, q, a) {
      assert CoverAt(g.blocks, g.kernel, g.ram, base, a) && KernelAt(g.blocks, g.kernel, g.ram, a);
    }
  }
}
