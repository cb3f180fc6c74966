/** Device mappings over the block graph: the state that iommu.c and umem.c share through
    ublock.dma_maps.  Devices reach exactly the live blocks that are mapped for them. */
module Dma {
  import opened Iommu
  import opened Endpoints
  import opened Vtd
  import PT = PageTree
  import U = Umem
  import UE = UmemEdges
  import UG = UmemGraph
  import UP = UmemProcs
  import opened Seqs

  const PAGE: nat := U.PAGE

  /** A mapping covers the whole of a RAM block. */
  ghost predicate EdgeAt(bs: UG.Blocks, ns: Nodes, k: Key) {
    k in ns ==> k.base * PAGE in bs && bs[k.base * PAGE].ram && bs[k.base * PAGE].bytes == ns[k].pages * PAGE
  }

  ghost predicate Edges(bs: UG.Blocks, ns: Nodes) {
    forall k: Key :: EdgeAt(bs, ns, k)
  }

  /** The blocks that have a tree of device mappings. */
  function Bases(ix: Index): (dma: set<nat>) {
    set b | b in ix :: b * PAGE
  }

  // -------------------------------------------------------------------------
  // What devices reach
  // -------------------------------------------------------------------------

  /** Blocks do not overlap, so neither do the mappings of a domain. */
  lemma BlockClear(bs: UG.Blocks, ns: Nodes, d: nat, base: nat, pages: nat)
    requires UG.Apart(bs) && Edges(bs, ns) && Key(d, base) !in ns
    requires base * PAGE in bs && bs[base * PAGE].bytes == pages * PAGE
    ensures Clear(ns, d, base, pages)
  {
    forall k: Key ensures ClearAt(ns, d, base, pages, k) {
      if k in ns && k.dom == d {
        assert EdgeAt(bs, ns, k);
        assert UG.ApartAt(bs, k.base * PAGE, base * PAGE) && UG.ApartAt(bs, base * PAGE, k.base * PAGE);
      }
    }
  }

  /** Devices of domain `d` may touch page `n`. */
  ghost predicate Reaches(hw: map<nat, Sl>, d: nat, n: nat) {
    d in hw && n < PT.Span(TOP) && IsRoot(hw[d]) && Seen(hw[d], n).Some?
  }

  /** Page `n` lies in the block at `b`. */
  ghost predicate PageIn(bs: UG.Blocks, b: nat, n: nat) {
    b in bs && b <= n * PAGE && n * PAGE + PAGE <= b + bs[b].bytes
  }

  /** A device reaches a page just when its domain maps the block around it. */
  lemma ReachExact(bs: UG.Blocks, m: Maps, superpages: bool, d: nat, n: nat)
    requires Edges(bs, m.nodes) && Exact(m.nodes, m.heads, m.hw, superpages)
    ensures Reaches(m.hw, d, n) <==> exists b: nat :: Key(d, b) in m.nodes && PageIn(bs, b * PAGE, n)
  {
    forall b: nat | Key(d, b) in m.nodes && PageIn(bs, b * PAGE, n) ensures Reaches(m.hw, d, n) {
      ReachRights(bs, m, superpages, d, b, n);
    }
    if Reaches(m.hw, d, n) {
      assert UnmappedAt(m.nodes, m.hw, d, n);
      var k: Key :| k.dom == d && Covers(m.nodes, k, n);
      assert EdgeAt(bs, m.nodes, k) && k == Key(d, k.base);
      assert PageIn(bs, k.base * PAGE, n);
    }
  }

  /** It reaches RAM, at its own address and with the rights given for the mapping. */
  lemma ReachRights(bs: UG.Blocks, m: Maps, superpages: bool, d: nat, b: nat, n: nat)
    requires Edges(bs, m.nodes) && Exact(m.nodes, m.heads, m.hw, superpages) && Key(d, b) in m.nodes
    requires PageIn(bs, b * PAGE, n)
    ensures Reaches(m.hw, d, n) && bs[b * PAGE].ram && Seen(m.hw[d], n).value.frame == n
    ensures Seen(m.hw[d], n).value.perm == m.nodes[Key(d, b)].perm
  {
    var k := Key(d, b);
    assert EdgeAt(bs, m.nodes, k) && ApartAt(m.nodes, k, k);
    assert MappedAt(m.nodes, m.hw, superpages, k, n);
  }

  /** A block that a device reaches into has a tree of mappings, so the graph neither frees nor moves it. */
  lemma ReachedFlagged(bs: UG.Blocks, m: Maps, lists: Lists, superpages: bool, addr: nat, d: nat, n: nat)
    requires UG.Apart(bs) && Edges(bs, m.nodes) && Agree(m, lists) && Exact(m.nodes, m.heads, m.hw, superpages)
    requires PageIn(bs, addr, n) && Reaches(m.hw, d, n)
    ensures addr in Bases(m.index)
  {
    ReachExact(bs, m, superpages, d, n);
    var b: nat :| Key(d, b) in m.nodes && PageIn(bs, b * PAGE, n);
    assert UG.ApartAt(bs, addr, b * PAGE) && UG.ApartAt(bs, b * PAGE, addr);
    assert KeyAt(m.nodes, m.index, lists, Key(d, b));
  }

  /** No device reaches a page of the block. */
  ghost predicate Unreached(bs: UG.Blocks, hw: map<nat, Sl>, addr: nat) {
    forall d: nat, n: nat :: PageIn(bs, addr, n) ==> !Reaches(hw, d, n)
  }

  /** A block that left the graph is out of reach. */
  lemma GoneUnreached(was: UG.Blocks, bs: UG.Blocks, m: Maps, superpages: bool, addr: nat)
    requires UG.Apart(was) && addr in was && bs == was - {addr} && Edges(bs, m.nodes)
    requires Exact(m.nodes, m.heads, m.hw, superpages)
    ensures Unreached(was, m.hw, addr)
  {
    forall d: nat, n: nat | PageIn(was, addr, n) ensures !Reaches(m.hw, d, n) {
      ReachExact(bs, m, superpages, d, n);
      forall c: nat ensures !(Key(d, c) in m.nodes && PageIn(bs, c * PAGE, n)) {
        assert UG.ApartAt(was, addr, c * PAGE) && UG.ApartAt(was, c * PAGE, addr);
      }
    }
  }

  lemma UnflaggedUnreached(bs: UG.Blocks, m: Maps, lists: Lists, superpages: bool, addr: nat)
    requires UG.Apart(bs) && Edges(bs, m.nodes) && Agree(m, lists) && Exact(m.nodes, m.heads, m.hw, superpages)
    requires addr !in Bases(m.index)
    ensures Unreached(bs, m.hw, addr)
  {
    forall d: nat, n: nat | PageIn(bs, addr, n) ensures !Reaches(m.hw, d, n) {
      if Reaches(m.hw, d, n) { ReachedFlagged(bs, m, lists, superpages, addr, d, n); }
    }
  }

  // -------------------------------------------------------------------------
  // Reach and views
  // -------------------------------------------------------------------------

  /** Of the block at page `b`, a domain reaches all or nothing, by its own mapping alone. */
  lemma ReachOfBlock(bs: UG.Blocks, m: Maps, superpages: bool, d: nat, b: nat, n: nat)
    requires UG.Apart(bs) && Edges(bs, m.nodes) && Exact(m.nodes, m.heads, m.hw, superpages) && PageIn(bs, b * PAGE, n)
    ensures Reaches(m.hw, d, n) <==> Key(d, b) in m.nodes
  {
    ReachExact(bs, m, superpages, d, n);
    forall c: nat | PageIn(bs, c * PAGE, n) ensures c == b {
      assert UG.ApartAt(bs, b * PAGE, c * PAGE) && UG.ApartAt(bs, c * PAGE, b * PAGE);
    }
  }

  /** The process owns or views the block. */
  ghost predicate Sees(g: UG.Graph, p: nat, b: nat) {
    (p in g.owned && b in g.owned[p]) || (p in g.views && b in g.views[p])
  }

  /** Domain `d` belongs to a ring of process `p`. */
  ghost predicate For(g: UG.Graph, doms: Doms, d: nat, p: nat) {
    d in doms && doms[d].ring in g.blocks && g.blocks[doms[d].ring].owner == p
  }

  ghost predicate ConfinedAt(g: UG.Graph, doms: Doms, ns: Nodes, k: Key, p: nat) {
    k in ns && For(g, doms, k.dom, p) ==> Sees(g, p, k.base * PAGE)
  }

  /** Devices reach only blocks that the process of their domain's ring owns or views. */
  ghost predicate Confined(g: UG.Graph, doms: Doms, ns: Nodes) {
    forall k: Key, p: nat :: ConfinedAt(g, doms, ns, k, p)
  }

  /** A mapping through a view of `addr` that process `p` has. */
  ghost predicate MapsFor(g: UG.Graph, doms: Doms, ns: Nodes, k: Key, p: nat, addr: nat) {
    k in ns && k.base * PAGE == addr && For(g, doms, k.dom, p)
  }

  /** map_block for the ring's own process, which sees the block, keeps devices confined. */
  lemma MapConfined(g: UG.Graph, dma: set<nat>, doms: Doms, ns: Nodes, ns': Nodes, k: Key, p: nat)
    requires Confined(g, doms, ns) && SameBlocks(ns, ns', k) && For(g, doms, k.dom, p) && Usable(g, p, k.base * PAGE)
    ensures Confined(g.(dma := dma), doms, ns')
  {
    forall l: Key, q: nat ensures ConfinedAt(g.(dma := dma), doms, ns', l, q) { assert ConfinedAt(g, doms, ns, l, q); }
  }

  /** Ending a share leaves devices confined just when no domain of the viewer maps the block: neither
      umem_dropshare nor umem_unshare looks at the block's mappings. */
  lemma CutConfined(g: UG.Graph, doms: Doms, ns: Nodes, e: UG.Edge)
    requires Confined(g, doms, ns) && U.Cuttable(g, e) && UG.OwnedOk(g.owned, g.blocks, g.index)
    requires e.to != g.blocks[e.base].owner
    ensures Confined(UE.Revoked(g, e), doms, ns) <==> forall k: Key :: !MapsFor(g, doms, ns, k, e.to, e.base)
  {
    var g' := UE.Revoked(g, e);
    CutUnseen(g, e);
    if forall k: Key :: !MapsFor(g, doms, ns, k, e.to, e.base) {
      forall k: Key, p: nat ensures ConfinedAt(g', doms, ns, k, p) {
        assert ConfinedAt(g, doms, ns, k, p) && !MapsFor(g, doms, ns, k, e.to, e.base);
      }
    } else {
      var k: Key :| MapsFor(g, doms, ns, k, e.to, e.base);
      assert !ConfinedAt(g', doms, ns, k, e.to);
    }
  }

  lemma CutUnseen(g: UG.Graph, e: UG.Edge)
    requires U.Cuttable(g, e) && UG.OwnedOk(g.owned, g.blocks, g.index) && e.to != g.blocks[e.base].owner
    ensures !Sees(UE.Revoked(g, e), e.to, e.base)
  {
    assert UG.OwnAt(g.owned, g.blocks, e.to, e.base);
  }

  lemma ShareConfined(g: UG.Graph, g': UG.Graph, doms: Doms, ns: Nodes, e: UG.Edge, f: UG.Prot)
    requires Confined(g, doms, ns) && UE.Linkable(g, e)
    requires g' == UE.SharedTo(g, e, f).(ends := g'.ends, edges := g'.edges)
    ensures Confined(g', doms, ns)
  {
    forall k: Key, p: nat ensures ConfinedAt(g', doms, ns, k, p) { assert ConfinedAt(g, doms, ns, k, p); }
  }

  // -------------------------------------------------------------------------
  // What the steps keep
  // -------------------------------------------------------------------------

  ghost predicate StaysAt(bs: UG.Blocks, bs': UG.Blocks, b: nat) {
    b in bs ==> b in bs' && bs'[b].ram == bs[b].ram && bs'[b].bytes == bs[b].bytes
  }

  /** A step of the graph that keeps the mapped blocks keeps every edge. */
  lemma EdgesKept(bs: UG.Blocks, bs': UG.Blocks, m: Maps, lists: Lists)
    requires Edges(bs, m.nodes) && Agree(m, lists) && forall b: nat :: b in Bases(m.index) ==> StaysAt(bs, bs', b)
    ensures Edges(bs', m.nodes)
  {
    forall k: Key ensures EdgeAt(bs', m.nodes, k) {
      assert EdgeAt(bs, m.nodes, k) && KeyAt(m.nodes, m.index, lists, k);
      if k in m.nodes { assert k.base * PAGE in Bases(m.index); }
    }
  }

  lemma FreeKeeps(bs: UG.Blocks, m: Maps, lists: Lists, superpages: bool, addr: nat)
    requires UG.Apart(bs) && Edges(bs, m.nodes) && Agree(m, lists) && Exact(m.nodes, m.heads, m.hw, superpages)
    requires addr !in Bases(m.index)
    ensures Unreached(bs, m.hw, addr) && Edges(bs - {addr}, m.nodes)
  {
    UnflaggedUnreached(bs, m, lists, superpages, addr);
    EdgesKept(bs, bs - {addr}, m, lists);
  }

  lemma MovedBlocks(g: UG.Graph, addr: nat, to: nat, f: UG.Prot)
    requires UP.CanMove(g, addr, to)
    ensures UP.Moved(g, addr, to, f).blocks == g.blocks[addr := g.blocks[addr].(owner := to)]
    ensures UP.Moved(g, addr, to, f).dma == g.dma
  {
  }

  lemma MoveKeeps(bs: UG.Blocks, m: Maps, lists: Lists, superpages: bool, addr: nat, to: nat)
    requires UG.Apart(bs) && Edges(bs, m.nodes) && Agree(m, lists) && Exact(m.nodes, m.heads, m.hw, superpages)
    requires addr in bs && addr !in Bases(m.index)
    ensures var bs' := bs[addr := bs[addr].(owner := to)]; Unreached(bs', m.hw, addr) && Edges(bs', m.nodes)
  {
    var bs' := bs[addr := bs[addr].(owner := to)];
    UnflaggedUnreached(bs, m, lists, superpages, addr);
    forall d: nat, n: nat | PageIn(bs', addr, n) ensures !Reaches(m.hw, d, n) { assert PageIn(bs, addr, n); }
    EdgesKept(bs, bs', m, lists);
  }

  /** A new mapping of a whole block is an edge, and its block now has a tree. */
  lemma MapEdges(bs: UG.Blocks, m: Maps, lists: Lists, m': Maps, lists': Lists, k: Key)
    requires Edges(bs, m.nodes) && Agree(m, lists) && Agree(m', lists')
    requires m'.nodes.Keys == m.nodes.Keys + {k} && SameBlocks(m.nodes, m'.nodes, k) && EdgeAt(bs, m'.nodes, k)
    ensures Edges(bs, m'.nodes) && Bases(m'.index) == Bases(m.index) + {k.base * PAGE}
  {
    forall l: Key ensures EdgeAt(bs, m'.nodes, l) { assert EdgeAt(bs, m.nodes, l); }
    forall b: nat ensures b in m'.index <==> b in m.index || b == k.base {
      IndexExact(m, lists, b);
      IndexExact(m', lists', b);
      if b == k.base { assert Key(k.dom, b) in m'.nodes; }
      forall d: nat ensures Key(d, b) in m'.nodes <==> Key(d, b) in m.nodes || Key(d, b) == k { }
    }
    BasesMore(m.index, m'.index, k.base);
  }

  lemma BasesMore(ix: Index, ix': Index, b: nat)
    requires forall c: nat :: c in ix' <==> c in ix || c == b
    ensures Bases(ix') == Bases(ix) + {b * PAGE}
  {
    forall a: nat ensures a in Bases(ix') <==> a in Bases(ix) || a == b * PAGE {
      if a in Bases(ix') { var c :| c in ix' && a == c * PAGE; assert c in ix || c == b; }
      if a in Bases(ix) { var c :| c in ix && a == c * PAGE; assert c in ix'; }
      if a == b * PAGE { assert b in ix'; }
    }
  }

  lemma GoneEdges(bs: UG.Blocks, ns: Nodes, ns': Nodes, k: Key)
    requires Edges(bs, ns) && Gone(ns, ns', k)
    ensures Edges(bs, ns')
  {
    forall l: Key ensures EdgeAt(bs, ns', l) { assert EdgeAt(bs, ns, l); }
  }

  lemma KeptEdges(bs: UG.Blocks, ns: Nodes, ns': Nodes, ds: set<nat>)
    requires Edges(bs, ns) && KeptApart(ns, ns', ds)
    ensures Edges(bs, ns')
  {
    forall k: Key ensures EdgeAt(bs, ns', k) { assert EdgeAt(bs, ns, k) && KeptAt(ns, ns', ds, k); }
  }

  lemma BasesRam(bs: UG.Blocks, m: Maps, lists: Lists)
    requires Edges(bs, m.nodes) && Agree(m, lists)
    ensures forall a: nat :: a in Bases(m.index) ==> a in bs && bs[a].ram
  {
    forall a: nat | a in Bases(m.index) ensures a in bs && bs[a].ram {
      var b: nat :| b in m.index && a == b * PAGE;
      IndexExact(m, lists, b);
      var d: nat :| Key(d, b) in m.nodes;
      assert EdgeAt(bs, m.nodes, Key(d, b));
    }
  }

  /** The address is the base of a RAM block the process owns or views, and the block is no ring. */
  ghost predicate Usable(g: UG.Graph, p: nat, addr: nat) {
    addr + 1 < U.WORD64 && U.Contains(g, p, addr, addr, 1) && g.blocks[addr].ram && addr !in g.rings
  }

  function PagesOf(bs: UG.Blocks, addr: nat): (n: nat) {
    if addr in bs then bs[addr].bytes / PAGE else 0
  }

  // -------------------------------------------------------------------------
  // The calls
  // -------------------------------------------------------------------------

  class Machine {
    const mem: U.Memory
    const eps: Directories

    ghost predicate Valid()
      reads this, mem, eps, eps.maps
    {
      && mem.Valid() && eps.Valid()
      && Edges(mem.g.blocks, eps.maps.m.nodes) && mem.g.dma == Bases(eps.maps.m.index)
    }

    constructor (mem: U.Memory, superpages: bool)
      requires mem.Valid() && mem.g.dma == {}
      ensures Valid() && this.mem == mem && eps.doms == map[]
    {
      this.mem := mem;
      eps := new Directories(superpages);
    }

    /** The flags follow the trees of mappings. */
    method Reflag()
      requires mem.Valid() && eps.Valid() && Edges(mem.g.blocks, eps.maps.m.nodes)
      modifies mem`g
      ensures Valid() && mem.g == old(mem.g).(dma := Bases(eps.maps.m.index))
    {
      BasesRam(mem.g.blocks, eps.maps.m, eps.maps.lists);
      mem.SetDma(Bases(eps.maps.m.index));
    }

    /** The view of the address, as map_block takes it. */
    method Probe(p: nat, addr: nat) returns (usable: bool)
      requires mem.Valid() && p in mem.g.kin
      ensures usable <==> Usable(mem.g, p, addr)
      ensures usable ==> Whole(mem.g.blocks, addr)
    {
      if addr + 1 >= U.WORD64 { return false; }
      var b := mem.TheView(p, addr, 1);
      usable := b == Some(addr) && mem.g.blocks[addr].ram && addr !in mem.g.rings;
      assert U.PagedAt(mem.g.blocks, mem.g.dma, addr);
      if usable { assert UG.ApartAt(mem.g.blocks, addr, addr); }
    }

    /** KIOMMU_MAP_BLOCK; an address inside a page is no block's base. */
    method MapBlock(p: nat, ring: nat, cookie: nat, addr: nat, perm: Perm, bits: bool, room: bool, budget: nat)
      returns (s: Status)
      requires Valid() && p in mem.g.kin
      modifies mem`g, eps.maps`m, eps.maps`lists
      ensures Valid() && (!Known(eps.doms, ring, cookie) ==> s.Inval?)
      ensures mem.g == old(mem.g).(dma := if s.Ok? then old(mem.g.dma) + {addr} else old(mem.g.dma))
      ensures !s.Ok? ==> eps.maps.m.nodes == old(eps.maps.m.nodes)
      ensures addr % PAGE == 0 ==> forall d :: d in eps.doms && eps.doms[d] == Owner(ring, cookie) ==>
                MapResult(old(eps.maps.m), eps.maps.m, eps.maps.superpages, d, addr / PAGE,
                          PagesOf(old(mem.g.blocks), addr), perm, bits, old(Usable(mem.g, p, addr)), room, budget, s)
      ensures addr % PAGE != 0 && Known(eps.doms, ring, cookie) ==>
                s == if Grants(perm) && bits && old(eps.maps.m.count) == MAX_MAPPINGS then NoMem else Inval
    {
      if addr % PAGE != 0 {
        var f := eps.Lookup(ring, cookie);
        return if f.Some? && Grants(perm) && bits && eps.maps.m.count == MAX_MAPPINGS then NoMem else Inval;
      }
      var usable := Probe(p, addr);
      s := MapPages(ring, cookie, addr, perm, bits, usable, room, budget);
    }

    method MapPages(ring: nat, cookie: nat, addr: nat, perm: Perm, bits: bool, usable: bool, room: bool, budget: nat)
      returns (s: Status)
      requires Valid() && addr % PAGE == 0 && (usable ==> Whole(mem.g.blocks, addr))
      modifies mem`g, eps.maps`m, eps.maps`lists
      ensures Valid() && (!Known(eps.doms, ring, cookie) ==> s.Inval?)
      ensures mem.g == old(mem.g).(dma := if s.Ok? then old(mem.g.dma) + {addr} else old(mem.g.dma))
      ensures !s.Ok? ==> eps.maps.m.nodes == old(eps.maps.m.nodes)
      ensures forall d :: d in eps.doms && eps.doms[d] == Owner(ring, cookie) ==>
                MapResult(old(eps.maps.m), eps.maps.m, eps.maps.superpages, d, addr / PAGE,
                          PagesOf(old(mem.g.blocks), addr), perm, bits, usable, room, budget, s)
    {
      var base, pages := addr / PAGE, PagesOf(mem.g.blocks, addr);
      if usable { WholeClear(mem.g.blocks, eps.maps.m.nodes, addr); }
      ghost var m, lists := eps.maps.m, eps.maps.lists;
      s := eps.MapBlock(ring, cookie, base, pages, perm, bits, usable, room, budget);
      if s.Ok? {
        ghost var d :| d in eps.doms && eps.doms[d] == Owner(ring, cookie);
        MapDone(mem.g.blocks, m, lists, eps.maps.m, eps.maps.lists, eps.maps.superpages, d, addr, perm, bits, usable,
                room, budget);
        Reflag();
      }
    }

    /** KIOMMU_UNMAP_BLOCK. */
    method UnmapBlock(ring: nat, cookie: nat, addr: nat) returns (s: Status)
      requires Valid()
      modifies mem`g, eps.maps`m, eps.maps`lists
      ensures Valid() && mem.g == old(mem.g).(dma := mem.g.dma) && (s.Ok? || s.Inval?)
      ensures (!Known(eps.doms, ring, cookie) ==> s.Inval?)
      ensures !s.Ok? ==> mem.g == old(mem.g) && eps.maps.m == old(eps.maps.m)
      ensures forall d :: d in eps.doms && eps.doms[d] == Owner(ring, cookie) ==>
                (s.Ok? <==> addr % PAGE == 0 && Key(d, addr / PAGE) in old(eps.maps.m.nodes))
      ensures s.Ok? ==>
                exists d ::
                  d in eps.doms && eps.doms[d] == Owner(ring, cookie) &&
                  Gone(old(eps.maps.m.nodes), eps.maps.m.nodes, Key(d, addr / PAGE))
    {
      if addr % PAGE != 0 { return Inval; }
      ghost var ns := eps.maps.m.nodes;
      s := eps.UnmapBlock(ring, cookie, addr / PAGE);
      if s.Ok? {
        ghost var d :| d in eps.doms && eps.doms[d] == Owner(ring, cookie) &&
          Gone(ns, eps.maps.m.nodes, Key(d, addr / PAGE));
        GoneEdges(mem.g.blocks, ns, eps.maps.m.nodes, Key(d, addr / PAGE));
        Reflag();
      }
    }

    /** iommu_revoke_map: the owner of the block, or its reaper, ends a mapping whoever made it. */
    method RevokeMap(caller: nat, addr: nat, d: nat) returns (s: U.Status)
      requires Valid()
      modifies mem`g, eps.maps`m, eps.maps`lists
      ensures Valid() && mem.g == old(mem.g).(dma := mem.g.dma)
      ensures s == if !U.Authorized(old(mem.g), caller, addr) then U.Perm
                   else if addr % PAGE == 0 && Key(d, addr / PAGE) in old(eps.maps.m.nodes) then U.Ok else U.Inval
      ensures !s.Ok? ==> mem.g == old(mem.g) && eps.maps.m == old(eps.maps.m)
      ensures s.Ok? ==> Gone(old(eps.maps.m.nodes), eps.maps.m.nodes, Key(d, addr / PAGE))
    {
      var may := mem.MayManage(caller, addr);
      if !may { return U.Perm; }
      if addr % PAGE != 0 { return U.Inval; }
      ghost var ns := eps.maps.m.nodes;
      var r := eps.Revoke(addr / PAGE, d);
      if r.Inval? { return U.Inval; }
      GoneEdges(mem.g.blocks, ns, eps.maps.m.nodes, Key(d, addr / PAGE));
      Reflag();
      s := U.Ok;
    }

    /** iommu_endpoint_destroy: the mappings of the ring's domains go, and no others. */
    method DestroyRing(ring: nat)
      requires mem.Valid() && eps.Valid() && Edges(mem.g.blocks, eps.maps.m.nodes)
      modifies mem`g, eps`doms, eps.maps`m, eps.maps`lists
      ensures Valid() && mem.g == old(mem.g).(dma := mem.g.dma)
      ensures KeptApart(old(eps.maps.m.nodes), eps.maps.m.nodes, Of(old(eps.doms), ring))
      ensures eps.doms == old(eps.doms) - Of(old(eps.doms), ring)
    {
      ghost var ns := eps.maps.m.nodes;
      eps.DestroyRing(ring);
      KeptEdges(mem.g.blocks, ns, eps.maps.m.nodes, Of(old(eps.doms), ring));
      Reflag();
    }

    /** umem_free: refused while a device reaches the block; afterwards none does.  The domains of a
        ring in the block go with it. */
    method Free(t: nat, addr: nat, destroyable: bool) returns (s: U.Status)
      requires Valid() && t in mem.g.threads
      modifies mem`g, eps`doms, eps.maps`m, eps.maps`lists
      ensures Valid()
      ensures !s.Ok? ==> mem.g == old(mem.g) && eps.maps.m == old(eps.maps.m) && eps.doms == old(eps.doms)
      ensures s.Ok? ==> old(Unreached(mem.g.blocks, eps.maps.m.hw, addr))
      ensures s.Ok? ==>
                addr in old(mem.g.blocks) && mem.g.blocks == old(mem.g.blocks) - {addr} &&
                eps.doms == old(eps.doms) - Of(old(eps.doms), addr)
      ensures s.Ok? ==> Unreached(old(mem.g.blocks), eps.maps.m.hw, addr)
    {
      ghost var bs := mem.g.blocks;
      s := mem.Free(t, addr, destroyable);
      if s.Ok? {
        FreeKeeps(bs, eps.maps.m, eps.maps.lists, eps.maps.superpages, addr);
        DestroyRing(addr);
        GoneUnreached(bs, mem.g.blocks, eps.maps.m, eps.maps.superpages, addr);
      }
    }

    /** The map call as a ring's process submits it: devices stay confined. */
    method MapOwn(p: nat, ring: nat, cookie: nat, addr: nat, perm: Perm, room: bool, budget: nat) returns (s: Status)
      requires Valid() && p in mem.g.kin && ring in mem.g.blocks && mem.g.blocks[ring].owner == p
      modifies mem`g, eps.maps`m, eps.maps`lists
      ensures Valid() && mem.g == old(mem.g).(dma := mem.g.dma)
      ensures old(Confined(mem.g, eps.doms, eps.maps.m.nodes)) ==> Confined(mem.g, eps.doms, eps.maps.m.nodes)
      ensures s.Ok? ==> addr in mem.g.blocks && exists k: Key :: MapsFor(mem.g, eps.doms, eps.maps.m.nodes, k, p, addr)
    {
      ghost var g, m := mem.g, eps.maps.m;
      s := MapBlock(p, ring, cookie, addr, perm, true, room, budget);
      if s.Ok? {
        ghost var d :| d in eps.doms && eps.doms[d] == Owner(ring, cookie);
        OwnMapped(g, eps.doms, m, eps.maps.m, eps.maps.superpages, p, d, addr, perm, room, budget);
      }
    }

    /** umem_share keeps devices confined. */
    method Share(t: nat, addr: nat, pid: nat, prot: UG.Prot, room: bool, posted: bool) returns (s: U.Status)
      requires Valid() && t in mem.g.threads
      modifies mem`g, mem`lists
      ensures Valid() && (!s.Ok? ==> mem.g == old(mem.g))
      ensures (s.Ok? ==> UG.Edge(addr, pid) in mem.g.edges && Sees(mem.g, pid, addr))
      ensures old(Confined(mem.g, eps.doms, eps.maps.m.nodes)) ==> Confined(mem.g, eps.doms, eps.maps.m.nodes)
    {
      ghost var g := mem.g;
      s := mem.Share(t, addr, pid, prot, room, posted);
      if s.Ok? && Confined(g, eps.doms, eps.maps.m.nodes) {
        ShareConfined(g, mem.g, eps.doms, eps.maps.m.nodes, UG.Edge(addr, pid), U.ShareFlags(g.blocks[addr], prot));
      }
    }

    /** The failure, from any state: a process maps a block it views, and the owner ends the share. Devices of the
        process then reach every page of a block it does not see. */
    method Outlive(p: nat, ring: nat, cookie: nat, addr: nat, perm: Perm, room: bool, budget: nat, t: nat)
      returns (s: Status, r: U.Status)
      requires Valid() && p in mem.g.kin && ring in mem.g.blocks && mem.g.blocks[ring].owner == p
      requires UG.Edge(addr, p) in mem.g.edges && t in mem.g.threads && U.Authorized(mem.g, mem.g.threads[t].proc, addr)
      modifies mem`g, mem`lists, eps.maps`m, eps.maps`lists
      ensures Valid() && r.Ok? && !Sees(mem.g, p, addr)
      ensures s.Ok? ==> Outreach(mem.g, eps.doms, eps.maps.m, p, addr)
    {
      s := MapOwn(p, ring, cookie, addr, perm, room, budget);
      ghost var g := mem.g;
      r := Unshare(t, addr, p);
      if s.Ok? { ReachStays(g, mem.g, eps.doms, eps.maps.m, p, addr); }
    }

    /** umem_unshare: the view goes, the reach of the viewer's devices stays as their mappings have it. */
    method Unshare(t: nat, addr: nat, pid: nat) returns (s: U.Status)
      requires Valid() && t in mem.g.threads
      modifies mem`g, mem`lists
      ensures Valid() && (!s.Ok? ==> mem.g == old(mem.g))
      ensures s == if !U.Authorized(old(mem.g), old(mem.g.threads[t].proc), addr) then U.Perm
                   else if pid !in old(mem.g.kin) || UG.Edge(addr, pid) !in old(mem.g.edges) then U.Inval else U.Ok
      ensures s.Ok? ==> Unviewed(old(mem.g), mem.g, eps.doms, eps.maps.m, pid, addr)
    {
      s := mem.Unshare(t, addr, pid);
      if s.Ok? {
        CutReach(old(mem.g), old(mem.lists), mem.g, eps.doms, eps.maps.m, eps.maps.superpages, UG.Edge(addr, pid));
      }
    }

    /** umem_dropshare: the same, from the viewer's side. */
    method DropShare(t: nat, addr: nat, pid: nat) returns (s: U.Status)
      requires Valid() && t in mem.g.threads
      modifies mem`g, mem`lists
      ensures Valid() && (!s.Ok? ==> mem.g == old(mem.g))
      ensures s.Ok? ==>
                Unviewed(old(mem.g), mem.g, eps.doms, eps.maps.m, if pid == 0 then old(mem.g.threads[t].proc)
                         else pid, addr)
    {
      ghost var to := if pid == 0 then mem.g.threads[t].proc else pid;
      s := mem.DropShare(t, addr, pid);
      if s.Ok? {
        CutReach(old(mem.g), old(mem.lists), mem.g, eps.doms, eps.maps.m, eps.maps.superpages, UG.Edge(addr, to));
      }
    }

    /** umem_move: only a block that no device reaches moves. */
    method Move(t: nat, addr: nat, pid: nat) returns (s: U.Status)
      requires Valid() && t in mem.g.threads
      modifies mem`g, mem`lists
      ensures Valid() && s == U.MoveStatus(old(mem.g), old(mem.g.threads[t].proc), addr, pid)
      ensures !s.Ok? ==> mem.g == old(mem.g)
      ensures s.Ok? ==> Unreached(mem.g.blocks, eps.maps.m.hw, addr)
    {
      ghost var g := mem.g;
      s := mem.Move(t, addr, pid);
      if s.Ok? {
        MovedBlocks(g, addr, pid, U.OwnerFlags(g.blocks[addr]));
        MoveKeeps(g.blocks, eps.maps.m, eps.maps.lists, eps.maps.superpages, addr, pid);
      }
      assert Edges(mem.g.blocks, eps.maps.m.nodes) && mem.g.dma == g.dma;
    }
  }

  /** The process sees the block no more; every domain reaches it as before, and devices are confined just when
      no domain of the process maps it. */
  ghost predicate Unviewed(g: UG.Graph, g': UG.Graph, doms: Doms, m: Maps, p: nat, addr: nat) {
    && !Sees(g', p, addr) && g'.blocks == g.blocks
    && (forall d: nat, b: nat, n: nat :: b * PAGE == addr && PageIn(g'.blocks, addr, n) ==>
          (Reaches(m.hw, d, n) <==> Key(d, b) in m.nodes))
    && (Confined(g, doms, m.nodes) ==>
          (Confined(g', doms, m.nodes) <==> forall k: Key :: !MapsFor(g, doms, m.nodes, k, p, addr)))
  }

  lemma OwnMapped(g: UG.Graph, doms: Doms, m: Maps, m': Maps, superpages: bool, p: nat, d: nat, addr: nat, perm: Perm,
                  room: bool, budget: nat)
    requires addr % PAGE == 0 && For(g, doms, d, p)
    requires MapResult(m, m', superpages, d, addr / PAGE, PagesOf(g.blocks, addr), perm, true, Usable(g, p, addr),
                       room, budget, Ok)
    ensures var g' := g.(dma := g.dma + {addr});
            && addr in g.blocks && MapsFor(g', doms, m'.nodes, Key(d, addr / PAGE), p, addr)
            && (Confined(g, doms, m.nodes) ==> Confined(g', doms, m'.nodes))
  {
    if Confined(g, doms, m.nodes) { MapConfined(g, g.dma + {addr}, doms, m.nodes, m'.nodes, Key(d, addr / PAGE), p); }
  }

  /** Devices of a domain of the process reach all pages of a block that it does not see. */
  ghost predicate Outreach(g: UG.Graph, doms: Doms, m: Maps, p: nat, addr: nat) {
    !Sees(g, p, addr) && exists d: nat :: For(g, doms, d, p) && forall n: nat :: PageIn(g.blocks, addr, n) ==>
        Reaches(m.hw, d, n)
  }

  lemma ReachStays(g: UG.Graph, g': UG.Graph, doms: Doms, m: Maps, p: nat, addr: nat)
    requires Unviewed(g, g', doms, m, p, addr) && exists k: Key :: MapsFor(g, doms, m.nodes, k, p, addr)
    ensures Outreach(g', doms, m, p, addr)
  {
    var k: Key :| MapsFor(g, doms, m.nodes, k, p, addr);
    assert k == Key(k.dom, k.base) && For(g', doms, k.dom, p);
  }

  lemma CutReach(g: UG.Graph, lists: UG.Lists, g': UG.Graph, doms: Doms, m: Maps, superpages: bool, e: UG.Edge)
    requires UG.Good(g, lists) && U.Cuttable(g, e) && g' == UE.Revoked(g, e)
    requires Edges(g.blocks, m.nodes) && Exact(m.nodes, m.heads, m.hw, superpages)
    ensures Unviewed(g, g', doms, m, e.to, e.base)
  {
    UE.EdgeReady(g, lists, e);
    CutUnseen(g, e);
    forall d: nat, b: nat, n: nat | b * PAGE == e.base && PageIn(g'.blocks, e.base, n)
      ensures Reaches(m.hw, d, n) <==> Key(d, b) in m.nodes
    {
      ReachOfBlock(g.blocks, m, superpages, d, b, n);
    }
    if Confined(g, doms, m.nodes) { CutConfined(g, doms, m.nodes, e); }
  }

  /** A RAM block at a page boundary that is whole pages. */
  ghost predicate Whole(bs: UG.Blocks, addr: nat) {
    addr in bs && bs[addr].ram && PagesOf(bs, addr) > 0 && (addr / PAGE) * PAGE == addr &&
    PagesOf(bs, addr) * PAGE == bs[addr].bytes
  }

  lemma MapDone(bs: UG.Blocks, m: Maps, lists: Lists, m': Maps, lists': Lists, superpages: bool, d: nat, addr: nat,
                perm: Perm, bits: bool, usable: bool, room: bool, budget: nat)
    requires Edges(bs, m.nodes) && Agree(m, lists) && Agree(m', lists') && (usable ==> Whole(bs, addr))
    requires MapResult(m, m', superpages, d, addr / PAGE, PagesOf(bs, addr), perm, bits, usable, room, budget, Ok)
    ensures Edges(bs, m'.nodes) && Bases(m'.index) == Bases(m.index) + {addr}
  {
    MapEdges(bs, m, lists, m', lists', Key(d, addr / PAGE));
  }

  lemma WholeClear(bs: UG.Blocks, ns: Nodes, addr: nat)
    requires UG.Apart(bs) && Edges(bs, ns) && Whole(bs, addr)
    ensures var base, pages := addr / PAGE, PagesOf(bs, addr);
            forall d: nat :: Key(d, base) !in ns ==> Clear(ns, d, base, pages)
  {
    var base, pages := addr / PAGE, PagesOf(bs, addr);
    forall d: nat | Key(d, base) !in ns ensures Clear(ns, d, base, pages) {
      BlockClear(bs, ns, d, base, pages);
    }
  }
}
