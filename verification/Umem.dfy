/** umem.c with the parts of process.c, channel.c and schemes/shares.c that change
    the ownership graph.  Every method is one critical section, under g_umem or, where only one
    process's lists matter, under its list lock; umem_alloc, which flags before it locks, is two.
    Process creation is taken as one step; UmemBirth has its sections. */
module Umem {
  import opened Arith
  import opened UmemGraph
  import opened UmemSteps
  import opened UmemEdges
  import opened UmemProcs
  import opened Seqs

  const PAGE: nat := 4096
  const WORD64: nat := 0x1_0000_0000_0000_0000
  const INIT: nat := 1

  datatype Status = Ok | Inval | Perm | Exist | NoMem | Again | More | Fault

  /** The smallest buddy order, from `o` on, that holds `n` pages. */
  function OrderFrom(o: nat, n: nat): (r: nat)
    ensures o <= r && n <= Pow2(r) && (r > o ==> Pow2(r - 1) < n)
    decreases n - Pow2(o)
  {
    if Pow2(o) < n then OrderFrom(o + 1, n) else o
  }

  /** Bytes of the block that an allocation of `len` bytes gets: the least power of two of pages. */
  function BlockBytes(len: nat): (n: nat)
    ensures len <= n
  {
    PAGE * Pow2(OrderFrom(0, (len + PAGE - 1) / PAGE))
  }

  ghost predicate PagedAt(bs: Blocks, dma: set<nat>, b: nat) {
    && (b in bs && bs[b].ram ==> b % PAGE == 0 && bs[b].bytes % PAGE == 0)
    && (b in dma ==> b in bs && bs[b].ram)
  }

  ghost predicate FlightPagedAt(fl: Flights, t: nat) {
    t in fl ==> fl[t].base % PAGE == 0 && fl[t].bytes % PAGE == 0
  }

  /** RAM blocks are whole pages, and only they are mapped for devices. */
  ghost predicate Paged(g: Graph) {
    (forall b: nat :: PagedAt(g.blocks, g.dma, b)) && (forall t: nat :: FlightPagedAt(g.flight, t))
  }

  lemma FlownPaged(g: Graph, t: nat, f: Flight)
    requires Paged(g) && f.proc in g.trees && f.base % PAGE == 0 && f.bytes % PAGE == 0
    ensures Paged(Flown(g, t, f))
  {
    forall u: nat ensures FlightPagedAt(Flown(g, t, f).flight, u) { assert FlightPagedAt(g.flight, u); }
  }

  lemma LandPaged(g: Graph, t: nat)
    requires Paged(g) && t in g.flight && g.flight[t].proc in g.owned
    ensures Paged(Landed(g, t))
  {
    var g' := Landed(g, t);
    assert FlightPagedAt(g.flight, t);
    forall b: nat ensures PagedAt(g'.blocks, g'.dma, b) { assert PagedAt(g.blocks, g.dma, b); }
    forall u: nat ensures FlightPagedAt(g'.flight, u) { assert FlightPagedAt(g.flight, u); }
  }

  /** Blocks other than `base` are as they were, and `base` is not a RAM block or keeps its size. */
  lemma BlockPaged(g: Graph, g': Graph, base: nat)
    requires Paged(g) && g'.flight == g.flight && g'.dma == g.dma
    requires forall b: nat :: b != base ==> (b in g'.blocks <==> b in g.blocks)
    requires forall b: nat :: b != base && b in g.blocks ==> g'.blocks[b] == g.blocks[b]
    requires base in g'.blocks && g'.blocks[base].ram ==>
               base in g.blocks && g.blocks[base].ram && g'.blocks[base].bytes == g.blocks[base].bytes
    requires base in g.dma ==> base in g'.blocks && g'.blocks[base].ram
    ensures Paged(g')
  {
    forall b: nat ensures PagedAt(g'.blocks, g'.dma, b) { assert PagedAt(g.blocks, g.dma, b); }
  }

  lemma WholePages(n: nat)
    ensures (PAGE * n) % PAGE == 0
  {
    DivUnique(PAGE * n, n, 0, PAGE);
  }

  /** Largest element of `s` not above `a`: the tree's floor query. */
  method Floor(s: set<nat>, a: nat) returns (r: Option<nat>)
    ensures IsFloor(s, a, r)
  {
    r := None;
    var rest, done := s, {};
    while rest != {}
      invariant done + rest == s && IsFloor(done, a, r)
      decreases |rest|
    {
      var b :| b in rest;
      rest, done := rest - {b}, done + {b};
      if b <= a && (r.None? || r.value < b) { r := Some(b); }
    }
  }

  ghost predicate IsFloor(s: set<nat>, a: nat, r: Option<nat>) {
    && (r.Some? ==> r.value in s && r.value <= a)
    && forall b :: b in s && b <= a ==> r.Some? && b <= r.value
  }

  class Memory {
    var g: Graph
    ghost var lists: Lists
    var nextPid: nat
    var nextTid: nat

    /** Every group of indexes agrees, and identifiers are not reused. */
    ghost predicate Valid()
      reads this
    {
      && Good(g, lists) && Paged(g)
      && (forall p: nat :: p in g.kin ==> p < nextPid) && (forall t: nat :: t in g.threads ==> t < nextTid)
    }

    /** umem_view_locked: two floor queries find exactly the block that contains the range. */
    method View(p: nat, addr: nat, len: nat) returns (r: Option<nat>)
      requires Valid() && p in g.kin
      ensures r.Some? ==> Contains(g, p, r.value, addr, len)
      ensures r.Some? <==> len != 0 && addr + len < WORD64 && exists b: nat :: Contains(g, p, b, addr, len)
    {
      if len == 0 || addr + len >= WORD64 { return None; }
      assert ProcAt(g.kin, g.owned, g.views, g.threads, g.trees, p);
      var o := Floor(g.owned[p], addr);
      if o.Some? { assert OwnAt(g.owned, g.blocks, p, o.value); }
      if o.Some? && addr + len <= o.value + g.blocks[o.value].bytes {
        assert Contains(g, p, o.value, addr, len);
        return o;
      }
      var v := Floor(g.views[p].Keys, addr);
      if v.Some? {
        assert ViewAt(g.views, g.edges, p, v.value) && SharerAt(g.views, g.blocks, g.edges, Edge(v.value, p));
      }
      if v.Some? && addr + len <= v.value + g.blocks[v.value].bytes {
        assert Contains(g, p, v.value, addr, len);
        return v;
      }
      forall b: nat | Contains(g, p, b, addr, len) ensures false {
        if b in g.owned[p] {
          FloorContains(g.blocks, g.owned[p], addr, len, o, b);
        } else {
          FloorContains(g.blocks, g.views[p].Keys, addr, len, v, b);
        }
      }
      return None;
    }

    /** The only block that contains the range, if one does. */
    method TheView(p: nat, addr: nat, len: nat) returns (r: Option<nat>)
      requires Valid() && p in g.kin && len != 0 && addr + len < WORD64
      ensures r.Some? ==> Contains(g, p, r.value, addr, len)
      ensures forall c: nat :: Contains(g, p, c, addr, len) ==> r == Some(c)
    {
      r := View(p, addr, len);
      if r.Some? {
        forall c: nat | Contains(g, p, c, addr, len)
          ensures c == r.value
        {
          OneContains(g, lists, p, r.value, c, addr, len);
        }
      }
    }

    // -----------------------------------------------------------------------
    // Blocks
    // -----------------------------------------------------------------------

    /** The order loop of umem_alloc. */
    static method OrderOf(n: nat) returns (o: nat)
      ensures o == OrderFrom(0, n)
    {
      o := 0;
      while Pow2(o) < n
        invariant OrderFrom(o, n) == OrderFrom(0, n)
        decreases n - Pow2(o)
      {
        o := o + 1;
      }
    }

    /** umem_alloc by thread `t` up to as_flag, with no lock held; the buddy allocator gave `base`, or nothing. */
    method AllocFlag(t: nat, len: nat, prot: Prot, base: nat, got: bool, room: bool) returns (ok: bool)
      requires Valid() && t in g.threads && t !in g.flight && base % PAGE == 0
      requires got && len != 0 ==> Unused(g, base, BlockBytes(len))
      modifies this`g
      ensures Valid() && (ok <==> len != 0 && got && room)
      ensures !ok ==> g == old(g)
      ensures ok ==> old(g.threads[t].proc) in old(g.trees) &&
                     g == Flown(old(g), t, Flight(old(g.threads[t].proc), base, BlockBytes(len), prot + {U}))
      ensures ok ==>
                var p, hi := old(g.threads[t].proc), base + BlockBytes(len);
                OnlyOver(old(g), g, p, base, hi) && OpensOver(g, p, base, hi, RAM, prot)
    {
      if len == 0 { return false; }
      var o := OrderOf((len + PAGE - 1) / PAGE);
      if !got || !room { return false; }
      var p := g.threads[t].proc;
      HasTree(g.kin, g.owned, g.views, g.threads, g.trees, p);
      var f := Flight(p, base, PAGE * Pow2(o), prot + {U});
      WholePages(Pow2(o));
      FlownRights(g, t, f, prot);
      Fly(t, f);
      ok := true;
    }

    method Fly(t: nat, f: Flight)
      requires Valid() && t in g.threads && t !in g.flight && f.proc == g.threads[t].proc && f.proc in g.trees
      requires f.base % PAGE == 0 && f.bytes % PAGE == 0 && Unused(g, f.base, f.bytes)
      modifies this`g
      ensures Valid() && g == Flown(old(g), t, f)
    {
      FlownGood(g, lists, t, f);
      FlownPaged(g, t, f);
      g := Flown(g, t, f);
    }

    /** The rest of umem_alloc: the block enters both indexes, mapped as it was flagged. */
    method AllocPublish(t: nat) returns (base: nat)
      requires Valid() && t in g.flight
      modifies this`g
      ensures Valid() && base == old(g.flight[t].base) && base !in old(g.blocks) && base in g.blocks && t !in g.flight
      ensures old(g.flight[t].proc in g.owned) && g == Landed(old(g), t)
      ensures var f := old(g.flight[t]);
              g == old(g).(owned := g.owned, index := g.index, pins := g.pins, flight := old(g.flight) - {t},
                           blocks := old(g.blocks)[base := Block(f.bytes, true, f.proc, true, {R, W, X}, {})])
      ensures var f := old(g.flight[t]);
              f.proc in g.trees && forall a: nat :: Over(f, a) ==> g.trees[f.proc](a) == f.prot
    {
      base := g.flight[t].base;
      LandGood(g, lists, t);
      LandPaged(g, t);
      g := Landed(g, t);
    }

    /** Blocks get their first device mapping, or lose their last. */
    method SetDma(dma: set<nat>)
      requires Valid() && forall b: nat :: b in dma ==> b in g.blocks && g.blocks[b].ram
      modifies this`g
      ensures Valid() && g == old(g).(dma := dma)
    {
      g := g.(dma := dma);
      forall b: nat ensures PagedAt(g.blocks, g.dma, b) { assert PagedAt(old(g.blocks), old(g.dma), b); }
    }

    /** resource_authorized on the owner of the block that the global index finds. */
    method MayManage(caller: nat, base: nat) returns (may: bool)
      requires Valid()
      ensures may <==> Authorized(g, caller, base)
    {
      if base !in g.index { return false; }
      assert OwnerAt(g.owned, g.blocks, g.index, base);
      var owner := g.blocks[base].owner;
      may := caller == owner || Walk(g.kin, caller, owner);
    }

    /** umem_free: a bounded transaction that fails while anything is attached. */
    method Free(t: nat, base: nat, destroyable: bool) returns (s: Status)
      requires Valid() && t in g.threads
      modifies this`g
      ensures Valid()
      ensures s == if !Authorized(old(g), old(g.threads[t].proc), base) then Perm
                   else if base in old(g.dma) || !Loose(old(g), base) || !Private(g.edges, base) || !destroyable
                     then Exist else Ok
      ensures !s.Ok? ==> g == old(g)
      ensures s.Ok? ==>
                base in old(g.blocks) && old(g.blocks)[base].owner in old(g.owned) &&
                old(g.blocks)[base].owner in old(g.trees)
      ensures s.Ok? ==> g == Removed(old(g), base) && Restored(g, old(g.blocks), base)
      ensures s.Ok? ==> var x := old(g.blocks)[base]; OnlyOver(old(g), g, x.owner, base, base + x.bytes)
      ensures s.Ok? ==> g == old(g).(trees := g.trees, owned := g.owned, index := g.index, pins := g.pins,
                                     blocks := old(g.blocks) - {base}, rings := old(g.rings) - {base})
    {
      s := FreeCheck(t, base, destroyable);
      if s.Ok? {
        OwnerLive(g, lists, base);
        FreeGood(g, lists, base);
        g := Removed(g, base);
      }
    }

    /** The refusals of umem_free and free_locked. */
    method FreeCheck(t: nat, base: nat, destroyable: bool) returns (s: Status)
      requires Valid() && t in g.threads
      ensures s == if !Authorized(g, g.threads[t].proc, base) then Perm
                   else if base in g.dma || !Loose(g, base) || !Private(g.edges, base) || !destroyable then Exist
                   else Ok
    {
      var may := MayManage(g.threads[t].proc, base);
      if !may { return Perm; }
      OwnerLive(g, lists, base);
      if base in g.dma || g.pins[base] != 0 || !destroyable { return Exist; }
      if exists e :: e in g.edges && e.base == base { return Exist; }
      s := Ok;
    }

    /** umem_map_device_locked; the platform check gave `valid`, the range's kernel flags and delegatability. */
    method MapDevice(t: nat, base: nat, bytes: nat, valid: bool, kernel: Prot, device: Prot, delegatable: bool,
                     room: bool)
      returns (s: Status)
      requires Valid() && t in g.threads
      requires valid ==> bytes > 0 && NoRam(g.ram, base, bytes) && U !in kernel
      modifies this`g
      ensures Valid()
      ensures s == if !valid then Inval else if DeviceMeets(old(g.blocks), base, bytes) then Exist
        else if !room then NoMem else Ok
      ensures s.Inval? || s.Exist? ==> g == old(g)
      ensures s.NoMem? ==> g == Aliased(old(g), base, bytes, kernel)
      ensures s.NoMem? ==> Shown(old(g), g, None, base, bytes, kernel, device)
      ensures s.Ok? ==>
                DeviceAdded(old(g), base, Block(bytes, false, old(g.threads[t].proc), delegatable, kernel, device), g)
      ensures s.Ok? ==> Shown(old(g), g, Some(old(g.threads[t].proc)), base, bytes, kernel, device)
      ensures s.Ok? ==>
                var x := Block(bytes, false, old(g.threads[t].proc), delegatable, kernel, device);
                g == old(g).(kernel := g.kernel, trees := g.trees, owned := g.owned, index := g.index, pins := g.pins,
                             blocks := old(g.blocks)[base := x])
    {
      if !valid { return Inval; }
      var met := Meets(base, bytes);
      if met { return Exist; }
      DeviceClear(g, lists, base, bytes);
      HasTree(g.kin, g.owned, g.views, g.threads, g.trees, g.threads[t].proc);
      s := Expose(base, Block(bytes, false, g.threads[t].proc, delegatable, kernel, device), room);
    }

    /** A device block overlaps the range. */
    method Meets(base: nat, bytes: nat) returns (met: bool)
      ensures met <==> DeviceMeets(g.blocks, base, bytes)
    {
      met := exists b :: b in g.blocks && !g.blocks[b].ram && base < b + g.blocks[b].bytes && b < base + bytes;
    }

    /** The alias in every tree, then the block with its owner's mapping. */
    method Expose(base: nat, x: Block, room: bool) returns (s: Status)
      requires Valid() && Clear(g.blocks, base, x.bytes) && NoRam(g.ram, base, x.bytes) && U !in x.kernel
      requires !x.ram && x.owner in g.trees && x.owner in g.owned
      modifies this`g
      ensures Valid() && s == if room then Ok else NoMem
      ensures s.NoMem? ==> g == Aliased(old(g), base, x.bytes, x.kernel)
      ensures s.NoMem? ==> Shown(old(g), g, None, base, x.bytes, x.kernel, x.device)
      ensures s.Ok? ==> DeviceAdded(old(g), base, x, g)
      ensures s.Ok? ==> Shown(old(g), g, Some(x.owner), base, x.bytes, x.kernel, x.device)
    {
      AliasShown(g, base, x.bytes, x.kernel, x.device);
      Alias(base, x.bytes, x.kernel);
      if !room { return NoMem; }
      AddDevice(x.owner, base, x, x.device + {U});
      DeviceShown(old(g), base, x, g);
      s := Ok;
    }

    /** as_flag_all: the kernel's tree and every process's. */
    method Alias(base: nat, bytes: nat, kernel: Prot)
      requires Valid() && Clear(g.blocks, base, bytes) && NoRam(g.ram, base, bytes) && U !in kernel
      modifies this`g
      ensures Valid() && g == Aliased(old(g), base, bytes, kernel)
      ensures Uniform(g.kernel, g.ram, base, bytes, kernel, false)
    {
      AliasGood(g, lists, base, bytes, kernel);
      g := Aliased(g, base, bytes, kernel);
    }

    /** The device block enters its owner's tree and the global index. */
    method AddDevice(p: nat, base: nat, x: Block, f: Prot)
      requires Valid() && p in g.trees && x.owner == p && !x.ram && Clear(g.blocks, base, x.bytes)
      requires Uniform(g.kernel, g.ram, base, x.bytes, x.kernel, false)
      modifies this`g
      ensures Valid() && p in old(g.owned) && g == Inserted(old(g), p, base, x, f)
    {
      forall a: nat | base <= a < base + x.bytes ensures !AnyAloft(g.flight, a) {
        assert UniformAt(g.kernel, g.ram, base, x.bytes, x.kernel, false, a);
        if AnyAloft(g.flight, a) { RamAloft(g, a); }
      }
      InsertGood(g, lists, p, base, x, f);
      assert PagedAt(g.blocks, g.dma, base);
      BlockPaged(g, Inserted(g, p, base, x, f), base);
      g := Inserted(g, p, base, x, f);
    }

    /** umem_protect: re-flags a page range inside one unpinned block that is no ring. */
    method Protect(p: nat, base: nat, len: nat, prot: Prot) returns (ok: bool, ghost block: nat)
      requires Valid() && p in g.kin && p in g.trees
      modifies this`g
      ensures Valid()
      ensures ok <==> RangeOk(base, len) && CanProtect(old(g), p, base, len, prot)
      ensures !ok ==> g == old(g)
      ensures ok ==>
                Contains(old(g), p, block, base, len) &&
                g == Reflagged(old(g), p, base, base + len, ViewFlags(old(g.blocks)[block], prot))
      ensures ok ==> OnlyOver(old(g), g, p, base, base + len)
      ensures ok && prot == {} ==> GuardsOver(g, p, base, base + len, old(g.blocks)[block])
      ensures ok && prot != {} ==> OpensOver(g, p, base, base + len, old(g.blocks)[block], prot)
    {
      ok, block := false, 0;
      if base % PAGE != 0 || len == 0 || len % PAGE != 0 || base + len >= WORD64 { return; }
      ok, block := ProtectRange(p, base, len, prot);
      if ok { ViewRights(old(g), g, p, base, base + len, old(g.blocks)[block], prot); }
    }

    method ProtectRange(p: nat, base: nat, len: nat, prot: Prot) returns (ok: bool, ghost block: nat)
      requires Valid() && p in g.kin && p in g.trees && len != 0 && base + len < WORD64
      modifies this`g
      ensures Valid() && (ok <==> CanProtect(old(g), p, base, len, prot))
      ensures !ok ==> g == old(g)
      ensures ok ==>
                Contains(old(g), p, block, base, len) &&
                g == Reflagged(old(g), p, base, base + len, ViewFlags(old(g.blocks)[block], prot))
    {
      ok, block := false, 0;
      var r := Protectable(p, base, len, prot);
      if r.None? { return; }
      Reflag(p, r.value, base, len, prot);
      ok, block := true, r.value;
    }

    /** The block whose mapping may change, if there is one. */
    method Protectable(p: nat, base: nat, len: nat, prot: Prot) returns (r: Option<nat>)
      requires Valid() && p in g.kin && len != 0 && base + len < WORD64
      ensures r.Some? <==> CanProtect(g, p, base, len, prot)
      ensures r.Some? ==> Contains(g, p, r.value, base, len) && Allows(g, r.value, prot)
    {
      r := TheView(p, base, len);
      if r.Some? {
        var b := r.value;
        ProtectThe(g, p, base, len, prot, b);
        OwnerLive(g, lists, b);
        if g.pins[b] != 0 || b in g.rings { return None; }
        var x := g.blocks[b];
        if !x.ram && (!(prot <= x.device) || X in prot) { return None; }
      }
    }

    method Reflag(p: nat, b: nat, base: nat, len: nat, prot: Prot)
      requires Valid() && p in g.trees && Contains(g, p, b, base, len) && Loose(g, b)
      modifies this`g
      ensures Valid() && g == Reflagged(old(g), p, base, base + len, ViewFlags(old(g.blocks)[b], prot))
    {
      var view := MappingOf(g.blocks[b], prot);
      SetFlags(p, b, base, base + len, view);
    }

    static method MappingOf(x: Block, prot: Prot) returns (view: Prot)
      ensures view == ViewFlags(x, prot)
    {
      view := if prot == {} then {} else prot + {U};
      if !x.ram { view := view + x.device * CACHE; }
      assert view == ViewFlags(x, prot);
    }

    method SetFlags(p: nat, b: nat, lo: nat, hi: nat, f: Prot)
      requires Valid() && p in g.trees && b in g.blocks && b <= lo && hi <= b + g.blocks[b].bytes && Loose(g, b)
      requires (p in g.owned && b in g.owned[p]) || (p in g.views && b in g.views[p])
      modifies this`g
      ensures Valid() && g == Reflagged(old(g), p, lo, hi, f)
    {
      ProtectGood(g, lists, p, b, lo, hi, f);
      g := Reflagged(g, p, lo, hi, f);
    }

    // -----------------------------------------------------------------------
    // Edges
    // -----------------------------------------------------------------------

    /** umem_share; `posted`: the target has a shares channel and its event was posted at once. */
    method Share(t: nat, base: nat, pid: nat, prot: Prot, room: bool, posted: bool) returns (s: Status)
      requires Valid() && t in g.threads
      modifies this`g, this`lists
      ensures Valid()
      ensures s == if !room then NoMem else if !Sharable(old(g), old(g.threads[t].proc), base, pid, prot) then Inval
                   else if Edge(base, pid) in old(g.edges) then Exist else Ok
      ensures !s.Ok? ==> g == old(g) && lists == old(lists)
      ensures s.Ok? ==> Edge(base, pid) in g.edges && g.edges[Edge(base, pid)].notified == posted
      ensures s.Ok? ==> pid in g.views && base in g.views[pid] && g.views[pid][base] == Edge(base, pid)
      ensures s.Ok? ==> forall e: Edge :: e in g.edges <==> e in old(g.edges) || e == Edge(base, pid)
      ensures s.Ok? ==> forall e: Edge :: e in old(g.edges) ==> g.edges[e].notified == old(g.edges)[e].notified
      ensures s.Ok? ==> Linkable(old(g), Edge(base, pid)) &&
                        g == SharedTo(old(g), Edge(base, pid), ShareFlags(old(g.blocks)[base], prot)).(ends := g.ends,
                                                                                                       edges := g.edges)
      ensures s.Ok? ==> OnlyOver(old(g), g, pid, base, base + old(g.blocks)[base].bytes) &&
                        OpensOver(g, pid, base, base + old(g.blocks)[base].bytes, old(g.blocks)[base], prot)
    {
      if !room { return NoMem; }
      s := ShareCheck(t, base, pid, prot);
      if !s.Ok? { return; }
      var e := Edge(base, pid);
      if e in g.edges { return Exist; }
      Offer(e, prot, posted);
      ShareRights(old(g), g, e, prot);
    }

    /** The edge is made with the target's flags and announced if it can be. */
    method Offer(e: Edge, prot: Prot, posted: bool)
      requires Valid() && CanShare(g, e)
      modifies this`g, this`lists
      ensures Valid() && (forall d: Edge :: d in g.edges <==> d in old(g.edges) || d == e)
      ensures e in g.edges && g.edges[e].notified == posted && e.to in g.views && e.base in g.views[e.to]
      ensures g.views[e.to][e.base] == e && Linkable(old(g), e)
      ensures g == SharedTo(old(g), e, ShareFlags(old(g.blocks)[e.base], prot)).(ends := g.ends, edges := g.edges)
      ensures forall d: Edge :: d in old(g.edges) ==> g.edges[d].notified == old(g.edges)[d].notified
    {
      var x := g.blocks[e.base];
      var f := prot + {U};
      if !x.ram { f := f + x.device * CACHE; }
      assert f == ShareFlags(x, prot);
      Link(e, f);
      if posted { Announce(e); }
    }

    /** The refusals of umem_share before the block's sharers are looked at. */
    method ShareCheck(t: nat, base: nat, pid: nat, prot: Prot) returns (s: Status)
      requires Valid() && t in g.threads
      ensures s == if Sharable(g, g.threads[t].proc, base, pid, prot) then Ok else Inval
      ensures s.Ok? && Edge(base, pid) !in g.edges ==> CanShare(g, Edge(base, pid))
      ensures s.Ok? ==> base in g.blocks
    {
      var me := g.threads[t].proc;
      HasTree(g.kin, g.owned, g.views, g.threads, g.trees, me);
      if base !in g.owned[me] { return Inval; }
      OwnAtBlock(g, lists, me, base);
      OwnerLive(g, lists, base);
      if pid !in g.kin || Dead(g.kin, pid) || pid == me || base in g.rings { return Inval; }
      if g.pins[base] != 0 || !g.blocks[base].delegatable { return Inval; }
      var x := g.blocks[base];
      if !x.ram && (!(prot <= x.device) || X in prot) { return Inval; }
      HasTree(g.kin, g.owned, g.views, g.threads, g.trees, pid);
      s := Ok;
    }

    /** The edge enters both indexes and the pending list, and the target maps the block. */
    method Link(e: Edge, f: Prot)
      requires Valid() && CanShare(g, e)
      modifies this`g, this`lists
      ensures Valid() && (forall d: Edge :: d in g.edges <==> d in old(g.edges) || d == e)
      ensures e in g.edges && !g.edges[e].notified && e.to in g.views && e.base in g.views[e.to]
      ensures g.views[e.to][e.base] == e
      ensures Linkable(old(g), e) && g == SharedTo(old(g), e, f)
      ensures forall d: Edge :: d in old(g.edges) ==> g.edges[d].notified == old(g.edges)[d].notified
    {
      ShareReady(g, lists, e);
      SharePending(g, lists, e, f);
      ShareGood(g, lists, e, f);
      lists := lists[e.to := lists[e.to] + [e]];
      g := SharedTo(g, e, f);
      assert e in lists[e.to];
      Unannounced(g, lists, e);
    }

    /** channel_edge_notify after a successful post. */
    method Announce(e: Edge)
      requires Valid() && e in g.edges
      modifies this`g, this`lists
      ensures Valid() && (forall d: Edge :: d in g.edges <==> d in old(g.edges))
      ensures e in g.edges && g.edges[e].notified && g == old(g).(ends := g.ends, edges := g.edges)
      ensures forall d: Edge :: d in old(g.edges) && d != e ==> g.edges[d].notified == old(g.edges)[d].notified
    {
      AnnounceGood(g, lists, e);
      lists := lists[e.to := Without(lists[e.to], e)];
      g := Announced(g, e);
    }

    /** Both index removals, the pending unlink and the restored mapping of one edge. */
    method Revoke(e: Edge)
      requires Valid() && e in g.edges
      modifies this`g, this`lists
      ensures Valid() && Cuttable(old(g), e) && g == Revoked(old(g), e) && Undone(old(g), g, e)
    {
      CutGood(g, lists, e);
      lists := lists[e.to := Without(lists[e.to], e)];
      g := Revoked(g, e);
    }

    /** umem_dropshare: a viewer, or its reaper, gives a view up. */
    method DropShare(t: nat, base: nat, pid: nat) returns (s: Status)
      requires Valid() && t in g.threads
      modifies this`g, this`lists
      ensures Valid()
      ensures var me := old(g.threads[t].proc); var target := if pid == 0 then me else pid;
              s == if target != me && !Walk(old(g.kin), me, target) then Perm
                   else if !(target in old(g.views) && base in old(g.views)[target]) then Inval else Ok
      ensures !s.Ok? ==> g == old(g) && lists == old(lists)
      ensures s.Ok? ==> var e := Edge(base, if pid == 0 then old(g.threads[t].proc) else pid);
                        Cuttable(old(g), e) && g == Revoked(old(g), e) && Undone(old(g), g, e)
    {
      var me := g.threads[t].proc;
      var target := if pid == 0 then me else pid;
      HasTree(g.kin, g.owned, g.views, g.threads, g.trees, me);
      if target !in g.kin || (target != me && !Walk(g.kin, me, target)) { return Perm; }
      assert ProcAt(g.kin, g.owned, g.views, g.threads, g.trees, target) && ViewAt(g.views, g.edges, target, base);
      if base !in g.views[target] { return Inval; }
      Revoke(g.views[target][base]);
      s := Ok;
    }

    /** umem_unshare: the owner, or its reaper, takes a share back. */
    method Unshare(t: nat, base: nat, pid: nat) returns (s: Status)
      requires Valid() && t in g.threads
      modifies this`g, this`lists
      ensures Valid()
      ensures s == if !Authorized(old(g), old(g.threads[t].proc), base) then Perm
                   else if pid !in old(g.kin) || Edge(base, pid) !in old(g.edges) then Inval else Ok
      ensures !s.Ok? ==> g == old(g) && lists == old(lists)
      ensures s.Ok? ==> var e := Edge(base, pid);
                        Cuttable(old(g), e) && g == Revoked(old(g), e) && Undone(old(g), g, e)
    {
      var may := MayManage(g.threads[t].proc, base);
      if !may { return Perm; }
      if pid !in g.kin || Edge(base, pid) !in g.edges { return Inval; }
      Revoke(Edge(base, pid));
      s := Ok;
    }

    /** proc_sys_vm_move with umem_move_locked: a parent hands a block to a live child. */
    method Move(t: nat, base: nat, pid: nat) returns (s: Status)
      requires Valid() && t in g.threads
      modifies this`g, this`lists
      ensures Valid()
      ensures s == MoveStatus(old(g), old(g.threads[t].proc), base, pid)
      ensures !s.Ok? ==> g == old(g) && lists == old(lists)
      ensures s.Ok? ==> CanMove(old(g), base, pid) && old(g.blocks)[base].owner == old(g.threads[t].proc)
      ensures s.Ok? ==> g == Moved(old(g), base, pid, OwnerFlags(old(g.blocks)[base]))
      ensures s.Ok? ==> HandedOver(old(g), g, base, old(g.threads[t].proc), pid)
      ensures s.Ok? ==> g == old(g).(ends := g.ends, edges := g.edges, views := g.views, owned := g.owned,
                                     trees := g.trees,
                                     blocks := old(g.blocks)[base := old(g.blocks)[base].(owner := pid)])
    {
      s := MoveCheck(t, base, pid);
      if !s.Ok? { return; }
      var x := g.blocks[base];
      var moved := {R, W, U};
      if !x.ram { moved := x.device + {U}; }
      MovedRights(g, base, pid, moved);
      Transfer(base, pid, moved);
    }

    /** The refusals of proc_sys_vm_move and umem_move_locked, in their order. */
    method MoveCheck(t: nat, base: nat, pid: nat) returns (s: Status)
      requires Valid() && t in g.threads
      ensures s == MoveStatus(g, g.threads[t].proc, base, pid)
      ensures s.Ok? ==> CanMove(g, base, pid) && g.blocks[base].owner == g.threads[t].proc
    {
      var me := g.threads[t].proc;
      HasTree(g.kin, g.owned, g.views, g.threads, g.trees, me);
      if pid !in g.kin || Dead(g.kin, pid) || g.kin[pid].parent != Some(me) { return Inval; }
      if base !in g.owned[me] || base in g.rings { return Inval; }
      OwnAtBlock(g, lists, me, base);
      OwnerLive(g, lists, base);
      if base in g.dma || g.pins[base] != 0 { return Exist; }
      if !g.blocks[base].delegatable { return Inval; }
      HasTree(g.kin, g.owned, g.views, g.threads, g.trees, pid);
      assert EndsAt(g.kin, g.ends, lists, pid) && KinAt(g.kin, pid);
      s := Ok;
    }

    method Transfer(base: nat, to: nat, f: Prot)
      requires Valid() && CanMove(g, base, to)
      modifies this`g, this`lists
      ensures Valid() && g == Moved(old(g), base, to, f)
    {
      ghost var ls := MoveGood(g, lists, base, to, f);
      assert PagedAt(g.blocks, g.dma, base);
      BlockPaged(g, Moved(g, base, to, f), base);
      lists := ls;
      g := Moved(g, base, to, f);
    }

    /** shares_replay: announce the pending edges of `p` in order until the channel is full. */
    method Replay(p: nat, room: nat) returns (posted: seq<Edge>)
      requires Valid() && p in g.kin && p in lists
      modifies this`g, this`lists
      ensures Valid() && p in lists
      ensures posted + lists[p] == old(lists)[p] && (|posted| == room || lists[p] == []) && |posted| <= room
      ensures g == old(g).(ends := g.ends, edges := g.edges)
      ensures forall e: Edge :: e in g.edges <==> e in old(g.edges)
      ensures forall e: Edge :: e in g.edges ==> g.edges[e].notified == (old(g.edges)[e].notified || e in posted)
    {
      posted := [];
      assert EndsAt(g.kin, g.ends, lists, p);
      while |posted| < room && g.ends[p].head.Some?
        invariant Valid() && p in lists && p in g.ends && |posted| <= room && posted + lists[p] == old(lists)[p]
        invariant g == old(g).(ends := g.ends, edges := g.edges)
        invariant forall e: Edge :: e in g.edges <==> e in old(g.edges)
        invariant forall e: Edge :: e in g.edges ==> g.edges[e].notified == (old(g.edges)[e].notified || e in posted)
      {
        var e := PostHead(p);
        posted := posted + [e];
      }
      assert ListAt(g.ends, g.edges, lists, None, p);
    }

    /** One round: the head of the list is posted, unlinked and marked. */
    method PostHead(p: nat) returns (e: Edge)
      requires Valid() && p in lists && p in g.ends && g.ends[p].head.Some?
      modifies this`g, this`lists
      ensures Valid() && p in lists && p in g.ends && old(lists)[p] == [e] + lists[p]
      ensures g == old(g).(ends := g.ends, edges := g.edges)
      ensures forall f: Edge :: f in g.edges <==> f in old(g.edges)
      ensures forall f: Edge :: f in g.edges ==> g.edges[f].notified == (old(g.edges)[f].notified || f == e)
    {
      e := g.ends[p].head.value;
      assert ListAt(g.ends, g.edges, lists, None, p);
      assert ChainAt(g.edges, lists[p], 0) && lists[p][0] in lists[p];
      AnnounceGood(g, lists, e);
      lists := lists[p := Without(lists[p], e)];
      g := Announced(g, e);
      assert EndsAt(g.kin, g.ends, lists, p);
    }

    // -----------------------------------------------------------------------
    // Rings, threads and processes
    // -----------------------------------------------------------------------

    /** channel_scheme_create: an own, unshared, unpinned RAM block becomes a kernel channel. */
    method CreateRing(t: nat, base: nat, known: bool, taken: bool) returns (s: Status)
      requires Valid() && t in g.threads
      modifies this`g
      ensures Valid()
      ensures s == if !RingReady(old(g), old(g.threads[t].proc), base) || !known then Inval
        else if taken then Exist else Ok
      ensures g == if s.Ok? then old(g).(rings := old(g.rings) + {base}) else old(g)
    {
      var me := g.threads[t].proc;
      HasTree(g.kin, g.owned, g.views, g.threads, g.trees, me);
      if base !in g.owned[me] { return Inval; }
      OwnAtBlock(g, lists, me, base);
      OwnerLive(g, lists, base);
      if !g.blocks[base].ram || base in g.rings || g.pins[base] != 0 { return Inval; }
      if (exists e :: e in g.edges && e.base == base) || !known { return Inval; }
      if taken { return Exist; }
      RingGood(g, lists, base);
      g := g.(rings := g.rings + {base});
      s := Ok;
    }

    /** proc_sys_thread_spawn; `readable`: the descriptor could be copied in. A completion event pins its block. */
    method Spawn(t: nat, pid: nat, readable: bool, start: Start, pending: bool) returns (s: Status, tid: nat)
      requires Valid() && t in g.threads
      modifies this`g, this`nextTid
      ensures Valid() && tid == old(nextTid) && tid !in old(g.threads)
      ensures s == if !readable then Fault
        else if WellFormed(start) && SpawnOk(old(g), old(g.threads[t].proc), pid, start, pending) then Ok else Inval
      ensures s.Ok? ==> tid in g.threads && g.threads[tid].proc == pid && g == Spawned(old(g), tid, g.threads[tid])
      ensures s.Ok? ==> (start.event != 0 <==> g.threads[tid].pin.Some?) && g.threads[tid].event == start.event
      ensures !s.Ok? ==> g == old(g)
    {
      tid := nextTid;
      if !readable { return Fault, tid; }
      var formed := Formed(start);
      if !formed { return Inval, tid; }
      var me := g.threads[t].proc;
      if !(pid in g.kin && !Dead(g.kin, pid) && (pid == me || g.kin[pid].parent == Some(me))) { return Inval, tid; }
      HasTree(g.kin, g.owned, g.views, g.threads, g.trees, pid);
      var runs := CanRun(pid, start);
      if !runs { return Inval, tid; }
      var pin: Option<nat> := None;
      if start.event != 0 {
        if pid != me { return Inval, tid; }
        pin := FindPin(pid, start.event, pending);
        if pin.None? { return Inval, tid; }
      }
      var _ := Enroll(Tcb(pid, pin, start.event));
      s := Ok;
    }

    static method Formed(start: Start) returns (ok: bool)
      ensures ok <==> WellFormed(start)
    {
      if !start.known || start.stack % 16 != 8 { return false; }
      ok := Canonical(start.entry) && Canonical(start.stack) && Canonical(start.fs) && Canonical(start.gs);
    }

    /** The two user_page_has tests. */
    method CanRun(pid: nat, start: Start) returns (ok: bool)
      requires pid in g.trees
      ensures ok <==> Runnable(g, pid, start)
    {
      var tree := g.trees[pid];
      if !({U, R, X} <= tree(start.entry)) || start.stack == 0 { return false; }
      ok := {U, R, W} <= tree(start.stack - 1);
    }

    /** The new thread enters its process's index, and its completion's block is pinned. */
    method Enroll(x: Tcb) returns (tid: nat)
      requires Valid() && x.proc in g.trees && !Dead(g.kin, x.proc)
      requires (x.pin.Some? ==> PinAt(g.blocks, g.edges, g.rings, g.trees, x))
      modifies this`g, this`nextTid
      ensures Valid() && tid == old(nextTid) && tid !in old(g.threads) && g == Spawned(old(g), tid, x)
    {
      tid := nextTid;
      SpawnGood(g, lists, tid, x);
      g := Spawned(g, tid, x);
      nextTid := nextTid + 1;
    }

    /** The block a completion event pins, if the event is in order. */
    method FindPin(pid: nat, event: nat, pending: bool) returns (pin: Option<nat>)
      requires Valid() && pid in g.kin && pid in g.trees
      ensures pin.Some? <==> PinOk(g, pid, event, pending)
      ensures pin.Some? ==> PinAt(g.blocks, g.edges, g.rings, g.trees, Tcb(pid, pin, event))
    {
      if event + 4 >= WORD64 || event % 4 != 0 || !pending { return None; }
      pin := TheView(pid, event, 4);
      if pin.None? { return; }
      var b := pin.value;
      if g.blocks[b].owner != pid || !g.blocks[b].ram || b in g.rings { return None; }
      if (exists e :: e in g.edges && e.base == b) || !({U, W} <= g.trees[pid](event)) { return None; }
    }

    /** process_spawn_thread: the first thread of a process, without a completion. */
    method Start(p: nat) returns (t: nat)
      requires Valid() && p in g.trees && !Dead(g.kin, p)
      modifies this`g, this`nextTid
      ensures Valid() && t == old(nextTid) && t !in old(g.threads) && g == Spawned(old(g), t, Tcb(p, None, 0))
    {
      t := Enroll(Tcb(p, None, 0));
    }

    /** The disposal in proc_sys_thread_destroy: one registration, one pin dropped. */
    method EndThread(t: nat)
      requires Valid() && t in g.threads && t !in g.flight
      modifies this`g
      ensures Valid() && g == Ended(old(g), t)
      ensures old(g.threads[t]).pin.Some? ==>
                var b := old(g.threads[t]).pin.value; b in g.pins && b in old(g.pins) && g.pins[b] + 1 == old(g.pins)[b]
    {
      EndGood(g, lists, t);
      g := Ended(g, t);
    }

    /** process_thread_exited: a live process dies with its last thread. */
    method ThreadExited(t: nat) returns (fatal: bool)
      requires Valid() && t in g.threads && t !in g.flight
      modifies this`g
      ensures Valid()
      ensures old(g.threads[t].proc) in old(g.kin) && g == AfterExit(old(g), t)
      ensures fatal <==> LastLive(old(g), t) && old(g.threads[t].proc) == INIT
    {
      var p := g.threads[t].proc;
      HasTree(g.kin, g.owned, g.views, g.threads, g.trees, p);
      ghost var g0 := g;
      EndThread(t);
      fatal := false;
      AloneAfter(g0, t);
      if Alone(g, p) { fatal := MarkDead(p); }
    }

    method CreateProcess(t: nat) returns (p: nat)
      requires Valid() && t in g.threads
      modifies this
      ensures Valid() && p == old(nextPid) && p !in old(g.kin) && old(g.threads[t].proc) in old(g.kin)
      ensures g == Born(old(g), old(g.threads[t].proc), p)
    {
      p := nextPid;
      var parent := g.threads[t].proc;
      HasTree(g.kin, g.owned, g.views, g.threads, g.trees, parent);
      BornGood(g, lists, parent, p);
      lists := lists[p := []];
      g := Born(g, parent, p);
      nextPid := nextPid + 1;
    }

    /** mark_dead_locked; `fatal`: its assertion that init does not die fails. */
    method MarkDead(p: nat) returns (fatal: bool)
      requires Valid() && p in g.kin
      modifies this`g
      ensures Valid() && (fatal <==> p == INIT && !Dead(old(g.kin), p))
      ensures g == if fatal || Dead(old(g.kin), p) then old(g) else Killed(old(g), p)
      ensures forall q: nat :: Dead(old(g.kin), q) ==> Dead(g.kin, q)
      ensures !fatal ==> Dead(g.kin, p)
    {
      if Dead(g.kin, p) { return false; }
      if p == INIT { return true; }
      KillGood(g, lists, p);
      ghost var kin := g.kin;
      g := Killed(g, p);
      forall q: nat | Dead(kin, q) ensures Dead(g.kin, q) { DeadStays(kin, g.kin, q); }
      fatal := false;
    }

    /** proc_sys_destroy: refused while anything is left; first the page tree, then the process. */
    method Destroy(t: nat, p: nat, busy: bool) returns (s: Status)
      requires Valid() && t in g.threads
      modifies this`g, this`lists
      ensures Valid()
      ensures s == if !(p in old(g.kin) && Walk(old(g.kin), old(g.threads[t].proc), p)) then Perm
                   else if !Empty(old(g), p) then Exist
                   else if p in old(g.trees) then if busy then Again else More
                   else Ok
      ensures s.Perm? || s.Exist? || s.Again? ==> g == old(g)
      ensures s.More? ==> g == old(g).(trees := old(g.trees) - {p})
      ensures s.Ok? ==>
                old(p in g.kin && g.kin[p].parent.Some? && g.kin[p].parent.value in g.kin) && g == Buried(old(g), p) &&
                Unnamed(g, p)
    {
      if p !in g.kin || !Walk(g.kin, g.threads[t].proc, p) { return Perm; }
      assert ProcAt(g.kin, g.owned, g.views, g.threads, g.trees, p) && KinAt(g.kin, p);
      if g.owned[p] != {} || g.views[p] != map[] || g.kin[p].children != {} { return Exist; }
      if exists u :: u in g.threads && g.threads[u].proc == p { return Exist; }
      if p in g.trees {
        if busy { return Again; }
        UntreeGood(g, lists, p);
        g := g.(trees := g.trees - {p});
        return More;
      }
      Bury(p);
      s := Ok;
    }

    method Bury(p: nat)
      requires Valid() && p in g.kin && p !in g.trees && g.kin[p].parent.Some? && g.kin[p].parent.value in g.kin
      modifies this`g, this`lists
      ensures Valid() && g == Buried(old(g), p) && Unnamed(g, p)
    {
      BuryUnnamed(g, lists, p);
      BuryGood(g, lists, p);
      lists := lists - {p};
      g := Buried(g, p);
    }

    /** The machine after process_create of init. */
    constructor (ram: nat -> bool, kernel: Tree)
      requires KernelOk(map[], kernel, ram)
      ensures Valid() && g.kin.Keys == {1} && g.threads == map[] && g.blocks == map[]
    {
      var g0 := Graph(ram, map[1 := Kin(None, false, {})], map[1 := {}], map[1 := map[]], map[], {}, map[],
                      map[1 := Ends(None, None)],
                      map[1 := kernel], kernel, {}, {}, map[], map[], map[]);
      g, lists, nextPid, nextTid := g0, map[1 := []], 2, 1;
      new;
      BootGood(g, lists, ram, kernel);
    }
  }

  lemma BootGood(g: Graph, lists: Lists, ram: nat -> bool, kernel: Tree)
    requires KernelOk(map[], kernel, ram) && lists == map[1 := []]
    requires g == Graph(ram, map[1 := Kin(None, false, {})], map[1 := {}], map[1 := map[]], map[], {}, map[],
                        map[1 := Ends(None, None)],
                        map[1 := kernel], kernel, {}, {}, map[], map[], map[])
    ensures Good(g, lists)
  {
    forall b: nat ensures PinsAt(g.blocks, g.pins, g.threads, b) { }
  }


  /** The edge is on both sides of its block's share. */
  predicate Cuttable(g: Graph, e: Edge) {
    e in g.edges && e.to in g.ends && e.to in g.views && e.to in g.trees && e.base in g.blocks
  }

  /** No thread completion pins the block. */
  ghost predicate Loose(g: Graph, base: nat) {
    base in g.pins && g.pins[base] == 0
  }

  /** The caller owns the block, or may reap its owner. */
  ghost predicate Authorized(g: Graph, caller: nat, base: nat) {
    base in g.index && base in g.blocks && (caller == g.blocks[base].owner || Walk(g.kin, caller, g.blocks[base].owner))
  }

  /** Process `p` owns or views block `b`, which contains [addr, addr+len). */
  ghost predicate Contains(g: Graph, p: nat, b: nat, addr: nat, len: nat) {
    && b in g.blocks && ((p in g.owned && b in g.owned[p]) || (p in g.views && b in g.views[p]))
    && b <= addr && addr + len <= b + g.blocks[b].bytes
  }

  /** Of disjoint blocks, only the floor can contain an address. */
  lemma FloorContains(bs: Blocks, s: set<nat>, addr: nat, len: nat, r: Option<nat>, b: nat)
    requires Apart(bs) && IsFloor(s, addr, r) && b in s && b in bs && b <= addr && addr + len <= b + bs[b].bytes
    requires len > 0
    requires r.Some? ==> r.value in bs
    ensures r == Some(b)
  {
    assert ApartAt(bs, b, r.value);
  }

  lemma OneContains(g: Graph, lists: Lists, p: nat, b: nat, c: nat, addr: nat, len: nat)
    requires Good(g, lists) && Contains(g, p, b, addr, len) && Contains(g, p, c, addr, len) && len > 0
    ensures b == c
  {
    assert ApartAt(g.blocks, b, c) && ApartAt(g.blocks, c, b);
  }

  /** Device blocks cap the rights of every view and never execute. */
  ghost predicate DeviceOk(x: Block, prot: Prot) {
    x.ram || (prot <= x.device && X !in prot)
  }

  ghost predicate Allows(g: Graph, b: nat, prot: Prot) {
    Loose(g, b) && b !in g.rings && b in g.blocks && DeviceOk(g.blocks[b], prot)
  }

  /** A range of whole pages that does not wrap. */
  ghost predicate RangeOk(base: nat, len: nat) {
    base % PAGE == 0 && len != 0 && len % PAGE == 0 && base + len < WORD64
  }

  /** A block that process `p` owns or views contains the range and may be re-flagged so. */
  ghost predicate CanProtect(g: Graph, p: nat, base: nat, len: nat, prot: Prot) {
    exists b: nat :: Contains(g, p, b, base, len) && Allows(g, b, prot)
  }

  lemma ProtectThe(g: Graph, p: nat, base: nat, len: nat, prot: Prot, b: nat)
    requires Contains(g, p, b, base, len) && forall c: nat :: Contains(g, p, c, base, len) ==> c == b
    ensures CanProtect(g, p, base, len, prot) <==> Allows(g, b, prot)
  {
    if CanProtect(g, p, base, len, prot) {
      var c: nat :| Contains(g, p, c, base, len) && Allows(g, c, prot);
      assert c == b;
    }
  }

  // -------------------------------------------------------------------------
  // What a mapping lets user code do
  // -------------------------------------------------------------------------

  /** Any RAM block, for its rights alone. */
  ghost const RAM: Block := Block(0, true, 0, true, PRISTINE, {})

  /** The cache policy asked for, and on a device the device's own. */
  ghost predicate Cached(f: Prot, x: Block, prot: Prot) {
    && (UC in f <==> UC in prot || (!x.ram && UC in x.device))
    && (WC in f <==> WC in prot || (!x.ram && WC in x.device))
    && (WT in f <==> WT in prot || (!x.ram && WT in x.device))
  }

  /** User code may do exactly what `prot` says. */
  ghost predicate Opens(f: Prot, x: Block, prot: Prot) {
    U in f && (R in f <==> R in prot) && (W in f <==> W in prot) && (X in f <==> X in prot) && Cached(f, x, prot)
  }

  /** A guard: nobody may do anything. */
  ghost predicate Guards(f: Prot, x: Block) {
    U !in f && R !in f && W !in f && X !in f && Cached(f, x, {})
  }

  /** The kernel's own mapping: user code may do nothing, and RAM is pristine. */
  ghost predicate Closes(f: Prot, x: Block) {
    f == x.kernel && U !in f && (x.ram ==> f == PRISTINE)
  }

  lemma KernelCloses(g: Graph, base: nat, a: nat)
    requires KernelOk(g.blocks, g.kernel, g.ram) && base in g.blocks && base <= a < base + g.blocks[base].bytes
    ensures Closes(g.blocks[base].kernel, g.blocks[base])
  {
    assert KernelAt(g.blocks, g.kernel, g.ram, a) && CoverAt(g.blocks, g.kernel, g.ram, base, a);
  }

  /** Of all page trees only process `p`'s may have changed, and only over [lo, hi). */
  ghost predicate OnlyOver(g: Graph, g': Graph, p: nat, lo: nat, hi: nat) {
    && g'.kernel == g.kernel && g'.trees.Keys == g.trees.Keys
    && forall q: nat, a: nat :: q in g.trees && (q != p || a < lo || hi <= a) ==> g'.trees[q](a) == g.trees[q](a)
  }

  ghost predicate OpensOver(g: Graph, p: nat, lo: nat, hi: nat, x: Block, prot: Prot) {
    p in g.trees && forall a: nat :: lo <= a < hi ==> Opens(g.trees[p](a), x, prot)
  }

  ghost predicate GuardsOver(g: Graph, p: nat, lo: nat, hi: nat, x: Block) {
    p in g.trees && forall a: nat :: lo <= a < hi ==> Guards(g.trees[p](a), x)
  }

  ghost predicate ClosesOver(g: Graph, p: nat, lo: nat, hi: nat, x: Block) {
    p in g.trees && forall a: nat :: lo <= a < hi ==> Closes(g.trees[p](a), x)
  }

  lemma RangeCloses(g: Graph, g': Graph, p: nat, base: nat, hi: nat)
    requires KernelOk(g.blocks, g.kernel, g.ram) && base in g.blocks && hi == base + g.blocks[base].bytes
    requires p in g.trees && g'.kernel == g.kernel
    requires g'.trees == g.trees[p := Flagged(g.trees[p], base, hi, g.blocks[base].kernel)]
    ensures OnlyOver(g, g', p, base, hi) && ClosesOver(g', p, base, hi, g.blocks[base])
  {
    forall a: nat | base <= a < hi
      ensures Closes(g'.trees[p](a), g.blocks[base])
    {
      KernelCloses(g, base, a);
      assert g'.trees[p](a) == g.blocks[base].kernel;
    }
  }

  /** One edge is gone from both sides, its target maps the block as the kernel does, and nothing else changed. */
  ghost predicate Undone(g: Graph, g': Graph, e: Edge) {
    && g' == g.(ends := g'.ends, edges := g'.edges, views := g'.views, trees := g'.trees)
    && (forall f: Edge :: f in g'.edges <==> f in g.edges && f != e)
    && (forall f: Edge :: f in g'.edges && f in g.edges ==> g'.edges[f].notified == g.edges[f].notified)
    && e.base in g.blocks && OnlyOver(g, g', e.to, e.base, e.base + g.blocks[e.base].bytes)
    && ClosesOver(g', e.to, e.base, e.base + g.blocks[e.base].bytes, g.blocks[e.base])
  }

  lemma RevokedUndone(g: Graph, lists: Lists, e: Edge)
    requires Good(g, lists) && e in g.edges
    ensures Cuttable(g, e) && Undone(g, Revoked(g, e), e)
  {
    EdgeReady(g, lists, e);
    DetachLoose(g.ends, g.edges, lists, e);
    RangeCloses(g, Revoked(g, e), e.to, e.base, e.base + g.blocks[e.base].bytes);
  }

  lemma CutGood(g: Graph, lists: Lists, e: Edge)
    requires Good(g, lists) && Paged(g) && e in g.edges
    ensures Cuttable(g, e) && Undone(g, Revoked(g, e), e) && Paged(Revoked(g, e))
    ensures e.to in lists && Good(Revoked(g, e), lists[e.to := Without(lists[e.to], e)])
  {
    EdgeReady(g, lists, e);
    RevokedUndone(g, lists, e);
    RevokeGood(g, lists, e);
  }

  lemma FreeGood(g: Graph, lists: Lists, base: nat)
    requires Good(g, lists) && Paged(g) && base in g.blocks && base !in g.dma && Loose(g, base)
    requires Private(g.edges, base)
    requires g.blocks[base].owner in g.owned && g.blocks[base].owner in g.trees
    ensures Good(Removed(g, base), lists) && Paged(Removed(g, base)) && Restored(Removed(g, base), g.blocks, base)
    ensures OnlyOver(g, Removed(g, base), g.blocks[base].owner, base, base + g.blocks[base].bytes)
  {
    RemoveGood(g, lists, base);
    RangeCloses(g, Removed(g, base), g.blocks[base].owner, base, base + g.blocks[base].bytes);
    BlockPaged(g, Removed(g, base), base);
  }

  lemma ShareOpens(x: Block, prot: Prot)
    ensures Opens(ShareFlags(x, prot), x, prot)
  {
  }

  lemma ViewOpens(x: Block, prot: Prot)
    ensures if prot == {} then Guards(ViewFlags(x, prot), x) else Opens(ViewFlags(x, prot), x, prot)
  {
  }

  /** One range of one tree was flagged so that it opens as `prot` says. */
  lemma RangeOpens(g: Graph, g': Graph, p: nat, lo: nat, hi: nat, f: Prot, x: Block, prot: Prot)
    requires p in g.trees && g'.kernel == g.kernel && g'.trees == g.trees[p := Flagged(g.trees[p], lo, hi, f)]
    requires Opens(f, x, prot)
    ensures OnlyOver(g, g', p, lo, hi) && OpensOver(g', p, lo, hi, x, prot)
  {
    forall a: nat | lo <= a < hi ensures Opens(g'.trees[p](a), x, prot) { assert g'.trees[p](a) == f; }
  }

  lemma RangeGuards(g: Graph, g': Graph, p: nat, lo: nat, hi: nat, f: Prot, x: Block)
    requires p in g.trees && g'.kernel == g.kernel && g'.trees == g.trees[p := Flagged(g.trees[p], lo, hi, f)]
    requires Guards(f, x)
    ensures OnlyOver(g, g', p, lo, hi) && GuardsOver(g', p, lo, hi, x)
  {
    forall a: nat | lo <= a < hi ensures Guards(g'.trees[p](a), x) { assert g'.trees[p](a) == f; }
  }

  lemma ViewRights(g: Graph, g': Graph, p: nat, lo: nat, hi: nat, x: Block, prot: Prot)
    requires p in g.trees && g' == Reflagged(g, p, lo, hi, ViewFlags(x, prot))
    ensures OnlyOver(g, g', p, lo, hi)
    ensures if prot == {} then GuardsOver(g', p, lo, hi, x) else OpensOver(g', p, lo, hi, x, prot)
  {
    var f := ViewFlags(x, prot);
    ViewOpens(x, prot);
    if prot == {} { RangeGuards(g, g', p, lo, hi, f, x); } else { RangeOpens(g, g', p, lo, hi, f, x, prot); }
  }

  lemma ShareRights(g: Graph, g': Graph, e: Edge, prot: Prot)
    requires Linkable(g, e)
    requires g' == SharedTo(g, e, ShareFlags(g.blocks[e.base], prot)).(ends := g'.ends, edges := g'.edges)
    ensures var hi := e.base + g.blocks[e.base].bytes;
            OnlyOver(g, g', e.to, e.base, hi) && OpensOver(g', e.to, e.base, hi, g.blocks[e.base], prot)
  {
    var x := g.blocks[e.base];
    ShareOpens(x, prot);
    RangeOpens(g, g', e.to, e.base, e.base + x.bytes, ShareFlags(x, prot), x, prot);
  }

  lemma FlownRights(g: Graph, t: nat, f: Flight, prot: Prot)
    requires f.proc in g.trees && f.prot == prot + {U}
    ensures var g', hi := Flown(g, t, f), f.base + f.bytes;
            OnlyOver(g, g', f.proc, f.base, hi) && OpensOver(g', f.proc, f.base, hi, RAM, prot)
  {
    RangeOpens(g, Flown(g, t, f), f.proc, f.base, f.base + f.bytes, f.prot, RAM, prot);
  }

  /** The owner's mapping: read and write RAM, or the device as it allows. */
  ghost predicate OwnerOpens(f: Prot, x: Block) {
    if x.ram then U in f && R in f && W in f && X !in f && Cached(f, x, {})
    else DeviceOpens(f, x.device)
  }

  /** User code may do what the device allows. */
  ghost predicate DeviceOpens(f: Prot, device: Prot) {
    U in f && forall c: Flag :: c != U ==> (c in f <==> c in device)
  }

  /** What a move leaves at `a` in process `q`'s tree. */
  ghost predicate HandedAt(g: Graph, g': Graph, base: nat, from: nat, to: nat, q: nat, a: nat) {
    base in g.blocks && q in g.trees && q in g'.trees ==>
      var x := g.blocks[base];
      if !(base <= a < base + x.bytes) || (q != from && q != to) then g'.trees[q](a) == g.trees[q](a)
      else if q == from then Closes(g'.trees[q](a), x)
      else OwnerOpens(g'.trees[q](a), x)
  }

  /** The receiver has the owner's mapping, the giver the kernel's, and nothing else changed. */
  ghost predicate HandedOver(g: Graph, g': Graph, base: nat, from: nat, to: nat) {
    && g'.kernel == g.kernel && g'.trees.Keys == g.trees.Keys
    && forall q: nat, a: nat :: HandedAt(g, g', base, from, to, q, a)
  }

  lemma MovedRights(g: Graph, base: nat, to: nat, f: Prot)
    requires CanMove(g, base, to) && KernelOk(g.blocks, g.kernel, g.ram) && OwnerOpens(f, g.blocks[base])
    ensures HandedOver(g, Moved(g, base, to, f), base, g.blocks[base].owner, to)
  {
    var g' := Moved(g, base, to, f);
    forall q: nat, a: nat ensures HandedAt(g, g', base, g.blocks[base].owner, to, q, a) {
      if base <= a < base + g.blocks[base].bytes { KernelCloses(g, base, a); }
    }
  }

  /** What a device mapping for `who` leaves at `a` in process `q`'s tree. */
  ghost predicate ShownAt(g: Graph, g': Graph, who: Option<nat>, base: nat, bytes: nat, kernel: Prot, device: Prot,
                          q: nat, a: nat) {
    q in g.trees && q in g'.trees ==>
      var f := g'.trees[q](a);
      if !(base <= a < base + bytes) then f == g.trees[q](a)
      else if who == Some(q) then DeviceOpens(f, device)
      else f == kernel
  }

  /** Over the range `who` has the device's flags and everyone else the kernel's; elsewhere nothing changed. */
  ghost predicate Shown(g: Graph, g': Graph, who: Option<nat>, base: nat, bytes: nat, kernel: Prot, device: Prot) {
    && g'.trees.Keys == g.trees.Keys
    && (forall a: nat :: g'.kernel(a) == if base <= a < base + bytes then kernel else g.kernel(a))
    && forall q: nat, a: nat :: ShownAt(g, g', who, base, bytes, kernel, device, q, a)
  }

  lemma AliasShown(g: Graph, base: nat, bytes: nat, kernel: Prot, device: Prot)
    ensures Shown(g, Aliased(g, base, bytes, kernel), None, base, bytes, kernel, device)
  {
    var g' := Aliased(g, base, bytes, kernel);
    forall q: nat, a: nat ensures ShownAt(g, g', None, base, bytes, kernel, device, q, a) { }
  }

  lemma DeviceShown(g: Graph, base: nat, x: Block, g': Graph)
    requires DeviceAdded(g, base, x, g')
    ensures Shown(g, g', Some(x.owner), base, x.bytes, x.kernel, x.device)
  {
    var g1, p := Aliased(g, base, x.bytes, x.kernel), x.owner;
    AliasShown(g, base, x.bytes, x.kernel, x.device);
    assert DeviceOpens(x.device + {U}, x.device);
    forall q: nat, a: nat ensures ShownAt(g, g', Some(p), base, x.bytes, x.kernel, x.device, q, a) {
      assert ShownAt(g, g1, None, base, x.bytes, x.kernel, x.device, q, a);
    }
  }

  ghost function ViewFlags(x: Block, prot: Prot): (f: Prot) {
    (if prot == {} then {} else prot + {U}) + (if x.ram then {} else x.device * CACHE)
  }

  /** The range's kernel alias is in every tree, and the block is its owner's, mapped for it. */
  ghost predicate DeviceAdded(g: Graph, base: nat, x: Block, g': Graph) {
    x.owner in g.owned && x.owner in g.trees &&
    g' == Inserted(Aliased(g, base, x.bytes, x.kernel), x.owner, base, x, x.device + {U})
  }

  ghost predicate DeviceMeets(bs: Blocks, base: nat, bytes: nat) {
    exists b :: b in bs && !bs[b].ram && base < b + bs[b].bytes && b < base + bytes
  }

  ghost predicate Sharable(g: Graph, p: nat, base: nat, pid: nat, prot: Prot) {
    && p in g.owned && base in g.owned[p] && pid in g.kin && !Dead(g.kin, pid) && pid != p
    && base !in g.rings && Loose(g, base) && base in g.blocks && g.blocks[base].delegatable
    && DeviceOk(g.blocks[base], prot)
  }

  ghost function ShareFlags(x: Block, prot: Prot): (f: Prot) {
    prot + {U} + (if x.ram then {} else x.device * CACHE)
  }

  ghost function OwnerFlags(x: Block): (f: Prot) {
    if x.ram then {R, W, U} else x.device + {U}
  }

  ghost function MoveStatus(g: Graph, me: nat, base: nat, pid: nat): (s: Status) {
    if !(pid in g.kin && !Dead(g.kin, pid) && g.kin[pid].parent == Some(me)) then Inval
    else if !(me in g.owned && base in g.owned[me] && base in g.blocks && base !in g.rings) then Inval
    else if base in g.dma || !Loose(g, base) then Exist
    else if !g.blocks[base].delegatable then Inval
    else Ok
  }

  ghost predicate RingReady(g: Graph, p: nat, base: nat) {
    p in g.owned && base in g.owned[p] && base in g.blocks && g.blocks[base].ram && base !in g.rings &&
    Loose(g, base) && Private(g.edges, base)
  }

  ghost predicate Pinnable(g: Graph, p: nat, b: nat, event: nat) {
    && b in g.blocks && g.blocks[b].owner == p && g.blocks[b].ram && b !in g.rings && Private(g.edges, b)
    && p in g.trees && {U, W} <= g.trees[p](event)
  }

  predicate Alone(g: Graph, p: nat) {
    forall u :: u in g.threads ==> g.threads[u].proc != p
  }

  lemma AloneAfter(g: Graph, t: nat)
    requires t in g.threads
    ensures LastLive(g, t) <==> Alone(Ended(g, t), g.threads[t].proc) && !Dead(g.kin, g.threads[t].proc)
  {
    var g', p := Ended(g, t), g.threads[t].proc;
    if Alone(g', p) {
      forall u | u in g.threads && u != t ensures g.threads[u].proc != p { assert u in g'.threads; }
    }
  }

  /** Thread `t` is the last of a live process. */
  predicate LastLive(g: Graph, t: nat)
    requires t in g.threads
  {
    (forall u :: u in g.threads && u != t ==> g.threads[u].proc != g.threads[t].proc) && !Dead(g.kin, g.threads[t].proc)
  }

  /** The thread is gone, and its process dead if it was its last, unless that is init. */
  function AfterExit(g: Graph, t: nat): (g': Graph)
    requires t in g.threads && g.threads[t].proc in g.kin
  {
    var p, e := g.threads[t].proc, Ended(g, t);
    if LastLive(g, t) && p != INIT then Killed(e, p) else e
  }

  /** The process is marked; its descendants are dead through it. */
  function Killed(g: Graph, p: nat): (g': Graph)
    requires p in g.kin
  {
    g.(kin := g.kin[p := g.kin[p].(dead := true)])
  }

  /** The descriptor of a new thread; `known`: version and size are the kernel's. */
  datatype Start = Start(known: bool, entry: nat, stack: nat, fs: nat, gs: nat, event: nat)

  predicate Canonical(a: nat) {
    a < 0x8000_0000_0000 || 0xFFFF_8000_0000_0000 <= a < WORD64
  }

  ghost predicate WellFormed(start: Start) {
    && start.known && Canonical(start.entry) && Canonical(start.stack) && Canonical(start.fs) && Canonical(start.gs)
    && start.stack % 16 == 8
  }

  /** The target may execute the entry page and write below the stack pointer. */
  ghost predicate Runnable(g: Graph, pid: nat, start: Start) {
    pid in g.trees && {U, R, X} <= g.trees[pid](start.entry) && start.stack != 0 &&
    {U, R, W} <= g.trees[pid](start.stack - 1)
  }

  ghost predicate SpawnOk(g: Graph, me: nat, pid: nat, start: Start, pending: bool) {
    var event := start.event;
    && pid in g.kin && !Dead(g.kin, pid) && (pid == me || g.kin[pid].parent == Some(me)) && Runnable(g, pid, start)
    && (event != 0 ==> pid == me && PinOk(g, pid, event, pending))
  }

  ghost predicate PinOk(g: Graph, pid: nat, event: nat, pending: bool) {
    event % 4 == 0 && event + 4 < WORD64 && pending && exists b: nat ::
      Contains(g, pid, b, event, 4) && Pinnable(g, pid, b, event)
  }

  /** Process `p` has no memory, children or threads. */
  ghost predicate Empty(g: Graph, p: nat) {
    && p in g.owned && g.owned[p] == {} && p in g.views && g.views[p] == map[] && p in g.kin && g.kin[p].children == {}
    && forall t :: t in g.threads ==> g.threads[t].proc != p
  }

  lemma OwnAtBlock(g: Graph, lists: Lists, p: nat, base: nat)
    requires Good(g, lists) && p in g.owned && base in g.owned[p]
    ensures base in g.blocks && g.blocks[base].owner == p
  {
    assert OwnAt(g.owned, g.blocks, p, base);
  }

  /** An edge just linked is still to be announced. */
  lemma Unannounced(g: Graph, lists: Lists, e: Edge)
    requires Good(g, lists) && e in g.edges && e.to in lists && e in lists[e.to]
    ensures !g.edges[e].notified
  {
    assert EdgeAt(g.ends, g.edges, lists, None, e);
  }
}
