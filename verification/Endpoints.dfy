/** The domains of iommu.c by the ring that created them: the calls of iommu_exec and
    iommu_endpoint_destroy over the mappings. */
module Endpoints {
  import opened Iommu
  import opened Vtd
  import opened VtdMap
  import opened Seqs

  const MAX_DOMAINS: nat := 64

  /** The ring that created a domain, and the name it gave it. */
  datatype Owner = Owner(ring: nat, cookie: nat)
  type Doms = map<nat, Owner>

  predicate Known(doms: Doms, ring: nat, cookie: nat) {
    exists d :: d in doms && doms[d] == Owner(ring, cookie)
  }

  ghost predicate DomAt(doms: Doms, ids: set<nat>, next: nat, d: nat) {
    (d in doms <==> d in ids) && (d in doms ==> d < next)
  }

  /** Every domain has a list of mappings, its id is used up, and no two have the same ring and cookie. */
  ghost predicate Directory(doms: Doms, ids: set<nat>, next: nat) {
    && (forall d: nat :: DomAt(doms, ids, next, d)) && |doms| <= MAX_DOMAINS
    && (forall c, d :: c in doms && d in doms && c != d ==> doms[c] != doms[d])
  }

  lemma DirectoryGrows(doms: Doms, ids: set<nat>, next: nat, o: Owner)
    requires Directory(doms, ids, next) && |doms| < MAX_DOMAINS && !Known(doms, o.ring, o.cookie)
    ensures next !in doms && next !in ids && Directory(doms[next := o], ids + {next}, next + 1)
  {
    var doms', ids', n := doms[next := o], ids + {next}, next + 1;
    assert DomAt(doms, ids, next, next);
    forall d: nat ensures DomAt(doms', ids', n, d) { assert DomAt(doms, ids, next, d); }
    assert doms'.Keys == doms.Keys + {next};
  }

  lemma DirectoryShrinks(doms: Doms, ids: set<nat>, next: nat, d: nat)
    requires Directory(doms, ids, next) && d in doms
    ensures Directory(doms - {d}, ids - {d}, next)
  {
    forall c: nat ensures DomAt(doms - {d}, ids - {d}, next, c) { assert DomAt(doms, ids, next, c); }
    assert (doms - {d}).Keys == doms.Keys - {d};
  }

  function Of(doms: Doms, ring: nat): (ds: set<nat>) {
    set d | d in doms && doms[d].ring == ring
  }

  /** The walk over the domains: those of the ring are `gone` or in the `rest`. */
  ghost predicate Swept(ds0: Doms, doms: Doms, gone: set<nat>, rest: set<nat>, ring: nat) {
    gone + rest == Of(ds0, ring) && gone !! rest && doms == ds0 - gone
  }

  lemma SweepStart(doms: Doms, rest: set<nat>, ring: nat) returns (gone: set<nat>)
    requires rest == Of(doms, ring)
    ensures gone == {} && Swept(doms, doms, gone, rest, ring)
  {
    gone := {};
  }

  lemma SweepOn(ds0: Doms, doms: Doms, gone: set<nat>, rest: set<nat>, ring: nat, d: nat)
    requires Swept(ds0, doms, gone, rest, ring) && d in rest
    ensures d in doms && Swept(ds0, doms - {d}, gone + {d}, rest - {d}, ring) && |rest - {d}| < |rest|
  {
  }

  lemma SweepEnd(ds0: Doms, doms: Doms, gone: set<nat>, rest: set<nat>, ring: nat)
    requires Swept(ds0, doms, gone, rest, ring) && rest == {}
    ensures gone == Of(ds0, ring) && doms == ds0 - Of(ds0, ring)
  {
    assert gone == Of(ds0, ring);
  }

  ghost predicate KeptAt(ns: Nodes, ns': Nodes, ds: set<nat>, k: Key) {
    (k in ns' <==> k in ns && k.dom !in ds) && (k in ns' ==> ns'[k].pages == ns[k].pages && ns'[k].perm == ns[k].perm)
  }

  /** The mappings of the domains `ds` are gone, and all others are as they were. */
  ghost predicate KeptApart(ns: Nodes, ns': Nodes, ds: set<nat>) {
    forall k: Key :: KeptAt(ns, ns', ds, k)
  }

  lemma KeptMore(a: Nodes, b: Nodes, c: Nodes, ds: set<nat>, d: nat)
    requires KeptApart(a, b, ds) && KeptApart(b, c, {d})
    ensures KeptApart(a, c, ds + {d})
  {
    var es := ds + {d};
    forall k: Key ensures KeptAt(a, c, es, k) { assert KeptAt(a, b, ds, k) && KeptAt(b, c, {d}, k); }
  }

  ghost predicate ThinAt(ns: Nodes, ns': Nodes, d: nat, k: Key) {
    (k in ns' ==> k in ns && ns'[k].pages == ns[k].pages && ns'[k].perm == ns[k].perm) &&
    (k in ns && k.dom != d ==> k in ns')
  }

  /** Only mappings of the domain are missing. */
  ghost predicate Thinned(ns: Nodes, ns': Nodes, d: nat) {
    forall k: Key :: ThinAt(ns, ns', d, k)
  }

  lemma ThinMore(ns: Nodes, ns1: Nodes, ns2: Nodes, k: Key)
    requires Thinned(ns, ns1, k.dom) && ns2.Keys == ns1.Keys - {k} && SameBlocks(ns1, ns2, k)
    ensures Thinned(ns, ns2, k.dom)
  {
    forall l: Key ensures ThinAt(ns, ns2, k.dom, l) { assert ThinAt(ns, ns1, k.dom, l); }
  }

  lemma ThinApart(ns: Nodes, ns': Nodes, d: nat)
    requires Thinned(ns, ns', d) && forall k: Key :: k in ns' ==> k.dom != d
    ensures KeptApart(ns, ns', {d})
  {
    forall k: Key ensures KeptAt(ns, ns', {d}, k) { assert ThinAt(ns, ns', d, k); }
  }

  /** A domain's list is empty just when it has no mapping. */
  lemma ListExact(m: Maps, lists: Lists, d: nat)
    requires Agree(m, lists) && d in m.heads
    ensures m.heads[d].Some? <==> exists b: nat :: Key(d, b) in m.nodes
  {
    HeadKnown(m, lists, d);
    if m.heads[d].Some? { assert m.heads[d].value == Key(d, m.heads[d].value.base); }
    forall b: nat | Key(d, b) in m.nodes ensures m.heads[d].Some? { assert KeyAt(m.nodes, m.index, lists, Key(d, b)); }
  }

  /** One mapping is gone, and all others are as they were. */
  ghost predicate Gone(ns: Nodes, ns': Nodes, k: Key) {
    ns'.Keys == ns.Keys - {k} && SameBlocks(ns, ns', k)
  }

  /** map_block's outcome in domain `d`. */
  ghost predicate MapResult(m: Maps, m': Maps, superpages: bool, d: nat, base: nat, pages: nat, perm: Perm, bits: bool,
                            usable: bool, room: bool, budget: nat, s: Status) {
    var c, k := Checked(m, superpages, d, base, pages, perm, bits, usable, room), Key(d, base);
    && (!c.Ok? ==> s == c)
    && (c.Ok? ==> s.Ok? || s.NoMem?)
    && (c.Ok? && budget >= 3 * Leaves(superpages, base, pages) ==> (s.Ok? <==> Fits(m.hw, superpages, d, base, pages)))
    && (s.Ok? ==>
          m'.nodes.Keys == m.nodes.Keys + {k} && SameBlocks(m.nodes, m'.nodes, k) && m'.nodes[k].pages == pages &&
            m'.nodes[k].perm == perm)
  }

  class Directories {
    const maps: Domains
    var doms: Doms
    var nextDom: nat

    ghost predicate Valid()
      reads this, maps
    {
      maps.Valid() && Directory(doms, maps.m.heads.Keys, nextDom)
    }

    constructor (superpages: bool)
      ensures Valid() && fresh(maps) && doms == map[] && maps.m.nodes == map[] && maps.m.index == map[]
    {
      maps := new Domains(superpages);
      doms, nextDom := map[], 1;
    }

    /** find_domain. */
    method Lookup(ring: nat, cookie: nat) returns (d: Option<nat>)
      requires Valid()
      ensures d.Some? <==> Known(doms, ring, cookie)
      ensures d.Some? ==> d.value in doms && doms[d.value] == Owner(ring, cookie) && d.value in maps.m.heads
    {
      if !Known(doms, ring, cookie) { return None; }
      var x :| x in doms && doms[x] == Owner(ring, cookie);
      assert DomAt(doms, maps.m.heads.Keys, nextDom, x);
      d := Some(x);
    }

    /** domain_create: one domain per ring and cookie, with an empty root and a fresh id. */
    method Create(ring: nat, cookie: nat, live: bool, room: bool) returns (s: Status)
      requires Valid()
      modifies this, maps`m, maps`lists
      ensures Valid()
      ensures s == if !live || cookie == 0 then Inval else if Known(old(doms), ring, cookie) then Exist
                   else if |old(doms)| == MAX_DOMAINS || !room then NoMem else Ok
      ensures !s.Ok? ==> maps.m == old(maps.m) && doms == old(doms) && nextDom == old(nextDom)
      ensures s.Ok? ==> old(nextDom) !in old(doms) && doms == old(doms)[old(nextDom) := Owner(ring, cookie)]
      ensures s.Ok? ==>
                maps.m == old(maps.m).(heads := old(maps.m.heads)[old(nextDom) := None],
                                       hw := old(maps.m.hw)[old(nextDom) := Table(Blank())])
    {
      if !live || cookie == 0 { return Inval; }
      if Known(doms, ring, cookie) { return Exist; }
      if |doms| == MAX_DOMAINS || !room { return NoMem; }
      DirectoryGrows(doms, maps.m.heads.Keys, nextDom, Owner(ring, cookie));
      ghost var ids := maps.m.heads.Keys;
      maps.Create(nextDom);
      assert maps.m.heads.Keys == ids + {nextDom};
      doms, nextDom := doms[nextDom := Owner(ring, cookie)], nextDom + 1;
      s := Ok;
    }

    /** domain_destroy: only a domain without mappings and, as `devices` tells, without devices. */
    method Remove(ring: nat, cookie: nat, devices: bool) returns (s: Status)
      requires Valid()
      modifies this`doms, maps`m, maps`lists
      ensures Valid() && (s.Inval? <==> !Known(old(doms), ring, cookie)) && (s.Ok? || s.Inval? || s.Exist?)
      ensures !s.Ok? ==> maps.m == old(maps.m) && doms == old(doms)
      ensures s.Ok? ==> exists d :: d in old(doms) && old(doms)[d] == Owner(ring, cookie) && doms == old(doms) - {d}
      ensures s.Ok? ==> maps.m.nodes == old(maps.m.nodes) && maps.m.index == old(maps.m.index)
      ensures forall d :: d in old(doms) && old(doms)[d] == Owner(ring, cookie) ==>
                (s.Exist? <==> devices || exists b: nat :: Key(d, b) in old(maps.m.nodes))
    {
      var f := Lookup(ring, cookie);
      if f.None? { return Inval; }
      var d := f.value;
      ListExact(maps.m, maps.lists, d);
      if devices || maps.m.heads[d].Some? { return Exist; }
      Unlist(d);
      s := Ok;
    }

    /** A domain without mappings leaves the list of domains. */
    method Unlist(d: nat)
      requires Valid() && d in doms && d in maps.m.heads && maps.m.heads[d].None?
      modifies this`doms, maps`m, maps`lists
      ensures Valid() && doms == old(doms) - {d} && maps.m.nodes == old(maps.m.nodes)
      ensures maps.m.index == old(maps.m.index)
      ensures forall k: Key :: k in maps.m.nodes ==> k.dom != d
    {
      DirectoryShrinks(doms, maps.m.heads.Keys, nextDom, d);
      maps.Retire(d);
      doms := doms - {d};
    }

    /** KIOMMU_MAP_BLOCK; `usable`: the page is the base of a RAM block the caller sees that is no ring. */
    method MapBlock(ring: nat, cookie: nat, base: nat, pages: nat, perm: Perm, bits: bool, usable: bool, room: bool,
                    budget: nat)
      returns (s: Status)
      requires Valid()
      requires usable ==>
                 pages > 0 && forall d: nat :: Key(d, base) !in maps.m.nodes ==> Clear(maps.m.nodes, d, base, pages)
      modifies maps`m, maps`lists
      ensures Valid() && (!Known(doms, ring, cookie) ==> s.Inval?)
      ensures !s.Ok? ==> maps.m.nodes == old(maps.m.nodes) && maps.m.index == old(maps.m.index)
      ensures forall d :: d in doms && doms[d] == Owner(ring, cookie) ==>
                MapResult(old(maps.m), maps.m, maps.superpages, d, base, pages, perm, bits, usable, room, budget, s)
    {
      var f := Lookup(ring, cookie);
      if f.None? { return Inval; }
      s := maps.MapBlock(f.value, base, pages, perm, bits, usable, room, budget);
    }

    /** KIOMMU_UNMAP_BLOCK. */
    method UnmapBlock(ring: nat, cookie: nat, base: nat) returns (s: Status)
      requires Valid()
      modifies maps`m, maps`lists
      ensures Valid() && (s.Ok? || s.Inval?) && (!Known(doms, ring, cookie) ==> s.Inval?)
      ensures !s.Ok? ==> maps.m == old(maps.m)
      ensures forall d :: d in doms && doms[d] == Owner(ring, cookie) ==> (s.Ok? <==> Key(d, base) in old(maps.m.nodes))
      ensures s.Ok? ==>
                exists d ::
                  d in doms && doms[d] == Owner(ring, cookie) && Gone(old(maps.m.nodes), maps.m.nodes, Key(d, base))
    {
      var f := Lookup(ring, cookie);
      if f.None? { return Inval; }
      s := maps.UnmapBlock(f.value, base);
    }

    /** iommu_revoke_map after its check of authority. */
    method Revoke(base: nat, d: nat) returns (s: Status)
      requires Valid()
      modifies maps`m, maps`lists
      ensures Valid() && s == if Key(d, base) in old(maps.m.nodes) then Ok else Inval
      ensures !s.Ok? ==> maps.m == old(maps.m)
      ensures s.Ok? ==> Gone(old(maps.m.nodes), maps.m.nodes, Key(d, base))
    {
      s := maps.RevokeMap(base, d);
    }

    /** The mappings of a domain go, one after the other. */
    method Empty(d: nat)
      requires Valid() && d in maps.m.heads
      modifies maps`m, maps`lists
      ensures Valid() && maps.m.heads.Keys == old(maps.m.heads.Keys) && d in maps.m.heads && maps.m.heads[d].None?
      ensures Thinned(old(maps.m.nodes), maps.m.nodes, d)
    {
      ghost var ns0 := maps.m.nodes;
      while maps.m.heads[d].Some?
        invariant Valid() && d in maps.m.heads && maps.m.heads.Keys == old(maps.m.heads.Keys)
        invariant Thinned(ns0, maps.m.nodes, d)
        decreases maps.m.count
      {
        HeadKnown(maps.m, maps.lists, d);
        var k := maps.m.heads[d].value;
        ghost var ns := maps.m.nodes;
        var _ := maps.UnmapMapping(k);
        ThinMore(ns0, ns, maps.m.nodes, k);
      }
    }

    /** One turn of iommu_endpoint_destroy: the mappings of a domain go, then the domain. */
    method Destroy(d: nat)
      requires Valid() && d in doms
      modifies this`doms, maps`m, maps`lists
      ensures Valid() && doms == old(doms) - {d} && KeptApart(old(maps.m.nodes), maps.m.nodes, {d})
    {
      assert DomAt(doms, maps.m.heads.Keys, nextDom, d);
      ghost var ns := maps.m.nodes;
      Empty(d);
      Unlist(d);
      ThinApart(ns, maps.m.nodes, d);
    }

    /** iommu_endpoint_destroy: all domains of the ring go, with their mappings, and no other. */
    method DestroyRing(ring: nat)
      requires Valid()
      modifies this`doms, maps`m, maps`lists
      ensures Valid() && KeptApart(old(maps.m.nodes), maps.m.nodes, Of(old(doms), ring))
      ensures doms == old(doms) - Of(old(doms), ring)
    {
      ghost var ds0, ns0 := doms, maps.m.nodes;
      var rest := Of(doms, ring);
      ghost var gone: set<nat> := SweepStart(doms, rest, ring);
      forall k: Key ensures KeptAt(ns0, maps.m.nodes, gone, k) { }
      while rest != {}
        invariant Valid() && Swept(ds0, doms, gone, rest, ring) && KeptApart(ns0, maps.m.nodes, gone)
        decreases |rest|
      {
        var d :| d in rest;
        SweepOn(ds0, doms, gone, rest, ring, d);
        ghost var ns := maps.m.nodes;
        Destroy(d);
        KeptMore(ns0, ns, maps.m.nodes, gone, d);
        rest, gone := rest - {d}, gone + {d};
      }
      SweepEnd(ds0, doms, gone, rest, ring);
    }
  }
}
