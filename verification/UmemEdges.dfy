/** Sharing, revoking, announcing and moving: the steps on share edges. */
module UmemEdges {
  import opened UmemGraph
  import opened UmemSteps
  import opened Seqs

  // -------------------------------------------------------------------------
  // The pending list under edges that come and go
  // -------------------------------------------------------------------------

  const UNLINKED: Link := Link(false, None, None)

  lemma FreshLoose(ends: Procs, es: Edges, lists: Lists, e: Edge)
    requires Pending(ends, es, lists, None) && e !in es && e.to in ends
    ensures Pending(ends, es[e := UNLINKED], lists, Some(e))
  {
    var es' := es[e := UNLINKED];
    assert ListAt(ends, es, lists, None, e.to);
    var xs := lists[e.to];
    forall i: nat | i < |xs| ensures xs[i] != e { assert ChainAt(es, xs, i); }
    SameChain(ends[e.to].head, ends[e.to].tail, es, es', xs);
    forall f: Edge | f.to == e.to
      ensures EdgeAt(ends, es', lists, Some(e), f)
    {
      assert EdgeAt(ends, es, lists, None, f);
    }
    PendingStep(ends, es, lists, None, ends, es', lists, Some(e), e.to);
  }

  /** A loose edge can go, or be marked as announced. */
  lemma LooseSettled(ends: Procs, es: Edges, lists: Lists, e: Edge)
    requires Pending(ends, es, lists, Some(e)) && e in es
    ensures Pending(ends, es - {e}, lists, None)
    ensures Pending(ends, es[e := es[e].(notified := true)], lists, None)
  {
    var es1, es2 := es - {e}, es[e := es[e].(notified := true)];
    assert EdgeAt(ends, es, lists, Some(e), e) && ListAt(ends, es, lists, Some(e), e.to);
    SameChain(ends[e.to].head, ends[e.to].tail, es, es1, lists[e.to]);
    SameChain(ends[e.to].head, ends[e.to].tail, es, es2, lists[e.to]);
    forall f: Edge | f.to == e.to ensures EdgeAt(ends, es1, lists, None, f) && EdgeAt(ends, es2, lists, None, f) {
      assert EdgeAt(ends, es, lists, Some(e), f);
    }
    PendingStep(ends, es, lists, Some(e), ends, es1, lists, None, e.to);
    PendingStep(ends, es, lists, Some(e), ends, es2, lists, None, e.to);
  }

  /** umem_edge_pending_unlink_locked: nothing to do for an announced edge. */
  function Detached(ends: Procs, es: Edges, e: Edge): (r: (Procs, Edges))
    requires e in es && e.to in ends
  {
    var l := es[e];
    if l.notified || (l.prev.Some? && l.prev.value !in es) || (l.next.Some? && l.next.value !in es) then (ends, es)
    else Unlinked(ends, es, e)
  }

  function Without(xs: seq<Edge>, e: Edge): (ys: seq<Edge>) {
    if xs == [] then [] else if xs[0] == e then xs[1..] else [xs[0]] + Without(xs[1..], e)
  }

  lemma {:induction false} WithoutCut(xs: seq<Edge>, i: nat)
    requires i < |xs| && NoDup(xs)
    ensures Without(xs, xs[i]) == Drop(xs, i)
  {
    if i > 0 {
      WithoutCut(xs[1..], i - 1);
      assert xs[1..][i - 1] == xs[i];
      assert Drop(xs, i) == [xs[0]] + Drop(xs[1..], i - 1);
    }
  }

  lemma {:induction false} WithoutAbsent(xs: seq<Edge>, e: Edge)
    requires e !in xs
    ensures Without(xs, e) == xs
  {
    if xs != [] { WithoutAbsent(xs[1..], e); }
  }

  /** After the unlink the edge is in no list, and its list lost nothing else. */
  lemma DetachLoose(ends: Procs, es: Edges, lists: Lists, e: Edge)
    requires Pending(ends, es, lists, None) && e in es
    ensures e.to in ends && e.to in lists
    ensures Pending(Detached(ends, es, e).0, Detached(ends, es, e).1, lists[e.to := Without(lists[e.to], e)], Some(e))
    ensures forall f: Edge :: f in Detached(ends, es, e).1 <==> f in es
    ensures forall f: Edge :: f in es ==> Detached(ends, es, e).1[f].notified == es[f].notified
    ensures forall p: nat :: p in Detached(ends, es, e).0 <==> p in ends
  {
    assert EdgeAt(ends, es, lists, None, e) && ListAt(ends, es, lists, None, e.to);
    if es[e].notified { DetachAnnounced(ends, es, lists, e); } else { DetachListed(ends, es, lists, e); }
  }

  lemma DetachAnnounced(ends: Procs, es: Edges, lists: Lists, e: Edge)
    requires Pending(ends, es, lists, None) && e in es && es[e].notified && e.to in ends && e.to in lists
    ensures Pending(ends, es, lists[e.to := Without(lists[e.to], e)], Some(e))
  {
    assert EdgeAt(ends, es, lists, None, e) && ListAt(ends, es, lists, None, e.to);
    WithoutAbsent(lists[e.to], e);
    assert lists[e.to := lists[e.to]] == lists;
    forall f: Edge | f.to == e.to
      ensures EdgeAt(ends, es, lists, Some(e), f)
    {
      assert EdgeAt(ends, es, lists, None, f);
    }
    PendingStep(ends, es, lists, None, ends, es, lists, Some(e), e.to);
  }

  lemma DetachListed(ends: Procs, es: Edges, lists: Lists, e: Edge)
    requires Pending(ends, es, lists, None) && e in es && !es[e].notified && e.to in ends && e.to in lists
    ensures Pending(Detached(ends, es, e).0, Detached(ends, es, e).1, lists[e.to := Without(lists[e.to], e)], Some(e))
  {
    assert EdgeAt(ends, es, lists, None, e) && ListAt(ends, es, lists, None, e.to);
    var xs := lists[e.to];
    var i :| 0 <= i < |xs| && xs[i] == e;
    UnlinkKeeps(ends, es, lists, e, i);
    WithoutCut(xs, i);
  }

  // -------------------------------------------------------------------------
  // Sharing
  // -------------------------------------------------------------------------

  /** The indexes an edge goes through exist. */
  predicate Linkable(g: Graph, e: Edge) {
    && e.base in g.blocks && e.to in g.views && e.to in g.trees && e.to in g.ends
    && (g.ends[e.to].tail.Some? ==> g.ends[e.to].tail.value in g.edges)
  }

  /** umem_share's graph change: the edge on both sides, pending, and the target's mapping. */
  function SharedTo(g: Graph, e: Edge, f: Prot): (g': Graph)
    requires Linkable(g, e)
  {
    var r := Linked(g.ends, g.edges[e := UNLINKED], e);
    g.(edges := r.1, ends := r.0, views := g.views[e.to := WithView(g.views[e.to], e)],
       trees := g.trees[e.to := Flagged(g.trees[e.to], e.base, e.base + g.blocks[e.base].bytes, f)])
  }

  /** What a target must be for an edge to it: a live process other than the owner, not yet a sharer. */
  ghost predicate CanShare(g: Graph, e: Edge) {
    && e !in g.edges && e.base in g.blocks && e.to in g.kin && e.to in g.trees && e.to != g.blocks[e.base].owner
    && e.base in g.pins && g.pins[e.base] == 0 && e.base !in g.rings
  }

  lemma ShareReady(g: Graph, lists: Lists, e: Edge)
    requires Good(g, lists) && e.to in g.kin
    ensures e.to in g.views && e.to in g.ends && e.to in lists
    ensures g.ends[e.to].tail.Some? ==> g.ends[e.to].tail.value in g.edges
  {
    assert EndsAt(g.kin, g.ends, lists, e.to) && ProcAt(g.kin, g.owned, g.views, g.threads, g.trees, e.to);
    assert ListAt(g.ends, g.edges, lists, None, e.to);
    if lists[e.to] != [] { assert ChainAt(g.edges, lists[e.to], |lists[e.to]| - 1); }
  }

  lemma SharePending(g: Graph, lists: Lists, e: Edge, f: Prot)
    requires Good(g, lists) && CanShare(g, e) && e.to in g.views && e.to in g.ends && e.to in lists
    requires g.ends[e.to].tail.Some? ==> g.ends[e.to].tail.value in g.edges
    ensures var g' := SharedTo(g, e, f);
            && Pending(g'.ends, g'.edges, lists[e.to := lists[e.to] + [e]], None)
            && EndsOk(g'.kin, g'.ends, lists[e.to := lists[e.to] + [e]])
            && (forall d: Edge :: d in g'.edges <==> d in g.edges || d == e)
  {
    var g' := SharedTo(g, e, f);
    FreshLoose(g.ends, g.edges, lists, e);
    LinkKeeps(g.ends, g.edges[e := UNLINKED], lists, e);
    var lists' := lists[e.to := lists[e.to] + [e]];
    forall p: nat ensures EndsAt(g'.kin, g'.ends, lists', p) { assert EndsAt(g.kin, g.ends, lists, p); }
  }

  lemma ShareMem(g: Graph, lists: Lists, e: Edge, f: Prot)
    requires Good(g, lists) && CanShare(g, e) && e.to in g.views && e.to in g.ends
    requires g.ends[e.to].tail.Some? ==> g.ends[e.to].tail.value in g.edges
    requires forall d: Edge :: d in SharedTo(g, e, f).edges <==> d in g.edges || d == e
    ensures var g' := SharedTo(g, e, f);
            && Shared(g'.views, g'.blocks, g'.edges)
            && Mapped(g'.owned, g'.views, g'.blocks, g'.trees, g'.kernel, g'.flight)
            && Family(g'.kin, g'.owned, g'.views, g'.threads, g'.trees)
  {
    var g' := SharedTo(g, e, f);
    EdgeShared(g.views, g.blocks, g.edges, e, UNLINKED);
    RelinkShared(g'.views, g.blocks, g.edges[e := UNLINKED], g'.edges);
    EdgeMapped(g.owned, g.views, g.blocks, g.trees, g.kernel, g.flight, e, f);
    LiveFamily(g.kin, g.owned, g.views, g.threads, g.trees, g'.owned, g'.views, g'.trees);
  }

  lemma ShareGood(g: Graph, lists: Lists, e: Edge, f: Prot)
    requires Good(g, lists) && CanShare(g, e) && e.to in g.views && e.to in g.ends && e.to in lists
    requires g.ends[e.to].tail.Some? ==> g.ends[e.to].tail.value in g.edges
    ensures Good(SharedTo(g, e, f), lists[e.to := lists[e.to] + [e]])
  {
    var g' := SharedTo(g, e, f);
    SharePending(g, lists, e, f);
    ShareMem(g, lists, e, f);
    EdgePinned(g.blocks, g.edges, g'.edges, g.rings, g.pins, g.threads, g.trees);
    FlaggedPinned(g.blocks, g'.edges, g.rings, g.pins, g.threads, g.trees, e.to, e.base, f);
    ShareFlies(g, e, f);
  }

  lemma ShareFlies(g: Graph, e: Edge, f: Prot)
    requires Flying(g.blocks, g.ram, g.threads, g.trees, g.flight) && Linkable(g, e)
    ensures var g' := SharedTo(g, e, f); Flying(g'.blocks, g'.ram, g'.threads, g'.trees, g'.flight)
  {
    FlyOver(g, SharedTo(g, e, f), e.base);
  }

  // -------------------------------------------------------------------------
  // Announcing
  // -------------------------------------------------------------------------

  /** The edge's event is posted: unlinked and marked. */
  function Announced(g: Graph, e: Edge): (g': Graph)
    requires e in g.edges && e.to in g.ends
  {
    var r := Detached(g.ends, g.edges, e);
    if e in r.1 then g.(ends := r.0, edges := r.1[e := r.1[e].(notified := true)]) else g
  }

  lemma AnnounceGood(g: Graph, lists: Lists, e: Edge)
    requires Good(g, lists) && e in g.edges
    ensures e.to in g.ends && e.to in lists && Good(Announced(g, e), lists[e.to := Without(lists[e.to], e)])
    ensures Announced(g, e) == g.(ends := Announced(g, e).ends, edges := Announced(g, e).edges)
    ensures forall f: Edge :: f in Announced(g, e).edges <==> f in g.edges
    ensures forall f: Edge :: f in g.edges ==> Announced(g, e).edges[f].notified == (f == e || g.edges[f].notified)
  {
    DetachLoose(g.ends, g.edges, lists, e);
    var r, lists' := Detached(g.ends, g.edges, e), lists[e.to := Without(lists[e.to], e)];
    LooseSettled(r.0, r.1, lists', e);
    var g' := Announced(g, e);
    forall p: nat ensures EndsAt(g'.kin, g'.ends, lists', p) { assert EndsAt(g.kin, g.ends, lists, p); }
    RelinkShared(g.views, g.blocks, g.edges, g'.edges);
    EdgePinned(g.blocks, g.edges, g'.edges, g.rings, g.pins, g.threads, g.trees);
  }

  // -------------------------------------------------------------------------
  // Revoking
  // -------------------------------------------------------------------------

  /** The edge leaves both indexes and the pending list; the target's mapping is restored. */
  function Revoked(g: Graph, e: Edge): (g': Graph)
    requires e in g.edges && e.to in g.ends && e.to in g.views && e.to in g.trees && e.base in g.blocks
  {
    var r := Detached(g.ends, g.edges, e);
    g.(ends := r.0, edges := r.1 - {e}, views := g.views[e.to := g.views[e.to] - {e.base}],
       trees := g.trees[e.to := Flagged(g.trees[e.to], e.base, e.base + g.blocks[e.base].bytes,
                                        g.blocks[e.base].kernel)])
  }

  lemma EdgeReady(g: Graph, lists: Lists, e: Edge)
    requires Good(g, lists) && e in g.edges
    ensures e.to in g.ends && e.to in g.views && e.to in g.trees && e.base in g.blocks && e.base in g.pins
    ensures e.to in lists
    ensures e.to != g.blocks[e.base].owner && e.base in g.views[e.to] && g.views[e.to][e.base] == e
  {
    assert SharerAt(g.views, g.blocks, g.edges, e) && PinsAt(g.blocks, g.pins, g.threads, e.base);
    assert ViewAt(g.views, g.edges, e.to, e.base);
    HasTree(g.kin, g.owned, g.views, g.threads, g.trees, e.to);
    assert EndsAt(g.kin, g.ends, lists, e.to);
  }

  lemma RevokePending(g: Graph, lists: Lists, e: Edge)
    requires Good(g, lists) && e in g.edges && e.to in g.ends && e.to in lists
    ensures var r := Detached(g.ends, g.edges, e);
            && Pending(r.0, r.1 - {e}, lists[e.to := Without(lists[e.to], e)], None)
            && EndsOk(g.kin, r.0, lists[e.to := Without(lists[e.to], e)])
            && (forall f: Edge :: f in r.1 <==> f in g.edges)
  {
    DetachLoose(g.ends, g.edges, lists, e);
    var r, lists' := Detached(g.ends, g.edges, e), lists[e.to := Without(lists[e.to], e)];
    LooseSettled(r.0, r.1, lists', e);
    forall p: nat ensures EndsAt(g.kin, r.0, lists', p) { assert EndsAt(g.kin, g.ends, lists, p); }
  }

  lemma RevokeMem(g: Graph, lists: Lists, e: Edge)
    requires Good(g, lists) && e in g.edges && e.to in g.views && e.to in g.trees && e.base in g.blocks
    requires e.to in g.ends
    requires e.to != g.blocks[e.base].owner && forall f: Edge :: f in Detached(g.ends, g.edges, e).1 <==> f in g.edges
    ensures var g' := Revoked(g, e);
            && Shared(g'.views, g'.blocks, g'.edges)
            && Mapped(g'.owned, g'.views, g'.blocks, g'.trees, g'.kernel, g'.flight)
            && Family(g'.kin, g'.owned, g'.views, g'.threads, g'.trees)
  {
    var g' := Revoked(g, e);
    CutShared(g.views, g.blocks, g.edges, e);
    RelinkShared(g'.views, g.blocks, g.edges - {e}, g'.edges);
    forall q: nat, b: nat
      ensures KeepsAt(g.owned, g.views, g.blocks, g.owned, g'.views, g.blocks, e.to, e.base, q, b)
    {
    }
    LeftMapped(g.owned, g.views, g.blocks, g.trees, g.kernel, g.flight, g.ram, g.owned, g'.views, g.blocks, e.to,
               e.base);
    LiveFamily(g.kin, g.owned, g.views, g.threads, g.trees, g'.owned, g'.views, g'.trees);
  }

  lemma RevokeGood(g: Graph, lists: Lists, e: Edge)
    requires Good(g, lists) && e in g.edges && e.to in g.ends && e.to in g.views && e.to in g.trees
    requires e.base in g.blocks && e.to in lists
    requires e.to != g.blocks[e.base].owner && e.base in g.pins
    ensures Good(Revoked(g, e), lists[e.to := Without(lists[e.to], e)])
  {
    var g' := Revoked(g, e);
    RevokePending(g, lists, e);
    RevokeMem(g, lists, e);
    EdgePinned(g.blocks, g.edges, g'.edges, g.rings, g.pins, g.threads, g.trees);
    FlaggedPinned(g.blocks, g'.edges, g.rings, g.pins, g.threads, g.trees, e.to, e.base, g.blocks[e.base].kernel);
    RevokeFlies(g, e);
  }

  lemma RevokeFlies(g: Graph, e: Edge)
    requires Flying(g.blocks, g.ram, g.threads, g.trees, g.flight)
    requires e in g.edges && e.to in g.ends && e.to in g.views && e.to in g.trees && e.base in g.blocks
    ensures var g' := Revoked(g, e); Flying(g'.blocks, g'.ram, g'.threads, g'.trees, g'.flight)
  {
    FlyOver(g, Revoked(g, e), e.base);
  }
}
