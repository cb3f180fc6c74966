/** The user-memory ownership graph: owned blocks, share edges indexed from both
    sides, the global base index, the per-process lists of un-notified edges,
    thread pins, and what each process's page tree translates. */
module UmemGraph {
  import opened Seqs


  /** Rights of a page, as the paging flags that matter here. */
  datatype Flag = R | W | X | U | UC | WC | WT
  type Prot = set<Flag>

  const PRISTINE: Prot := {R, W, X}
  const CACHE: Prot := {UC, WC, WT}

  /** What a page tree translates, by address; as_flag updates a range of it. */
  type Tree = nat -> Prot

  function Flagged(tree: Tree, lo: nat, hi: nat, f: Prot): Tree {
    (a: nat) => if lo <= a < hi then f else tree(a)
  }

  /** A share edge is the value stored inline in its block's sharers tree under the sharer's pid. */
  datatype Edge = Edge(base: nat, to: nat)
  datatype Link = Link(notified: bool, prev: Option<Edge>, next: Option<Edge>)
  datatype Ends = Ends(head: Option<Edge>, tail: Option<Edge>)

  datatype Block = Block(bytes: nat, ram: bool, owner: nat, delegatable: bool, kernel: Prot, device: Prot)

  datatype Kin = Kin(parent: Option<nat>, dead: bool, children: set<nat>)

  /** A thread, and the block and word of its completion registration. */
  datatype Tcb = Tcb(proc: nat, pin: Option<nat>, event: nat)

  type Owned = map<nat, set<nat>>            // process to the bases it owns
  type Views = map<nat, map<nat, Edge>>      // process to the edges it views, by base
  type Blocks = map<nat, Block>
  type Edges = map<Edge, Link>
  type Procs = map<nat, Ends>                // process to the ends of its list of un-notified edges
  type Lists = map<nat, seq<Edge>>

  // -------------------------------------------------------------------------
  // Ownership and sharing
  // -------------------------------------------------------------------------

  predicate Covers(bs: Blocks, b: nat, a: nat) {
    b in bs && b <= a < b + bs[b].bytes
  }

  ghost predicate ApartAt(bs: Blocks, b: nat, c: nat) {
    b in bs ==> bs[b].bytes > 0 && (c in bs && b < c ==> b + bs[b].bytes <= c)
  }

  /** Blocks do not overlap. */
  ghost predicate Apart(bs: Blocks) {
    forall b: nat, c: nat :: ApartAt(bs, b, c)
  }

  ghost predicate OwnerAt(own: Owned, bs: Blocks, index: set<nat>, b: nat) {
    (b in index <==> b in bs) && (b in bs ==> bs[b].owner in own && b in own[bs[b].owner])
  }

  ghost predicate OwnAt(own: Owned, bs: Blocks, p: nat, b: nat) {
    p in own && b in own[p] ==> b in bs && bs[b].owner == p
  }

  /** Each block is in exactly its owner's tree and in the global index. */
  ghost predicate OwnedOk(own: Owned, bs: Blocks, index: set<nat>) {
    (forall b: nat :: OwnerAt(own, bs, index, b)) && (forall p: nat, b: nat :: OwnAt(own, bs, p, b))
  }

  ghost predicate SharerAt(vs: Views, bs: Blocks, es: Edges, e: Edge) {
    e in es ==> e.base in bs && e.to in vs && e.to != bs[e.base].owner && e.base in vs[e.to]
  }

  ghost predicate ViewAt(vs: Views, es: Edges, p: nat, b: nat) {
    p in vs && b in vs[p] ==> vs[p][b] == Edge(b, p) && Edge(b, p) in es
  }

  /** `q` is in the sharers of `b` exactly when `b` is in the views of `q`, naming that edge. */
  ghost predicate Shared(vs: Views, bs: Blocks, es: Edges) {
    (forall e: Edge :: SharerAt(vs, bs, es, e)) && (forall p: nat, b: nat :: ViewAt(vs, es, p, b))
  }

  function WithView(v: map<nat, Edge>, e: Edge): (v': map<nat, Edge>) {
    v[e.base := e]
  }

  predicate Private(es: Edges, b: nat) {
    forall e :: e in es ==> e.base != b
  }

  // -------------------------------------------------------------------------
  // Page trees
  // -------------------------------------------------------------------------

  /** Process `p` owns or views a block that covers `a`. */
  ghost predicate Reaches(own: Owned, vs: Views, bs: Blocks, p: nat, a: nat) {
    exists b :: Covers(bs, b, a) && ((p in own && b in own[p]) || (p in vs && b in vs[p]))
  }

  /** Outside what a process owns or views, and what its allocations under way have flagged, its tree is
      the kernel's. */
  ghost predicate Mapped(own: Owned, vs: Views, bs: Blocks, trees: map<nat, Tree>, kernel: Tree, fl: Flights) {
    forall p: nat, a: nat :: MapAt(own, vs, bs, trees, kernel, fl, p, a)
  }

  ghost predicate MapAt(own: Owned, vs: Views, bs: Blocks, trees: map<nat, Tree>, kernel: Tree, fl: Flights, p: nat,
                        a: nat) {
    p in trees ==> trees[p](a) == kernel(a) || Reaches(own, vs, bs, p, a) || Aloft(fl, p, a)
  }

  /** A thread inside umem_alloc, after it flagged the block and before the block enters the indexes. */
  datatype Flight = Flight(proc: nat, base: nat, bytes: nat, prot: Prot)
  type Flights = map<nat, Flight>    // by thread

  predicate Over(f: Flight, a: nat) {
    f.base <= a < f.base + f.bytes
  }

  /** Process `p` has an allocation under way over `a`. */
  ghost predicate Aloft(fl: Flights, p: nat, a: nat) {
    exists t :: t in fl && fl[t].proc == p && Over(fl[t], a)
  }

  ghost predicate AnyAloft(fl: Flights, a: nat) {
    exists t :: t in fl && Over(fl[t], a)
  }

  ghost predicate FlightAt(ths: map<nat, Tcb>, trees: map<nat, Tree>, fl: Flights, t: nat) {
    t in fl ==> t in ths && ths[t].proc == fl[t].proc && fl[t].proc in trees && fl[t].bytes > 0
  }

  ghost predicate FlownAt(bs: Blocks, ram: nat -> bool, trees: map<nat, Tree>, fl: Flights, t: nat, a: nat) {
    t in fl && Over(fl[t], a) ==>
      && ram(a) && fl[t].proc in trees && trees[fl[t].proc](a) == fl[t].prot
      && (forall b :: b in bs ==> !Covers(bs, b, a)) && (forall u :: u in fl && u != t ==> !Over(fl[u], a))
  }

  /** Allocations under way are of live threads, over RAM that no block and no other allocation has. */
  ghost predicate Flying(bs: Blocks, ram: nat -> bool, ths: map<nat, Tcb>, trees: map<nat, Tree>, fl: Flights) {
    (forall t: nat :: FlightAt(ths, trees, fl, t)) && (forall t: nat, a: nat :: FlownAt(bs, ram, trees, fl, t, a))
  }

  ghost predicate KernelAt(bs: Blocks, kernel: Tree, ram: nat -> bool, a: nat) {
    U !in kernel(a) && (ram(a) ==> kernel(a) == PRISTINE)
  }

  ghost predicate CoverAt(bs: Blocks, kernel: Tree, ram: nat -> bool, b: nat, a: nat) {
    Covers(bs, b, a) ==> kernel(a) == bs[b].kernel && bs[b].ram == ram(a)
  }

  /** The kernel tree gives no user access, and RAM is pristine in it. */
  ghost predicate KernelOk(bs: Blocks, kernel: Tree, ram: nat -> bool) {
    (forall a: nat :: KernelAt(bs, kernel, ram, a)) && (forall b: nat, a: nat :: CoverAt(bs, kernel, ram, b, a))
  }

  // -------------------------------------------------------------------------
  // Threads, pins and rings
  // -------------------------------------------------------------------------

  ghost predicate PinAt(bs: Blocks, es: Edges, rings: set<nat>, trees: map<nat, Tree>, x: Tcb) {
    x.pin.Some? ==>
      && x.pin.value in bs && bs[x.pin.value].owner == x.proc && bs[x.pin.value].ram
      && x.pin.value !in rings && Private(es, x.pin.value)
      && Covers(bs, x.pin.value, x.event) && x.proc in trees && {U, W} <= trees[x.proc](x.event)
  }

  function PinsOf(ths: map<nat, Tcb>, b: nat): (ts: set<nat>) {
    set t | t in ths && ths[t].pin == Some(b)
  }

  ghost predicate ThreadAt(bs: Blocks, es: Edges, rings: set<nat>, trees: map<nat, Tree>, ths: map<nat, Tcb>, t: nat) {
    t in ths ==> PinAt(bs, es, rings, trees, ths[t])
  }

  ghost predicate PinsAt(bs: Blocks, pins: map<nat, nat>, ths: map<nat, Tcb>, b: nat) {
    (b in pins <==> b in bs) && (b in bs ==> pins[b] == |PinsOf(ths, b)|)
  }

  ghost predicate RingAt(bs: Blocks, es: Edges, rings: set<nat>, b: nat) {
    b in rings ==> b in bs && bs[b].ram && Private(es, b)
  }

  /** Pins count the live registrations, and protect what a registration relies on. */
  ghost predicate Pinned(bs: Blocks, es: Edges, rings: set<nat>, pins: map<nat, nat>, ths: map<nat, Tcb>,
                         trees: map<nat, Tree>) {
    && (forall t: nat :: ThreadAt(bs, es, rings, trees, ths, t))
    && (forall b: nat :: PinsAt(bs, pins, ths, b))
    && (forall b: nat :: RingAt(bs, es, rings, b))
  }

  // -------------------------------------------------------------------------
  // The process tree
  // -------------------------------------------------------------------------

  ghost predicate KinAt(kin: map<nat, Kin>, p: nat) {
    p in kin ==>
      && (kin[p].parent.Some? ==>
            kin[p].parent.value in kin && kin[p].parent.value < p && p in kin[kin[p].parent.value].children)
      && (forall c :: c in kin[p].children ==> c in kin && kin[c].parent == Some(p))
  }

  /** process_is_dead: this process or an ancestor is marked. */
  predicate Dead(kin: map<nat, Kin>, p: nat) {
    p in kin && (kin[p].dead || (kin[p].parent.Some? && kin[p].parent.value < p && Dead(kin, kin[p].parent.value)))
  }

  /** process_reaper_authorized_locked's walk. */
  predicate Walk(kin: map<nat, Kin>, caller: nat, at: nat) {
    && at in kin && at != caller && Dead(kin, at)
    && kin[at].parent.Some? && kin[at].parent.value < at
    && (kin[at].parent.value == caller || Walk(kin, caller, kin[at].parent.value))
  }

  ghost predicate Bare(own: Owned, vs: Views, ths: map<nat, Tcb>, kin: map<nat, Kin>, p: nat)
  {
    && p in own && own[p] == {} && p in vs && vs[p] == map[] && p in kin && kin[p].children == {}
    && Dead(kin, p) && forall t :: t in ths ==> ths[t].proc != p
  }

  ghost predicate ProcAt(kin: map<nat, Kin>, own: Owned, vs: Views, ths: map<nat, Tcb>, trees: map<nat, Tree>, p: nat) {
    && (p in kin <==> p in own) && (p in kin <==> p in vs) && (p in trees ==> p in kin)
    && (p in kin && p !in trees ==> Bare(own, vs, ths, kin, p))
  }

  ghost predicate HomeAt(kin: map<nat, Kin>, ths: map<nat, Tcb>, t: nat) {
    t in ths ==> ths[t].proc in kin
  }

  /** A process without a page tree is dead and has nothing left. */
  ghost predicate Family(kin: map<nat, Kin>, own: Owned, vs: Views, ths: map<nat, Tcb>, trees: map<nat, Tree>) {
    && (forall p: nat :: KinAt(kin, p))
    && (forall t: nat :: HomeAt(kin, ths, t))
    && (forall p: nat :: ProcAt(kin, own, vs, ths, trees, p))
  }

  // -------------------------------------------------------------------------
  // The lists of un-notified edges
  // -------------------------------------------------------------------------

  /** Element `i` of the list is linked to its neighbours. */
  ghost predicate ChainAt(es: Edges, xs: seq<Edge>, i: nat)
    requires i < |xs|
  {
    xs[i] in es && es[xs[i]] == Link(false, Nth(xs, i - 1), Nth(xs, i + 1))
  }

  /** The links of `es` spell out the list `xs` from `head` to `tail`. */
  ghost predicate Chained(head: Option<Edge>, tail: Option<Edge>, es: Edges, xs: seq<Edge>) {
    && NoDup(xs)
    && head == Nth(xs, 0) && tail == Nth(xs, |xs| - 1)
    && (forall i: nat :: i < |xs| ==> ChainAt(es, xs, i))
  }

  ghost predicate ListAt(ps: Procs, es: Edges, lists: Lists, loose: Option<Edge>, p: nat) {
    && (p in ps ==> p in lists && Chained(ps[p].head, ps[p].tail, es, lists[p]))
    && (p in lists ==> forall e :: e in lists[p] ==> e.to == p && Some(e) != loose)
  }

  ghost predicate EdgeAt(ps: Procs, es: Edges, lists: Lists, loose: Option<Edge>, e: Edge) {
    e in es ==>
      && e.to in ps && e.to in lists
      && (Some(e) != loose ==> (es[e].notified <==> e !in lists[e.to]))
      && (es[e].notified || Some(e) == loose ==> es[e].prev.None? && es[e].next.None?)
  }

  /** Every list holds exactly the un-notified edges to its process; `loose` is in no list. */
  ghost predicate Pending(ps: Procs, es: Edges, lists: Lists, loose: Option<Edge>) {
    (forall p: nat :: ListAt(ps, es, lists, loose, p)) && (forall e: Edge :: EdgeAt(ps, es, lists, loose, e))
  }

  /** Only the list of process `q` and edges to it changed. */
  ghost predicate OnlyList(ps: Procs, es: Edges, lists: Lists, ps': Procs, es': Edges, lists': Lists, q: nat) {
    && (forall p :: p != q ==> (p in ps' <==> p in ps) && (p in lists' <==> p in lists))
    && (forall p :: p != q && p in ps && p in ps' ==> ps'[p].head == ps[p].head && ps'[p].tail == ps[p].tail)
    && (forall p :: p != q && p in lists && p in lists' ==> lists'[p] == lists[p])
    && (forall e: Edge :: e.to != q ==> (e in es' <==> e in es))
    && (forall e: Edge :: e.to != q && e in es && e in es' ==> es'[e] == es[e])
  }

  lemma PendingStep(ps: Procs, es: Edges, lists: Lists, loose: Option<Edge>, ps': Procs, es': Edges, lists': Lists,
                    loose': Option<Edge>, q: nat)
    requires Pending(ps, es, lists, loose) && OnlyList(ps, es, lists, ps', es', lists', q)
    requires ListAt(ps', es', lists', loose', q) && forall e: Edge :: e.to == q ==> EdgeAt(ps', es', lists', loose', e)
    requires loose.Some? ==> loose.value.to == q
    requires loose'.Some? ==> loose'.value.to == q
    ensures Pending(ps', es', lists', loose')
  {
    forall p | p != q ensures ListAt(ps', es', lists', loose', p) {
      assert ListAt(ps, es, lists, loose, p);
      if p in ps' { SameChain(ps[p].head, ps[p].tail, es, es', lists[p]); }
    }
    forall e: Edge | e.to != q ensures EdgeAt(ps', es', lists', loose', e) { assert EdgeAt(ps, es, lists, loose, e); }
  }

  /** pending_link. */
  function Linked(ps: Procs, es: Edges, e: Edge): (r: (Procs, Edges))
    requires e in es && e.to in ps && (ps[e.to].tail.Some? ==> ps[e.to].tail.value in es)
  {
    var p := ps[e.to];
    var es1 := es[e := es[e].(prev := p.tail)];
    var es2 := if p.tail.Some? then es1[p.tail.value := es1[p.tail.value].(next := Some(e))] else es1;
    (ps[e.to := p.(head := if p.tail.Some? then p.head else Some(e), tail := Some(e))], es2)
  }

  lemma LinkKeeps(ps: Procs, es: Edges, lists: Lists, e: Edge)
    requires Pending(ps, es, lists, Some(e)) && e in es && e.to in ps && !es[e].notified
    ensures e.to in lists && (ps[e.to].tail.Some? ==> ps[e.to].tail.value in es)
    ensures Pending(Linked(ps, es, e).0, Linked(ps, es, e).1, lists[e.to := lists[e.to] + [e]], None)
  {
    assert ListAt(ps, es, lists, Some(e), e.to) && EdgeAt(ps, es, lists, Some(e), e);
    var xs := lists[e.to];
    if xs != [] { assert ChainAt(es, xs, |xs| - 1) && xs[|xs| - 1] in xs; }
    var ps', es', lists' := Linked(ps, es, e).0, Linked(ps, es, e).1, lists[e.to := xs + [e]];
    LinkChain(ps[e.to].head, ps[e.to].tail, es, es', xs, e);
    forall f: Edge | f.to == e.to
      ensures EdgeAt(ps', es', lists', None, f)
    {
      assert EdgeAt(ps, es, lists, Some(e), f);
    }
    PendingStep(ps, es, lists, Some(e), ps', es', lists', None, e.to);
  }

  /** A list none of whose elements changed is still spelled out. */
  lemma SameChain(head: Option<Edge>, tail: Option<Edge>, es: Edges, es': Edges, xs: seq<Edge>)
    requires Chained(head, tail, es, xs) && forall f :: f in xs && f in es ==> f in es' && es'[f] == es[f]
    ensures Chained(head, tail, es', xs)
  {
    forall i: nat | i < |xs| ensures ChainAt(es', xs, i) { assert ChainAt(es, xs, i) && xs[i] in xs; }
  }

  lemma LinkChain(head: Option<Edge>, tail: Option<Edge>, es: Edges, es': Edges, xs: seq<Edge>, e: Edge)
    requires Chained(head, tail, es, xs) && e in es && e !in xs && es[e] == Link(false, None, None)
    requires es' == var es1 := es[e := es[e].(prev := tail)];
                    if tail.Some? && tail.value in es1 then es1[tail.value := es1[tail.value].(next := Some(e))]
                      else es1
    ensures Chained(if tail.Some? then head else Some(e), Some(e), es', xs + [e])
  {
    var ys := xs + [e];
    assert NoDup(ys) by { forall i | 0 <= i < |xs| ensures xs[i] != e { assert xs[i] in xs; } }
    forall i: nat | i < |ys| ensures ChainAt(es', ys, i) {
      if i < |xs| { assert ChainAt(es, xs, i) && xs[i] in xs; }
      if xs != [] { assert ChainAt(es, xs, |xs| - 1); }
    }
  }

  /** umem_edge_pending_unlink_locked, on an un-notified edge. */
  function Unlinked(ps: Procs, es: Edges, e: Edge): (r: (Procs, Edges))
    requires e in es && e.to in ps
    requires es[e].prev.Some? ==> es[e].prev.value in es
    requires es[e].next.Some? ==> es[e].next.value in es
  {
    var p, prev, next := ps[e.to], es[e].prev, es[e].next;
    var es1 := if prev.Some? then es[prev.value := es[prev.value].(next := next)] else es;
    var es2 := if next.Some? then es1[next.value := es1[next.value].(prev := prev)] else es1;
    (ps[e.to := p.(head := if prev.Some? then p.head else next, tail := if next.Some? then p.tail else prev)],
     es2[e := es2[e].(prev := None, next := None)])
  }

  /** Links with element `i` bridged over. */
  ghost predicate Bridged(es: Edges, xs: seq<Edge>, i: nat, j: nat)
    requires i < |xs| && j < |xs|
  {
    xs[j] in es &&
    es[xs[j]] == Link(false, Nth(xs, if j == i + 1 then i - 1 else j - 1), Nth(xs, if j + 1 == i then i + 1 else j + 1))
  }

  lemma CutChain(head: Option<Edge>, tail: Option<Edge>, es: Edges, xs: seq<Edge>, i: nat)
    requires NoDup(xs) && i < |xs| && head == Nth(xs, 0) && tail == Nth(xs, |xs| - 1)
    requires forall j: nat :: j < |xs| && j != i ==> Bridged(es, xs, i, j)
    ensures Chained(if i == 0 then Nth(xs, 1) else head, if i + 1 == |xs| then Nth(xs, i - 1)
                    else tail, es, Drop(xs, i))
  {
    var ys := Drop(xs, i);
    forall j: nat | j < |ys| ensures ChainAt(es, ys, j) {
      var k := if j < i then j else j + 1;
      assert Bridged(es, xs, i, k);
    }
  }

  lemma UnlinkKeeps(ps: Procs, es: Edges, lists: Lists, e: Edge, i: nat)
    requires Pending(ps, es, lists, None) && e in es && !es[e].notified && e.to in ps && e.to in lists
    requires i < |lists[e.to]| && lists[e.to][i] == e
    ensures es[e].prev.Some? ==> es[e].prev.value in es
    ensures es[e].next.Some? ==> es[e].next.value in es
    ensures Pending(Unlinked(ps, es, e).0, Unlinked(ps, es, e).1, lists[e.to := Drop(lists[e.to], i)], Some(e))
  {
    var xs := lists[e.to];
    assert ListAt(ps, es, lists, None, e.to) && ChainAt(es, xs, i);
    if i > 0 { assert ChainAt(es, xs, i - 1) && xs[i - 1] in xs; }
    if i + 1 < |xs| { assert ChainAt(es, xs, i + 1) && xs[i + 1] in xs; }
    var ps', es', lists' := Unlinked(ps, es, e).0, Unlinked(ps, es, e).1, lists[e.to := Drop(xs, i)];
    UnlinkChain(ps, es, xs, e, i);
    DropMembers(xs, i);
    forall f: Edge | f.to == e.to
      ensures EdgeAt(ps', es', lists', Some(e), f)
    {
      assert EdgeAt(ps, es, lists, None, f);
    }
    PendingStep(ps, es, lists, None, ps', es', lists', Some(e), e.to);
  }

  lemma UnlinkChain(ps: Procs, es: Edges, xs: seq<Edge>, e: Edge, i: nat)
    requires e in es && e.to in ps && i < |xs| && xs[i] == e && Chained(ps[e.to].head, ps[e.to].tail, es, xs)
    requires es[e].prev.Some? ==> es[e].prev.value in es
    requires es[e].next.Some? ==> es[e].next.value in es
    ensures Chained(Unlinked(ps, es, e).0[e.to].head, Unlinked(ps, es, e).0[e.to].tail, Unlinked(ps, es, e).1,
                    Drop(xs, i))
  {
    var ps', es' := Unlinked(ps, es, e).0, Unlinked(ps, es, e).1;
    assert ChainAt(es, xs, i);
    forall j: nat | j < |xs| && j != i ensures Bridged(es', xs, i, j) {
      assert ChainAt(es, xs, j);
    }
    CutChain(ps[e.to].head, ps[e.to].tail, es', xs, i);
  }

  // -------------------------------------------------------------------------
  // The whole graph
  // -------------------------------------------------------------------------

  datatype Graph = Graph(
    ram: nat -> bool, kin: map<nat, Kin>, owned: Owned, views: Views, blocks: Blocks, index: set<nat>, edges: Edges,
    ends: Procs, trees: map<nat, Tree>, kernel: Tree, rings: set<nat>, dma: set<nat>, pins: map<nat, nat>,
    threads: map<nat, Tcb>, flight: Flights)

  ghost predicate EndsAt(kin: map<nat, Kin>, ends: Procs, lists: Lists, p: nat) {
    (p in kin <==> p in ends) && (p in kin <==> p in lists)
  }

  ghost predicate EndsOk(kin: map<nat, Kin>, ends: Procs, lists: Lists) {
    forall p: nat :: EndsAt(kin, ends, lists, p)
  }

  /** Every group of indexes agrees; `lists` are the lists of un-notified edges. */
  ghost predicate Good(g: Graph, lists: Lists) {
    && Apart(g.blocks) && OwnedOk(g.owned, g.blocks, g.index) && Shared(g.views, g.blocks, g.edges)
    && EndsOk(g.kin, g.ends, lists) && Pending(g.ends, g.edges, lists, None)
    && Mapped(g.owned, g.views, g.blocks, g.trees, g.kernel, g.flight) && KernelOk(g.blocks, g.kernel, g.ram)
    && Pinned(g.blocks, g.edges, g.rings, g.pins, g.threads, g.trees)
    && Family(g.kin, g.owned, g.views, g.threads, g.trees) && Flying(g.blocks, g.ram, g.threads, g.trees, g.flight)
  }

  /** What a step leaves alone at an address with an allocation under way. */
  ghost predicate CalmAt(g: Graph, g': Graph, a: nat) {
    AnyAloft(g.flight, a) ==>
      && (forall p: nat :: p in g.trees && Aloft(g.flight, p, a) ==> p in g'.trees && g'.trees[p](a) == g.trees[p](a))
      && (forall b: nat :: Covers(g'.blocks, b, a) ==> Covers(g.blocks, b, a))
  }

  lemma FlyOn(g: Graph, g': Graph)
    requires Flying(g.blocks, g.ram, g.threads, g.trees, g.flight) && g'.ram == g.ram && g'.flight == g.flight
    requires forall t: nat :: t in g.flight && t in g.threads ==>
               t in g'.threads && g'.threads[t].proc == g.threads[t].proc
    requires forall a: nat :: CalmAt(g, g', a)
    ensures Flying(g'.blocks, g'.ram, g'.threads, g'.trees, g'.flight)
  {
    forall t: nat, a: nat ensures FlownAt(g'.blocks, g'.ram, g'.trees, g'.flight, t, a) {
      assert FlownAt(g.blocks, g.ram, g.trees, g.flight, t, a) && CalmAt(g, g', a);
      if t in g.flight && Over(g.flight[t], a) { assert Aloft(g.flight, g.flight[t].proc, a) && AnyAloft(g.flight, a); }
    }
    forall t: nat ensures FlightAt(g'.threads, g'.trees, g'.flight, t) {
      assert FlightAt(g.threads, g.trees, g.flight, t);
      if t in g.flight {
        var a := g.flight[t].base;
        assert FlownAt(g'.blocks, g'.ram, g'.trees, g'.flight, t, a) && Over(g.flight[t], a);
      }
    }
  }

  /** No allocation is under way inside a block. */
  lemma BlockCalm(g: Graph, b: nat, a: nat)
    requires Flying(g.blocks, g.ram, g.threads, g.trees, g.flight) && Covers(g.blocks, b, a)
    ensures !AnyAloft(g.flight, a)
  {
    forall t: nat | t in g.flight
      ensures !Over(g.flight[t], a)
    {
      assert FlownAt(g.blocks, g.ram, g.trees, g.flight, t, a);
    }
  }

  /** ...nor anywhere but in RAM. */
  lemma RamAloft(g: Graph, a: nat)
    requires Flying(g.blocks, g.ram, g.threads, g.trees, g.flight) && AnyAloft(g.flight, a)
    ensures g.ram(a)
  {
    var t :| t in g.flight && Over(g.flight[t], a);
    assert FlownAt(g.blocks, g.ram, g.trees, g.flight, t, a);
  }

  /** Trees change only inside block `base`, and no block grows. */
  lemma FlyOver(g: Graph, g': Graph, base: nat)
    requires Flying(g.blocks, g.ram, g.threads, g.trees, g.flight) && g'.ram == g.ram && g'.flight == g.flight
    requires g'.threads == g.threads
    requires forall p: nat, a: nat :: p in g.trees && !Covers(g.blocks, base, a) ==>
               p in g'.trees && g'.trees[p](a) == g.trees[p](a)
    requires forall b: nat :: b in g'.blocks ==> b in g.blocks && g'.blocks[b].bytes == g.blocks[b].bytes
    ensures Flying(g'.blocks, g'.ram, g'.threads, g'.trees, g'.flight)
  {
    forall a: nat ensures CalmAt(g, g', a) {
      if Covers(g.blocks, base, a) { BlockCalm(g, base, a); }
    }
    FlyOn(g, g');
  }
}
