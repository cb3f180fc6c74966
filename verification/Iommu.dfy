/** DMA edges of iommu.c: one mapping per domain and block, on the domain's list, in
    the block's tree and in the hardware tables, with a global count. */
module Iommu {
  import opened Vtd
  import opened VtdMap
  import PT = PageTree
  import opened Seqs

  const MAX_MAPPINGS: nat := 1024
  const MAX_LEAVES: nat := 512

  datatype Status = Ok | Inval | Exist | NoMem

  /** A mapping is the value stored in its block's tree under the domain's id. */
  datatype Key = Key(dom: nat, base: nat)
  datatype Node = Node(pages: nat, perm: Perm, prev: Option<Key>, next: Option<Key>)

  type Nodes = map<Key, Node>
  type Heads = map<nat, Option<Key>>
  type Index = map<nat, set<nat>>          // block to the domains that map it; absent: no tree
  type Lists = map<nat, seq<Key>>

  datatype Maps = Maps(nodes: Nodes, heads: Heads, index: Index, hw: map<nat, Sl>, count: nat)

  // -------------------------------------------------------------------------
  // The invariant
  // -------------------------------------------------------------------------

  ghost predicate ChainAt(ns: Nodes, xs: seq<Key>, d: nat, i: nat)
    requires i < |xs|
  {
    xs[i] in ns && xs[i].dom == d && ns[xs[i]].prev == Nth(xs, i - 1) && ns[xs[i]].next == Nth(xs, i + 1)
  }

  ghost predicate ListAt(ns: Nodes, hs: Heads, lists: Lists, d: nat) {
    && (d in hs <==> d in lists)
    && (d in lists ==> NoDup(lists[d]) && hs[d] == Nth(lists[d], 0) && forall i: nat :: i < |lists[d]| ==>
          ChainAt(ns, lists[d], d, i))
  }

  /** A mapping is in its block's tree and on its domain's list, or in neither. */
  ghost predicate KeyAt(ns: Nodes, ix: Index, lists: Lists, k: Key) {
    && (k in ns <==> k.base in ix && k.dom in ix[k.base])
    && (k in ns <==> k.dom in lists && k in lists[k.dom])
  }

  ghost predicate Listed(ns: Nodes, hs: Heads, lists: Lists) {
    forall d: nat :: ListAt(ns, hs, lists, d)
  }

  /** Lists, trees and the count tell of the same mappings. */
  ghost predicate Agree(m: Maps, lists: Lists) {
    && Listed(m.nodes, m.heads, lists)
    && (forall k: Key :: KeyAt(m.nodes, m.index, lists, k))
    && (forall b: nat :: b in m.index ==> m.index[b] != {})
    && m.count == |m.nodes|
  }

  ghost predicate ApartAt(ns: Nodes, k: Key, l: Key) {
    k in ns ==> ns[k].pages > 0 && k.base + ns[k].pages <= PT.Span(TOP) &&
                (l in ns && k.dom == l.dom && k.base < l.base ==> k.base + ns[k].pages <= l.base)
  }

  ghost predicate Covers(ns: Nodes, k: Key, n: nat) {
    k in ns && k.base <= n < k.base + ns[k].pages
  }

  ghost predicate MappedAt(ns: Nodes, hw: map<nat, Sl>, superpages: bool, k: Key, n: nat) {
    Covers(ns, k, n) && n < PT.Span(TOP) ==>
      k.dom in hw && IsRoot(hw[k.dom]) &&
      Seen(hw[k.dom], n) == Some(Want(superpages, k.base, k.base, ns[k].pages, ns[k].perm, n))
  }

  ghost predicate UnmappedAt(ns: Nodes, hw: map<nat, Sl>, d: nat, n: nat) {
    d in hw && n < PT.Span(TOP) ==>
        IsRoot(hw[d]) && (Seen(hw[d], n).Some? ==> exists k: Key :: k.dom == d && Covers(ns, k, n))
  }

  ghost predicate Unmapped(ns: Nodes, hw: map<nat, Sl>) {
    forall d: nat, n: nat :: UnmappedAt(ns, hw, d, n)
  }

  /** The hardware tables of a domain map exactly its blocks. */
  ghost predicate Exact(ns: Nodes, hs: Heads, hw: map<nat, Sl>, superpages: bool) {
    && (forall k: Key, l: Key :: ApartAt(ns, k, l))
    && (forall k: Key, n: nat :: MappedAt(ns, hw, superpages, k, n))
    && Unmapped(ns, hw)
    && (forall d: nat :: d in hs <==> d in hw)
    && (forall d: nat :: d in hw ==> IsRoot(hw[d]))
  }

  // -------------------------------------------------------------------------
  // Linking and unlinking
  // -------------------------------------------------------------------------

  /** map_block's insertion at the head of the domain's list and into the block's tree. */
  function Linked(m: Maps, k: Key, pages: nat, perm: Perm): (m': Maps)
    requires k.dom in m.heads && (m.heads[k.dom].Some? ==> m.heads[k.dom].value in m.nodes)
  {
    var head := m.heads[k.dom];
    var ns := m.nodes[k := Node(pages, perm, None, head)];
    m.(nodes := if head.Some? then ns[head.value := ns[head.value].(prev := Some(k))] else ns,
       heads := m.heads[k.dom := Some(k)],
       index := m.index[k.base := (if k.base in m.index then m.index[k.base] else {}) + {k.dom}],
       count := m.count + 1)
  }

  lemma HeadKnown(m: Maps, lists: Lists, d: nat)
    requires Agree(m, lists) && d in m.heads
    ensures d in lists && (m.heads[d].Some? ==> m.heads[d].value in m.nodes && m.heads[d].value.dom == d)
    ensures m.heads[d] == Nth(lists[d], 0)
  {
    assert ListAt(m.nodes, m.heads, lists, d);
    if lists[d] != [] { assert ChainAt(m.nodes, lists[d], d, 0); }
  }

  lemma LinkList(ns: Nodes, ns': Nodes, xs: seq<Key>, k: Key)
    requires NoDup(xs) && k !in ns && (forall i: nat :: i < |xs| ==> ChainAt(ns, xs, k.dom, i))
    requires k in ns' && ns'[k].prev.None? && ns'[k].next == Nth(xs, 0)
    requires forall c: Key :: c in ns && Nth(xs, 0) != Some(c) ==> c in ns' && ns'[c] == ns[c]
    requires forall c: Key :: c in ns && Nth(xs, 0) == Some(c) ==> c in ns' && ns'[c] == ns[c].(prev := Some(k))
    ensures NoDup([k] + xs) && forall i: nat :: i < |xs| + 1 ==> ChainAt(ns', [k] + xs, k.dom, i)
  {
    var ys := [k] + xs;
    forall i: nat | i < |xs| ensures xs[i] != k { assert ChainAt(ns, xs, k.dom, i); }
    forall i: nat | i < |ys| ensures ChainAt(ns', ys, k.dom, i) {
      if i > 0 {
        var j := i - 1;
        assert ChainAt(ns, xs, k.dom, j) && ys[i] == xs[j];
      }
    }
  }

  lemma SameList(ns: Nodes, ns': Nodes, xs: seq<Key>, d: nat)
    requires (forall i: nat :: i < |xs| ==> ChainAt(ns, xs, d, i)) && forall c: Key :: c in ns && c.dom == d ==>
               c in ns' && ns'[c] == ns[c]
    ensures forall i: nat :: i < |xs| ==> ChainAt(ns', xs, d, i)
  {
    forall i: nat | i < |xs| ensures ChainAt(ns', xs, d, i) { assert ChainAt(ns, xs, d, i); }
  }

  lemma LinkAgrees(m: Maps, lists: Lists, k: Key, pages: nat, perm: Perm)
    requires Agree(m, lists) && k !in m.nodes && k.dom in m.heads && k.dom in lists
    requires m.heads[k.dom].Some? ==> m.heads[k.dom].value in m.nodes && m.heads[k.dom].value.dom == k.dom
    ensures Agree(Linked(m, k, pages, perm), lists[k.dom := [k] + lists[k.dom]])
  {
    var m', lists' := Linked(m, k, pages, perm), lists[k.dom := [k] + lists[k.dom]];
    assert ListAt(m.nodes, m.heads, lists, k.dom);
    LinkList(m.nodes, m'.nodes, lists[k.dom], k);
    forall d: nat ensures ListAt(m'.nodes, m'.heads, lists', d) {
      assert ListAt(m.nodes, m.heads, lists, d);
      if d in lists && d != k.dom { SameList(m.nodes, m'.nodes, lists[d], d); }
    }
    forall l: Key ensures KeyAt(m'.nodes, m'.index, lists', l) { assert KeyAt(m.nodes, m.index, lists, l); }
    assert m'.nodes.Keys == m.nodes.Keys + {k};
  }

  /** unlink_mapping. */
  function Unlinked(m: Maps, k: Key): (m': Maps)
    requires k in m.nodes && k.dom in m.heads && k.base in m.index && m.count > 0
    requires m.nodes[k].prev.Some? ==> m.nodes[k].prev.value in m.nodes
    requires m.nodes[k].next.Some? ==> m.nodes[k].next.value in m.nodes
  {
    var x := m.nodes[k];
    var ns1 := if x.prev.Some? then m.nodes[x.prev.value := m.nodes[x.prev.value].(next := x.next)] else m.nodes;
    var ns2 := if x.next.Some? then ns1[x.next.value := ns1[x.next.value].(prev := x.prev)] else ns1;
    var left := m.index[k.base] - {k.dom};
    m.(nodes := ns2 - {k},
       heads := if x.prev.Some? then m.heads else m.heads[k.dom := x.next],
       index := if left == {} then m.index - {k.base} else m.index[k.base := left],
       count := m.count - 1)
  }

  /** A mapping's place on its list, its neighbours and its tree. */
  lemma Placed(m: Maps, lists: Lists, k: Key) returns (i: nat)
    requires Agree(m, lists) && k in m.nodes
    ensures k.dom in m.heads && k.dom in lists && k.base in m.index && m.count > 0 && k.dom in m.index[k.base]
    ensures i < |lists[k.dom]| && lists[k.dom][i] == k
    ensures m.nodes[k].prev == Nth(lists[k.dom], i - 1) && m.nodes[k].next == Nth(lists[k.dom], i + 1)
    ensures m.nodes[k].prev.Some? ==> m.nodes[k].prev.value in m.nodes && m.nodes[k].prev.value.dom == k.dom
    ensures m.nodes[k].next.Some? ==> m.nodes[k].next.value in m.nodes && m.nodes[k].next.value.dom == k.dom
  {
    assert KeyAt(m.nodes, m.index, lists, k) && ListAt(m.nodes, m.heads, lists, k.dom);
    var xs := lists[k.dom];
    i :| 0 <= i < |xs| && xs[i] == k;
    assert ChainAt(m.nodes, xs, k.dom, i);
    if i > 0 { var j := i - 1; assert ChainAt(m.nodes, xs, k.dom, j); }
    if i + 1 < |xs| { var j := i + 1; assert ChainAt(m.nodes, xs, k.dom, j); }
    assert k in m.nodes.Keys;
  }

  lemma CutList(ns: Nodes, ns': Nodes, xs: seq<Key>, d: nat, i: nat)
    requires NoDup(xs) && i < |xs| && (forall j: nat :: j < |xs| ==> ChainAt(ns, xs, d, j))
    requires forall c: Key :: c in ns && c != xs[i] ==> c in ns'
    requires forall c: Key :: c in ns && c in ns' && c != xs[i] ==>
               ns'[c].next == if Nth(xs, i - 1) == Some(c) then Nth(xs, i + 1) else ns[c].next
    requires forall c: Key :: c in ns && c in ns' && c != xs[i] ==>
               ns'[c].prev == if Nth(xs, i + 1) == Some(c) then Nth(xs, i - 1) else ns[c].prev
    ensures NoDup(Drop(xs, i)) && forall j: nat :: j < |xs| - 1 ==> ChainAt(ns', Drop(xs, i), d, j)
  {
    var ys := Drop(xs, i);
    forall j: nat | j < |ys| ensures ChainAt(ns', ys, d, j) {
      var l := if j < i then j else j + 1;
      assert ChainAt(ns, xs, d, l) && ys[j] == xs[l];
    }
  }

  lemma UnlinkAgrees(m: Maps, lists: Lists, k: Key, i: nat)
    requires Agree(m, lists) && k in m.nodes && k.dom in m.heads && k.dom in lists && k.base in m.index && m.count > 0
    requires k.dom in m.index[k.base]
    requires i < |lists[k.dom]| && lists[k.dom][i] == k
    requires m.nodes[k].prev == Nth(lists[k.dom], i - 1) && m.nodes[k].next == Nth(lists[k.dom], i + 1)
    requires m.nodes[k].prev.Some? ==> m.nodes[k].prev.value in m.nodes && m.nodes[k].prev.value.dom == k.dom
    requires m.nodes[k].next.Some? ==> m.nodes[k].next.value in m.nodes && m.nodes[k].next.value.dom == k.dom
    ensures Agree(Unlinked(m, k), lists[k.dom := Drop(lists[k.dom], i)])
  {
    var m', lists' := Unlinked(m, k), lists[k.dom := Drop(lists[k.dom], i)];
    assert ListAt(m.nodes, m.heads, lists, k.dom);
    UnlinkNodes(m, k, lists[k.dom], i);
    UnlinkLists(m.nodes, m.heads, lists, m'.nodes, m'.heads, k, i);
    UnlinkKeys(m.nodes, m.index, lists, m'.nodes, m'.index, lists', k, i);
    assert m'.nodes.Keys == m.nodes.Keys - {k};
  }

  /** Only the neighbours' links changed. */
  lemma UnlinkNodes(m: Maps, k: Key, xs: seq<Key>, i: nat)
    requires k in m.nodes && k.dom in m.heads && k.base in m.index && m.count > 0 && NoDup(xs) && i < |xs| && xs[i] == k
    requires m.nodes[k].prev == Nth(xs, i - 1) && m.nodes[k].next == Nth(xs, i + 1)
    requires m.nodes[k].prev.Some? ==> m.nodes[k].prev.value in m.nodes && m.nodes[k].prev.value.dom == k.dom
    requires m.nodes[k].next.Some? ==> m.nodes[k].next.value in m.nodes && m.nodes[k].next.value.dom == k.dom
    ensures var ns, ns' := m.nodes, Unlinked(m, k).nodes;
            && (forall c: Key :: c in ns' <==> c in ns && c != k)
            && (forall c: Key :: c in ns && c != k && c.dom != k.dom ==> ns'[c] == ns[c])
            && (forall c: Key :: c in ns && c != k ==>
                  ns'[c].next == if Nth(xs, i - 1) == Some(c) then Nth(xs, i + 1) else ns[c].next)
            && (forall c: Key :: c in ns && c != k ==>
                  ns'[c].prev == if Nth(xs, i + 1) == Some(c) then Nth(xs, i - 1) else ns[c].prev)
  {
  }

  lemma UnlinkLists(ns: Nodes, hs: Heads, lists: Lists, ns': Nodes, hs': Heads, k: Key, i: nat)
    requires Listed(ns, hs, lists) && k.dom in lists && k.dom in hs && i < |lists[k.dom]| && lists[k.dom][i] == k
    requires hs' == if i > 0 then hs else hs[k.dom := Nth(lists[k.dom], 1)]
    requires forall c: Key :: c in ns && c != k ==> c in ns' && (c.dom != k.dom ==> ns'[c] == ns[c])
    requires forall c: Key :: c in ns && c in ns' && c != k ==>
               ns'[c].next == if Nth(lists[k.dom], i - 1) == Some(c) then Nth(lists[k.dom], i + 1) else ns[c].next
    requires forall c: Key :: c in ns && c in ns' && c != k ==>
               ns'[c].prev == if Nth(lists[k.dom], i + 1) == Some(c) then Nth(lists[k.dom], i - 1) else ns[c].prev
    ensures Listed(ns', hs', lists[k.dom := Drop(lists[k.dom], i)])
  {
    var lists' := lists[k.dom := Drop(lists[k.dom], i)];
    assert ListAt(ns, hs, lists, k.dom);
    CutList(ns, ns', lists[k.dom], k.dom, i);
    forall d: nat ensures ListAt(ns', hs', lists', d) {
      assert ListAt(ns, hs, lists, d);
      if d in lists && d != k.dom { SameList(ns, ns', lists[d], d); }
    }
  }

  lemma UnlinkKeys(ns: Nodes, ix: Index, lists: Lists, ns': Nodes, ix': Index, lists': Lists, k: Key, i: nat)
    requires (forall l: Key :: KeyAt(ns, ix, lists, l)) && k.base in ix && k.dom in lists && i < |lists[k.dom]|
    requires lists[k.dom][i] == k
    requires NoDup(lists[k.dom]) && lists' == lists[k.dom := Drop(lists[k.dom], i)]
    requires forall l: Key :: l in ns' <==> l in ns && l != k
    requires ix' == var left := ix[k.base] - {k.dom}; if left == {} then ix - {k.base} else ix[k.base := left]
    requires forall b: nat :: b in ix ==> ix[b] != {}
    ensures (forall l: Key :: KeyAt(ns', ix', lists', l)) && forall b: nat :: b in ix' ==> ix'[b] != {}
  {
    DropMembers(lists[k.dom], i);
    forall l: Key ensures KeyAt(ns', ix', lists', l) {
      assert KeyAt(ns, ix, lists, l);
      assert l.base == k.base ==> (l.dom in ix[k.base] - {k.dom} <==> l.dom in ix[k.base] && l.dom != k.dom);
      assert l == k <==> l.dom == k.dom && l.base == k.base;
    }
  }

  // -------------------------------------------------------------------------
  // The hardware tables
  // -------------------------------------------------------------------------

  /** The pages of a block that meets no mapped block of the domain. */
  ghost predicate ClearAt(ns: Nodes, d: nat, base: nat, pages: nat, k: Key) {
    k in ns && k.dom == d ==> k.base + ns[k].pages <= base || base + pages <= k.base
  }

  ghost predicate Clear(ns: Nodes, d: nat, base: nat, pages: nat) {
    forall k: Key :: ClearAt(ns, d, base, pages, k)
  }

  lemma ClearIsFree(ns: Nodes, hs: Heads, hw: map<nat, Sl>, superpages: bool, d: nat, base: nat, pages: nat)
    requires Exact(ns, hs, hw, superpages) && d in hw && Clear(ns, d, base, pages)
    ensures IsRoot(hw[d]) && Safe(hw[d], superpages, base, base, pages)
  {
    forall n: nat ensures SafeAt(hw[d], superpages, base, base, pages, n) {
      assert UnmappedAt(ns, hw, d, n);
      forall k: Key | k.dom == d && Covers(ns, k, n)
        ensures !(base <= n < base + pages)
      {
        assert ClearAt(ns, d, base, pages, k);
      }
    }
  }

  /** Node links do not matter to the tables. */
  ghost predicate SameBlocks(ns: Nodes, ns': Nodes, k: Key) {
    forall l: Key :: l != k ==>
        (l in ns' <==> l in ns) && (l in ns ==> ns'[l].pages == ns[l].pages && ns'[l].perm == ns[l].perm)
  }

  lemma MapExact(ns: Nodes, hs: Heads, hw: map<nat, Sl>, superpages: bool, ns': Nodes, hs': Heads, k: Key, u: Sl)
    requires Exact(ns, hs, hw, superpages) && k.dom in hw && k !in ns && k in ns' && SameBlocks(ns, ns', k)
    requires Clear(ns, k.dom, k.base, ns'[k].pages)
    requires ns'[k].pages > 0 && k.base + ns'[k].pages <= PT.Span(TOP) && IsRoot(u) && IsRoot(hw[k.dom])
    requires Part(hw[k.dom], u, superpages, k.base, k.base, ns'[k].pages, ns'[k].perm, k.base + ns'[k].pages)
    requires forall d: nat :: d in hs' <==> d in hs
    ensures Exact(ns', hs', hw[k.dom := u], superpages)
  {
    var hw', hi := hw[k.dom := u], k.base + ns'[k].pages;
    forall l: Key, j: Key ensures ApartAt(ns', l, j) {
      assert ApartAt(ns, l, j) && ClearAt(ns, k.dom, k.base, ns'[k].pages, l) &&
        ClearAt(ns, k.dom, k.base, ns'[k].pages, j);
    }
    forall l: Key, n: nat ensures MappedAt(ns', hw', superpages, l, n) {
      assert MappedAt(ns, hw, superpages, l, n) && ClearAt(ns, k.dom, k.base, ns'[k].pages, l);
      assert PartAt(hw[k.dom], u, superpages, k.base, k.base, ns'[k].pages, ns'[k].perm, hi, n);
    }
    MapUnmapped(ns, hs, hw, superpages, ns', k, u);
  }

  lemma MapUnmapped(ns: Nodes, hs: Heads, hw: map<nat, Sl>, superpages: bool, ns': Nodes, k: Key, u: Sl)
    requires Exact(ns, hs, hw, superpages) && k.dom in hw && k in ns' && SameBlocks(ns, ns', k) && k !in ns
    requires IsRoot(u) && IsRoot(hw[k.dom])
    requires Part(hw[k.dom], u, superpages, k.base, k.base, ns'[k].pages, ns'[k].perm, k.base + ns'[k].pages)
    ensures Unmapped(ns', hw[k.dom := u])
  {
    var hw', hi := hw[k.dom := u], k.base + ns'[k].pages;
    forall d: nat, n: nat ensures UnmappedAt(ns', hw', d, n) {
      assert UnmappedAt(ns, hw, d, n);
      assert PartAt(hw[k.dom], u, superpages, k.base, k.base, ns'[k].pages, ns'[k].perm, hi, n);
      if d in hw && n < PT.Span(TOP) && Seen(hw'[d], n).Some? {
        if d == k.dom && k.base <= n < hi {
          assert Covers(ns', k, n);
        } else {
          var l: Key :| l.dom == d && Covers(ns, l, n);
          assert Covers(ns', l, n);
        }
      }
    }
  }

  lemma MappedIsHeld(ns: Nodes, hs: Heads, hw: map<nat, Sl>, superpages: bool, k: Key)
    requires Exact(ns, hs, hw, superpages) && k in ns && k.dom in hw
    ensures IsRoot(hw[k.dom]) && k.base + ns[k].pages <= PT.Span(TOP)
    ensures Held(hw[k.dom], k.base, k.base + ns[k].pages) && Safe(hw[k.dom], superpages, k.base, k.base, ns[k].pages)
  {
    assert ApartAt(ns, k, k);
    var hi, pages := k.base + ns[k].pages, ns[k].pages;
    forall n: nat ensures HeldAt(hw[k.dom], k.base, hi, n) { assert MappedAt(ns, hw, superpages, k, n); }
    forall n: nat
      ensures SafeAt(hw[k.dom], superpages, k.base, k.base, pages, n)
    {
      assert MappedAt(ns, hw, superpages, k, n);
    }
  }

  lemma UnmapExact(ns: Nodes, hs: Heads, hw: map<nat, Sl>, superpages: bool, ns': Nodes, hs': Heads, k: Key, u: Sl)
    requires Exact(ns, hs, hw, superpages) && k.dom in hw && k in ns && k !in ns' && SameBlocks(ns, ns', k)
    requires IsRoot(u) && IsRoot(hw[k.dom]) && Cleared(hw[k.dom], u, k.base, k.base + ns[k].pages)
    requires forall d: nat :: d in hs' <==> d in hs
    ensures Exact(ns', hs', hw[k.dom := u], superpages)
  {
    var hw', hi := hw[k.dom := u], k.base + ns[k].pages;
    forall l: Key, j: Key ensures ApartAt(ns', l, j) { assert ApartAt(ns, l, j); }
    forall l: Key, n: nat ensures MappedAt(ns', hw', superpages, l, n) {
      assert MappedAt(ns, hw, superpages, l, n) && ApartAt(ns, l, k) && ApartAt(ns, k, l) &&
        ClearedAt(hw[k.dom], u, k.base, hi, n);
    }
    forall d: nat, n: nat ensures UnmappedAt(ns', hw', d, n) {
      assert UnmappedAt(ns, hw, d, n) && ClearedAt(hw[k.dom], u, k.base, hi, n);
      if d in hw && n < PT.Span(TOP) && Seen(hw'[d], n).Some? {
        var l: Key :| l.dom == d && Covers(ns, l, n);
        assert Covers(ns', l, n);
      }
    }
  }

  /** A mapped block enters every index. */
  lemma MapKept(m: Maps, lists: Lists, superpages: bool, k: Key, pages: nat, perm: Perm, u: Sl)
    requires Agree(m, lists) && Exact(m.nodes, m.heads, m.hw, superpages) && k !in m.nodes && k.dom in m.heads
    requires k.dom in m.hw && k.dom in lists
    requires m.heads[k.dom].Some? ==> m.heads[k.dom].value in m.nodes && m.heads[k.dom].value.dom == k.dom
    requires Clear(m.nodes, k.dom, k.base, pages) && pages > 0 && k.base + pages <= PT.Span(TOP) && IsRoot(u)
    requires IsRoot(m.hw[k.dom])
    requires Part(m.hw[k.dom], u, superpages, k.base, k.base, pages, perm, k.base + pages)
    ensures Agree(Linked(m, k, pages, perm).(hw := m.hw[k.dom := u]), lists[k.dom := [k] + lists[k.dom]])
    ensures Exact(Linked(m, k, pages, perm).nodes, Linked(m, k, pages, perm).heads, m.hw[k.dom := u], superpages)
    ensures Linked(m, k, pages, perm).nodes.Keys == m.nodes.Keys + {k}
    ensures Linked(m, k, pages, perm).nodes[k].pages == pages && Linked(m, k, pages, perm).nodes[k].perm == perm
    ensures SameBlocks(m.nodes, Linked(m, k, pages, perm).nodes, k)
  {
    var m' := Linked(m, k, pages, perm);
    assert Agree(m'.(hw := m.hw[k.dom := u]),
                 lists[k.dom := [k] + lists[k.dom]]) by { LinkAgrees(m, lists, k, pages, perm); }
    LinkSame(m, k, pages, perm);
    MapExact(m.nodes, m.heads, m.hw, superpages, m'.nodes, m'.heads, k, u);
  }

  lemma LinkSame(m: Maps, k: Key, pages: nat, perm: Perm)
    requires k !in m.nodes && k.dom in m.heads && (m.heads[k.dom].Some? ==> m.heads[k.dom].value in m.nodes)
    ensures Linked(m, k, pages, perm).nodes.Keys == m.nodes.Keys + {k}
    ensures SameBlocks(m.nodes, Linked(m, k, pages, perm).nodes, k)
    ensures forall d: nat :: d in Linked(m, k, pages, perm).heads <==> d in m.heads
  {
  }

  /** An unmapped block leaves every index. */
  lemma UnmapKept(m: Maps, lists: Lists, superpages: bool, k: Key, i: nat, u: Sl)
    requires Agree(m, lists) && Exact(m.nodes, m.heads, m.hw, superpages) && k in m.nodes && k.dom in m.heads
    requires k.dom in m.hw && k.dom in lists
    requires k.base in m.index && m.count > 0 && k.dom in m.index[k.base] && i < |lists[k.dom]| && lists[k.dom][i] == k
    requires m.nodes[k].prev == Nth(lists[k.dom], i - 1) && m.nodes[k].next == Nth(lists[k.dom], i + 1)
    requires m.nodes[k].prev.Some? ==> m.nodes[k].prev.value in m.nodes && m.nodes[k].prev.value.dom == k.dom
    requires m.nodes[k].next.Some? ==> m.nodes[k].next.value in m.nodes && m.nodes[k].next.value.dom == k.dom
    requires IsRoot(u) && IsRoot(m.hw[k.dom]) && Cleared(m.hw[k.dom], u, k.base, k.base + m.nodes[k].pages)
    ensures Agree(Unlinked(m, k).(hw := m.hw[k.dom := u]), lists[k.dom := Drop(lists[k.dom], i)])
    ensures Exact(Unlinked(m, k).nodes, Unlinked(m, k).heads, m.hw[k.dom := u], superpages)
    ensures Unlinked(m, k).nodes.Keys == m.nodes.Keys - {k} && SameBlocks(m.nodes, Unlinked(m, k).nodes, k)
    ensures forall d: nat :: d in Unlinked(m, k).heads <==> d in m.heads
  {
    UnlinkAgrees(m, lists, k, i);
    var m' := Unlinked(m, k);
    UnlinkSame(m, k);
    UnmapExact(m.nodes, m.heads, m.hw, superpages, m'.nodes, m'.heads, k, u);
  }

  lemma UnlinkSame(m: Maps, k: Key)
    requires k in m.nodes && k.dom in m.heads && k.base in m.index && m.count > 0
    requires m.nodes[k].prev.Some? ==> m.nodes[k].prev.value in m.nodes
    requires m.nodes[k].next.Some? ==> m.nodes[k].next.value in m.nodes
    ensures Unlinked(m, k).nodes.Keys == m.nodes.Keys - {k} && SameBlocks(m.nodes, Unlinked(m, k).nodes, k)
    ensures forall d: nat :: d in Unlinked(m, k).heads <==> d in m.heads
  {
  }

  // -------------------------------------------------------------------------
  // The operations
  // -------------------------------------------------------------------------

  /** What map_block's checks say before any table is touched. */
  function Checked(m: Maps, superpages: bool, d: nat, base: nat, pages: nat, perm: Perm, bits: bool, usable: bool,
                   room: bool): (s: Status) {
    if !Grants(perm) || !bits then Inval
    else if Key(d, base) in m.nodes then Exist
    else if m.count == MAX_MAPPINGS then NoMem
    else if !usable then Inval
    else if Leaves(superpages, base, pages) > MAX_LEAVES || !room then NoMem else Ok
  }

  /** The domain's tables have room for every leaf of the block. */
  ghost predicate Fits(hw: map<nat, Sl>, superpages: bool, d: nat, base: nat, pages: nat) {
    d in hw && IsRoot(hw[d]) && base + pages <= PT.Span(TOP) && RangeVacant(hw[d], superpages, base, base, pages)
  }

  class Domains {
    const superpages: bool
    var m: Maps
    ghost var lists: Lists

    ghost predicate Valid()
      reads this
    {
      Agree(m, lists) && Exact(m.nodes, m.heads, m.hw, superpages) && m.count <= MAX_MAPPINGS
    }

    constructor (superpages: bool)
      ensures Valid() && this.superpages == superpages && m.nodes == map[] && m.count == 0 && m.index == map[]
      ensures m.heads == map[]
    {
      this.superpages := superpages;
      m, lists := Maps(map[], map[], map[], map[], 0), map[];
      new;
      forall k: Key ensures KeyAt(m.nodes, m.index, lists, k) { }
    }

    /** find_mapping: the walk along the domain's list finds the block's mapping if there is one. */
    method Find(d: nat, base: nat) returns (found: bool)
      requires Valid() && d in m.heads
      ensures found <==> Key(d, base) in m.nodes
    {
      HeadKnown(m, lists, d);
      assert ListAt(m.nodes, m.heads, lists, d) && KeyAt(m.nodes, m.index, lists, Key(d, base));
      var at := m.heads[d];
      ghost var i: nat := 0;
      while at.Some?
        invariant i <= |lists[d]| && at == Nth(lists[d], i)
        invariant forall j :: 0 <= j < i ==> lists[d][j] != Key(d, base)
        decreases |lists[d]| - i
      {
        assert ChainAt(m.nodes, lists[d], d, i);
        if at.value.base == base { return true; }
        at := m.nodes[at.value].next;
        i := i + 1;
      }
      found := false;
    }

    /** The new domain has no mappings and an empty root. */
    method Create(d: nat)
      requires Valid() && d !in m.heads
      modifies this`m, this`lists
      ensures Valid() && m == old(m).(heads := old(m.heads)[d := None], hw := old(m.hw)[d := Table(Blank())])
    {
      CreateKept(m, lists, superpages, d);
      lists := lists[d := []];
      m := m.(heads := m.heads[d := None], hw := m.hw[d := Table(Blank())]);
    }

    /** map_block; `usable`: the address is the base of a RAM block the caller sees that is no ring. */
    method MapBlock(d: nat, base: nat, pages: nat, perm: Perm, bits: bool, usable: bool, room: bool, budget: nat)
      returns (s: Status)
      requires Valid() && d in m.heads
      requires usable ==> pages > 0 && (Key(d, base) !in m.nodes ==> Clear(m.nodes, d, base, pages))
      modifies this`m, this`lists
      ensures Valid() && m.heads.Keys == old(m.heads.Keys)
      ensures !s.Ok? ==>
                m.nodes == old(m.nodes) && m.heads == old(m.heads) && m.index == old(m.index) && m.count == old(m.count)
      ensures s.Ok? ==> m.nodes.Keys == old(m.nodes.Keys) + {Key(d, base)} && m.count == old(m.count) + 1
      ensures s.Ok? ==>
                m.nodes[Key(d, base)].pages == pages && m.nodes[Key(d, base)].perm == perm &&
                SameBlocks(old(m.nodes), m.nodes, Key(d, base))
      ensures !Checked(old(m), superpages, d, base, pages, perm, bits, usable, room).Ok? ==>
                s == Checked(old(m), superpages, d, base, pages, perm, bits, usable, room)
      ensures Checked(old(m), superpages, d, base, pages, perm, bits, usable, room).Ok? ==> s.Ok? || s.NoMem?
      ensures Checked(old(m), superpages, d, base, pages, perm, bits, usable, room).Ok? ==>
                budget >= 3 * Leaves(superpages, base, pages) ==>
                  (s.Ok? <==> Fits(old(m.hw), superpages, d, base, pages))
    {
      if !Grants(perm) || !bits { return Inval; }
      var found := Find(d, base);
      if found { return Exist; }
      if m.count == MAX_MAPPINGS { return NoMem; }
      if !usable { return Inval; }
      var leaves := MappingLeaves(superpages, base, pages);
      if leaves > MAX_LEAVES || !room { return NoMem; }
      var ok := MapHw(d, base, pages, perm, budget);
      s := if ok then Ok else NoMem;
    }

    /** The table update and, if it succeeded, the link into both indexes. */
    method MapHw(d: nat, base: nat, pages: nat, perm: Perm, budget: nat) returns (ok: bool)
      requires Valid() && d in m.heads && Key(d, base) !in m.nodes && m.count < MAX_MAPPINGS && pages > 0
      requires Clear(m.nodes, d, base, pages) && Grants(perm)
      modifies this`m, this`lists
      ensures Valid() && m.heads.Keys == old(m.heads.Keys)
      ensures !ok ==>
                m.nodes == old(m.nodes) && m.heads == old(m.heads) && m.index == old(m.index) && m.count == old(m.count)
      ensures ok ==> m.nodes.Keys == old(m.nodes.Keys) + {Key(d, base)} && m.count == old(m.count) + 1
      ensures ok ==>
                m.nodes[Key(d, base)].pages == pages && m.nodes[Key(d, base)].perm == perm &&
                SameBlocks(old(m.nodes), m.nodes, Key(d, base))
      ensures budget >= 3 * Leaves(superpages, base, pages) ==> (ok <==> Fits(old(m.hw), superpages, d, base, pages))
    {
      var k := Key(d, base);
      HeadKnown(m, lists, d);
      ClearIsFree(m.nodes, m.heads, m.hw, superpages, d, base, pages);
      var u, writes;
      ok, u, writes := Map(m.hw[d], superpages, base, base, pages, perm, budget);
      LeavesSame(superpages, base, base, pages);
      if ok {
        Enter(k, pages, perm, u);
      } else {
        SameExact(m.nodes, m.heads, m.hw, superpages, d, u);
        m := m.(hw := m.hw[d := u]);
      }
    }

    method Enter(k: Key, pages: nat, perm: Perm, u: Sl)
      requires Valid() && k !in m.nodes && k.dom in m.heads && k.dom in m.hw && m.count < MAX_MAPPINGS
      requires Clear(m.nodes, k.dom, k.base, pages) && pages > 0 && k.base + pages <= PT.Span(TOP) && IsRoot(u)
      requires IsRoot(m.hw[k.dom])
      requires Part(m.hw[k.dom], u, superpages, k.base, k.base, pages, perm, k.base + pages)
      modifies this`m, this`lists
      ensures Valid() && m.heads.Keys == old(m.heads.Keys) && m.nodes.Keys == old(m.nodes.Keys) + {k}
      ensures m.count == old(m.count) + 1
      ensures m.nodes[k].pages == pages && m.nodes[k].perm == perm && SameBlocks(old(m.nodes), m.nodes, k)
    {
      HeadKnown(m, lists, k.dom);
      MapKept(m, lists, superpages, k, pages, perm, u);
      lists := lists[k.dom := [k] + lists[k.dom]];
      m := Linked(m, k, pages, perm).(hw := m.hw[k.dom := u]);
    }

    /** unmap_mapping: the tables give the block up without fail, then both indexes do. */
    method UnmapMapping(k: Key) returns (ok: bool)
      requires Valid() && k in m.nodes
      modifies this`m, this`lists
      ensures ok && Valid() && m.nodes.Keys == old(m.nodes.Keys) - {k} && m.count + 1 == old(m.count)
      ensures m.heads.Keys == old(m.heads.Keys)
      ensures SameBlocks(old(m.nodes), m.nodes, k)
    {
      ghost var i := Placed(m, lists, k);
      MappedIsHeld(m.nodes, m.heads, m.hw, superpages, k);
      var u;
      ghost var hi;
      ok, u, hi := Unmap(m.hw[k.dom], superpages, k.base, m.nodes[k].pages);
      UnmapKept(m, lists, superpages, k, i, u);
      lists := lists[k.dom := Drop(lists[k.dom], i)];
      m := Unlinked(m, k).(hw := m.hw[k.dom := u]);
    }

    method UnmapBlock(d: nat, base: nat) returns (s: Status)
      requires Valid() && d in m.heads
      modifies this`m, this`lists
      ensures !s.Ok? ==> m == old(m)
      ensures Valid() && s == (if Key(d, base) in old(m.nodes) then Ok else Inval) && m.heads.Keys == old(m.heads.Keys)
      ensures m.nodes.Keys == old(m.nodes.Keys) - {Key(d, base)} && SameBlocks(old(m.nodes), m.nodes, Key(d, base))
    {
      var found := Find(d, base);
      if !found { return Inval; }
      var _ := UnmapMapping(Key(d, base));
      s := Ok;
    }

    /** iommu_revoke_map after its check of authority: the block's own tree finds the mapping, whoever made it. */
    method RevokeMap(base: nat, d: nat) returns (s: Status)
      requires Valid()
      modifies this`m, this`lists
      ensures !s.Ok? ==> m == old(m)
      ensures Valid() && s == (if Key(d, base) in old(m.nodes) then Ok else Inval) && m.heads.Keys == old(m.heads.Keys)
      ensures m.nodes.Keys == old(m.nodes.Keys) - {Key(d, base)} && SameBlocks(old(m.nodes), m.nodes, Key(d, base))
    {
      assert KeyAt(m.nodes, m.index, lists, Key(d, base));
      if base !in m.index || d !in m.index[base] { return Inval; }
      var _ := UnmapMapping(Key(d, base));
      s := Ok;
    }

    /** A domain without mappings is taken off the list, with its tables. */
    method Retire(d: nat)
      requires Valid() && d in m.heads && m.heads[d].None?
      modifies this`m, this`lists
      ensures Valid() && m == old(m).(heads := old(m.heads) - {d}, hw := old(m.hw) - {d})
      ensures m.heads.Keys == old(m.heads.Keys) - {d} && forall k: Key :: k in m.nodes ==> k.dom != d
    {
      HeadKnown(m, lists, d);
      assert ListAt(m.nodes, m.heads, lists, d);
      forall k: Key | k.dom == d ensures k !in m.nodes { assert KeyAt(m.nodes, m.index, lists, k); }
      DestroyKept(m, lists, superpages, d);
      lists := lists - {d};
      m := m.(heads := m.heads - {d}, hw := m.hw - {d});
    }
  }

  /** A block has a tree of mappings just when it has a mapping. */
  lemma IndexExact(m: Maps, lists: Lists, b: nat)
    requires Agree(m, lists)
    ensures b in m.index <==> exists d: nat :: Key(d, b) in m.nodes
  {
    if b in m.index {
      var d :| d in m.index[b];
      assert KeyAt(m.nodes, m.index, lists, Key(d, b));
    }
    forall d: nat | Key(d, b) in m.nodes ensures b in m.index { assert KeyAt(m.nodes, m.index, lists, Key(d, b)); }
  }

  /** A failed map may leave empty tables behind, which map nothing. */
  lemma SameExact(ns: Nodes, hs: Heads, hw: map<nat, Sl>, superpages: bool, d: nat, u: Sl)
    requires Exact(ns, hs, hw, superpages) && d in hw && IsRoot(hw[d]) && IsRoot(u) && Same(hw[d], u)
    ensures Exact(ns, hs, hw[d := u], superpages)
  {
    var hw' := hw[d := u];
    forall l: Key, n: nat
      ensures MappedAt(ns, hw', superpages, l, n)
    {
      assert MappedAt(ns, hw, superpages, l, n) && SameAt(hw[d], u, n);
    }
    forall c: nat, n: nat ensures UnmappedAt(ns, hw', c, n) { assert UnmappedAt(ns, hw, c, n) && SameAt(hw[d], u, n); }
  }

  lemma CreateKept(m: Maps, lists: Lists, superpages: bool, d: nat)
    requires Agree(m, lists) && Exact(m.nodes, m.heads, m.hw, superpages) && d !in m.heads
    ensures var m' := m.(heads := m.heads[d := None], hw := m.hw[d := Table(Blank())]);
            Agree(m', lists[d := []]) && Exact(m'.nodes, m'.heads, m'.hw, superpages)
  {
    var m' := m.(heads := m.heads[d := None], hw := m.hw[d := Table(Blank())]);
    var lists' := lists[d := []];
    assert ListAt(m.nodes, m.heads, lists, d);
    forall c: nat ensures ListAt(m'.nodes, m'.heads, lists', c) { assert ListAt(m.nodes, m.heads, lists, c); }
    forall k: Key ensures KeyAt(m'.nodes, m'.index, lists', k) { assert KeyAt(m.nodes, m.index, lists, k); }
    forall k: Key, n: nat
      ensures MappedAt(m'.nodes, m'.hw, superpages, k, n)
    {
      assert MappedAt(m.nodes, m.hw, superpages, k, n);
    }
    forall c: nat, n: nat ensures UnmappedAt(m'.nodes, m'.hw, c, n) { assert UnmappedAt(m.nodes, m.hw, c, n); }
  }

  lemma DestroyKept(m: Maps, lists: Lists, superpages: bool, d: nat)
    requires Agree(m, lists) && Exact(m.nodes, m.heads, m.hw, superpages) && d in m.heads && m.heads[d].None?
    ensures var m' := m.(heads := m.heads - {d}, hw := m.hw - {d});
            Agree(m', lists - {d}) && Exact(m'.nodes, m'.heads, m'.hw, superpages)
    ensures forall k: Key :: k in m.nodes ==> k.dom != d
  {
    var m' := m.(heads := m.heads - {d}, hw := m.hw - {d});
    var lists' := lists - {d};
    assert ListAt(m.nodes, m.heads, lists, d);
    forall k: Key | k in m.nodes ensures k.dom != d { assert KeyAt(m.nodes, m.index, lists, k); }
    forall c: nat ensures ListAt(m'.nodes, m'.heads, lists', c) { assert ListAt(m.nodes, m.heads, lists, c); }
    forall k: Key ensures KeyAt(m'.nodes, m'.index, lists', k) { assert KeyAt(m.nodes, m.index, lists, k); }
    forall k: Key, n: nat
      ensures MappedAt(m'.nodes, m'.hw, superpages, k, n)
    {
      assert MappedAt(m.nodes, m.hw, superpages, k, n);
    }
    forall c: nat, n: nat ensures UnmappedAt(m'.nodes, m'.hw, c, n) { assert UnmappedAt(m.nodes, m.hw, c, n); }
  }
}
