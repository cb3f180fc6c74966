/** The capability grant tree of capability.c: grants by id, linked to their parent
    and in intrusive sibling lists, with the authority each one carries. */
module GrantTree {
  import opened Seqs


  /** What a grant allows.  Flag words are the sets of their one bits. */
  datatype Power =
    | DevMem(base: nat, len: nat, flags: set<nat>)
    | IrqRoute(route: Option<nat>, irq: nat)
    | IommuDev(requester: nat)

  datatype Grant = Grant(
    power: Power, wildcard: bool, depth: nat, dead: bool,
    parent: Option<nat>, first: Option<nat>, next: Option<nat>, prev: Option<nat>)

  type Grants = map<nat, Grant>
  type Kids = map<nat, seq<nat>>

  const MAX_DEPTH: nat := 64

  predicate SameKind(a: Power, b: Power) {
    a.DevMem? == b.DevMem? && a.IrqRoute? == b.IrqRoute?
  }

  /** Everything `a` allows, `b` allows. */
  predicate Within(a: Power, b: Power) {
    match (a, b)
    case (DevMem(lo, n, f), DevMem(lo', n', f')) => lo' <= lo && lo + n <= lo' + n' && f <= f'
    case (IrqRoute(r, i), IrqRoute(r', i')) => r == r' && i == i'
    case (IommuDev(q), IommuDev(q')) => q == q'
    case _ => false
  }

  /** The child is no wildcard and stays within its parent. */
  predicate Attenuates(child: Grant, parent: Grant) {
    !child.wildcard && SameKind(child.power, parent.power) && (parent.wildcard || Within(child.power, parent.power))
  }

  // -------------------------------------------------------------------------
  // The invariant
  // -------------------------------------------------------------------------

  ghost predicate KidAt(gs: Grants, xs: seq<nat>, p: nat, i: nat)
    requires i < |xs|
  {
    xs[i] in gs && gs[xs[i]].parent == Some(p) && gs[xs[i]].prev == Nth(xs, i - 1) && gs[xs[i]].next == Nth(xs, i + 1)
  }

  /** The sibling links below `p` spell out the list of its children. */
  ghost predicate ListAt(gs: Grants, kids: Kids, p: nat) {
    (p in gs <==> p in kids) && (p in gs ==>
      NoDup(kids[p]) && gs[p].first == Nth(kids[p], 0) && forall i: nat :: i < |kids[p]| ==> KidAt(gs, kids[p], p, i))
  }

  ghost predicate UpAt(gs: Grants, kids: Kids, next: nat, g: nat) {
    g in gs ==>
      && g < next
      && (gs[g].parent.None? ==> gs[g].depth == 0 && gs[g].prev.None? && gs[g].next.None?)
      && (gs[g].parent.Some? ==>
            var p := gs[g].parent.value;
            p in gs && p in kids && p < g && g in kids[p] && gs[g].depth == gs[p].depth + 1 <= MAX_DEPTH &&
              Attenuates(gs[g], gs[p]))
  }

  ghost predicate Lists(gs: Grants, kids: Kids) {
    forall p: nat :: ListAt(gs, kids, p)
  }

  /** Sibling lists spell out the children, and every grant is attenuated below its parent. */
  ghost predicate Tree(gs: Grants, kids: Kids, next: nat) {
    Lists(gs, kids) && (forall g: nat :: UpAt(gs, kids, next, g))
  }

  // -------------------------------------------------------------------------
  // Ancestors
  // -------------------------------------------------------------------------

  /** `g` is `root` or below it. */
  predicate Under(gs: Grants, root: nat, g: nat)
    decreases g
  {
    g in gs && (g == root || (gs[g].parent.Some? && gs[g].parent.value < g && Under(gs, root, gs[g].parent.value)))
  }

  function Subtree(gs: Grants, root: nat): (s: set<nat>) {
    set g | g in gs && Under(gs, root, g)
  }

  /** Neither `g` nor any grant above it is dead. */
  predicate Live(gs: Grants, g: nat)
    decreases g
  {
    g in gs && !gs[g].dead && (gs[g].parent.Some? ==> gs[g].parent.value < g && Live(gs, gs[g].parent.value))
  }

  /** A grant's authority is within that of every grant above it. */
  lemma {:induction false} AuthorityWithin(gs: Grants, kids: Kids, next: nat, root: nat, g: nat)
    requires Tree(gs, kids, next) && Under(gs, root, g)
    ensures root in gs && SameKind(gs[g].power, gs[root].power)
    ensures (g == root || gs[root].wildcard || Within(gs[g].power, gs[root].power))
    ensures g != root ==> !gs[g].wildcard
    ensures gs[root].depth <= gs[g].depth
    decreases g
  {
    assert UpAt(gs, kids, next, g);
    if g != root { AuthorityWithin(gs, kids, next, root, gs[g].parent.value); }
  }

  lemma DepthBound(gs: Grants, kids: Kids, next: nat, g: nat)
    requires Tree(gs, kids, next) && g in gs
    ensures gs[g].depth <= MAX_DEPTH && (gs[g].wildcard ==> gs[g].parent.None?)
  {
    assert UpAt(gs, kids, next, g);
  }

  lemma {:induction false} LiveMeans(gs: Grants, g: nat, root: nat)
    requires Under(gs, root, g) && Live(gs, g)
    ensures Live(gs, root)
    decreases g
  {
    if g != root { LiveMeans(gs, gs[g].parent.value, root); }
  }

  // -------------------------------------------------------------------------
  // A new grant
  // -------------------------------------------------------------------------

  /** grant_new: the new grant goes to the head of its parent's list. */
  function Added(gs: Grants, id: nat, parent: Option<nat>, power: Power, wildcard: bool): (gs': Grants)
    requires parent.Some? ==>
               parent.value in gs && (gs[parent.value].first.Some? ==> gs[parent.value].first.value in gs)
  {
    if parent.None? then gs[id := Grant(power, wildcard, 0, false, None, None, None, None)]
    else
      var p := parent.value;
      var head := gs[p].first;
      var gs1 := gs[id := Grant(power, wildcard, gs[p].depth + 1, false, parent, None, head, None)];
      var gs2 := if head.Some? then gs1[head.value := gs1[head.value].(prev := Some(id))] else gs1;
      gs2[p := gs2[p].(first := Some(id))]
  }

  lemma HeadKnown(gs: Grants, kids: Kids, next: nat, p: nat)
    requires Tree(gs, kids, next) && p in gs
    ensures gs[p].first.Some? ==>
              gs[p].first.value in gs && gs[p].first.value > p && gs[gs[p].first.value].parent == Some(p)
    ensures p in kids && (gs[p].first.None? <==> kids[p] == [])
  {
    assert ListAt(gs, kids, p);
    if kids[p] != [] { assert KidAt(gs, kids[p], p, 0) && UpAt(gs, kids, next, kids[p][0]); }
  }

  /** Fields other than the sibling links agree. */
  predicate SameGrant(a: Grant, b: Grant) {
    a.power == b.power && a.wildcard == b.wildcard && a.depth == b.depth && a.parent == b.parent
  }

  /** Lists not touched stay spelled out. */
  lemma ListSame(gs: Grants, kids: Kids, gs': Grants, kids': Kids, q: nat)
    requires ListAt(gs, kids, q) && q in gs && q in gs' && q in kids' && kids'[q] == kids[q]
    requires gs'[q].first == gs[q].first
    requires forall c: nat :: c in gs && gs[c].parent == Some(q) ==>
               c in gs' && gs'[c].parent == gs[c].parent && gs'[c].prev == gs[c].prev && gs'[c].next == gs[c].next
    ensures ListAt(gs', kids', q)
  {
    forall i: nat | i < |kids[q]| ensures KidAt(gs', kids[q], q, i) { assert KidAt(gs, kids[q], q, i); }
  }

  lemma AddRoot(gs: Grants, kids: Kids, next: nat, power: Power, wildcard: bool)
    requires Tree(gs, kids, next)
    ensures Tree(Added(gs, next, None, power, wildcard), kids[next := []], next + 1)
  {
    var gs', kids' := Added(gs, next, None, power, wildcard), kids[next := []];
    assert UpAt(gs, kids, next, next);
    forall q: nat ensures ListAt(gs', kids', q) {
      assert ListAt(gs, kids, q);
      if q in gs && q != next { ListSame(gs, kids, gs', kids', q); }
    }
    var n := next + 1;
    forall g: nat ensures UpAt(gs', kids', n, g) { assert UpAt(gs, kids, next, g); }
  }

  lemma AddChild(gs: Grants, kids: Kids, next: nat, p: nat, power: Power)
    requires Tree(gs, kids, next) && p in gs && p in kids && gs[p].depth < MAX_DEPTH
    requires gs[p].first.Some? ==>
               gs[p].first.value in gs && gs[p].first.value > p && gs[gs[p].first.value].parent == Some(p)
    requires SameKind(power, gs[p].power) && (gs[p].wildcard || Within(power, gs[p].power))
    ensures Tree(Added(gs, next, Some(p), power, false), kids[next := []][p := [next] + kids[p]], next + 1)
  {
    var gs', kids' := Added(gs, next, Some(p), power, false), kids[next := []][p := [next] + kids[p]];
    assert UpAt(gs, kids, next, next) && UpAt(gs, kids, next, p);
    AddLists(gs, kids, next, p, power);
    var n := next + 1;
    forall g: nat ensures UpAt(gs', kids', n, g) { assert UpAt(gs, kids, next, g); }
  }

  lemma AddLists(gs: Grants, kids: Kids, next: nat, p: nat, power: Power)
    requires Tree(gs, kids, next) && p in gs && p in kids && next !in gs
    requires gs[p].first.Some? ==>
               gs[p].first.value in gs && gs[p].first.value > p && gs[gs[p].first.value].parent == Some(p)
    ensures Lists(Added(gs, next, Some(p), power, false), kids[next := []][p := [next] + kids[p]])
  {
    var gs', kids' := Added(gs, next, Some(p), power, false), kids[next := []][p := [next] + kids[p]];
    assert UpAt(gs, kids, next, p) && ListAt(gs, kids, p);
    forall q: nat ensures ListAt(gs', kids', q) {
      assert ListAt(gs, kids, q);
      if q == p {
        AddHead(gs, gs', kids[p], p, next);
      } else if q in gs {
        ListSame(gs, kids, gs', kids', q);
      }
    }
  }

  lemma AddHead(gs: Grants, gs': Grants, xs: seq<nat>, p: nat, id: nat)
    requires NoDup(xs) && id !in gs && (forall i: nat :: i < |xs| ==> KidAt(gs, xs, p, i))
    requires id in gs' && gs'[id].parent == Some(p) && gs'[id].prev.None? && gs'[id].next == Nth(xs, 0)
    requires forall c: nat :: c in gs ==> c in gs' && gs'[c] == gs[c].(first := gs'[c].first, prev := gs'[c].prev)
    requires forall c: nat :: c in gs && c in gs' ==>
               gs'[c].prev == if Nth(xs, 0) == Some(c) then Some(id) else gs[c].prev
    ensures NoDup([id] + xs) && forall i: nat :: i < |xs| + 1 ==> KidAt(gs', [id] + xs, p, i)
  {
    var ys := [id] + xs;
    forall i: nat | i < |xs| ensures xs[i] != id { assert KidAt(gs, xs, p, i); }
    forall i: nat | i < |ys| ensures KidAt(gs', ys, p, i) {
      if i > 0 {
        var j := i - 1;
        assert KidAt(gs, xs, p, j) && ys[i] == xs[j];
      }
    }
  }

  // -------------------------------------------------------------------------
  // A leaf removed
  // -------------------------------------------------------------------------

  /** grant_delete_leaf. */
  function Cut(gs: Grants, g: nat): (gs': Grants)
    requires g in gs
    requires gs[g].parent.Some? ==> gs[g].parent.value in gs
    requires gs[g].prev.Some? ==> gs[g].prev.value in gs
    requires gs[g].next.Some? ==> gs[g].next.value in gs
  {
    var x := gs[g];
    if x.parent.None? then gs - {g}
    else
      var gs1 := if x.prev.Some? then gs[x.prev.value := gs[x.prev.value].(next := x.next)]
                 else gs[x.parent.value := gs[x.parent.value].(first := x.next)];
      var gs2 := if x.next.Some? then gs1[x.next.value := gs1[x.next.value].(prev := x.prev)] else gs1;
      gs2 - {g}
  }

  /** The neighbours of a grant in its sibling list. */
  lemma Neighbours(gs: Grants, kids: Kids, next: nat, g: nat) returns (i: nat)
    requires Tree(gs, kids, next) && g in gs && gs[g].parent.Some?
    ensures gs[g].parent.value in gs && gs[g].parent.value in kids && gs[g].parent.value != g
    ensures i < |kids[gs[g].parent.value]| && kids[gs[g].parent.value][i] == g
    ensures gs[g].prev == Nth(kids[gs[g].parent.value], i - 1) && gs[g].next == Nth(kids[gs[g].parent.value], i + 1)
    ensures gs[g].prev.Some? ==> gs[g].prev.value in gs && gs[gs[g].prev.value].parent == gs[g].parent
    ensures gs[g].next.Some? ==> gs[g].next.value in gs && gs[gs[g].next.value].parent == gs[g].parent
  {
    assert UpAt(gs, kids, next, g);
    var p := gs[g].parent.value;
    assert ListAt(gs, kids, p);
    i :| 0 <= i < |kids[p]| && kids[p][i] == g;
    assert KidAt(gs, kids[p], p, i);
    if i > 0 { var k := i - 1; assert KidAt(gs, kids[p], p, k); }
    if i + 1 < |kids[p]| { var k := i + 1; assert KidAt(gs, kids[p], p, k); }
  }

  lemma CutRoot(gs: Grants, kids: Kids, next: nat, g: nat)
    requires Tree(gs, kids, next) && g in gs && gs[g].parent.None? && gs[g].first.None?
    ensures Tree(gs - {g}, kids - {g}, next)
  {
    var gs', kids' := gs - {g}, kids - {g};
    HeadKnown(gs, kids, next, g);
    forall q: nat ensures ListAt(gs', kids', q) {
      assert ListAt(gs, kids, q);
      if q in gs' {
        forall c: nat | c in gs && gs[c].parent == Some(q) ensures c != g { }
        ListSame(gs, kids, gs', kids', q);
      }
    }
    forall h: nat ensures UpAt(gs', kids', next, h) { assert UpAt(gs, kids, next, h); }
  }

  lemma CutChild(gs: Grants, kids: Kids, next: nat, g: nat, i: nat)
    requires Tree(gs, kids, next) && g in gs && gs[g].parent.Some? && gs[g].first.None?
    requires gs[g].parent.value in gs && gs[g].parent.value in kids && gs[g].parent.value != g
    requires i < |kids[gs[g].parent.value]| && kids[gs[g].parent.value][i] == g
    requires gs[g].prev == Nth(kids[gs[g].parent.value], i - 1) && gs[g].next == Nth(kids[gs[g].parent.value], i + 1)
    requires gs[g].prev.Some? ==> gs[g].prev.value in gs && gs[gs[g].prev.value].parent == gs[g].parent
    requires gs[g].next.Some? ==> gs[g].next.value in gs && gs[gs[g].next.value].parent == gs[g].parent
    ensures Tree(Cut(gs, g), (kids - {g})[gs[g].parent.value := Drop(kids[gs[g].parent.value], i)], next)
  {
    var p, gs' := gs[g].parent.value, Cut(gs, g);
    var kids' := (kids - {g})[p := Drop(kids[p], i)];
    HeadKnown(gs, kids, next, g);
    CutLists(gs, kids, next, g, i);
    assert ListAt(gs, kids, p);
    DropMembers(kids[p], i);
    forall h: nat ensures UpAt(gs', kids', next, h) { assert UpAt(gs, kids, next, h); }
  }

  lemma CutLists(gs: Grants, kids: Kids, next: nat, g: nat, i: nat)
    requires Tree(gs, kids, next) && g in gs && gs[g].parent.Some? && g in kids && kids[g] == []
    requires gs[g].parent.value in gs && gs[g].parent.value in kids && gs[g].parent.value != g
    requires i < |kids[gs[g].parent.value]| && kids[gs[g].parent.value][i] == g
    requires gs[g].prev == Nth(kids[gs[g].parent.value], i - 1) && gs[g].next == Nth(kids[gs[g].parent.value], i + 1)
    requires gs[g].prev.Some? ==> gs[g].prev.value in gs && gs[gs[g].prev.value].parent == gs[g].parent
    requires gs[g].next.Some? ==> gs[g].next.value in gs && gs[gs[g].next.value].parent == gs[g].parent
    ensures Lists(Cut(gs, g), (kids - {g})[gs[g].parent.value := Drop(kids[gs[g].parent.value], i)])
  {
    var p, gs' := gs[g].parent.value, Cut(gs, g);
    var kids' := (kids - {g})[p := Drop(kids[p], i)];
    assert ListAt(gs, kids, p) && UpAt(gs, kids, next, g) && UpAt(gs, kids, next, p);
    if gs[g].prev.Some? { assert UpAt(gs, kids, next, gs[g].prev.value); }
    if gs[g].next.Some? { assert UpAt(gs, kids, next, gs[g].next.value); }
    forall q: nat ensures ListAt(gs', kids', q) {
      assert ListAt(gs, kids, q);
      if q == p {
        CutMiddle(gs, gs', kids[p], p, i);
      } else if q in gs' {
        ListSame(gs, kids, gs', kids', q);
      }
    }
  }

  lemma CutMiddle(gs: Grants, gs': Grants, xs: seq<nat>, p: nat, i: nat)
    requires NoDup(xs) && i < |xs| && (forall j: nat :: j < |xs| ==> KidAt(gs, xs, p, j))
    requires forall c: nat :: c in gs && c != xs[i] ==> c in gs' && gs'[c].parent == gs[c].parent
    requires forall c: nat :: c in gs && c in gs' && c != xs[i] ==>
               gs'[c].next == if Nth(xs, i - 1) == Some(c) then Nth(xs, i + 1) else gs[c].next
    requires forall c: nat :: c in gs && c in gs' && c != xs[i] ==>
               gs'[c].prev == if Nth(xs, i + 1) == Some(c) then Nth(xs, i - 1) else gs[c].prev
    ensures NoDup(Drop(xs, i)) && forall j: nat :: j < |xs| - 1 ==> KidAt(gs', Drop(xs, i), p, j)
  {
    var ys := Drop(xs, i);
    forall j: nat | j < |ys| ensures KidAt(gs', ys, p, j) {
      var k := if j < i then j else j + 1;
      assert KidAt(gs, xs, p, k) && ys[j] == xs[k];
    }
  }
}
