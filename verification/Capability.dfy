/** The operations of capability.c on the grant tree, and the library's revoke loop. */
module Capability {
  import opened GrantTree
  import opened Seqs

  const WORD32: nat := 0x1_0000_0000
  const WORD64: nat := 0x1_0000_0000_0000_0000

  datatype Status = Ok | Inval | Perm | NoMem | Again | Gone

  /** A token as the kernel reads it: only the kernel can produce a matching MAC. */
  datatype Token = Token(wellFormed: bool, genuine: bool, id: nat)

  /** Which parameters are present (0, 1, 2) and their values; `p2` by its one bits. */
  datatype Request = Request(reservedZero: bool, present: set<nat>, p0: nat, p1: nat, p2: set<nat>)

  predicate AddOverflows(base: nat, len: nat) {
    len == 0 || base + len >= WORD64
  }

  function Low32(bits: set<nat>): (r: set<nat>) {
    set b | b in bits && b < 32
  }

  /** The parameter checks of subgrant: the status, and what the child would carry. */
  function Narrow(parent: Grant, req: Request, route: Option<(nat, nat)>): (r: (Status, Power)) {
    match parent.power
    case DevMem(pbase, plen, pflags) =>
      var base := if 0 in req.present then req.p0 else pbase;
      var len := if 1 in req.present then req.p1 else plen;
      var flags := if 2 in req.present then Low32(req.p2) else pflags;
      var outside := !parent.wildcard &&
        (AddOverflows(pbase, plen) || base < pbase || base + len > pbase + plen || !(flags <= pflags));
      var rc := if (2 in req.present && Low32(req.p2) != req.p2) || AddOverflows(base, len) || outside then Perm
                else if parent.wildcard && req.present != {0, 1, 2} then Inval else Ok;
      (rc, DevMem(base, len, flags))
    case IrqRoute(_, irq) =>
      var extra := 1 in req.present || 2 in req.present;
      if parent.wildcard then
        var hit := 0 in req.present && route.Some?;
        (if !hit || extra then Inval else Ok, if hit then IrqRoute(Some(route.value.0), route.value.1)
         else IrqRoute(None, 0))
      else
        (if extra then Inval else if 0 in req.present && req.p0 != irq then Perm else Ok, parent.power)
    case IommuDev(preq) =>
      var requester := if 0 in req.present then req.p0 else preq;
      var bad := requester >= WORD32 || (parent.wildcard && 0 !in req.present) ||
        (!parent.wildcard && requester != preq) ||
                 1 in req.present || 2 in req.present;
      (if bad then Perm else Ok, IommuDev(requester % WORD32))
  }

  lemma NarrowAttenuates(parent: Grant, req: Request, route: Option<(nat, nat)>)
    requires Narrow(parent, req, route).0.Ok?
    ensures SameKind(Narrow(parent, req, route).1, parent.power)
    ensures parent.wildcard || Within(Narrow(parent, req, route).1, parent.power)
  {
  }

  ghost predicate Names(power: Power) {
    match power
    case DevMem(base, len, _) => 0 < len && base + len < WORD64
    case IrqRoute(route, _) => route.Some?
    case IommuDev(requester) => requester < WORD32
  }

  ghost predicate SoundAt(gs: Grants, g: nat) {
    g in gs && !gs[g].wildcard ==> Names(gs[g].power)
  }

  /** Every grant but the roots names something: a range that is not empty and does not wrap, a route, a requester. */
  ghost predicate Sound(gs: Grants) {
    forall g: nat :: SoundAt(gs, g)
  }

  /** A parameter is taken from the request if it was given, else from the parent. */
  ghost predicate Asked<T>(given: bool, asked: T, inherited: T, value: T) {
    (given ==> value == asked) && (!given ==> value == inherited)
  }

  /** What the child of a grant carries: each given parameter as asked for, each other one as the parent has it. */
  ghost predicate Carries(power: Power, parent: Grant, req: Request, route: Option<(nat, nat)>) {
    match parent.power
    case DevMem(pbase, plen, pflags) =>
      && power.DevMem? && Asked(0 in req.present, req.p0, pbase, power.base)
      && Asked(1 in req.present, req.p1, plen, power.len)
      && Asked(2 in req.present, req.p2, pflags, power.flags)
    case IrqRoute(_, _) =>
      if parent.wildcard then route.Some? && power == IrqRoute(Some(route.value.0), route.value.1)
      else power == parent.power
    case IommuDev(preq) =>
      power.IommuDev? && Asked(0 in req.present, req.p0, preq, power.requester)
  }

  /** The request has the parameters its kind needs: all three under a device-memory root, an interrupt that has a
      route under the interrupt root, and none that its kind does not have. */
  ghost predicate Formed(parent: Grant, req: Request, route: Option<(nat, nat)>) {
    match parent.power
    case DevMem(_, _, _) => parent.wildcard ==> req.present == {0, 1, 2}
    case IrqRoute(_, _) =>
      1 !in req.present && 2 !in req.present && (parent.wildcard ==> 0 in req.present && route.Some?)
    case IommuDev(_) => true
  }

  /** What a parent may hand out: a range that is not empty, does not reach 2^64 and, but for a root, lies in its own
      with no flag it lacks; its own interrupt; its own requester, or any 32-bit one given to a root. */
  ghost predicate Bounded(power: Power, parent: Grant, req: Request) {
    match parent.power
    case DevMem(pbase, plen, pflags) =>
      && power.DevMem? && 0 < power.len && power.base + power.len < WORD64
      && (2 in req.present ==> forall b :: b in req.p2 ==> b < 32)
      && (parent.wildcard ||
          (pbase <= power.base && power.base + power.len <= pbase + plen && power.flags <= pflags))
    case IrqRoute(_, irq) => !parent.wildcard && 0 in req.present ==> req.p0 == irq
    case IommuDev(preq) =>
      && power.IommuDev? && 1 !in req.present && 2 !in req.present && power.requester < WORD32
      && (if parent.wildcard then 0 in req.present else power.requester == preq)
  }

  ghost predicate Grantable(power: Power, parent: Grant, req: Request, route: Option<(nat, nat)>) {
    Formed(parent, req, route) && Bounded(power, parent, req)
  }

  /** Device memory within bounds is asked for. */
  ghost predicate InBounds(parent: Grant, req: Request, route: Option<(nat, nat)>) {
    exists power :: Carries(power, parent, req, route) && Bounded(power, parent, req)
  }

  /** What was asked for is something the parent may hand out. */
  ghost predicate Askable(parent: Grant, req: Request, route: Option<(nat, nat)>) {
    exists power :: Carries(power, parent, req, route) && Grantable(power, parent, req, route)
  }

  /** The checks grant exactly what the parent may hand out, and then what was asked for. */
  lemma NarrowExact(gs: Grants, p: nat, req: Request, route: Option<(nat, nat)>)
    requires Sound(gs) && p in gs && req.present <= {0, 1, 2}
    ensures Narrow(gs[p], req, route).0.Ok? <==> Askable(gs[p], req, route)
    ensures Narrow(gs[p], req, route).0.Ok? ==> Carries(Narrow(gs[p], req, route).1, gs[p], req, route)
    ensures Narrow(gs[p], req, route).0.Ok? ==> Grantable(Narrow(gs[p], req, route).1, gs[p], req, route)
    ensures Narrow(gs[p], req, route).0.Inval? <==>
              !Formed(gs[p], req, route) && (gs[p].power.DevMem? ==> InBounds(gs[p], req, route))
    ensures var s := Narrow(gs[p], req, route).0; s.Ok? || s.Inval? || s.Perm?
  {
    NarrowRefuses(gs, p, req, route);
    var r := Narrow(gs[p], req, route);
    assert SoundAt(gs, p);
    if r.0.Ok? { NarrowGrants(gs, p, req, route); }
    if power :| Carries(power, gs[p], req, route) && Grantable(power, gs[p], req, route) {
      NarrowAllows(gs, p, req, route, power);
    }
  }

  lemma NarrowRefuses(gs: Grants, p: nat, req: Request, route: Option<(nat, nat)>)
    requires Sound(gs) && p in gs && req.present <= {0, 1, 2}
    ensures Narrow(gs[p], req, route).0.Inval? <==>
              !Formed(gs[p], req, route) && (gs[p].power.DevMem? ==> InBounds(gs[p], req, route))
  {
    var r := Narrow(gs[p], req, route);
    assert SoundAt(gs, p);
    if gs[p].power.DevMem? {
      if 2 in req.present { assert (forall b :: b in req.p2 ==> b < 32) <==> Low32(req.p2) == req.p2; }
      if r.0.Inval? { assert Carries(r.1, gs[p], req, route) && Bounded(r.1, gs[p], req); }
      forall power | Carries(power, gs[p], req, route) && Bounded(power, gs[p], req) ensures power == r.1 { }
    }
  }

  lemma NarrowGrants(gs: Grants, p: nat, req: Request, route: Option<(nat, nat)>)
    requires Sound(gs) && p in gs && req.present <= {0, 1, 2} && Narrow(gs[p], req, route).0.Ok?
    ensures var power := Narrow(gs[p], req, route).1;
            Carries(power, gs[p], req, route) && Grantable(power, gs[p], req, route)
  {
    assert SoundAt(gs, p);
    assert forall b :: b in Low32(req.p2) ==> b < 32;
  }

  lemma NarrowAllows(gs: Grants, p: nat, req: Request, route: Option<(nat, nat)>, power: Power)
    requires Sound(gs) && p in gs && req.present <= {0, 1, 2}
    requires Carries(power, gs[p], req, route) && Grantable(power, gs[p], req, route)
    ensures Narrow(gs[p], req, route).0.Ok?
  {
    assert SoundAt(gs, p);
    if 2 in req.present { assert Low32(req.p2) == req.p2; }
  }

  lemma NarrowNames(gs: Grants, p: nat, req: Request, route: Option<(nat, nat)>)
    requires Sound(gs) && p in gs && Narrow(gs[p], req, route).0.Ok?
    ensures Names(Narrow(gs[p], req, route).1)
  {
    assert SoundAt(gs, p);
  }

  lemma SoundAdded(gs: Grants, id: nat, p: nat, power: Power)
    requires Sound(gs) && p in gs && (gs[p].first.Some? ==> gs[p].first.value in gs) && Names(power)
    ensures Sound(Added(gs, id, Some(p), power, false))
  {
    var gs' := Added(gs, id, Some(p), power, false);
    forall g: nat ensures SoundAt(gs', g) { assert SoundAt(gs, g) && SoundAt(gs, p); }
  }

  lemma SoundFewer(gs: Grants, gs': Grants)
    requires Sound(gs)
    requires forall h: nat :: h in gs' ==> h in gs && gs'[h].power == gs[h].power && gs'[h].wildcard == gs[h].wildcard
    ensures Sound(gs')
  {
    forall g: nat ensures SoundAt(gs', g) { assert SoundAt(gs, g); }
  }

  /** The zeroed union of a fresh grant. */
  function Blank(p: Power): (z: Power) {
    match p
    case DevMem(_, _, _) => DevMem(0, 0, {})
    case IrqRoute(_, _) => IrqRoute(None, 0)
    case IommuDev(_) => IommuDev(0)
  }

  // -------------------------------------------------------------------------
  // Facts about single steps
  // -------------------------------------------------------------------------

  /** Deleting the grant just added restores every grant and every link. */
  lemma AddCut(gs: Grants, kids: Kids, next: nat, p: nat, power: Power)
    requires Tree(gs, kids, next) && p in gs
    requires gs[p].first.Some? ==>
               gs[p].first.value in gs && gs[p].first.value > p && gs[gs[p].first.value].parent == Some(p)
    ensures var gs' := Added(gs, next, Some(p), power, false);
            && next !in gs && next in gs' && gs'[next].first.None? && gs'[next].prev.None?
            && gs'[next].parent == Some(p) && p in gs'
            && (gs'[next].next.Some? ==> gs'[next].next.value in gs') && Cut(gs', next) == gs
  {
    assert UpAt(gs, kids, next, next) && UpAt(gs, kids, next, p) && ListAt(gs, kids, p);
    var gs' := Added(gs, next, Some(p), power, false);
    if gs[p].first.Some? {
      var h := gs[p].first.value;
      assert KidAt(gs, kids[p], p, 0);
      assert gs[h].prev.None?;
    }
    forall g: nat ensures (g in Cut(gs', next) <==> g in gs) && (g in gs ==> Cut(gs', next)[g] == gs[g]) { }
  }

  /** Nothing can be added below a grant that is not live. */
  lemma DeadSubtreeFixed(gs: Grants, d: nat, parent: nat)
    requires Live(gs, parent) && !Live(gs, d)
    ensures !Under(gs, d, parent)
  {
    if Under(gs, d, parent) { LiveMeans(gs, parent, d); }
  }

  /** Removing a childless grant and changing links or death marks leaves the ancestry of the others. */
  lemma {:induction false} UnderSame(gs: Grants, gs': Grants, leaf: nat, root: nat, g: nat)
    requires g != leaf && leaf !in gs'
    requires forall h: nat :: h in gs && h != leaf ==>
               h in gs' && gs'[h].parent == gs[h].parent && gs[h].parent != Some(leaf)
    requires forall h: nat :: h in gs' ==> h in gs
    ensures Under(gs', root, g) <==> Under(gs, root, g)
    decreases g
  {
    if g in gs && g != root && gs[g].parent.Some? && gs[g].parent.value < g {
      UnderSame(gs, gs', leaf, root, gs[g].parent.value);
    }
  }

  lemma {:induction false} UnderParent(gs: Grants, root: nat, p: nat, c: nat)
    requires Under(gs, root, p) && c in gs && gs[c].parent == Some(p) && p < c
    ensures Under(gs, root, c)
  {
  }

  lemma {:induction false} UnderDead(gs: Grants, root: nat, g: nat)
    requires Under(gs, root, g) && root in gs && gs[root].dead
    ensures !Live(gs, g)
    decreases g
  {
    if g != root { UnderDead(gs, root, gs[g].parent.value); }
  }

  /** The grant's first child is there to link in front of. */
  predicate HeadIn(gs: Grants, p: nat) {
    p in gs && (gs[p].first.Some? ==> gs[p].first.value in gs)
  }

  /** What a token stands for: the order of the refusals is the code's. */
  ghost function Resolved(gs: Grants, token: Token, needLive: bool, kind: Option<Power>): (s: Status)
    ensures s.Ok? ==> token.id in gs
  {
    if !token.wellFormed then Inval else if !token.genuine then Perm
    else if token.id !in gs then Gone
    else if kind.Some? && !SameKind(kind.value, gs[token.id].power) then Perm
    else if needLive && !Live(gs, token.id) then Gone else Ok
  }

  // -------------------------------------------------------------------------
  // The operations as steps
  // -------------------------------------------------------------------------

  datatype State = State(gs: Grants, next: nat)

  datatype Step =
    | Refuse                            // nothing changes; an id may be used up
    | Grow(p: nat, power: Power)        // a new grant below `p`
    | Delete(target: nat, leaf: nat)    // one revoke step on `target`

  ghost predicate Next(s: State, step: Step, s': State) {
    match step
    case Refuse => s'.gs == s.gs && s.next <= s'.next
    case Grow(p, power) =>
      Live(s.gs, p) && HeadIn(s.gs, p) && s'.gs == Added(s.gs, s.next, Some(p), power, false) && s'.next == s.next + 1
    case Delete(target, leaf) =>
      && target in s.gs && Under(s.gs, target, leaf) && (forall h: nat :: h in s.gs ==> s.gs[h].parent != Some(leaf))
      && (forall h: nat :: h in s'.gs <==> h in s.gs && h != leaf) && s'.next == s.next
      && (forall h: nat :: h in s'.gs ==>
            s'.gs[h].parent == s.gs[h].parent && s'.gs[h].dead == (h == target || s.gs[h].dead))
  }

  /** Ids count up, and parents are there and older. */
  ghost predicate Rooted(s: State) {
    forall h: nat :: h in s.gs ==>
        h < s.next && (s.gs[h].parent.Some? ==> s.gs[h].parent.value in s.gs && s.gs[h].parent.value < h)
  }

  lemma TreeRooted(gs: Grants, kids: Kids, next: nat)
    requires Tree(gs, kids, next)
    ensures Rooted(State(gs, next))
  {
    forall h: nat | h in gs
      ensures h < next && (gs[h].parent.Some? ==> gs[h].parent.value in gs && gs[h].parent.value < h)
    {
      assert UpAt(gs, kids, next, h);
    }
  }

  /** The grant has been revoked: it is gone for good, or marked. */
  ghost predicate Shut(s: State, g: nat) {
    g < s.next && (g in s.gs ==> s.gs[g].dead)
  }

  /** A step leaves every other grant its parent, and revives none. */
  lemma NextKeeps(s: State, step: Step, s': State)
    requires Rooted(s) && Next(s, step, s')
    ensures Rooted(s') && s.next <= s'.next
    ensures forall h: nat :: h in s.gs && h in s'.gs ==>
              s'.gs[h].parent == s.gs[h].parent && (s.gs[h].dead ==> s'.gs[h].dead)
    ensures forall h: nat :: h in s'.gs && h < s.next ==> h in s.gs
  {
    if step.Grow? { GrowKeeps(s, step.p, step.power, s'); }
  }

  lemma GrowKeeps(s: State, p: nat, power: Power, s': State)
    requires Rooted(s) && Next(s, Grow(p, power), s')
    ensures Rooted(s') && s.next !in s.gs && s.next in s'.gs && s'.gs[s.next].parent == Some(p)
    ensures forall h: nat :: h != s.next ==> (h in s'.gs <==> h in s.gs)
    ensures forall h: nat :: h in s.gs ==> s'.gs[h].parent == s.gs[h].parent && s'.gs[h].dead == s.gs[h].dead
  {
    AddedSame(s.gs, s.next, p, power);
    forall h: nat | h in s'.gs
      ensures h < s'.next && (s'.gs[h].parent.Some? ==> s'.gs[h].parent.value in s'.gs && s'.gs[h].parent.value < h)
    {
      if h != s.next { assert h in s.gs; }
    }
  }

  lemma AddedSame(gs: Grants, id: nat, p: nat, power: Power)
    requires HeadIn(gs, p) && id !in gs
    ensures var gs' := Added(gs, id, Some(p), power, false);
            && id in gs' && gs'[id].parent == Some(p) && (forall h: nat :: h != id ==> (h in gs' <==> h in gs))
            && forall h: nat :: h in gs ==> gs'[h].parent == gs[h].parent && gs'[h].dead == gs[h].dead
  {
  }

  lemma {:induction false} UnderKept(s: State, s': State, root: nat, g: nat)
    requires Rooted(s') && Under(s.gs, root, g) && g in s'.gs
    requires forall h: nat :: h in s.gs && h in s'.gs ==> s'.gs[h].parent == s.gs[h].parent
    ensures Under(s'.gs, root, g)
    decreases g
  {
    if g != root { UnderKept(s, s', root, s.gs[g].parent.value); }
  }

  lemma {:induction false} UnderOld(s: State, s': State, root: nat, g: nat)
    requires Rooted(s) && Rooted(s') && Under(s'.gs, root, g) && g in s.gs
    requires forall h: nat :: h in s.gs && h in s'.gs ==> s'.gs[h].parent == s.gs[h].parent
    requires forall h: nat :: h in s'.gs && h < s.next ==> h in s.gs
    ensures Under(s.gs, root, g)
    decreases g
  {
    if g != root { UnderOld(s, s', root, s.gs[g].parent.value); }
  }

  /** Once revoked, a grant's subtree loses members and never gains one. */
  lemma ShutStays(s: State, step: Step, s': State, target: nat)
    requires Rooted(s) && Next(s, step, s') && Shut(s, target)
    ensures Rooted(s') && Shut(s', target) && Subtree(s'.gs, target) <= Subtree(s.gs, target)
    ensures forall g: nat :: g in Subtree(s.gs, target) && g in s'.gs ==> g in Subtree(s'.gs, target)
  {
    NextKeeps(s, step, s');
    forall g: nat | g in Subtree(s'.gs, target) ensures g in Subtree(s.gs, target) {
      if g in s.gs {
        UnderOld(s, s', target, g);
      } else {
        assert step.Grow? && g == s.next && s'.gs[g].parent == Some(step.p);
        UnderOld(s, s', target, step.p);
        LiveMeans(s.gs, step.p, target);
      }
    }
    forall g: nat | g in Subtree(s.gs, target) && g in s'.gs
      ensures g in Subtree(s'.gs, target)
    {
      UnderKept(s, s', target, g);
    }
  }

  /** The first revoke step shuts its target, whatever its subtree was, and takes one grant of it. */
  lemma DeleteShuts(s: State, target: nat, leaf: nat, s': State)
    requires Rooted(s) && Next(s, Delete(target, leaf), s')
    ensures Rooted(s') && Shut(s', target) && Subtree(s'.gs, target) == Subtree(s.gs, target) - {leaf}
    ensures leaf in Subtree(s.gs, target)
    ensures forall g: nat :: g in Subtree(s.gs, target) && g in s'.gs ==> g in Subtree(s'.gs, target)
  {
    NextKeeps(s, Delete(target, leaf), s');
    forall g: nat | g in Subtree(s'.gs, target) ensures g in Subtree(s.gs, target) { UnderOld(s, s', target, g); }
    forall g: nat | g in Subtree(s.gs, target) && g in s'.gs
      ensures g in Subtree(s'.gs, target)
    {
      UnderKept(s, s', target, g);
    }
  }

  /** Nothing below a revoked grant is live. */
  lemma ShutDead(s: State, target: nat, g: nat)
    requires Shut(s, target) && Under(s.gs, target, g)
    ensures !Live(s.gs, g)
  {
    if Live(s.gs, g) { LiveMeans(s.gs, g, target); }
  }

  class Index {
    var grants: Grants
    ghost var kids: Kids
    var next: nat

    ghost predicate Valid()
      reads this
    {
      Tree(grants, kids, next) && next > 0 && Sound(grants)
    }

    /** capability_bootstrap: the three wildcard roots. */
    constructor ()
      ensures Valid() && grants.Keys == {1, 2, 3} && forall g :: g in grants ==> grants[g].wildcard && Live(grants, g)
      ensures grants[1].power.DevMem? && grants[2].power.IrqRoute? && grants[3].power.IommuDev?
    {
      grants, kids, next := map[], map[], 1;
      new;
      AddRoot(grants, kids, 1, DevMem(0, 0, {}), true);
      grants, kids := Added(grants, 1, None, DevMem(0, 0, {}), true), kids[1 := []];
      AddRoot(grants, kids, 2, IrqRoute(None, 0), true);
      grants, kids := Added(grants, 2, None, IrqRoute(None, 0), true), kids[2 := []];
      AddRoot(grants, kids, 3, IommuDev(0), true);
      grants, kids := Added(grants, 3, None, IommuDev(0), true), kids[3 := []];
      next := 4;
    }

    /** The ancestor walk of token_resolve; its depth limit is never what stops it. */
    method Walk(g: nat) returns (s: Status)
      requires Valid() && g in grants
      ensures s == if Live(grants, g) then Ok else Gone
    {
      var at, walked := Some(g), 0;
      assert UpAt(grants, kids, next, g);
      while at.Some?
        invariant at.Some? ==>
                    at.value in grants && at.value <= g &&
                    walked + grants[at.value].depth == grants[g].depth <= MAX_DEPTH
        invariant at.Some? ==> (Live(grants, g) <==> Live(grants, at.value))
        invariant at.None? ==> Live(grants, g)
        decreases if at.Some? then at.value + 1 else 0
      {
        assert UpAt(grants, kids, next, at.value);
        if grants[at.value].dead { return Gone; }
        walked := walked + 1;
        if walked > MAX_DEPTH + 1 { return Inval; }
        at := grants[at.value].parent;
      }
      s := Ok;
    }

    /** token_resolve; `kind` is the type demanded, if any. */
    method Resolve(token: Token, needLive: bool, kind: Option<Power>) returns (s: Status)
      requires Valid()
      ensures s == Resolved(grants, token, needLive, kind)
    {
      if !token.wellFormed { return Inval; }
      if !token.genuine { return Perm; }
      if token.id !in grants { return Gone; }
      if kind.Some? && !SameKind(kind.value, grants[token.id].power) { return Perm; }
      if needLive { s := Walk(token.id); } else { s := Ok; }
    }

    /** subgrant under a verified parent; a refused one leaves no trace but a used id. */
    method Subgrant(parent: Token, req: Request, route: Option<(nat, nat)>, room: bool) returns (s: Status, id: nat)
      requires Valid()
      modifies this
      ensures Valid() && next <= old(next) + 1 && id == old(next)
      ensures !s.Ok? ==> grants == old(grants) && kids == old(kids)
      ensures !Resolved(old(grants), parent, true, None).Ok? ==> s == Resolved(old(grants), parent, true, None)
      ensures Resolved(old(grants), parent, true, None).Ok? && (!req.reservedZero || !(req.present <= {0, 1, 2})) ==>
                s.Inval?
      ensures Resolved(old(grants), parent, true, None).Ok? && req.reservedZero && req.present <= {0, 1, 2} ==>
                var up := old(grants)[parent.id];
                if up.depth >= MAX_DEPTH || !room then s.NoMem?
                else (s.Ok? || s.Inval? || s.Perm?) && (s.Ok? <==> Askable(up, req, route)) &&
                     (s.Inval? <==> !Formed(up, req, route) && (up.power.DevMem? ==> InBounds(up, req, route)))
      ensures s.Ok? ==> HeadIn(old(grants), parent.id) && id !in old(grants) && id in grants && Live(grants, id)
      ensures s.Ok? ==> Carries(grants[id].power, old(grants)[parent.id], req, route)
      ensures s.Ok? ==> Grantable(grants[id].power, old(grants)[parent.id], req, route)
      ensures s.Ok? ==> grants == Added(old(grants), id, Some(parent.id), grants[id].power, false)
      ensures Next(State(old(grants), old(next)), if s.Ok? then Grow(parent.id, grants[id].power) else Refuse,
                   State(grants, next))
    {
      id := next;
      s := Resolve(parent, true, None);
      if !s.Ok? { return; }
      if !req.reservedZero || !(req.present <= {0, 1, 2}) { s := Inval; return; }
      if grants[parent.id].depth >= MAX_DEPTH || !room { s := NoMem; return; }
      NarrowExact(grants, parent.id, req, route);
      s := Add(parent.id, req, route);
    }

    /** The child is linked blank, filled in, and unlinked again if a check failed. */
    method Add(p: nat, req: Request, route: Option<(nat, nat)>) returns (s: Status)
      requires Valid() && Live(grants, p) && grants[p].depth < MAX_DEPTH
      modifies this
      ensures Valid() && next == old(next) + 1 && p in old(grants) && s == Narrow(old(grants)[p], req, route).0
      ensures old(next) !in old(grants)
      ensures !s.Ok? ==> grants == old(grants) && kids == old(kids)
      ensures s.Ok? ==>
                HeadIn(old(grants), p) &&
                grants == Added(old(grants), old(next), Some(p), Narrow(old(grants)[p], req, route).1, false)
      ensures s.Ok? ==> Live(grants, old(next))
    {
      var c, r := next, Narrow(grants[p], req, route);
      HeadKnown(grants, kids, next, p);
      AddCut(grants, kids, next, p, Blank(grants[p].power));
      next := next + 1;
      var blank := Blank(grants[p].power);
      grants := Added(grants, c, Some(p), blank, false);
      s := r.0;
      if !s.Ok? {
        grants := Cut(grants, c);
        TreeNext(grants, kids, old(next));
        return;
      }
      NarrowAttenuates(old(grants)[p], req, route);
      NarrowNames(old(grants), p, req, route);
      SoundAdded(old(grants), c, p, r.1);
      AddChild(old(grants), kids, old(next), p, r.1);
      AddedAlive(old(grants), kids, old(next), p, r.1);
      grants := grants[c := grants[c].(power := r.1)];
      assert grants == Added(old(grants), c, Some(p), r.1, false);
      kids := kids[c := []][p := [c] + kids[p]];
    }

    /** cap_create_irq_route_locked: only under a wildcard, which is a root. */
    method CreateRoute(p: nat, route: nat, irq: nat, room: bool) returns (s: Status, id: nat)
      requires Valid() && p in grants
      modifies this
      ensures Valid() && id == old(next)
      ensures s == if !old(grants)[p].power.IrqRoute? || old(grants)[p].dead || !old(grants)[p].wildcard then Perm
        else if !room then NoMem else Ok
      ensures !s.Ok? ==> grants == old(grants)
      ensures s.Ok? ==> HeadIn(old(grants), p) && Live(grants, id) && id !in old(grants)
      ensures s.Ok? ==> grants == Added(old(grants), id, Some(p), IrqRoute(Some(route), irq), false)
      ensures Next(State(old(grants), old(next)), if s.Ok? then Grow(p, IrqRoute(Some(route), irq))
                   else Refuse, State(grants, next))
    {
      id := next;
      if !grants[p].power.IrqRoute? || grants[p].dead || !grants[p].wildcard { return Perm, id; }
      DepthBound(grants, kids, next, p);
      assert UpAt(grants, kids, next, p) && UpAt(grants, kids, next, id);
      if !room { return NoMem, id; }
      HeadKnown(grants, kids, next, p);
      SoundAdded(grants, id, p, IrqRoute(Some(route), irq));
      AddChild(grants, kids, next, p, IrqRoute(Some(route), irq));
      AddedAlive(grants, kids, next, p, IrqRoute(Some(route), irq));
      grants := Added(grants, id, Some(p), IrqRoute(Some(route), irq), false);
      kids := kids[id := []][p := [id] + kids[p]];
      next := next + 1;
      s := Ok;
    }

    /** The descent along first children. */
    method Leaf(target: nat) returns (leaf: nat)
      requires Valid() && target in grants
      ensures leaf in grants && grants[leaf].first.None? && Under(grants, target, leaf)
    {
      leaf := target;
      assert UpAt(grants, kids, next, target);
      while grants[leaf].first.Some?
        invariant leaf in grants && Under(grants, target, leaf) && leaf < next
        decreases next - leaf
      {
        HeadKnown(grants, kids, next, leaf);
        UnderParent(grants, target, leaf, grants[leaf].first.value);
        assert UpAt(grants, kids, next, grants[leaf].first.value);
        leaf := grants[leaf].first.value;
      }
    }

    /** grant_delete_leaf. */
    method DeleteLeaf(g: nat)
      requires Valid() && g in grants && grants[g].first.None?
      modifies this`grants, this`kids
      ensures Valid() && grants.Keys == old(grants.Keys) - {g}
      ensures forall h: nat :: h in grants ==>
                h in old(grants) && SameGrant(grants[h], old(grants)[h]) && grants[h].dead == old(grants)[h].dead
      ensures forall h: nat :: h in grants ==> grants[h].parent != Some(g)
    {
      NoChildren(grants, kids, next, g);
      ghost var gs := grants;
      if grants[g].parent.None? {
        CutRoot(grants, kids, next, g);
        grants, kids := grants - {g}, kids - {g};
      } else {
        ghost var i := Neighbours(grants, kids, next, g);
        CutChild(grants, kids, next, g, i);
        ghost var p := grants[g].parent.value;
        grants, kids := Cut(grants, g), (kids - {g})[p := Drop(kids[p], i)];
      }
      SoundFewer(gs, grants);
    }

    /** revoke_step: from the first one on, no grant of the subtree is live. */
    method RevokeStep(target: nat) returns (s: Status, ghost leaf: nat)
      requires Valid() && target in grants
      modifies this`grants, this`kids
      ensures Valid() && leaf in Subtree(old(grants), target) && grants.Keys == old(grants.Keys) - {leaf}
      ensures s == if leaf == target then Ok else Again
      ensures s.Again? ==> target in grants && Subtree(grants, target) == Subtree(old(grants), target) - {leaf}
      ensures s.Ok? ==> Subtree(old(grants), target) == {target}
      ensures forall g: nat :: g in Subtree(old(grants), target) ==> !Live(grants, g)
      ensures forall g: nat :: g in grants && g != target ==>
                SameGrant(grants[g], old(grants)[g]) && grants[g].dead == old(grants)[g].dead
      ensures Next(State(old(grants), next), Delete(target, leaf), State(grants, next))
    {
      ghost var gs := grants;
      ParentsKnown(grants, kids, next);
      MarkDead(grants, kids, next, target);
      SoundFewer(grants, grants[target := grants[target].(dead := true)]);
      grants := grants[target := grants[target].(dead := true)];
      var l := Leaf(target);
      leaf := l;
      UnderMarked(gs, grants, target, l);
      NoChildren(grants, kids, next, l);
      DeleteLeaf(l);
      s := if l == target then Ok else Again;
      Revoked(gs, grants, kids, next, target, l);
    }

    /** The revoke operation of cap_exec: the target need not be live, only there. */
    method RevokeCall(token: Token) returns (s: Status, ghost step: Step)
      requires Valid()
      modifies this`grants, this`kids
      ensures Valid() && Next(State(old(grants), next), step, State(grants, next))
      ensures s == if !Resolved(old(grants), token, false, None).Ok? then Resolved(old(grants), token, false, None)
                   else if token.id in grants then Again else Ok
      ensures if Resolved(old(grants), token, false, None).Ok? then step.Delete? && step.target == token.id
        else step == Refuse
    {
      s := Resolve(token, false, None);
      step := Refuse;
      if s.Ok? {
        ghost var leaf;
        s, leaf := RevokeStep(token.id);
        step := Delete(token.id, leaf);
      }
    }

    /** One operation by anybody. */
    method Perform(op: Op) returns (ghost step: Step)
      requires Valid()
      modifies this
      ensures Valid() && Next(State(old(grants), old(next)), step, State(grants, next))
    {
      step := Refuse;
      match op
      case OpSubgrant(parent, req, route, room) =>
        ghost var gs := grants;
        var s, id := Subgrant(parent, req, route, room);
        if s.Ok? { step := Grow(parent.id, Narrow(gs[parent.id], req, route).1); }
      case OpRoute(p, route, irq, room) =>
        if p in grants {
          var s, id := CreateRoute(p, route, irq, room);
          if s.Ok? { step := Grow(p, IrqRoute(Some(route), irq)); }
        }
      case OpRevoke(token) =>
        var s;
        s, step := RevokeCall(token);
    }

    /** Operations of others, between two calls of a retry loop. */
    method PerformAll(ops: seq<Op>, ghost target: nat, ghost whole: set<nat>)
      requires Valid() && Shut(State(grants, next), target) && Below(State(grants, next), target, whole)
      modifies this
      ensures Valid() && Shut(State(grants, next), target) && Below(State(grants, next), target, whole)
      ensures Subtree(grants, target) <= Subtree(old(grants), target)
    {
      var i := 0;
      while i < |ops|
        invariant i <= |ops| && Valid() && Shut(State(grants, next), target)
        invariant Below(State(grants, next), target, whole)
        invariant Subtree(grants, target) <= Subtree(old(grants), target)
      {
        ghost var a := State(grants, next);
        TreeRooted(grants, kids, next);
        ghost var step := Perform(ops[i]);
        ShutStays(a, step, State(grants, next), target);
        BelowStays(a, step, State(grants, next), target, whole);
        i := i + 1;
      }
    }

    /** kring_cap_revoke: whatever others do between its calls, the retry loop ends after at most as many
        calls as the subtree had grants, and then every grant of it is gone. `others[k]` runs after call k. */
    method Revoke(token: Token, others: seq<seq<Op>>) returns (s: Status, calls: nat)
      requires Valid() && token.wellFormed && token.genuine && token.id in grants
      modifies this
      ensures Valid() && calls <= |Subtree(old(grants), token.id)| + 1 && (s.Ok? || s.Gone?)
      ensures s.Ok? ==> calls <= |Subtree(old(grants), token.id)|
      ensures Subtree(old(grants), token.id) !! grants.Keys
    {
      ghost var whole, gs := Subtree(grants, token.id), grants;
      calls := 0;
      s := Again;
      TreeRooted(grants, kids, next);
      while s.Again?
        invariant Valid() && (s.Again? || s.Ok? || s.Gone?) && Below(State(grants, next), token.id, whole)
        invariant if s.Gone? then calls <= |whole| + 1 else calls + |Subtree(grants, token.id)| <= |whole|
        invariant calls == 0 ==> s.Again? && grants == gs
        invariant calls > 0 ==> Shut(State(grants, next), token.id)
        invariant !s.Again? ==> token.id !in grants
        decreases |whole| + 1 - calls, s.Again?
      {
        ghost var a, step := State(grants, next), Refuse;
        TreeRooted(grants, kids, next);
        s, step := RevokeCall(token);
        calls := calls + 1;
        if s.Again? || s.Ok? {
          DeleteShuts(a, token.id, step.leaf, State(grants, next));
          BelowStays(a, step, State(grants, next), token.id, whole);
          SizeLess(Subtree(a.gs, token.id), step.leaf);
        }
        if s.Again? && calls <= |others| {
          ghost var b := grants;
          PerformAll(others[calls - 1], token.id, whole);
          SizeUp(Subtree(grants, token.id), Subtree(b, token.id));
        }
      }
      TreeRooted(grants, kids, next);
      forall g: nat | g in whole ensures g !in grants { RootThere(grants, token.id, g); }
    }
  }

  datatype Op =
    | OpSubgrant(parent: Token, req: Request, found: Option<(nat, nat)>, room: bool)
    | OpRoute(p: nat, route: nat, irq: nat, room: bool)
    | OpRevoke(token: Token)

  /** The members of `whole` that are left are still below `root`. */
  ghost predicate Below(s: State, root: nat, whole: set<nat>) {
    Subtree(s.gs, root) <= whole && forall g: nat :: g in whole ==>
        g < s.next && (g in s.gs ==> g in Subtree(s.gs, root))
  }

  lemma BelowStays(s: State, step: Step, s': State, root: nat, whole: set<nat>)
    requires Rooted(s) && Next(s, step, s') && Below(s, root, whole)
    requires (Shut(s, root) || (step.Delete? && step.target == root))
    ensures Below(s', root, whole)
  {
    NextKeeps(s, step, s');
    if Shut(s, root) { ShutStays(s, step, s', root); } else { DeleteShuts(s, root, step.leaf, s'); }
  }

  lemma {:induction false} RootThere(gs: Grants, root: nat, g: nat)
    requires root !in gs
    ensures !Under(gs, root, g)
    decreases g
  {
    if g in gs && g != root && gs[g].parent.Some? && gs[g].parent.value < g { RootThere(gs, root, gs[g].parent.value); }
  }

  lemma SizeLess(a: set<nat>, x: nat)
    requires x in a
    ensures |a - {x}| == |a| - 1
  {
  }

  lemma SizeUp(a: set<nat>, b: set<nat>)
    requires a <= b
    ensures |a| <= |b|
  {
    if a != b {
      var x :| x in b && x !in a;
      SizeUp(a, b - {x});
    }
  }

  lemma NoChildren(gs: Grants, kids: Kids, next: nat, g: nat)
    requires Tree(gs, kids, next) && g in gs && gs[g].first.None?
    ensures forall h: nat :: h in gs ==> gs[h].parent != Some(g)
  {
    HeadKnown(gs, kids, next, g);
    forall h: nat | h in gs ensures gs[h].parent != Some(g) { assert UpAt(gs, kids, next, h); }
  }

  lemma TreeNext(gs: Grants, kids: Kids, next: nat)
    requires Tree(gs, kids, next)
    ensures Tree(gs, kids, next + 1)
  {
    var n := next + 1;
    forall g: nat ensures UpAt(gs, kids, n, g) { assert UpAt(gs, kids, next, g); }
  }

  /** A grant added under a live parent is live, and nothing else changes its liveness. */
  lemma AddedAlive(gs: Grants, kids: Kids, next: nat, p: nat, power: Power)
    requires Tree(gs, kids, next) && Live(gs, p) && (gs[p].first.Some? ==> gs[p].first.value in gs)
    ensures var gs' := Added(gs, next, Some(p), power, false); Live(gs', next)
  {
    var gs' := Added(gs, next, Some(p), power, false);
    assert UpAt(gs, kids, next, next) && UpAt(gs, kids, next, p);
    forall h: nat | h in gs ensures gs[h].parent.Some? ==> gs[h].parent.value in gs { assert UpAt(gs, kids, next, h); }
    StillLive(gs, gs', kids, next, p);
  }

  lemma {:induction false} StillLive(gs: Grants, gs': Grants, kids: Kids, next: nat, g: nat)
    requires Tree(gs, kids, next) && Live(gs, g)
    requires forall h: nat :: h in gs ==> h in gs' && gs'[h].parent == gs[h].parent && gs'[h].dead == gs[h].dead
    ensures Live(gs', g)
    decreases g
  {
    if gs[g].parent.Some? { StillLive(gs, gs', kids, next, gs[g].parent.value); }
  }

  lemma MarkDead(gs: Grants, kids: Kids, next: nat, g: nat)
    requires Tree(gs, kids, next) && g in gs
    ensures Tree(gs[g := gs[g].(dead := true)], kids, next)
  {
    var gs' := gs[g := gs[g].(dead := true)];
    forall q: nat ensures ListAt(gs', kids, q) {
      assert ListAt(gs, kids, q);
      if q in gs { ListSame(gs, kids, gs', kids, q); }
    }
    forall h: nat ensures UpAt(gs', kids, next, h) { assert UpAt(gs, kids, next, h); }
  }

  lemma ParentsKnown(gs: Grants, kids: Kids, next: nat)
    requires Tree(gs, kids, next)
    ensures forall h: nat :: h in gs && gs[h].parent.Some? ==> gs[h].parent.value in gs && gs[h].parent.value < h
  {
    forall h: nat | h in gs && gs[h].parent.Some?
      ensures gs[h].parent.value in gs && gs[h].parent.value < h
    {
      assert UpAt(gs, kids, next, h);
    }
  }

  lemma {:induction false} UnderMarked(gs: Grants, gs': Grants, root: nat, g: nat)
    requires forall h: nat :: h in gs' <==> h in gs
    requires forall h: nat :: h in gs ==> gs'[h].parent == gs[h].parent
    requires Under(gs', root, g)
    ensures Under(gs, root, g)
    decreases g
  {
    if g != root { UnderMarked(gs, gs', root, gs'[g].parent.value); }
  }

  /** What one revoke step leaves: the subtree less its leaf, all of it dead. */
  lemma Revoked(gs: Grants, gs': Grants, kids': Kids, next: nat, target: nat, leaf: nat)
    requires Under(gs, target, leaf) && gs'.Keys == gs.Keys - {leaf} && target in gs
    requires forall h: nat :: h in gs ==> gs[h].parent != Some(leaf)
    requires forall h: nat :: h in gs && gs[h].parent.Some? ==> gs[h].parent.value in gs && gs[h].parent.value < h
    requires forall h: nat :: h in gs' ==>
               h in gs && gs'[h].parent == gs[h].parent && gs'[h].dead == (h == target || gs[h].dead)
    ensures leaf != target ==> Subtree(gs', target) == Subtree(gs, target) - {leaf}
    ensures leaf == target ==> Subtree(gs, target) == {target}
    ensures forall g: nat :: g in Subtree(gs, target) ==> !Live(gs', g)
  {
    forall h: nat
      ensures h in gs' <==> h in gs && h != leaf
    {
      assert h in gs' <==> h in gs'.Keys; assert h in gs <==> h in gs.Keys;
    }
    if leaf == target {
      forall g: nat | Under(gs, target, g) ensures g == target { Rootless(gs, target, g); }
    } else {
      SubtreeLess(gs, gs', target, leaf);
    }
  }

  lemma SubtreeLess(gs: Grants, gs': Grants, target: nat, leaf: nat)
    requires target in gs' && target != leaf && gs'[target].dead
    requires (forall h: nat :: h in gs' <==> h in gs && h != leaf)
    requires forall h: nat :: h in gs && h != leaf ==> gs'[h].parent == gs[h].parent && gs[h].parent != Some(leaf)
    ensures Subtree(gs', target) == Subtree(gs, target) - {leaf}
    ensures forall g: nat :: g in Subtree(gs, target) ==> !Live(gs', g)
  {
    forall g: nat | g != leaf
      ensures Under(gs', target, g) <==> Under(gs, target, g)
    {
      UnderSame(gs, gs', leaf, target, g);
    }
    forall g: nat | g in Subtree(gs, target) ensures !Live(gs', g) {
      if g in gs' { UnderDead(gs', target, g); }
    }
  }

  lemma {:induction false} Rootless(gs: Grants, root: nat, g: nat)
    requires Under(gs, root, g) && forall h: nat :: h in gs ==> gs[h].parent != Some(root)
    ensures g == root
    decreases g
  {
    if g != root { Rootless(gs, root, gs[g].parent.value); }
  }
}
