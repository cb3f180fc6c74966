/** Canonical page trees: no table that one entry could replace.  as_flag keeps
    a tree canonical although it merges only its two boundary paths, and a
    canonical tree is determined by the flat map it stands for. */
module PageCanon {
  import opened Arith
  import opened PageTree
  import opened PageFlag
  import opened Seqs

  /** The table could be one entry of its parent; the root never is. */
  predicate Collapsible(s: seq<Entry>, h: nat)
    requires h > 0
  {
    (h <= 3 && AllAbsent(s)) || (h <= 2 && Uniform(s, h))
  }

  /** No collapsible table anywhere. */
  ghost predicate Canon(e: Entry, h: nat)
    requires Wf(e, h)
    decreases h
  {
    e.Table? ==>
      !Collapsible(e.slots, h) && forall i :: 0 <= i < FANOUT ==> Canon(e.slots[i], h - 1)
  }

  // -------------------------------------------------------------------------
  // Canonical trees are determined by their translation
  // -------------------------------------------------------------------------

  ghost predicate SameTrans(e: Entry, g: Entry, h: nat)
    requires Wf(e, h) && Wf(g, h)
  {
    forall q :: IsPage(q, h) ==> Trans(e, h, q) == Trans(g, h, q)
  }

  lemma SameTransSlot(e: Entry, g: Entry, h: nat, i: nat)
    requires h > 0 && Wf(e, h) && Wf(g, h) && SameTrans(e, g, h) && i < FANOUT
    ensures Wf(Open(e, h)[i], h - 1) && Wf(Open(g, h)[i], h - 1)
    ensures SameTrans(Open(e, h)[i], Open(g, h)[i], h - 1)
  {
    OpenWf(e, h);
    OpenWf(g, h);
    var k := h - 1;
    forall r | IsPage(r, k)
      ensures Trans(Open(e, h)[i], k, r) == Trans(Open(g, h)[i], k, r)
    {
      var q := Slot(i, r);
      OpenLook(e, h, q);
      OpenLook(g, h, q);
      assert Trans(Table(Open(e, h)), h, q) == Trans(Open(e, h)[i], h - 1, r);
      assert Trans(Table(Open(g, h)), h, q) == Trans(Open(g, h)[i], h - 1, r);
    }
  }

  function FirstPage(h: nat): (q: Path)
    ensures IsPage(q, h) && Val(q, h) == 0
  {
    if h == 0 then Here else Slot(0, FirstPage(h - 1))
  }

  lemma OpenCollapsible(g: Entry, h: nat)
    requires 0 < h <= 3 && Wf(g, h) && !g.Table?
    ensures Collapsible(Open(g, h), h)
  {
    if g.Leaf? {
      assert Open(g, h)[0] == Leaf(g.frame + 0 * Span(h - 1), g.bits);
    }
  }

  /** A canonical entry that translates like a leaf, or like nothing, is one. */
  lemma {:induction false} CanonFlat(e: Entry, g: Entry, h: nat)
    requires h <= 3 && Wf(e, h) && Wf(g, h) && Canon(e, h) && !g.Table? && SameTrans(e, g, h)
    ensures e == g
    decreases h
  {
    if e.Table? {
      forall i | 0 <= i < FANOUT
        ensures e.slots[i] == Open(g, h)[i]
      {
        SameTransSlot(e, g, h, i);
        CanonFlat(e.slots[i], Open(g, h)[i], h - 1);
      }
      assert e.slots == Open(g, h);
      OpenCollapsible(g, h);
    } else {
      var q := FirstPage(h);
      assert Trans(e, h, q) == Trans(g, h, q);
    }
  }

  /** Two canonical trees with the same flat map are the same tree. */
  lemma {:induction false} CanonUnique(e: Entry, g: Entry, h: nat)
    requires Wf(e, h) && Wf(g, h) && Canon(e, h) && Canon(g, h) && SameTrans(e, g, h)
    requires h <= 3 || (e.Table? && g.Table?)
    requires h <= 4
    ensures e == g
    decreases h
  {
    if !g.Table? {
      CanonFlat(e, g, h);
    } else if !e.Table? {
      CanonFlat(g, e, h);
    } else {
      forall i | 0 <= i < FANOUT
        ensures e.slots[i] == g.slots[i]
      {
        SameTransSlot(e, g, h, i);
        CanonUnique(e.slots[i], g.slots[i], h - 1);
      }
    }
  }

  // -------------------------------------------------------------------------
  // Canonical except on the paths to two pages
  // -------------------------------------------------------------------------

  /** What is left of a path inside slot `i`, if it goes there. */
  function Down(p: Option<Path>, i: nat): (r: Option<Path>) {
    if p.Some? && p.value.Slot? && p.value.i == i then Some(p.value.rest) else None
  }

  /** Every table off the paths to pages `p` and `q` is non-collapsible. */
  ghost predicate CanonOff(e: Entry, h: nat, p: Option<Path>, q: Option<Path>)
    requires Wf(e, h)
    decreases h
  {
    e.Table? ==>
      && (p.None? && q.None? ==> !Collapsible(e.slots, h))
      && forall i :: 0 <= i < FANOUT ==> CanonOff(e.slots[i], h - 1, Down(p, i), Down(q, i))
  }

  lemma {:induction false} OffEverything(e: Entry, h: nat)
    requires Wf(e, h)
    ensures CanonOff(e, h, None, None) <==> Canon(e, h)
    decreases h
  {
    if e.Table? {
      forall i | 0 <= i < FANOUT
        ensures CanonOff(e.slots[i], h - 1, None, None) <==> Canon(e.slots[i], h - 1)
      {
        OffEverything(e.slots[i], h - 1);
      }
    }
  }

  lemma {:induction false} OffMore(e: Entry, h: nat, p: Option<Path>, q: Option<Path>)
    requires Wf(e, h) && Canon(e, h)
    ensures CanonOff(e, h, p, q)
    decreases h
  {
    if e.Table? {
      forall i | 0 <= i < FANOUT
        ensures CanonOff(e.slots[i], h - 1, Down(p, i), Down(q, i))
      {
        OffMore(e.slots[i], h - 1, Down(p, i), Down(q, i));
      }
    }
  }

  lemma {:induction false} OffSwap(e: Entry, h: nat, p: Option<Path>, q: Option<Path>)
    requires Wf(e, h) && CanonOff(e, h, p, q)
    ensures CanonOff(e, h, q, p)
    decreases h
  {
    if e.Table? {
      forall i | 0 <= i < FANOUT
        ensures CanonOff(e.slots[i], h - 1, Down(q, i), Down(p, i))
      {
        OffSwap(e.slots[i], h - 1, Down(p, i), Down(q, i));
      }
    }
  }

  /** Merging the path to `p` makes the tables on it non-collapsible. */
  lemma {:induction false} MergeCanon(e: Entry, h: nat, p: Path, q: Option<Path>)
    requires h <= 4 && Wf(e, h) && IsPage(p, h) && CanonOff(e, h, Some(p), q)
    ensures Wf(MergePath(e, h, p), h)
    ensures CanonOff(MergePath(e, h, p), h, None, q)
    decreases h
  {
    if e.Table? {
      OffDown(e, h, p, q);
      MergeCanon(e.slots[p.i], h - 1, p.rest, Down(q, p.i));
      MergeTrans(e, h, p, p);
      MergedSlots(e, h, p, q, MergePath(e.slots[p.i], h - 1, p.rest));
    }
  }

  lemma OffDown(e: Entry, h: nat, p: Path, q: Option<Path>)
    requires Wf(e, h) && e.Table? && IsPage(p, h) && CanonOff(e, h, Some(p), q)
    ensures IsPage(p.rest, h - 1) && Wf(e.slots[p.i], h - 1)
    ensures CanonOff(e.slots[p.i], h - 1, Some(p.rest), Down(q, p.i))
  {
    assert Down(Some(p), p.i) == Some(p.rest);
  }

  lemma MergedSlots(e: Entry, h: nat, p: Path, q: Option<Path>, c: Entry)
    requires 0 < h <= 4 && Wf(e, h) && e.Table? && IsPage(p, h) && CanonOff(e, h, Some(p), q)
    requires c == MergePath(e.slots[p.i], h - 1, p.rest) && Wf(c, h - 1) && CanonOff(c, h - 1, None, Down(q, p.i))
    requires Wf(MergePath(e, h, p), h)
    ensures CanonOff(MergePath(e, h, p), h, None, q)
  {
    var s := e.slots[p.i := c];
    if MergePath(e, h, p).Table? {
      assert MergePath(e, h, p) == Table(s) && !Collapsible(s, h);
      forall i | 0 <= i < FANOUT
        ensures CanonOff(s[i], h - 1, None, Down(q, i))
      {
        if i != p.i { OffAside(e, h, p, q, i); }
      }
    }
  }

  lemma OffAside(e: Entry, h: nat, p: Path, q: Option<Path>, i: nat)
    requires Wf(e, h) && e.Table? && IsPage(p, h) && CanonOff(e, h, Some(p), q) && i < FANOUT && i != p.i
    ensures Wf(e.slots[i], h - 1) && CanonOff(e.slots[i], h - 1, None, Down(q, i))
  {
    assert Down(Some(p), i) == None;
  }

  /** The installed entry and the tables above it are on the way to `p` or `q`,
      or are PML4 slots that the install leaves non-empty or untouched. */
  ghost predicate Covers(e: Entry, h: nat, w: Path, x: Entry, p: Option<Path>, q: Option<Path>)
    requires Wf(e, h) && Fits(w, h)
    decreases h
  {
    || w.Here?
    || (e.Absent? && x.Absent?)
    || ( && (h == 4 || p.Some? || q.Some? || (h == 3 && x.Leaf?))
         && (OpenWf(e, h); Covers(Open(e, h)[w.i], h - 1, w.rest, x, Down(p, w.i), Down(q, w.i))))
  }

  lemma SlotsCanon(s: seq<Entry>, h: nat, i: nat, y: Entry, p: Option<Path>, q: Option<Path>)
    requires h > 0 && Wf(Table(s), h) && i < FANOUT && Wf(y, h - 1) && CanonOff(y, h - 1, Down(p, i), Down(q, i))
    requires forall n :: 0 <= n < FANOUT ==> CanonOff(s[n], h - 1, Down(p, n), Down(q, n))
    requires h == 4 || p.Some? || q.Some? || (h == 3 && y != Absent)
    ensures Wf(Table(s[i := y]), h) && CanonOff(Table(s[i := y]), h, p, q)
  {
    if p.None? && q.None? && h == 3 {
      assert s[i := y][i] == y;
      assert !AllAbsent(s[i := y]);
    }
  }

  lemma OpenCanon(e: Entry, h: nat, p: Option<Path>, q: Option<Path>)
    requires h > 0 && Wf(e, h) && CanonOff(e, h, p, q)
    ensures Wf(Table(Open(e, h)), h)
    ensures forall n :: 0 <= n < FANOUT ==> CanonOff(Open(e, h)[n], h - 1, Down(p, n), Down(q, n))
  {
    OpenWf(e, h);
  }

  lemma {:induction false} InstallCanon(e: Entry, h: nat, w: Path, x: Entry, p: Option<Path>, q: Option<Path>)
    requires Wf(e, h) && Fits(w, h) && Wf(x, h - Len(w)) && !x.Table?
    requires CanonOff(e, h, p, q) && Covers(e, h, w, x, p, q)
    ensures Wf(Install(e, h, w, x), h)
    ensures CanonOff(Install(e, h, w, x), h, p, q)
    decreases h
  {
    if w.Slot? && !(e.Absent? && x.Absent?) {
      CoversDown(e, h, w, x, p, q);
      var s := Open(e, h);
      InstallCanon(s[w.i], h - 1, w.rest, x, Down(p, w.i), Down(q, w.i));
      InstallOne(e, h, w, x, p, q);
    }
  }

  lemma InstallOne(e: Entry, h: nat, w: Path, x: Entry, p: Option<Path>, q: Option<Path>)
    requires Wf(e, h) && Fits(w, h) && w.Slot? && Wf(x, h - Len(w)) && !x.Table? && !(e.Absent? && x.Absent?)
    requires CanonOff(e, h, p, q)
    requires h == 4 || p.Some? || q.Some? || (h == 3 && x.Leaf?)
    requires Wf(Table(Open(e, h)), h)
    requires var y := Install(Open(e, h)[w.i], h - 1, w.rest, x);
             Wf(y, h - 1) && CanonOff(y, h - 1, Down(p, w.i), Down(q, w.i))
    ensures Wf(Install(e, h, w, x), h) && CanonOff(Install(e, h, w, x), h, p, q)
  {
    var s := Open(e, h);
    OpenCanon(e, h, p, q);
    InstallSome(s[w.i], h - 1, w.rest, x);
    SlotsCanon(s, h, w.i, Install(s[w.i], h - 1, w.rest, x), p, q);
  }

  lemma CoversDown(e: Entry, h: nat, w: Path, x: Entry, p: Option<Path>, q: Option<Path>)
    requires Wf(e, h) && Fits(w, h) && w.Slot? && !(e.Absent? && x.Absent?) && Covers(e, h, w, x, p, q)
    requires CanonOff(e, h, p, q)
    ensures Wf(Table(Open(e, h)), h)
    ensures h == 4 || p.Some? || q.Some? || (h == 3 && x.Leaf?)
    ensures Covers(Open(e, h)[w.i], h - 1, w.rest, x, Down(p, w.i), Down(q, w.i))
    ensures CanonOff(Open(e, h)[w.i], h - 1, Down(p, w.i), Down(q, w.i))
  {
    OpenCanon(e, h, p, q);
  }

  /** Something installed is something there. */
  lemma InstallSome(e: Entry, h: nat, w: Path, x: Entry)
    requires Wf(e, h) && Fits(w, h)
    ensures x.Leaf? ==> Install(e, h, w, x) != Absent
  {
  }

  // -------------------------------------------------------------------------
  // as_flag keeps trees canonical
  // -------------------------------------------------------------------------

  ghost predicate Hits(p: Option<Path>, a: nat, h: nat, k: nat)
    requires k <= h && a < Span(h)
  {
    p.Some? && Under(At(a, h, k), p.value)
  }

  /** The height-`k` table over page `a` is on the way to `p` or `q`. */
  ghost predicate OnWay(p: Option<Path>, q: Option<Path>, a: nat, h: nat, k: nat)
    requires a < Span(h)
  {
    k <= h ==> Hits(p, a, h, k) || Hits(q, a, h, k)
  }

  lemma OnWayDown(p: Option<Path>, q: Option<Path>, a: nat, h: nat, k: nat)
    requires h > 0 && a < Span(h) && OnWay(p, q, a, h, k)
    ensures 0 <= a % Span(h - 1) < Span(h - 1) && 0 <= a / Span(h - 1)
    ensures OnWay(Down(p, a / Span(h - 1)), Down(q, a / Span(h - 1)), a % Span(h - 1), h - 1, k)
  {
    SpanStep(a, h);
  }

  lemma {:induction false} CoversFrom(e: Entry, h: nat, a: nat, j: nat, x: Entry, p: Option<Path>, q: Option<Path>)
    requires Wf(e, h) && j <= h <= 4 && a < Span(h)
    requires (j < 1 ==> OnWay(p, q, a, h, 1)) && (j < 2 ==> OnWay(p, q, a, h, 2))
    requires h == 3 && j < 3 ==> p.Some? || q.Some? || x.Leaf? || (e.Absent? && x.Absent?)
    requires h == 4 && j < 3 ==>
               || OnWay(p, q, a, h, 3) || x.Leaf?
               || (SpanStep(a, h); Open(e, h)[a / Span(h - 1)].Absent? && x.Absent?)
    ensures Fits(At(a, h, j), h)
    ensures Covers(e, h, At(a, h, j), x, p, q)
    decreases h
  {
    AtFits(a, h, j);
    if h > j && !(e.Absent? && x.Absent?) {
      SpanStep(a, h);
      OpenWf(e, h);
      var i := a / Span(h - 1);
      if j < 1 { OnWayDown(p, q, a, h, 1); }
      if j < 2 { OnWayDown(p, q, a, h, 2); }
      if h == 4 && j < 3 && OnWay(p, q, a, h, 3) { OnWayDown(p, q, a, h, 3); }
      assert h <= 2 ==> p.Some? || q.Some?;
      CoversFrom(Open(e, h)[i], h - 1, a % Span(h - 1), j, x, Down(p, i), Down(q, i));
    }
  }

  /** The loop of as_flag is never strictly inside a span it could have
      overwritten whole: that span sticks out of the range. */
  predicate Sticks(start: nat, a: nat, end: nat, k: nat) {
    a % Span(k) == 0 || a - a % Span(k) < start || a - a % Span(k) + Span(k) > end
  }

  lemma SticksStep(start: nat, a: nat, end: nat, k: nat)
    requires start <= a < end && 1 <= k <= 2 && Sticks(start, a, end, k)
    ensures Sticks(start, Next(a, end), end, k)
  {
    assert Span(0) == 1 && Span(1) == 512 && Span(2) == 262144;
    var j := LeafHeight(a, end);
    if j >= k {
      AlignedDown(a, j, k);
      AlignedDown(a + Span(j), j, k);
    } else if k == 1 {
      SmallStep(a, 512, 1, 512);
    } else if j == 0 {
      SmallStep(a, 262144, 1, 262144);
    } else {
      SmallStep(a, 262144, 512, 512);
    }
  }

  lemma AlignedDown(a: nat, j: nat, k: nat)
    requires k <= j && a % Span(j) == 0
    ensures a % Span(k) == 0
  {
    DivMod(a, Span(j));
    DivMul(a, a / Span(j), 0, Span(j), Ratio(j, k), Span(k));
  }

  /** A step that divides a span stays in it, or ends exactly at its end. */
  lemma SmallStep(a: nat, d: nat, s: nat, m: nat)
    requires s > 0 && m > 0 && d == m * s && a % s == 0
    ensures d > 0 && ((a + s) % d == 0 || (a + s) - (a + s) % d == a - a % d)
  {
    MulLe(1, m, s);
    DivMod(a, d);
    DivMod(a, s);
    StepWithin(a, a / d, a % d, a / s, d, s, m);
  }

  lemma Cancel(x: int, y: int, s: nat)
    requires x * s < y * s
    ensures x < y
  {
  }

  lemma StepWithin(a: nat, q: nat, r: nat, c: nat, d: nat, s: nat, m: nat)
    requires s > 0 && d == m * s > 0 && a == q * d + r && r < d && a == c * s
    ensures (a + s) % d == 0 || (a + s) - (a + s) % d == q * d
  {
    var n := c - q * m;
    assert r == n * s by { assert q * d == (q * m) * s; assert n * s == c * s - (q * m) * s; }
    Cancel(-1, n, s);
    Cancel(n, m, s);
    if n + 1 == m {
      assert a + s == (q + 1) * d;
      DivUnique(a + s, q + 1, 0, d);
    } else {
      MulLe(n + 2, m, s);
      DivUnique(a + s, q, r + s, d);
    }
  }

  /** A span the loop works inside holds the first or the last page of the range. */
  lemma SticksShared(start: nat, a: nat, end: nat, k: nat)
    requires start <= a < end && LeafHeight(a, end) < k <= 2 && Sticks(start, a, end, k)
    ensures start / Span(k) == a / Span(k) || (end - 1) / Span(k) == a / Span(k)
  {
    assert Span(0) == 1 && Span(1) == 512 && Span(2) == 262144;
  }

  lemma SticksOnWay(start: nat, a: nat, end: nat, k: nat)
    requires start <= a < end <= Span(4) && LeafHeight(a, end) < k <= 2 && Sticks(start, a, end, k)
    ensures OnWay(Some(At(start, 4, 0)), Some(At(end - 1, 4, 0)), a, 4, k)
  {
    ValAt(start, 4);
    ValAt(end - 1, 4);
    SticksShared(start, a, end, k);
    UnderAt(a, 4, k, At(start, 4, 0));
    UnderAt(a, 4, k, At(end - 1, 4, 0));
  }

  /** No 512 GiB slot strictly between the ends of the range holds a table. */
  ghost predicate NoMiddleTable(t: Entry, start: nat, end: nat)
    requires IsRoot(t) && start < end <= Span(4)
  {
    forall m :: start / Span(3) < m < (end - 1) / Span(3) && m < FANOUT ==> !t.slots[m].Table?
  }

  lemma InstallCovers(t: Entry, start: nat, a: nat, end: nat, ob: Option<Bits>)
    requires IsRoot(t) && start <= a < end <= Span(4)
    requires Sticks(start, a, end, 1) && Sticks(start, a, end, 2)
    requires ob.Some? || NoMiddleTable(t, start, end)
    ensures var j := LeafHeight(a, end);
            && Fits(At(a, 4, j), 4)
            && Covers(t, 4, At(a, 4, j), NewLeaf(a, ob), Some(At(start, 4, 0)), Some(At(end - 1, 4, 0)))
  {
    var j := LeafHeight(a, end);
    var p, q := At(start, 4, 0), At(end - 1, 4, 0);
    ValAt(start, 4);
    ValAt(end - 1, 4);
    if j < 1 { SticksOnWay(start, a, end, 1); }
    if j < 2 { SticksOnWay(start, a, end, 2); }
    UnderAt(a, 4, 3, p);
    UnderAt(a, 4, 3, q);
    SpanStep(a, 4);
    SlotOrder(start, a, end);
    assert Wf(t.slots[a / Span(3)], 3);
    CoversFrom(t, 4, a, j, NewLeaf(a, ob), Some(p), Some(q));
  }

  lemma SlotOrder(start: nat, a: nat, end: nat)
    requires start <= a < end
    ensures start / Span(3) <= a / Span(3) <= (end - 1) / Span(3)
  {
    assert Span(3) == 134217728;
  }

  /** What every round of as_flag's loop keeps. */
  ghost predicate Going(t: Entry, start: nat, a: nat, end: nat, ob: Option<Bits>) {
    && IsRoot(t) && start < end && start <= a <= end <= Span(4)
    && Sticks(start, a, end, 1) && Sticks(start, a, end, 2)
    && (ob.Some? || NoMiddleTable(t, start, end))
    && CanonOff(t, 4, Some(At(start, 4, 0)), Some(At(end - 1, 4, 0)))
  }

  lemma FlagStepCanon(t: Entry, start: nat, a: nat, end: nat, ob: Option<Bits>)
    requires Going(t, start, a, end, ob) && a < end
    ensures Going(FlagStep(t, a, end, ob), start, Next(a, end), end, ob)
  {
    var j := LeafHeight(a, end);
    InstallCovers(t, start, a, end, ob);
    AtFits(a, 4, j);
    InstallCanon(t, 4, At(a, 4, j), NewLeaf(a, ob), Some(At(start, 4, 0)), Some(At(end - 1, 4, 0)));
    SticksStep(start, a, end, 1);
    SticksStep(start, a, end, 2);
    if ob.None? { InstallKeepsMiddle(t, start, a, end); }
  }

  lemma {:induction false} FlagLoopCanon(t: Entry, start: nat, a: nat, end: nat, ob: Option<Bits>)
    requires Going(t, start, a, end, ob)
    ensures Going(FlagLoop(t, a, end, ob), start, end, end, ob)
    decreases end - a
  {
    if a < end {
      FlagStepCanon(t, start, a, end, ob);
      FlagLoopCanon(FlagStep(t, a, end, ob), start, Next(a, end), end, ob);
    }
  }

  lemma InstallKeepsMiddle(t: Entry, start: nat, a: nat, end: nat)
    requires IsRoot(t) && start <= a < end <= Span(4) && NoMiddleTable(t, start, end)
    ensures NoMiddleTable(FlagStep(t, a, end, None), start, end)
  {
    var j := LeafHeight(a, end);
    var w := At(a, 4, j);
    AtFits(a, 4, j);
    SpanStep(a, 4);
    assert t.slots[w.i].Absent? ==> Install(t.slots[w.i], 3, w.rest, Absent) == Absent;
    assert Wf(t.slots[w.i], 3);
  }

  /** as_flag keeps the tree canonical, unless it clears a whole PML4 slot that
      is neither the first nor the last of its range and that held a table:
      then, and only then, an empty table stays behind. */
  lemma FlagCanon(t: Entry, a: nat, end: nat, ob: Option<Bits>)
    requires IsRoot(t) && Canon(t, 4) && a <= end <= Span(4)
    ensures Canon(Flag(t, a, end, ob), 4) <==> a == end || ob.Some? || NoMiddleTable(t, a, end)
  {
    if a < end {
      if ob.Some? || NoMiddleTable(t, a, end) {
        FlagStaysCanon(t, a, end, ob);
      } else {
        FlagLeavesTable(t, a, end);
      }
    }
  }

  lemma FlagStaysCanon(t: Entry, a: nat, end: nat, ob: Option<Bits>)
    requires IsRoot(t) && Canon(t, 4) && a < end <= Span(4)
    requires ob.Some? || NoMiddleTable(t, a, end)
    ensures Canon(Flag(t, a, end, ob), 4)
  {
    OffMore(t, 4, Some(At(a, 4, 0)), Some(At(end - 1, 4, 0)));
    FlagLoopCanon(t, a, a, end, ob);
    MergeEndsCanon(FlagLoop(t, a, end, ob), a, end);
  }

  lemma MergeEndsCanon(t: Entry, a: nat, end: nat)
    requires IsRoot(t) && a < end <= Span(4)
    requires CanonOff(t, 4, Some(At(a, 4, 0)), Some(At(end - 1, 4, 0)))
    ensures Canon(MergeEnds(t, a, end), 4)
  {
    ValAt(a, 4);
    ValAt(end - 1, 4);
    MergeBoth(t, 4, At(a, 4, 0), At(end - 1, 4, 0));
  }

  /** Two boundary merges suffice if everything off the boundaries is canonical. */
  lemma MergeBoth(t: Entry, h: nat, p: Path, q: Path)
    requires h <= 4 && Wf(t, h) && IsPage(p, h) && IsPage(q, h) && CanonOff(t, h, Some(p), Some(q))
    ensures Wf(MergePath(t, h, p), h) && Wf(MergePath(MergePath(t, h, p), h, q), h)
    ensures Canon(MergePath(MergePath(t, h, p), h, q), h)
  {
    MergeCanon(t, h, p, Some(q));
    var u := MergePath(t, h, p);
    OffSwap(u, h, None, Some(q));
    MergeCanon(u, h, q, None);
    OffEverything(MergePath(u, h, q), h);
  }

  lemma {:induction false} FlagLoopKeepsTable(t: Entry, a: nat, end: nat, ob: Option<Bits>, m: nat)
    requires IsRoot(t) && a <= end <= Span(4) && m < FANOUT && t.slots[m].Table?
    ensures FlagLoop(t, a, end, ob).slots[m].Table?
    decreases end - a
  {
    if a < end {
      var w := At(a, 4, LeafHeight(a, end));
      SpanStep(a, 4);
      assert w.rest.Slot?;
      FlagLoopKeepsTable(FlagStep(t, a, end, ob), Next(a, end), end, ob, m);
    }
  }

  /** PML4 slot `m`, strictly inside the range, holds a table that maps nothing. */
  ghost predicate LeftOver(r: Entry, a: nat, end: nat, m: nat) {
    && IsRoot(r) && a / Span(3) < m < (end - 1) / Span(3) && m < FANOUT && r.slots[m].Table? && Wf(r.slots[m], 3)
    && forall q :: IsPage(q, 3) ==> Trans(r.slots[m], 3, q).None?
  }

  lemma FlagLeavesTable(t: Entry, a: nat, end: nat)
    requires IsRoot(t) && a < end <= Span(4) && !NoMiddleTable(t, a, end)
    ensures !Canon(Flag(t, a, end, None), 4)
    ensures forall m :: a / Span(3) < m < (end - 1) / Span(3) && m < FANOUT && t.slots[m].Table? ==>
              LeftOver(Flag(t, a, end, None), a, end, m)
  {
    var r := Flag(t, a, end, None);
    forall m | a / Span(3) < m < (end - 1) / Span(3) && m < FANOUT && t.slots[m].Table? ensures LeftOver(r, a, end, m) {
      LeavesTable(t, a, end, m);
    }
    var m :| a / Span(3) < m < (end - 1) / Span(3) && m < FANOUT && t.slots[m].Table?;
    assert LeftOver(r, a, end, m);
    forall q | IsPage(q, 3) ensures Trans(r.slots[m], 3, q) == Trans(Absent, 3, q) { }
    if Canon(r, 4) { CanonFlat(r.slots[m], Absent, 3); }
  }

  lemma LeavesTable(t: Entry, a: nat, end: nat, m: nat)
    requires IsRoot(t) && a < end <= Span(4) && a / Span(3) < m < (end - 1) / Span(3) && m < FANOUT && t.slots[m].Table?
    ensures LeftOver(Flag(t, a, end, None), a, end, m)
  {
    ValAt(a, 4);
    ValAt(end - 1, 4);
    SpanStep(a, 4);
    SpanStep(end - 1, 4);
    FlagLoopKeepsTable(t, a, end, None, m);
    var r := Flag(t, a, end, None);
    forall q | IsPage(q, 3)
      ensures Trans(r.slots[m], 3, q).None?
    {
      var p := Slot(m, q);
      AtVal(p, 4);
      FlagRefines(t, a, end, None, Val(p, 4));
      MiddlePage(a, Val(p, 4), m, end, q);
    }
  }

  lemma MiddlePage(a: nat, n: nat, m: nat, end: nat, q: Path)
    requires IsPage(q, 3) && n == m * Span(3) + Val(q, 3)
    requires end > 0 && a / Span(3) < m < (end - 1) / Span(3)
    ensures a <= n < end
  {
    ValBound(q, 3);
    assert Span(3) == 134217728;
  }

  // -------------------------------------------------------------------------
  // Flag and revert; whole runs from the boot tree
  // -------------------------------------------------------------------------

  /** Canonical roots with the same flat map are equal. */
  lemma SamePages(t: Entry, u: Entry)
    requires IsRoot(t) && IsRoot(u) && Canon(t, 4) && Canon(u, 4)
    requires forall n :: 0 <= n < Span(4) ==> Page(t, n) == Page(u, n)
    ensures t == u
  {
    forall q | IsPage(q, 4)
      ensures Trans(t, 4, q) == Trans(u, 4, q)
    {
      AtVal(q, 4);
      assert Page(t, Val(q, 4)) == Page(u, Val(q, 4));
    }
    CanonUnique(t, u, 4);
  }

  /** Flagging a range and then giving it back what it had restores the tree itself, so also its
      table count, just when it ends in a canonical tree; after a first call that kept the tree
      canonical, just when the second clears no table in a slot strictly inside the range. */
  lemma FlagRevert(t: Entry, a: nat, end: nat, ob: Option<Bits>, was: Option<Bits>)
    requires IsRoot(t) && Canon(t, 4) && a < end <= Span(4)
    requires forall n :: a <= n < end ==> Page(t, n) == Wanted(n, was)
    ensures var u := Flag(t, a, end, ob); Flag(u, a, end, was) == t <==> Canon(Flag(u, a, end, was), 4)
    ensures ob.Some? || NoMiddleTable(t, a, end) ==>
              var u := Flag(t, a, end, ob); Flag(u, a, end, was) == t <==> was.Some? || NoMiddleTable(u, a, end)
  {
    var u := Flag(t, a, end, ob);
    var v := Flag(u, a, end, was);
    FlagCanon(t, a, end, ob);
    if Canon(u, 4) { FlagCanon(u, a, end, was); }
    if Canon(v, 4) {
      forall n | 0 <= n < Span(4)
        ensures Page(v, n) == Page(t, n)
      {
        FlagRefines(t, a, end, ob, n);
        FlagRefines(u, a, end, was, n);
      }
      SamePages(v, t);
    }
  }

  /** Kernel-only, read-write-execute, write-back: PAGE_KERNEL_PRISTINE. */
  const PRISTINE: Bits := Bits(true, false, false, false, false)

  /** as_identity_mapping: the first 512 GiB as 1 GiB leaves. */
  function Boot(): (t: Entry) {
    Table(Blank()[0 := Table(Split(0, PRISTINE, 3))])
  }

  lemma BootRoot()
    ensures IsRoot(Boot()) && Canon(Boot(), 4)
  {
    var s := Split(0, PRISTINE, 3);
    forall i | 0 <= i < FANOUT ensures Wf(s[i], 2) { SpanAligned(0, i, 3); }
    assert Wf(Table(s), 3);
    assert !AllAbsent(s) by { assert s[0] != Absent; }
    assert Canon(Table(s), 3);
    assert Boot().slots[0] == Table(s);
  }

  lemma BootLeaf(r: Path)
    requires IsPage(r, 3)
    ensures Wf(Table(Split(0, PRISTINE, 3)), 3)
    ensures Look(Table(Split(0, PRISTINE, 3)), 3, r) == Some(View(Val(r, 3), PRISTINE, 2))
  {
    var s := Split(0, PRISTINE, 3);
    forall i | 0 <= i < FANOUT ensures Wf(s[i], 2) { SpanAligned(0, i, 3); }
    assert s[r.i] == Leaf(0 + r.i * Span(2), PRISTINE);
    assert Val(r, 3) == r.i * Span(2) + Val(r.rest, 2);
  }

  lemma BootPages(n: nat)
    requires n < Span(4)
    ensures IsRoot(Boot()) && Page(Boot(), n) == if n < Span(3) then Wanted(n, Some(PRISTINE)) else None
  {
    BootRoot();
    ValAt(n, 4);
    SpanStep(n, 4);
    var q := At(n, 4, 0);
    var s := Split(0, PRISTINE, 3);
    if q.i == 0 {
      assert Boot().slots[0] == Table(s);
      BootLeaf(q.rest);
      ValBound(q.rest, 3);
    } else {
      assert Boot().slots[q.i] == Absent;
      MulLe(1, q.i, Span(3));
    }
  }

  datatype FlagCall = FlagCall(a: nat, end: nat, ob: Option<Bits>)

  predicate Calls(cs: seq<FlagCall>) {
    forall i :: 0 <= i < |cs| ==> cs[i].a <= cs[i].end <= Span(4)
  }

  /** The tree after a sequence of as_flag calls. */
  ghost function Run(t: Entry, cs: seq<FlagCall>): (u: Entry)
    requires IsRoot(t) && Calls(cs)
    ensures IsRoot(u)
  {
    if cs == [] then t
    else
      var c := cs[|cs| - 1];
      Flag(Run(t, cs[..|cs| - 1]), c.a, c.end, c.ob)
  }

  /** The flat map after the same calls: the last call over a page decides. */
  ghost function FlatRun(t: Entry, cs: seq<FlagCall>, n: nat): (m: Option<Mapping>)
    requires IsRoot(t) && n < Span(4)
  {
    if cs == [] then Page(t, n)
    else
      var c := cs[|cs| - 1];
      if c.a <= n < c.end then Wanted(n, c.ob) else FlatRun(t, cs[..|cs| - 1], n)
  }

  /** Every call sets rights or clears no table strictly inside its range, as do all calls within two
      neighbouring 512 GiB slots. */
  ghost predicate Tidy(t: Entry, cs: seq<FlagCall>)
    requires IsRoot(t) && Calls(cs)
  {
    cs != [] ==>
      var c, u := cs[|cs| - 1], Run(t, cs[..|cs| - 1]);
      Tidy(t, cs[..|cs| - 1]) && (c.a == c.end || c.ob.Some? || NoMiddleTable(u, c.a, c.end))
  }

  lemma {:induction false} RunRefines(t: Entry, cs: seq<FlagCall>, n: nat)
    requires IsRoot(t) && Calls(cs) && n < Span(4)
    ensures Page(Run(t, cs), n) == FlatRun(t, cs, n)
  {
    if cs != [] {
      var c := cs[|cs| - 1];
      RunRefines(t, cs[..|cs| - 1], n);
      FlagRefines(Run(t, cs[..|cs| - 1]), c.a, c.end, c.ob, n);
    }
  }

  lemma {:induction false} RunCanon(t: Entry, cs: seq<FlagCall>)
    requires IsRoot(t) && Canon(t, 4) && Calls(cs) && Tidy(t, cs)
    ensures Canon(Run(t, cs), 4)
  {
    if cs != [] {
      var c := cs[|cs| - 1];
      RunCanon(t, cs[..|cs| - 1]);
      FlagCanon(Run(t, cs[..|cs| - 1]), c.a, c.end, c.ob);
    }
  }

  ghost predicate SameFlat(t: Entry, cs: seq<FlagCall>, ds: seq<FlagCall>)
    requires IsRoot(t)
  {
    forall n :: 0 <= n < Span(4) ==> FlatRun(t, cs, n) == FlatRun(t, ds, n)
  }

  /** The tree depends only on what each page was last flagged as, not on how the calls were cut or
      ordered; calls that give every page back what it had restore the tree. */
  lemma RunDetermined(t: Entry, cs: seq<FlagCall>, ds: seq<FlagCall>)
    requires IsRoot(t) && Canon(t, 4) && Calls(cs) && Calls(ds) && Tidy(t, cs) && Tidy(t, ds)
    ensures Run(t, cs) == Run(t, ds) <==> SameFlat(t, cs, ds)
  {
    var u, v := Run(t, cs), Run(t, ds);
    RunCanon(t, cs);
    RunCanon(t, ds);
    forall n | 0 <= n < Span(4)
      ensures Page(u, n) == FlatRun(t, cs, n) && Page(v, n) == FlatRun(t, ds, n)
    {
      RunRefines(t, cs, n);
      RunRefines(t, ds, n);
    }
    if SameFlat(t, cs, ds) { SamePages(u, v); }
  }
}
