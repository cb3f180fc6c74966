/** as_flag on the page tree: a range of page numbers, cut into maximal leaves,
    then merged along its two boundary paths, refines a flat map update. */
module PageFlag {
  import opened Arith
  import opened PageTree
  import opened Seqs

  // -------------------------------------------------------------------------
  // Page numbers and paths
  // -------------------------------------------------------------------------

  /** The path from a height-`h` entry to the height-`j` entry over page `n`
      (paging.c: level_idx taken level by level). */
  function At(n: nat, h: nat, j: nat): (w: Path)
    requires j <= h && n < Span(h)
    decreases h
  {
    if h == j then Here
    else
      SpanStep(n, h);
      Slot(n / Span(h - 1), At(n % Span(h - 1), h - 1, j))
  }

  lemma SpanStep(n: nat, h: nat)
    requires 0 < h && n < Span(h)
    ensures 0 <= n / Span(h - 1) < FANOUT && 0 <= n % Span(h - 1) < Span(h - 1)
    ensures n == n / Span(h - 1) * Span(h - 1) + n % Span(h - 1)
  {
    var d := Span(h - 1);
    var q := n / d;
    assert q >= FANOUT ==> q * d >= FANOUT * d;
  }

  lemma AtFits(n: nat, h: nat, j: nat)
    requires j <= h && n < Span(h)
    ensures Fits(At(n, h, j), h) && Len(At(n, h, j)) == h - j
    decreases h
  {
    if h > j {
      SpanStep(n, h);
      AtFits(n % Span(h - 1), h - 1, j);
    }
  }

  lemma MulLe(a: nat, b: nat, d: nat)
    requires a <= b
    ensures a * d <= b * d
  {
  }

  lemma {:induction false} ValBound(q: Path, h: nat)
    requires IsPage(q, h)
    ensures Val(q, h) < Span(h)
  {
    if q.Slot? {
      ValBound(q.rest, h - 1);
      MulLe(q.i, FANOUT - 1, Span(h - 1));
    }
  }

  /** A page number and its path determine each other. */
  lemma ValAt(n: nat, h: nat)
    requires n < Span(h)
    ensures IsPage(At(n, h, 0), h) && Val(At(n, h, 0), h) == n
    decreases h
  {
    AtFits(n, h, 0);
    if h > 0 {
      SpanStep(n, h);
      ValAt(n % Span(h - 1), h - 1);
    }
  }

  lemma AtVal(q: Path, h: nat)
    requires IsPage(q, h)
    ensures Val(q, h) < Span(h) && At(Val(q, h), h, 0) == q
  {
    ValBound(q, h);
    if q.Slot? {
      ValBound(q.rest, h - 1);
      DivUnique(Val(q, h), q.i, Val(q.rest, h - 1), Span(h - 1));
      AtVal(q.rest, h - 1);
    }
  }

  /** `Span(h)` is a multiple of every smaller span. */
  function Ratio(h: nat, j: nat): (m: nat)
    requires j <= h
    ensures m > 0 && Span(h) == m * Span(j)
  {
    if h == j then 1 else FANOUT * Ratio(h - 1, j)
  }

  lemma DivMul(n: nat, i: nat, r: nat, s: nat, m: nat, d: nat)
    requires d > 0 && s == m * d && r < s && n == i * s + r
    ensures n / d == i * m + r / d
    ensures n % d == r % d
    ensures 0 <= r / d < m
  {
    var x, y := r / d, r % d;
    assert i * s == (i * m) * d;
    assert (i * m + x) * d == (i * m) * d + x * d;
    DivUnique(n, i * m + x, y, d);
    if x >= m { MulLe(m, x, d); }
  }

  lemma DivDown(n: nat, i: nat, r: nat, h: nat, j: nat)
    requires j <= h && r < Span(h) && n == i * Span(h) + r
    ensures n / Span(j) == i * Ratio(h, j) + r / Span(j)
    ensures n % Span(j) == r % Span(j)
    ensures 0 <= r / Span(j) < Ratio(h, j)
  {
    DivMul(n, i, r, Span(h), Ratio(h, j), Span(j));
  }

  lemma DigitsEqual(i: nat, x: nat, k: nat, y: nat, m: nat)
    requires x < m && y < m
    ensures i * m + x == k * m + y <==> i == k && x == y
  {
    DivUnique(i * m + x, i, x, m);
    DivUnique(k * m + y, k, y, m);
  }

  /** Two pages share a height-`j` span iff they share a slot and do so inside it. */
  lemma SpanShared(n: nat, i: nat, r: nat, p: nat, k: nat, v: nat, h: nat, j: nat)
    requires j <= h && r < Span(h) && n == i * Span(h) + r
    requires v < Span(h) && p == k * Span(h) + v
    ensures p / Span(j) == n / Span(j) <==> i == k && v / Span(j) == r / Span(j)
  {
    DivDown(n, i, r, h, j);
    DivDown(p, k, v, h, j);
    DigitsEqual(i, r / Span(j), k, v / Span(j), Ratio(h, j));
  }

  /** The pages below `At(n, h, j)` are exactly those of `n`'s aligned span. */
  lemma {:induction false} UnderAt(n: nat, h: nat, j: nat, q: Path)
    requires j <= h && n < Span(h) && IsPage(q, h)
    ensures Under(At(n, h, j), q) <==> Val(q, h) / Span(j) == n / Span(j)
    decreases h
  {
    if h == j {
      ValBound(q, h);
      DivUnique(Val(q, h), 0, Val(q, h), Span(h));
      DivUnique(n, 0, n, Span(h));
    } else {
      SpanStep(n, h);
      ValBound(q.rest, h - 1);
      UnderAt(n % Span(h - 1), h - 1, j, q.rest);
      SpanShared(n, n / Span(h - 1), n % Span(h - 1), Val(q, h), q.i, Val(q.rest, h - 1), h - 1, j);
    }
  }

  lemma {:induction false} BelowAt(n: nat, h: nat, j: nat, q: Path)
    requires j <= h && n < Span(h) && IsPage(q, h) && Under(At(n, h, j), q)
    ensures IsPage(Below(At(n, h, j), q), j)
    ensures Val(Below(At(n, h, j), q), j) == Val(q, h) % Span(j)
    decreases h
  {
    if h == j {
      ValBound(q, h);
      DivUnique(Val(q, h), 0, Val(q, h), Span(h));
    } else {
      SpanStep(n, h);
      ValBound(q.rest, h - 1);
      BelowAt(n % Span(h - 1), h - 1, j, q.rest);
      DivDown(Val(q, h), q.i, Val(q.rest, h - 1), h - 1, j);
    }
  }

  // -------------------------------------------------------------------------
  // as_flag
  // -------------------------------------------------------------------------

  /** The largest leaf that starts at `a` and stays within the range. */
  function LeafHeight(a: nat, end: nat): (j: nat)
    requires a < end
    ensures j <= 2 && a % Span(j) == 0 && a + Span(j) <= end
  {
    if a % Span(2) == 0 && end - a >= Span(2) then 2
    else if a % Span(1) == 0 && end - a >= Span(1) then 1
    else assert Span(0) == 1; 0
  }

  /** The entry as_flag writes over page `a`: identity, or absent for no rights. */
  function NewLeaf(a: nat, ob: Option<Bits>): (e: Entry) {
    if ob.None? then Absent else Leaf(a, ob.value)
  }

  ghost predicate IsRoot(t: Entry) {
    t.Table? && Wf(t, 4)
  }

  /** Where the next round of as_flag's loop starts. */
  function Next(a: nat, end: nat): (b: nat)
    requires a < end
    ensures a < b <= end
  {
    a + Span(LeafHeight(a, end))
  }

  /** One round of as_flag's loop. */
  function FlagStep(t: Entry, a: nat, end: nat, ob: Option<Bits>): (r: Entry)
    requires IsRoot(t) && a < end <= Span(4)
    ensures IsRoot(r)
  {
    var j := LeafHeight(a, end);
    AtFits(a, 4, j);
    InstallWf(t, 4, At(a, 4, j), NewLeaf(a, ob));
    Install(t, 4, At(a, 4, j), NewLeaf(a, ob))
  }

  /** The install loop of as_flag from page `a` on. */
  function FlagLoop(t: Entry, a: nat, end: nat, ob: Option<Bits>): (r: Entry)
    requires IsRoot(t) && a <= end <= Span(4)
    ensures IsRoot(r)
    decreases end - a
  {
    if a == end then t else FlagLoop(FlagStep(t, a, end, ob), Next(a, end), end, ob)
  }

  /** The two boundary merges at the end of as_flag. */
  function MergeEnds(t: Entry, a: nat, end: nat): (r: Entry)
    requires IsRoot(t) && a < end <= Span(4)
    ensures IsRoot(r)
  {
    ValAt(a, 4);
    ValAt(end - 1, 4);
    MergeTrans(t, 4, At(a, 4, 0), At(a, 4, 0));
    var u := MergePath(t, 4, At(a, 4, 0));
    MergeTrans(u, 4, At(end - 1, 4, 0), At(end - 1, 4, 0));
    MergePath(u, 4, At(end - 1, 4, 0))
  }

  /** What as_flag leaves behind (paging.c: as_flag). */
  function Flag(t: Entry, a: nat, end: nat, ob: Option<Bits>): (r: Entry)
    requires IsRoot(t) && a <= end <= Span(4)
    ensures IsRoot(r)
  {
    if a == end then t else MergeEnds(FlagLoop(t, a, end, ob), a, end)
  }

  /** The flat map a root stands for, by page number. */
  ghost function Page(t: Entry, n: nat): (m: Option<Mapping>)
    requires IsRoot(t) && n < Span(4)
  {
    ValAt(n, 4);
    Trans(t, 4, At(n, 4, 0))
  }

  /** What the caller of as_flag asked for. */
  function Wanted(n: nat, ob: Option<Bits>): (m: Option<Mapping>) {
    if ob.None? then None else Some(Mapping(n, ob.value))
  }

  lemma FlagStepRefines(t: Entry, a: nat, end: nat, ob: Option<Bits>, n: nat)
    requires IsRoot(t) && a < end <= Span(4) && n < Span(4)
    ensures Page(FlagStep(t, a, end, ob), n) == if a <= n < Next(a, end) then Wanted(n, ob) else Page(t, n)
  {
    var j := LeafHeight(a, end);
    var w, x := At(a, 4, j), NewLeaf(a, ob);
    var q := At(n, 4, 0);
    AtFits(a, 4, j);
    ValAt(n, 4);
    InstallTrans(t, 4, w, x, q);
    UnderAt(a, 4, j, q);
    SameSpan(n, a, Span(j));
    if Under(w, q) { BelowAt(a, 4, j, q); }
  }

  lemma {:induction false} FlagLoopRefines(t: Entry, a: nat, end: nat, ob: Option<Bits>, n: nat)
    requires IsRoot(t) && a <= end <= Span(4) && n < Span(4)
    ensures Page(FlagLoop(t, a, end, ob), n) == if a <= n < end then Wanted(n, ob) else Page(t, n)
    decreases end - a
  {
    if a < end {
      FlagStepRefines(t, a, end, ob, n);
      FlagLoopRefines(FlagStep(t, a, end, ob), Next(a, end), end, ob, n);
    }
  }

  /** With `a` aligned, `n` has the same quotient exactly when it is in `a`'s span. */
  lemma SameSpan(n: nat, a: nat, d: nat)
    requires d > 0 && a % d == 0
    ensures n / d == a / d <==> a <= n < a + d
    ensures n / d == a / d ==> n % d == n - a
  {
    if a <= n < a + d { DivUnique(n, a / d, n - a, d); }
  }

  lemma MergeEndsTrans(t: Entry, a: nat, end: nat, n: nat)
    requires IsRoot(t) && a < end <= Span(4) && n < Span(4)
    ensures Page(MergeEnds(t, a, end), n) == Page(t, n)
  {
    var q := At(n, 4, 0);
    ValAt(n, 4);
    ValAt(a, 4);
    ValAt(end - 1, 4);
    MergeTrans(t, 4, At(a, 4, 0), q);
    MergeTrans(MergePath(t, 4, At(a, 4, 0)), 4, At(end - 1, 4, 0), q);
  }

  /** as_flag is a flat update of the range, for every tree and every range. */
  lemma FlagRefines(t: Entry, a: nat, end: nat, ob: Option<Bits>, n: nat)
    requires IsRoot(t) && a <= end <= Span(4) && n < Span(4)
    ensures Page(Flag(t, a, end, ob), n) == if a <= n < end then Wanted(n, ob) else Page(t, n)
  {
    if a < end {
      FlagLoopRefines(t, a, end, ob, n);
      MergeEndsTrans(FlagLoop(t, a, end, ob), a, end, n);
    }
  }
}
