/** vtd_map, its rollback, vtd_unmap and vtd_mapping_leaves, for any physical address. */
module VtdMap {
  import opened Arith
  import opened Vtd
  import PT = PageTree
  import PF = PageFlag
  import opened Seqs

  // -------------------------------------------------------------------------
  // Leaf sizes
  // -------------------------------------------------------------------------

  /** Pages the next leaf of rollback, unmap and the leaf count covers. */
  function Step(superpages: bool, a: nat, left: nat): (n: nat)
    ensures n == 1 || n == HUGE
  {
    if superpages && a % HUGE == 0 && left >= HUGE then HUGE else 1
  }

  /** Pages the next leaf of an install covers: the physical address must be aligned as well. */
  function StepIn(superpages: bool, a: nat, phys: nat, left: nat): (n: nat)
    ensures n == 1 || n == HUGE
  {
    if superpages && a % HUGE == 0 && phys % HUGE == 0 && left >= HUGE then HUGE else 1
  }

  /** vtd_mapping_leaves. */
  function Leaves(superpages: bool, a: nat, pages: nat): (n: nat)
    decreases pages
  {
    if pages == 0 then 0 else 1 + Leaves(superpages, a + Step(superpages, a, pages), pages - Step(superpages, a, pages))
  }

  /** Leaves an install writes. */
  function LeavesIn(superpages: bool, a: nat, phys: nat, pages: nat): (n: nat)
    decreases pages
  {
    if pages == 0 then 0
    else var d := StepIn(superpages, a, phys, pages); 1 + LeavesIn(superpages, a + d, phys + d, pages - d)
  }

  lemma Shifted(a: nat, i: nat)
    ensures (a + i) % HUGE == if a % HUGE + i % HUGE < HUGE then a % HUGE + i % HUGE else a % HUGE + i % HUGE - HUGE
  {
    DivMod(a, HUGE);
    DivMod(i, HUGE);
    var q, r := a / HUGE + i / HUGE, a % HUGE + i % HUGE;
    if r < HUGE { DivUnique(a + i, q, r, HUGE); } else { DivUnique(a + i, q + 1, r - HUGE, HUGE); }
  }

  lemma Congruent(a: nat, b: nat, i: nat)
    ensures a % HUGE == b % HUGE <==> (a + i) % HUGE == (b + i) % HUGE
  {
    Shifted(a, i);
    Shifted(b, i);
    DivMod(a, HUGE);
    DivMod(b, HUGE);
  }

  /** For addresses congruent modulo 2 MiB, as for identity, the count is that of the installs. */
  lemma {:induction false} LeavesSame(superpages: bool, a: nat, phys: nat, pages: nat)
    requires a % HUGE == phys % HUGE
    ensures LeavesIn(superpages, a, phys, pages) == Leaves(superpages, a, pages)
    decreases pages
  {
    if pages > 0 {
      var d := Step(superpages, a, pages);
      Congruent(a, phys, d);
      LeavesSame(superpages, a + d, phys + d, pages - d);
    }
  }

  // -------------------------------------------------------------------------
  // The flat map
  // -------------------------------------------------------------------------

  function Region(n: nat): (r: nat) {
    n / HUGE * HUGE
  }

  /** The 2 MiB around page `n` lie inside the block. */
  predicate Big(superpages: bool, base: nat, pages: nat, n: nat) {
    superpages && base <= Region(n) && Region(n) + HUGE <= base + pages
  }

  function Height(superpages: bool, base: nat, pages: nat, n: nat): (k: nat) {
    if Big(superpages, base, pages, n) then 1 else 0
  }

  /** The leaf an install puts over page `n`: large only where both addresses allow it. */
  function HeightIn(superpages: bool, base: nat, phys: nat, pages: nat, n: nat): (k: nat) {
    if base % HUGE == phys % HUGE then Height(superpages, base, pages, n) else 0
  }

  /** How the block's page `n` is mapped. */
  function Want(superpages: bool, base: nat, phys: nat, pages: nat, perm: Perm, n: nat): (v: View)
    requires base <= n
  {
    View(phys + (n - base), perm, HeightIn(superpages, base, phys, pages, n))
  }

  ghost predicate PartAt(t: Sl, u: Sl, superpages: bool, base: nat, phys: nat, pages: nat, perm: Perm, hi: nat, n: nat)
    requires IsRoot(t) && IsRoot(u)
  {
    n < PT.Span(TOP) ==>
        Seen(u, n) == if base <= n < hi then Some(Want(superpages, base, phys, pages, perm, n)) else Seen(t, n)
  }

  /** `u` is `t` with the pages of the block below `hi` mapped. */
  ghost predicate Part(t: Sl, u: Sl, superpages: bool, base: nat, phys: nat, pages: nat, perm: Perm, hi: nat)
    requires IsRoot(t) && IsRoot(u)
  {
    forall n: nat :: PartAt(t, u, superpages, base, phys, pages, perm, hi, n)
  }

  ghost predicate SafeAt(t: Sl, superpages: bool, base: nat, phys: nat, pages: nat, n: nat)
    requires IsRoot(t)
  {
    n < PT.Span(TOP) && base <= n < base + pages && Seen(t, n).Some? ==>
        Seen(t, n).value.height <= HeightIn(superpages, base, phys, pages, n)
  }

  /** No page of the range lies in a leaf larger than the one the code looks for there: slpt_entry would take
      that leaf for a table. */
  ghost predicate Safe(t: Sl, superpages: bool, base: nat, phys: nat, pages: nat)
    requires IsRoot(t)
  {
    forall n: nat :: SafeAt(t, superpages, base, phys, pages, n)
  }

  ghost predicate NoneAt(t: Sl, lo: nat, hi: nat, n: nat)
    requires IsRoot(t)
  {
    n < PT.Span(TOP) && lo <= n < hi ==> Seen(t, n).None?
  }

  /** The pages lo..hi are unmapped. */
  ghost predicate Free(t: Sl, lo: nat, hi: nat)
    requires IsRoot(t)
  {
    forall n: nat :: NoneAt(t, lo, hi, n)
  }

  ghost predicate HeldAt(t: Sl, lo: nat, hi: nat, n: nat)
    requires IsRoot(t)
  {
    n < PT.Span(TOP) && lo <= n < hi ==> Seen(t, n).Some?
  }

  /** The pages lo..hi are all mapped. */
  ghost predicate Held(t: Sl, lo: nat, hi: nat)
    requires IsRoot(t)
  {
    forall n: nat :: HeldAt(t, lo, hi, n)
  }

  ghost predicate ClearedAt(t: Sl, u: Sl, lo: nat, hi: nat, n: nat)
    requires IsRoot(t) && IsRoot(u)
  {
    n < PT.Span(TOP) ==> Seen(u, n) == if lo <= n < hi then None else Seen(t, n)
  }

  /** `u` is `t` without the pages lo..hi. */
  ghost predicate Cleared(t: Sl, u: Sl, lo: nat, hi: nat)
    requires IsRoot(t) && IsRoot(u)
  {
    forall n: nat :: ClearedAt(t, u, lo, hi, n)
  }

  /** Page `x` is not inside one of the block's 2 MiB leaves. */
  ghost predicate Uncut(superpages: bool, base: nat, pages: nat, x: nat) {
    Big(superpages, base, pages, x) && x < base + pages ==> Region(x) == x
  }

  lemma Regions(a: nat, n: nat)
    requires a % HUGE == 0
    ensures Region(n) == a <==> a <= n < a + HUGE
    ensures Region(a) == a
  {
    DivMod(n, HUGE);
    DivMod(a, HUGE);
    if a <= n < a + HUGE { DivUnique(n, a / HUGE, n - a, HUGE); }
  }

  lemma RegionAligned(n: nat)
    ensures Region(n) % HUGE == 0 && Region(n) <= n < Region(n) + HUGE
  {
    DivMod(n, HUGE);
    DivUnique(Region(n), n / HUGE, 0, HUGE);
  }

  /** What is known of the step at page `a`: it fits, is aligned, and its leaf is of the block's size there. */
  ghost predicate Fitting(superpages: bool, base: nat, pages: nat, a: nat, d: nat, k: nat) {
    && PT.Span(k) == d && k <= 1 && a % d == 0 && a + d <= base + pages && Uncut(superpages, base, pages, a + d)
    && forall n: nat :: a <= n < a + d ==> Height(superpages, base, pages, n) == k
  }

  lemma StepFits(superpages: bool, base: nat, pages: nat, a: nat)
    requires base <= a < base + pages && Uncut(superpages, base, pages, a)
    ensures var d := Step(superpages, a, base + pages - a);
            Fitting(superpages, base, pages, a, d, if d == HUGE then 1 else 0)
  {
    var d := Step(superpages, a, base + pages - a);
    Spans();
    RegionAligned(a);
    if d == HUGE {
      forall n: nat | a <= n < a + d ensures Big(superpages, base, pages, n) { Regions(a, n); }
      DivUnique(a + HUGE, a / HUGE + 1, 0, HUGE);
      Regions(a + HUGE, a + HUGE);
    } else {
      RegionAligned(a + 1);
      if Big(superpages, base, pages, a + 1) && a + 1 < base + pages && Region(a + 1) != a + 1 {
        Regions(Region(a + 1), a);
      }
    }
  }

  lemma Spans()
    ensures PT.Span(0) == 1 && PT.Span(1) == HUGE
  {
  }

  // -------------------------------------------------------------------------
  // One leaf
  // -------------------------------------------------------------------------

  ghost predicate PutAt(t: Sl, u: Sl, a: nat, k: nat, frame: nat, perm: Perm, n: nat)
    requires IsRoot(t) && IsRoot(u)
  {
    n < PT.Span(TOP) ==>
        Seen(u, n) == if a <= n < a + PT.Span(k) then Some(View(frame + (n - a), perm, k)) else Seen(t, n)
  }

  /** `u` is `t` with the leaf at (a, k), over pages that were unmapped. */
  ghost predicate Put(t: Sl, u: Sl, a: nat, k: nat, frame: nat, perm: Perm)
    requires IsRoot(t) && IsRoot(u)
  {
    (forall n: nat :: PutAt(t, u, a, k, frame, perm, n)) && Free(t, a, a + PT.Span(k))
  }

  lemma InRegion(a: nat, n: nat, k: nat)
    requires k <= 1 && a % PT.Span(k) == 0
    ensures n / PT.Span(k) == a / PT.Span(k) <==> a <= n < a + PT.Span(k)
    ensures a <= n < a + PT.Span(k) ==> n % PT.Span(k) == n - a
  {
    Spans();
    var d := PT.Span(k);
    DivMod(n, d);
    DivMod(a, d);
    if a <= n < a + d { DivUnique(n, a / d, n - a, d); }
  }

  /** One round of vtd_map's loop: the entry must be found and vacant. */
  method PutLeaf(t: Sl, a: nat, k: nat, frame: nat, perm: Perm, budget: nat) returns (ok: bool, u: Sl, left: nat)
    requires IsRoot(t) && k <= 1 && a < PT.Span(TOP) && a % PT.Span(k) == 0 && Grants(perm)
    requires Seen(t, a).Some? ==> Seen(t, a).value.height <= k
    ensures IsRoot(u) && left <= budget && VacancyKept(t, u, a, k)
    ensures if ok then Put(t, u, a, k, frame, perm) && budget - left <= 3 && Vacant(t, a, k) else Same(t, u)
    ensures budget >= 3 ==> (ok <==> Vacant(t, a, k))
  {
    var found;
    found, u, left := SlptEntry(t, a, k, true, budget);
    ok := false;
    if !found { return; }
    PF.AtFits(a, TOP, k);
    var w := PF.At(a, TOP, k);
    if !Get(u, TOP, w).Empty? { return; }
    LeafPut(t, u, a, k, frame, perm);
    LeafVacancy(t, u, a, k, Leaf(frame, perm));
    u := Set(u, TOP, w, Leaf(frame, perm));
    ok := true;
  }

  lemma LeafVacancy(t: Sl, v: Sl, a: nat, k: nat, x: Sl)
    requires IsRoot(t) && IsRoot(v) && VacancyKept(t, v, a, k) && k <= 1 && a < PT.Span(TOP) && Wf(x, k)
    requires PT.Fits(PF.At(a, TOP, k), TOP) && Open(v, TOP, PF.At(a, TOP, k))
    ensures IsRoot(Set(v, TOP, PF.At(a, TOP, k), x)) && VacancyKept(t, Set(v, TOP, PF.At(a, TOP, k), x), a, k)
  {
    PF.AtFits(a, TOP, k);
    SetWf(v, TOP, PF.At(a, TOP, k), x);
    var u := Set(v, TOP, PF.At(a, TOP, k), x);
    forall b: nat, j: nat ensures VacantAt(t, u, a, k, b, j) {
      assert VacantAt(t, v, a, k, b, j);
      if b < PT.Span(TOP) && j <= 1 && Elsewhere(a, k, b, j) { SetVacancy(v, a, k, x, b, j); }
    }
  }

  lemma LeafPut(t: Sl, v: Sl, a: nat, k: nat, frame: nat, perm: Perm)
    requires IsRoot(t) && IsRoot(v) && Same(t, v) && k <= 1 && a < PT.Span(TOP) && a % PT.Span(k) == 0 && Grants(perm)
    requires PT.Fits(PF.At(a, TOP, k), TOP) && Open(v, TOP, PF.At(a, TOP, k)) && Get(v, TOP, PF.At(a, TOP, k)).Empty?
    requires Seen(t, a).Some? ==> Seen(t, a).value.height <= k
    ensures IsRoot(Set(v, TOP, PF.At(a, TOP, k), Leaf(frame, perm)))
    ensures Put(t, Set(v, TOP, PF.At(a, TOP, k), Leaf(frame, perm)), a, k, frame, perm)
  {
    SetSeen(v, a, k, Leaf(frame, perm), a);
    var u := Set(v, TOP, PF.At(a, TOP, k), Leaf(frame, perm));
    forall n: nat ensures PutAt(t, u, a, k, frame, perm, n) {
      assert SameAt(t, v, n);
      LeafPutAt(v, a, k, frame, perm, n);
    }
    var hi := a + PT.Span(k);
    forall n: nat ensures NoneAt(t, a, hi, n) {
      assert SameAt(t, v, n) && SameAt(t, v, a);
      InRegion(a, n, k);
      if n < PT.Span(TOP) && a <= n < a + PT.Span(k) { VacantNone(v, a, k, n); }
    }
  }

  lemma LeafPutAt(v: Sl, a: nat, k: nat, frame: nat, perm: Perm, n: nat)
    requires IsRoot(v) && k <= 1 && a < PT.Span(TOP) && a % PT.Span(k) == 0 && Grants(perm)
    requires PT.Fits(PF.At(a, TOP, k), TOP) && Open(v, TOP, PF.At(a, TOP, k))
    ensures IsRoot(Set(v, TOP, PF.At(a, TOP, k), Leaf(frame, perm)))
    ensures PutAt(v, Set(v, TOP, PF.At(a, TOP, k), Leaf(frame, perm)), a, k, frame, perm, n)
  {
    SetSeen(v, a, k, Leaf(frame, perm), if n < PT.Span(TOP) then n else a);
    InRegion(a, n, k);
  }

  /** One round of rollback or unmap: the entry, a leaf or a whole table, is cleared if it is there. */
  method ClearLeaf(t: Sl, a: nat, k: nat) returns (ok: bool, u: Sl)
    requires IsRoot(t) && k <= 1 && a < PT.Span(TOP) && a % PT.Span(k) == 0
    requires (Seen(t, a).Some? ==> Seen(t, a).value.height <= k)
    ensures IsRoot(u) && (ok <==> !Vacant(t, a, k)) && VacancyKept(t, u, a, k) && Cleared(t, u, a, a + PT.Span(k))
    ensures !ok ==> u == t
    ensures ok ==> Slot(u, a, k) == Some(Empty)
    ensures k == 0 || !IsTable(t, a) ==> TablesKept(t, u)
  {
    var found, left;
    found, u, left := SlptEntry(t, a, k, false, 0);
    PF.AtFits(a, TOP, k);
    var w := PF.At(a, TOP, k);
    ok := found && !Get(t, TOP, w).Empty?;
    if !ok {
      ghost var hi := a + PT.Span(k);
      forall n: nat ensures ClearedAt(t, t, a, hi, n) {
        InRegion(a, n, k);
        if n < PT.Span(TOP) && a <= n < a + PT.Span(k) { VacantNone(t, a, k, n); }
      }
      return;
    }
    u := Set(t, TOP, w, Empty);
    CutLeaf(t, a, k);
    LeafVacancy(t, t, a, k, Empty);
    if k == 0 || !IsTable(t, a) { NoTable(t, a, k); SetTables(t, a, k, Empty); }
  }

  lemma NoTable(t: Sl, a: nat, k: nat)
    requires IsRoot(t) && k <= 1 && a < PT.Span(TOP) && PT.Fits(PF.At(a, TOP, k), TOP) && Open(t, TOP, PF.At(a, TOP, k))
    requires (k == 0 || !IsTable(t, a))
    ensures !Get(t, TOP, PF.At(a, TOP, k)).Table?
  {
    PF.AtFits(a, TOP, k);
  }

  lemma CutLeaf(t: Sl, a: nat, k: nat)
    requires IsRoot(t) && k <= 1 && a < PT.Span(TOP) && a % PT.Span(k) == 0
    requires PT.Fits(PF.At(a, TOP, k), TOP) && Open(t, TOP, PF.At(a, TOP, k))
    ensures IsRoot(Set(t, TOP, PF.At(a, TOP, k), Empty))
    ensures Cleared(t, Set(t, TOP, PF.At(a, TOP, k), Empty), a, a + PT.Span(k))
    ensures Slot(Set(t, TOP, PF.At(a, TOP, k), Empty), a, k) == Some(Empty)
  {
    SetSeen(t, a, k, Empty, a);
    var u := Set(t, TOP, PF.At(a, TOP, k), Empty);
    var hi := a + PT.Span(k);
    forall n: nat ensures ClearedAt(t, u, a, hi, n) {
      if n < PT.Span(TOP) {
        SetSeen(t, a, k, Empty, n);
        InRegion(a, n, k);
      }
    }
  }

  // -------------------------------------------------------------------------
  // Which entries of a range are there
  // -------------------------------------------------------------------------

  /** Every leaf of the install finds its entry empty. An emptied table left by an earlier mapping of
      smaller leaves is enough to say no. */
  ghost predicate RangeVacant(t: Sl, superpages: bool, a: nat, phys: nat, pages: nat)
    requires IsRoot(t) && a + pages <= PT.Span(TOP)
    decreases pages
  {
    pages == 0 || (var d := StepIn(superpages, a, phys, pages);
                   Vacant(t, a, if d == HUGE then 1 else 0) && RangeVacant(t, superpages, a + d, phys + d, pages - d))
  }

  /** Every entry an unmap looks for is there. */
  ghost predicate RangeThere(t: Sl, superpages: bool, a: nat, pages: nat)
    requires IsRoot(t) && a + pages <= PT.Span(TOP)
    decreases pages
  {
    pages == 0 || (var d := Step(superpages, a, pages);
                   !Vacant(t, a, if d == HUGE then 1 else 0) && RangeThere(t, superpages, a + d, pages - d))
  }

  lemma After(a: nat, k: nat, b: nat, j: nat)
    requires k <= 1 && j <= 1 && a % PT.Span(k) == 0 && b % PT.Span(j) == 0 && a + PT.Span(k) <= b
    ensures Elsewhere(a, k, b, j)
  {
    Spans();
    if k == 1 || j == 1 {
      DivMod(a, HUGE);
      DivMod(b, HUGE);
    }
  }

  /** Work on a leaf leaves the entries after it as vacant as they were. */
  lemma {:induction false} VacantRest(t: Sl, u: Sl, superpages: bool, a: nat, k: nat, b: nat, phys: nat, pages: nat)
    requires IsRoot(t) && IsRoot(u) && VacancyKept(t, u, a, k) && k <= 1 && a % PT.Span(k) == 0
    requires a + PT.Span(k) <= b && b + pages <= PT.Span(TOP)
    ensures RangeVacant(t, superpages, b, phys, pages) <==> RangeVacant(u, superpages, b, phys, pages)
    decreases pages
  {
    if pages > 0 {
      var d := StepIn(superpages, b, phys, pages);
      var j := if d == HUGE then 1 else 0;
      After(a, k, b, j);
      assert VacantAt(t, u, a, k, b, j);
      VacantRest(t, u, superpages, a, k, b + d, phys + d, pages - d);
    }
  }

  lemma {:induction false} ThereRest(t: Sl, u: Sl, superpages: bool, a: nat, k: nat, b: nat, pages: nat)
    requires IsRoot(t) && IsRoot(u) && VacancyKept(t, u, a, k) && k <= 1 && a % PT.Span(k) == 0
    requires a + PT.Span(k) <= b && b + pages <= PT.Span(TOP)
    ensures RangeThere(t, superpages, b, pages) <==> RangeThere(u, superpages, b, pages)
    decreases pages
  {
    if pages > 0 {
      var d := Step(superpages, b, pages);
      var j := if d == HUGE then 1 else 0;
      After(a, k, b, j);
      assert VacantAt(t, u, a, k, b, j);
      ThereRest(t, u, superpages, a, k, b + d, pages - d);
    }
  }

  /** A range all of whose pages are mapped has every entry an unmap looks for. */
  lemma {:induction false} HeldThere(t: Sl, superpages: bool, base: nat, pages: nat, a: nat)
    requires IsRoot(t) && base <= a <= base + pages <= PT.Span(TOP) && Uncut(superpages, base, pages, a)
    requires Safe(t, superpages, base, base, pages) && Held(t, a, base + pages)
    ensures RangeThere(t, superpages, a, base + pages - a)
    decreases base + pages - a
  {
    if a < base + pages {
      var d := Step(superpages, a, base + pages - a);
      var k := if d == HUGE then 1 else 0;
      StepFits(superpages, base, pages, a);
      assert HeldAt(t, a, base + pages, a) && SafeAt(t, superpages, base, base, pages, a);
      if Vacant(t, a, k) { VacantNone(t, a, k, a); }
      var lo, hi := a + d, base + pages;
      forall n: nat ensures HeldAt(t, lo, hi, n) { assert HeldAt(t, a, hi, n); }
      HeldThere(t, superpages, base, pages, a + d);
    }
  }

  // -------------------------------------------------------------------------
  // Unmap and rollback
  // -------------------------------------------------------------------------

  /** vtd_mapping_leaves, as the loop it is. */
  method MappingLeaves(superpages: bool, iova: nat, pages: nat) returns (leaves: nat)
    ensures leaves == Leaves(superpages, iova, pages)
  {
    leaves := 0;
    var a, left := iova, pages;
    while left != 0
      invariant leaves + Leaves(superpages, a, left) == Leaves(superpages, iova, pages)
      decreases left
    {
      var d := Step(superpages, a, left);
      a, left := a + d, left - d;
      leaves := leaves + 1;
    }
  }

  /** A clearing of the range has reached page `a` with the tables `u`. */
  ghost predicate Clearing(t: Sl, u: Sl, superpages: bool, base: nat, pages: nat, a: nat) {
    && IsRoot(t) && IsRoot(u) && base <= a <= base + pages <= PT.Span(TOP)
    && Cleared(t, u, base, a) && Uncut(superpages, base, pages, a) && Safe(t, superpages, base, base, pages)
    && (RangeThere(t, superpages, base, pages) <==> RangeThere(u, superpages, a, base + pages - a))
  }

  lemma ClearsOn(t: Sl, u: Sl, v: Sl, superpages: bool, base: nat, pages: nat, a: nat, d: nat, k: nat)
    requires Clearing(t, u, superpages, base, pages, a) && a < base + pages && IsRoot(v)
    requires d == Step(superpages, a, base + pages - a) && k == (if d == HUGE then 1 else 0)
    requires Fitting(superpages, base, pages, a, d, k)
    requires !Vacant(u, a, k)
    requires Cleared(u, v, a, a + d) && VacancyKept(u, v, a, k)
    ensures Clearing(t, v, superpages, base, pages, a + d)
  {
    var hi := a + d;
    forall n: nat
      ensures ClearedAt(t, v, base, hi, n)
    {
      assert ClearedAt(t, u, base, a, n) && ClearedAt(u, v, a, hi, n);
    }
    ThereRest(u, v, superpages, a, k, a + d, base + pages - a - d);
  }

  /** One round of the unmap loop. */
  method UnmapOne(ghost t: Sl, u: Sl, superpages: bool, base: nat, pages: nat, a: nat, d: nat) returns (ok: bool, v: Sl)
    requires Clearing(t, u, superpages, base, pages, a) && a < base + pages
    requires d == Step(superpages, a, base + pages - a)
    ensures IsRoot(v) && (ok ==> Clearing(t, v, superpages, base, pages, a + d))
    ensures !ok ==> v == u && !RangeThere(t, superpages, base, pages)
    ensures Smallest(superpages, base, pages) ==> TablesKept(u, v)
  {
    var k := if d == HUGE then 1 else 0;
    StepFits(superpages, base, pages, a);
    assert SafeAt(t, superpages, base, base, pages, a) && ClearedAt(t, u, base, a, a);
    ok, v := ClearLeaf(u, a, k);
    if ok { ClearsOn(t, u, v, superpages, base, pages, a, d, k); }
    assert Smallest(superpages, base, pages) ==> Height(superpages, base, pages, a) == 0;
  }

  /** vtd_unmap: clears entry after entry up to the first that is missing; succeeds exactly if none is. */
  method Unmap(t: Sl, superpages: bool, base: nat, pages: nat) returns (ok: bool, u: Sl, ghost hi: nat)
    requires IsRoot(t) && base + pages <= PT.Span(TOP) && Safe(t, superpages, base, base, pages)
    ensures IsRoot(u) && base <= hi <= base + pages && Cleared(t, u, base, hi) && (ok <==> hi == base + pages)
    ensures ok <==> RangeThere(t, superpages, base, pages)
    ensures Held(t, base, base + pages) ==> ok
    ensures Smallest(superpages, base, pages) ==> TablesKept(t, u)
  {
    u, ok := t, true;
    var a := base;
    RegionAligned(base);
    forall n: nat ensures ClearedAt(t, t, base, base, n) { }
    forall n: nat ensures TableAt(t, t, n) { }
    if Held(t, base, base + pages) { HeldThere(t, superpages, base, pages, base); }
    while a < base + pages
      invariant Clearing(t, u, superpages, base, pages, a) && (Smallest(superpages, base, pages) ==> TablesKept(t, u))
      invariant ok
    {
      var d := Step(superpages, a, base + pages - a);
      ghost var v := u;
      ok, u := UnmapOne(t, u, superpages, base, pages, a, d);
      hi := a;
      if Smallest(superpages, base, pages) { TablesTrans(t, v, u); }
      if !ok { return; }
      a := a + d;
    }
    hi := a;
  }

  /** The range asks for no 2 MiB entry. */
  ghost predicate Smallest(superpages: bool, base: nat, pages: nat) {
    forall n: nat :: base <= n < base + pages ==> Height(superpages, base, pages, n) == 0
  }

  /** The rollback of vtd_map, of pages that are all mapped. It goes by the IOVA alone: over small leaves
      it may clear a whole table, which unmaps the same pages. */
  method RollBack(t: Sl, superpages: bool, base: nat, pages: nat) returns (u: Sl)
    requires IsRoot(t) && base + pages <= PT.Span(TOP) && Safe(t, superpages, base, base, pages)
    requires Held(t, base, base + pages)
    ensures IsRoot(u) && Cleared(t, u, base, base + pages)
  {
    var ok;
    ghost var hi;
    ok, u, hi := Unmap(t, superpages, base, pages);
  }

  // -------------------------------------------------------------------------
  // Map
  // -------------------------------------------------------------------------

  /** What an install still has to do: whether it can is known, and so are the tables it may need. */
  ghost predicate Ready(t: Sl, superpages: bool, a: nat, phys: nat, pages: nat, left: nat, room: bool, vacant: bool) {
    && IsRoot(t) && a + pages <= PT.Span(TOP)
    && (vacant <==> RangeVacant(t, superpages, a, phys, pages))
    && (room ==> left >= 3 * LeavesIn(superpages, a, phys, pages))
  }

  lemma VacantStep(t: Sl, u: Sl, superpages: bool, a: nat, phys: nat, pages: nat, budget: nat, left: nat, room: bool,
                   vacant: bool)
    requires IsRoot(u) && pages > 0 && budget - left <= 3 && Ready(t, superpages, a, phys, pages, budget, room, vacant)
    requires VacancyKept(t, u, a, if StepIn(superpages, a, phys, pages) == HUGE then 1 else 0)
    requires Vacant(t, a, if StepIn(superpages, a, phys, pages) == HUGE then 1 else 0)
    ensures var d := StepIn(superpages, a, phys, pages);
            Ready(u, superpages, a + d, phys + d, pages - d, left, room, vacant)
  {
    Spans();
    var d := StepIn(superpages, a, phys, pages);
    VacantRest(t, u, superpages, a, if d == HUGE then 1 else 0, a + d, phys + d, pages - d);
  }

  /** Where the addresses are congruent the install stops only between 2 MiB leaves. */
  ghost predicate UncutIn(superpages: bool, base: nat, phys: nat, pages: nat, x: nat) {
    base % HUGE == phys % HUGE ==> Uncut(superpages, base, pages, x)
  }

  /** An install of the block onto `t` has reached page `a` with the tables `u`. */
  ghost predicate Progress(t: Sl, u: Sl, superpages: bool, base: nat, phys: nat, pages: nat, perm: Perm, a: nat,
                           left: nat, writes: nat, room: bool, vacant: bool) {
    && IsRoot(t) && IsRoot(u) && base <= a <= base + pages && Safe(t, superpages, base, phys, pages) && Grants(perm)
    && Part(t, u, superpages, base, phys, pages, perm, a) && Free(t, base, a)
    && UncutIn(superpages, base, phys, pages, a)
    && Ready(u, superpages, a, phys + (a - base), base + pages - a, left, room, vacant)
    && writes + LeavesIn(superpages, a, phys + (a - base), base + pages - a) == LeavesIn(superpages, base, phys, pages)
  }

  lemma Start(t: Sl, superpages: bool, base: nat, phys: nat, pages: nat, perm: Perm, budget: nat)
    requires IsRoot(t) && Safe(t, superpages, base, phys, pages) && base + pages <= PT.Span(TOP) && Grants(perm)
    ensures Progress(t, t, superpages, base, phys, pages, perm, base, budget, 0,
                     budget >= 3 * LeavesIn(superpages, base, phys, pages),
                       RangeVacant(t, superpages, base, phys, pages))
  {
    forall n: nat ensures PartAt(t, t, superpages, base, phys, pages, perm, base, n) { }
    forall n: nat ensures NoneAt(t, base, base, n) { }
    RegionAligned(base);
  }

  /** The next leaf of an install: aligned, inside what is left, and of the size recorded for its pages. */
  ghost predicate FittingIn(superpages: bool, base: nat, phys: nat, pages: nat, a: nat, d: nat, k: nat) {
    && PT.Span(k) == d && k <= 1 && a % d == 0 && a + d <= base + pages && UncutIn(superpages, base, phys, pages, a + d)
    && forall n: nat :: a <= n < a + d ==> HeightIn(superpages, base, phys, pages, n) == k
  }

  lemma StepInFits(superpages: bool, base: nat, phys: nat, pages: nat, a: nat)
    requires base <= a < base + pages && UncutIn(superpages, base, phys, pages, a)
    ensures var d := StepIn(superpages, a, phys + (a - base), base + pages - a);
            FittingIn(superpages, base, phys, pages, a, d, if d == HUGE then 1 else 0)
  {
    Spans();
    Congruent(base, phys, a - base);
    if base % HUGE == phys % HUGE { StepFits(superpages, base, pages, a); }
  }

  lemma PutStep(t: Sl, u: Sl, v: Sl, superpages: bool, base: nat, phys: nat, pages: nat, perm: Perm, a: nat, d: nat,
                k: nat)
    requires IsRoot(t) && IsRoot(u) && IsRoot(v) && FittingIn(superpages, base, phys, pages, a, d, k) && base <= a
    requires Part(t, u, superpages, base, phys, pages, perm, a) && Free(t, base, a)
    requires Put(u, v, a, k, phys + (a - base), perm)
    ensures Part(t, v, superpages, base, phys, pages, perm, a + d) && Free(t, base, a + d)
  {
    var hi, frame := a + d, phys + (a - base);
    forall n: nat ensures PartAt(t, v, superpages, base, phys, pages, perm, hi, n) {
      assert PartAt(t, u, superpages, base, phys, pages, perm, a, n) && PutAt(u, v, a, k, frame, perm, n);
    }
    forall n: nat ensures NoneAt(t, base, hi, n) {
      assert NoneAt(t, base, a, n) && NoneAt(u, a, hi, n) && PartAt(t, u, superpages, base, phys, pages, perm, a, n);
    }
  }

  lemma PartSame(t: Sl, u: Sl, v: Sl, superpages: bool, base: nat, phys: nat, pages: nat, perm: Perm, hi: nat)
    requires IsRoot(t) && IsRoot(u) && IsRoot(v) && Part(t, u, superpages, base, phys, pages, perm, hi) && Same(u, v)
    ensures Part(t, v, superpages, base, phys, pages, perm, hi)
  {
    forall n: nat ensures PartAt(t, v, superpages, base, phys, pages, perm, hi, n) {
      assert PartAt(t, u, superpages, base, phys, pages, perm, hi, n) && SameAt(u, v, n);
    }
  }

  /** One round of the install loop, `i` pages in. */
  method MapOne(ghost t: Sl, u: Sl, superpages: bool, base: nat, phys: nat, pages: nat, perm: Perm, i: nat, budget: nat,
                ghost writes: nat, ghost room: bool, ghost vacant: bool)
    returns (ok: bool, v: Sl, left: nat, next: nat)
    requires i < pages && Progress(t, u, superpages, base, phys, pages, perm, base + i, budget, writes, room, vacant)
    ensures IsRoot(v) && i < next <= pages
    ensures ok ==> Progress(t, v, superpages, base, phys, pages, perm, base + next, left, writes + 1, room, vacant)
    ensures !ok ==> Stuck(t, v, superpages, base, phys, pages, perm, base + i, room, vacant)
  {
    var a := base + i;
    var d := StepIn(superpages, a, phys + i, pages - i);
    var k := if d == HUGE then 1 else 0;
    next := i + d;
    StepInFits(superpages, base, phys, pages, a);
    assert PartAt(t, u, superpages, base, phys, pages, perm, a, a) && SafeAt(t, superpages, base, phys, pages, a);
    ok, v, left := PutLeaf(u, a, k, phys + i, perm, budget);
    if ok {
      PutStep(t, u, v, superpages, base, phys, pages, perm, a, d, k);
      VacantStep(u, v, superpages, a, phys + i, pages - i, budget, left, room, vacant);
    } else {
      PartSame(t, u, v, superpages, base, phys, pages, perm, a);
    }
  }

  /** The install cannot go on: what it did is there, and room was not what it lacked. */
  ghost predicate Stuck(t: Sl, u: Sl, superpages: bool, base: nat, phys: nat, pages: nat, perm: Perm, a: nat,
                        room: bool, vacant: bool) {
    && IsRoot(t) && IsRoot(u) && base <= a < base + pages && Part(t, u, superpages, base, phys, pages, perm, a)
    && Free(t, base, a)
    && UncutIn(superpages, base, phys, pages, a) && (room ==> !vacant)
  }

  /** The install loop of vtd_map: stops at the end or at the first entry it cannot have. */
  method InstallRange(t: Sl, superpages: bool, base: nat, phys: nat, pages: nat, perm: Perm, budget: nat)
    returns (mapped: nat, u: Sl, writes: nat)
    requires IsRoot(t) && Safe(t, superpages, base, phys, pages) && base + pages <= PT.Span(TOP) && Grants(perm)
    ensures mapped <= pages && IsRoot(u) && Part(t, u, superpages, base, phys, pages, perm, base + mapped)
    ensures Free(t, base, base + mapped)
    ensures UncutIn(superpages, base, phys, pages, base + mapped)
    ensures mapped == pages ==> writes == LeavesIn(superpages, base, phys, pages)
    ensures budget >= 3 * LeavesIn(superpages, base, phys, pages) ==>
              (mapped == pages <==> RangeVacant(t, superpages, base, phys, pages))
  {
    u, mapped, writes := t, 0, 0;
    var left := budget;
    ghost var room, vacant := budget >= 3 * LeavesIn(superpages, base, phys, pages),
      RangeVacant(t, superpages, base, phys, pages);
    Start(t, superpages, base, phys, pages, perm, budget);
    while mapped < pages
      invariant mapped <= pages
      invariant Progress(t, u, superpages, base, phys, pages, perm, base + mapped, left, writes, room, vacant)
    {
      var ok, next;
      ok, u, left, next := MapOne(t, u, superpages, base, phys, pages, perm, mapped, left, writes, room, vacant);
      if !ok { return; }
      mapped, writes := next, writes + 1;
    }
  }

  lemma MapHeld(t: Sl, u: Sl, superpages: bool, base: nat, phys: nat, pages: nat, perm: Perm, hi: nat)
    requires IsRoot(t) && IsRoot(u) && hi <= base + pages && Part(t, u, superpages, base, phys, pages, perm, hi)
    requires base <= hi && UncutIn(superpages, base, phys, pages, hi)
    ensures Held(u, base, hi) && Safe(u, superpages, base, base, hi - base)
  {
    forall n: nat ensures HeldAt(u, base, hi, n) { assert PartAt(t, u, superpages, base, phys, pages, perm, hi, n); }
    var len := hi - base;
    forall n: nat ensures SafeAt(u, superpages, base, base, len, n) {
      assert PartAt(t, u, superpages, base, phys, pages, perm, hi, n);
      if base <= n < hi && base % HUGE == phys % HUGE && Big(superpages, base, pages, n) {
        BigInside(superpages, base, pages, hi, n);
      }
    }
  }

  /** A 2 MiB leaf of the block that begins before an uncut `hi` ends by it. */
  lemma BigInside(superpages: bool, base: nat, pages: nat, hi: nat, n: nat)
    requires base <= n < hi <= base + pages && Uncut(superpages, base, pages, hi) && Big(superpages, base, pages, n)
    ensures Big(superpages, base, hi - base, n)
  {
    RegionAligned(n);
    RegionAligned(hi);
    Regions(Region(n), hi);
  }

  lemma ClearedBack(t: Sl, u: Sl, v: Sl, superpages: bool, base: nat, phys: nat, pages: nat, perm: Perm, hi: nat)
    requires IsRoot(t) && IsRoot(u) && IsRoot(v) && Part(t, u, superpages, base, phys, pages, perm, hi)
    requires Free(t, base, hi) && Cleared(u, v, base, hi)
    ensures Same(t, v)
  {
    forall n: nat ensures SameAt(t, v, n) {
      assert PartAt(t, u, superpages, base, phys, pages, perm, hi, n) && ClearedAt(u, v, base, hi, n) &&
        NoneAt(t, base, hi, n);
    }
  }

  /** vtd_map: on success exactly the block is added, with the permissions asked for; on failure nothing changed. */
  method Map(t: Sl, superpages: bool, base: nat, phys: nat, pages: nat, perm: Perm, budget: nat)
    returns (ok: bool, u: Sl, writes: nat)
    requires IsRoot(t) && Safe(t, superpages, base, phys, pages) && Grants(perm)
    ensures IsRoot(u)
    ensures ok ==>
              base + pages <= PT.Span(TOP) && Part(t, u, superpages, base, phys, pages, perm, base + pages) &&
              Free(t, base, base + pages)
    ensures ok ==> writes == LeavesIn(superpages, base, phys, pages)
    ensures !ok ==> Same(t, u)
    ensures budget >= 3 * LeavesIn(superpages, base, phys, pages) ==>
              (ok <==> Mappable(t, superpages, base, phys, pages))
  {
    writes := 0;
    u := t;
    forall n: nat ensures SameAt(t, t, n) { }
    if base >= PT.Span(TOP) || phys >= PT.Span(TOP) || pages > PT.Span(TOP) - base { return false, t, 0; }
    var mapped;
    mapped, u, writes := InstallRange(t, superpages, base, phys, pages, perm, budget);
    ok := mapped == pages;
    if !ok {
      MapHeld(t, u, superpages, base, phys, pages, perm, base + mapped);
      ghost var v := u;
      u := RollBack(u, superpages, base, mapped);
      ClearedBack(t, v, u, superpages, base, phys, pages, perm, base + mapped);
    }
  }

  /** The addresses are below 2^48 and every leaf finds its entry vacant. */
  ghost predicate Mappable(t: Sl, superpages: bool, base: nat, phys: nat, pages: nat)
    requires IsRoot(t)
  {
    base < PT.Span(TOP) && phys < PT.Span(TOP) && base + pages <= PT.Span(TOP) &&
    RangeVacant(t, superpages, base, phys, pages)
  }

  /** vtd_unmap inverts a successful vtd_map. */
  lemma UnmapInverts(t: Sl, u: Sl, v: Sl, superpages: bool, base: nat, phys: nat, pages: nat, perm: Perm)
    requires IsRoot(t) && IsRoot(u) && IsRoot(v) && Free(t, base, base + pages)
    requires Part(t, u, superpages, base, phys, pages, perm, base + pages) && Cleared(u, v, base, base + pages)
    ensures Held(u, base, base + pages) && Safe(u, superpages, base, base, pages) && Same(t, v)
  {
    RegionAligned(base + pages);
    MapHeld(t, u, superpages, base, phys, pages, perm, base + pages);
    ClearedBack(t, u, v, superpages, base, phys, pages, perm, base + pages);
  }

  // -------------------------------------------------------------------------
  // What an unmap leaves behind
  // -------------------------------------------------------------------------

  lemma OneStep(base: nat)
    ensures StepIn(true, base, base, 1) == Step(true, base, 1) == 1 && LeavesIn(true, base, base, 1) == 1
    ensures HeightIn(true, base, base, 1, base) == 0 && Smallest(true, base, 1)
  {
    RegionAligned(base);
    forall n: nat | base <= n < base + 1 ensures Height(true, base, 1, n) == 0 { RegionAligned(n); }
  }

  lemma FreeSafe(t: Sl, superpages: bool, base: nat, pages: nat, hi: nat)
    requires IsRoot(t) && Free(t, base, hi) && base + pages <= hi
    ensures Safe(t, superpages, base, base, pages)
  {
    forall n: nat ensures SafeAt(t, superpages, base, base, pages, n) { assert NoneAt(t, base, hi, n); }
  }

  lemma FreeSame(t: Sl, u: Sl, lo: nat, hi: nat)
    requires IsRoot(t) && IsRoot(u) && Free(t, lo, hi) && Same(t, u)
    ensures Free(u, lo, hi)
  {
    forall n: nat ensures NoneAt(u, lo, hi, n) { assert NoneAt(t, lo, hi, n) && SameAt(t, u, n); }
  }

  lemma OnePage(t: Sl, u: Sl, base: nat, perm: Perm)
    requires IsRoot(t) && IsRoot(u) && base < PT.Span(TOP) && Part(t, u, true, base, base, 1, perm, base + 1)
    ensures IsTable(u, base) && Held(u, base, base + 1) && Safe(u, true, base, base, 1)
  {
    OneStep(base);
    var hi := base + 1;
    assert PartAt(t, u, true, base, base, 1, perm, hi, base);
    LeafTable(u, base);
    MapHeld(t, u, true, base, base, 1, perm, hi);
  }

  /** A page mapped and unmapped again leaves the IOVA map as it was and its table behind. */
  method MapAndUnmap(t: Sl, base: nat, perm: Perm) returns (v: Sl)
    requires IsRoot(t) && Grants(perm) && Free(t, base, base + 1) && Mappable(t, true, base, base, 1)
    ensures IsRoot(v) && Same(t, v) && base < PT.Span(TOP) && IsTable(v, base)
  {
    OneStep(base);
    FreeSafe(t, true, base, 1, base + 1);
    var ok, u, writes := Map(t, true, base, base, 1, perm, 3);
    OnePage(t, u, base, perm);
    ghost var hi;
    ok, v, hi := Unmap(u, true, base, 1);
    ClearedBack(t, u, v, true, base, base, 1, perm, base + 1);
    assert TableAt(u, v, base);
  }

  lemma Refused(t: Sl, base: nat)
    requires IsRoot(t) && base % HUGE == 0 && base + HUGE <= PT.Span(TOP) && IsTable(t, base)
    ensures LeavesIn(true, base, base, HUGE) == 1 && !Mappable(t, true, base, base, HUGE)
  {
    assert StepIn(true, base, base, HUGE) == HUGE && LeavesIn(true, base + HUGE, base + HUGE, 0) == 0;
    assert !Vacant(t, base, 1);
  }

  /** Memory and an unmapped range are not enough: where a single page has come and gone, the next 2 MiB leaf
      is refused, whatever else the domain maps. */
  method LeftoverTable(t: Sl, base: nat, perm: Perm) returns (v: Sl, again: bool)
    requires IsRoot(t) && Grants(perm) && base % HUGE == 0 && base + HUGE <= PT.Span(TOP)
    requires Free(t, base, base + HUGE) && Mappable(t, true, base, base, 1)
    ensures IsRoot(v) && Same(t, v) && !again
  {
    var end := base + 1;
    forall n: nat ensures NoneAt(t, base, end, n) { assert NoneAt(t, base, base + HUGE, n); }
    v := MapAndUnmap(t, base, perm);
    FreeSame(t, v, base, base + HUGE);
    FreeSafe(v, true, base, HUGE, base + HUGE);
    Refused(v, base);
    var u, writes;
    again, u, writes := Map(v, true, base, base, HUGE, perm, 3);
  }
}
