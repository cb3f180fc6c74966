/** VT-d second-level tables: map, rollback and unmap with 4 KiB and 2 MiB leaves
    against the flat IOVA map they stand for (Intel VT-d specification, section 3.7).
    Addresses are page numbers. */
module Vtd {
  import opened Arith
  import PT = PageTree
  import PF = PageFlag
  import opened Seqs

  datatype Perm = Perm(read: bool, write: bool)

  /** An entry with neither bit is not present. */
  predicate Grants(p: Perm) {
    p.read || p.write
  }

  /** One second-level entry. */
  datatype Sl = Empty | Leaf(frame: nat, perm: Perm) | Table(slots: seq<Sl>)

  /** What the hardware walk finds for a page. */
  datatype View = View(frame: nat, perm: Perm, height: nat)

  const HUGE: nat := 512
  const TOP: nat := 4

  ghost predicate Wf(e: Sl, h: nat) {
    match e
    case Empty => true
    case Leaf(_, p) => Grants(p)
    case Table(s) => h > 0 && |s| == PT.FANOUT && forall i :: 0 <= i < PT.FANOUT ==> Wf(s[i], h - 1)
  }

  ghost function Look(e: Sl, h: nat, q: PT.Path): (v: Option<View>)
    requires Wf(e, h) && PT.IsPage(q, h)
    decreases h
  {
    match e
    case Empty => None
    case Leaf(f, p) => Some(View(f + PT.Val(q, h), p, h))
    case Table(s) => Look(s[q.i], h - 1, q.rest)
  }

  function Blank(): (s: seq<Sl>)
    ensures |s| == PT.FANOUT && forall i :: 0 <= i < PT.FANOUT ==> s[i] == Empty
  {
    seq(PT.FANOUT, i => Empty)
  }

  // -------------------------------------------------------------------------
  // One entry
  // -------------------------------------------------------------------------

  /** The entries strictly above the one `w` leads to are tables. */
  ghost predicate Open(e: Sl, h: nat, w: PT.Path)
    requires Wf(e, h) && PT.Fits(w, h)
    decreases h
  {
    w.Here? || (e.Table? && Open(e.slots[w.i], h - 1, w.rest))
  }

  /** The entry that `w` leads to. */
  function Get(e: Sl, h: nat, w: PT.Path): (x: Sl)
    requires Wf(e, h) && PT.Fits(w, h) && Open(e, h, w)
    ensures Wf(x, h - PT.Len(w))
    decreases h
  {
    if w.Here? then e else Get(e.slots[w.i], h - 1, w.rest)
  }

  function Set(e: Sl, h: nat, w: PT.Path, x: Sl): (r: Sl)
    requires Wf(e, h) && PT.Fits(w, h) && Open(e, h, w)
    decreases h
  {
    if w.Here? then x else Table(e.slots[w.i := Set(e.slots[w.i], h - 1, w.rest, x)])
  }

  /** A store changes what the walk finds below that entry and nowhere else. */
  lemma {:induction false} SetLook(e: Sl, h: nat, w: PT.Path, x: Sl, q: PT.Path)
    requires Wf(e, h) && PT.Fits(w, h) && Open(e, h, w) && Wf(x, h - PT.Len(w)) && PT.IsPage(q, h)
    ensures Wf(Set(e, h, w, x), h) && Open(Set(e, h, w, x), h, w) && Get(Set(e, h, w, x), h, w) == x
    ensures PT.Under(w, q) ==> PT.IsPage(PT.Below(w, q), h - PT.Len(w))
    ensures Look(Set(e, h, w, x), h, q) == if PT.Under(w, q) then Look(x, h - PT.Len(w), PT.Below(w, q))
      else Look(e, h, q)
    decreases h
  {
    if w.Slot? {
      SetLook(e.slots[w.i], h - 1, w.rest, x, q.rest);
    }
  }

  lemma {:induction false} GetLook(e: Sl, h: nat, w: PT.Path, q: PT.Path)
    requires Wf(e, h) && PT.Fits(w, h) && Open(e, h, w) && PT.IsPage(q, h) && PT.Under(w, q)
    ensures PT.IsPage(PT.Below(w, q), h - PT.Len(w))
    ensures Look(e, h, q) == Look(Get(e, h, w), h - PT.Len(w), PT.Below(w, q))
    decreases h
  {
    if w.Slot? { GetLook(e.slots[w.i], h - 1, w.rest, q.rest); }
  }

  // -------------------------------------------------------------------------
  // Page numbers
  // -------------------------------------------------------------------------

  ghost predicate IsRoot(t: Sl) {
    t.Table? && Wf(t, TOP)
  }

  /** What the hardware finds for page `n`. */
  ghost function Seen(t: Sl, n: nat): (v: Option<View>)
    requires IsRoot(t) && n < PT.Span(TOP)
  {
    PF.ValAt(n, TOP);
    Look(t, TOP, PF.At(n, TOP, 0))
  }

  ghost predicate SameAt(t: Sl, u: Sl, n: nat)
    requires IsRoot(t) && IsRoot(u)
  {
    n < PT.Span(TOP) ==> Seen(u, n) == Seen(t, n)
  }

  /** Both tables stand for the same IOVA map, leaf sizes included. */
  ghost predicate Same(t: Sl, u: Sl)
    requires IsRoot(t) && IsRoot(u)
  {
    forall n: nat :: SameAt(t, u, n)
  }

  /** What an entry of height `k` gives the pages below it, unless it is a table in use. */
  ghost function Face(x: Sl, k: nat, n: nat): (v: Option<View>) {
    if x.Leaf? then Some(View(x.frame + n % PT.Span(k), x.perm, k)) else None
  }

  lemma SetSeen(t: Sl, a: nat, k: nat, x: Sl, n: nat)
    requires IsRoot(t) && k <= 3 && a < PT.Span(TOP) && n < PT.Span(TOP)
    requires PT.Fits(PF.At(a, TOP, k), TOP) && Open(t, TOP, PF.At(a, TOP, k))
    requires x == Empty || (x.Leaf? && Grants(x.perm)) || (k > 0 && x == Table(Blank()))
    ensures IsRoot(Set(t, TOP, PF.At(a, TOP, k), x))
    ensures Open(Set(t, TOP, PF.At(a, TOP, k), x), TOP, PF.At(a, TOP, k))
    ensures Get(Set(t, TOP, PF.At(a, TOP, k), x), TOP, PF.At(a, TOP, k)) == x
    ensures Seen(Set(t, TOP, PF.At(a, TOP, k), x), n) == if n / PT.Span(k) == a / PT.Span(k) then Face(x, k, n)
      else Seen(t, n)
  {
    var w, q := PF.At(a, TOP, k), PF.At(n, TOP, 0);
    PF.ValAt(n, TOP);
    PF.AtFits(a, TOP, k);
    assert w.Slot?;
    SetLook(t, TOP, w, x, q);
    PF.UnderAt(a, TOP, k, q);
    if PT.Under(w, q) { PF.BelowAt(a, TOP, k, q); }
  }

  /** If the walk finds a leaf, the tables above it are there and the entry holds it. */
  lemma {:induction false} LeafThere(t: Sl, h: nat, n: nat, k: nat)
    requires Wf(t, h) && n < PT.Span(h) && k <= h && PT.IsPage(PF.At(n, h, 0), h)
    requires Look(t, h, PF.At(n, h, 0)).Some? && Look(t, h, PF.At(n, h, 0)).value.height == k
    ensures PT.Fits(PF.At(n, h, k), h) && Open(t, h, PF.At(n, h, k)) && Get(t, h, PF.At(n, h, k)).Leaf?
    decreases h
  {
    PF.AtFits(n, h, k);
    if t.Table? {
      PF.SpanStep(n, h);
      LookHeight(t.slots[n / PT.Span(h - 1)], h - 1, PF.At(n % PT.Span(h - 1), h - 1, 0));
      LeafThere(t.slots[n / PT.Span(h - 1)], h - 1, n % PT.Span(h - 1), k);
    }
  }

  lemma LookHeight(t: Sl, h: nat, q: PT.Path)
    requires Wf(t, h) && PT.IsPage(q, h)
    ensures Look(t, h, q).Some? ==> Look(t, h, q).value.height <= h
    decreases h
  {
  }

  /** An entry above the one a walk ends in is not a leaf. */
  lemma NoLeafAbove(t: Sl, a: nat, k: nat, j: nat)
    requires IsRoot(t) && k < j <= 3 && a < PT.Span(TOP) && PT.Fits(PF.At(a, TOP, j), TOP)
    requires Open(t, TOP, PF.At(a, TOP, j))
    requires Seen(t, a).Some? ==> Seen(t, a).value.height <= k
    ensures !Get(t, TOP, PF.At(a, TOP, j)).Leaf?
  {
    var w, q := PF.At(a, TOP, j), PF.At(a, TOP, 0);
    PF.ValAt(a, TOP);
    PF.AtFits(a, TOP, j);
    PF.UnderAt(a, TOP, j, q);
    GetLook(t, TOP, w, q);
  }

  lemma {:induction false} OpenDown(t: Sl, h: nat, n: nat, j: nat) returns (i: nat)
    requires Wf(t, h) && n < PT.Span(h) && 0 < j <= h && PT.Fits(PF.At(n, h, j), h) && Open(t, h, PF.At(n, h, j))
    requires Get(t, h, PF.At(n, h, j)).Table?
    ensures PT.Fits(PF.At(n, h, j - 1), h) && Open(t, h, PF.At(n, h, j - 1))
    ensures i < PT.FANOUT && |Get(t, h, PF.At(n, h, j)).slots| == PT.FANOUT
    ensures Get(t, h, PF.At(n, h, j - 1)) == Get(t, h, PF.At(n, h, j)).slots[i]
    decreases h
  {
    PF.AtFits(n, h, j - 1);
    PF.SpanStep(n, h);
    i := n / PT.Span(h - 1);
    if h > j { i := OpenDown(t.slots[n / PT.Span(h - 1)], h - 1, n % PT.Span(h - 1), j); }
  }

  lemma {:induction false} OpenUp(t: Sl, h: nat, n: nat, j: nat)
    requires Wf(t, h) && n < PT.Span(h) && 0 < j <= h && PT.Fits(PF.At(n, h, j - 1), h)
    requires Open(t, h, PF.At(n, h, j - 1))
    ensures PT.Fits(PF.At(n, h, j), h) && Open(t, h, PF.At(n, h, j)) && Get(t, h, PF.At(n, h, j)).Table?
    decreases h
  {
    PF.AtFits(n, h, j);
    PF.SpanStep(n, h);
    if h > j { OpenUp(t.slots[n / PT.Span(h - 1)], h - 1, n % PT.Span(h - 1), j); }
  }

  // -------------------------------------------------------------------------
  // slpt_entry
  // -------------------------------------------------------------------------

  /** The entry over page `a` at height `k`, if the tables above it exist; else none. */
  ghost function Slot(t: Sl, a: nat, k: nat): (x: Option<Sl>)
    requires IsRoot(t) && a < PT.Span(TOP) && k <= 3
  {
    PF.AtFits(a, TOP, k);
    if Open(t, TOP, PF.At(a, TOP, k)) then Some(Get(t, TOP, PF.At(a, TOP, k))) else None
  }

  /** The slot can take a leaf: its entry is empty, or its table is yet to be made. */
  ghost predicate Vacant(t: Sl, a: nat, k: nat)
    requires IsRoot(t) && a < PT.Span(TOP) && k <= 3
  {
    Slot(t, a, k).None? || Slot(t, a, k).value.Empty?
  }

  lemma {:induction false} NotOpenNone(e: Sl, h: nat, a: nat, k: nat, n: nat)
    requires Wf(e, h) && k <= h && a < PT.Span(h) && n < PT.Span(h) && a / PT.Span(k) == n / PT.Span(k)
    requires PT.Fits(PF.At(a, h, k), h) && !Open(e, h, PF.At(a, h, k)) && PT.IsPage(PF.At(a, h, 0), h)
    requires PT.IsPage(PF.At(n, h, 0), h)
    requires Look(e, h, PF.At(a, h, 0)).Some? ==> Look(e, h, PF.At(a, h, 0)).value.height <= k
    ensures Look(e, h, PF.At(n, h, 0)).None?
    decreases h
  {
    PF.SpanStep(a, h);
    PF.SpanStep(n, h);
    if e.Table? {
      var d := PT.Span(h - 1);
      PF.SpanShared(n, n / d, n % d, a, a / d, a % d, h - 1, k);
      NotOpenNone(e.slots[a / d], h - 1, a % d, k, n % d);
    }
  }

  /** A vacant slot maps none of its pages. */
  lemma VacantNone(t: Sl, a: nat, k: nat, n: nat)
    requires IsRoot(t) && k <= 3 && a < PT.Span(TOP) && n < PT.Span(TOP) && a / PT.Span(k) == n / PT.Span(k)
    requires Vacant(t, a, k)
    requires Seen(t, a).Some? ==> Seen(t, a).value.height <= k
    ensures Seen(t, n).None?
  {
    PF.ValAt(n, TOP);
    PF.ValAt(a, TOP);
    PF.AtFits(a, TOP, k);
    var w, q := PF.At(a, TOP, k), PF.At(n, TOP, 0);
    if Slot(t, a, k).Some? {
      PF.UnderAt(a, TOP, k, q);
      GetLook(t, TOP, w, q);
    } else {
      NotOpenNone(t, TOP, a, k, n);
    }
  }

  // -------------------------------------------------------------------------
  // Tables stay
  // -------------------------------------------------------------------------

  ghost predicate IsTable(t: Sl, a: nat)
    requires IsRoot(t) && a < PT.Span(TOP)
  {
    Slot(t, a, 1).Some? && Slot(t, a, 1).value.Table?
  }

  ghost predicate TableAt(t: Sl, u: Sl, a: nat)
    requires IsRoot(t) && IsRoot(u)
  {
    a < PT.Span(TOP) && IsTable(t, a) ==> IsTable(u, a)
  }

  /** No lowest-level table of `t` is missing from `u`. */
  ghost predicate TablesKept(t: Sl, u: Sl)
    requires IsRoot(t) && IsRoot(u)
  {
    forall a: nat :: TableAt(t, u, a)
  }

  lemma TablesTrans(t: Sl, u: Sl, v: Sl)
    requires IsRoot(t) && IsRoot(u) && IsRoot(v) && TablesKept(t, u) && TablesKept(u, v)
    ensures TablesKept(t, v)
  {
    forall a: nat ensures TableAt(t, v, a) { assert TableAt(t, u, a) && TableAt(u, v, a); }
  }

  /** A 4 KiB leaf hangs in a table. */
  lemma LeafTable(t: Sl, n: nat)
    requires IsRoot(t) && n < PT.Span(TOP) && Seen(t, n).Some? && Seen(t, n).value.height == 0
    ensures IsTable(t, n)
  {
    PF.ValAt(n, TOP);
    LeafThere(t, TOP, n, 0);
    OpenUp(t, TOP, n, 1);
  }

  lemma {:induction false} TableStays(e: Sl, h: nat, w: PT.Path, x: Sl, v: PT.Path)
    requires Wf(e, h) && PT.Fits(w, h) && PT.Fits(v, h) && Open(e, h, w) && Wf(x, h - PT.Len(w)) && !Get(e, h, w).Table?
    requires Open(e, h, v) && Get(e, h, v).Table?
    ensures Wf(Set(e, h, w, x), h) && Open(Set(e, h, w, x), h, v) && Get(Set(e, h, w, x), h, v).Table?
    decreases h
  {
    SetWf(e, h, w, x);
    if v.Slot? && w.Slot? && w.i == v.i { TableStays(e.slots[w.i], h - 1, w.rest, x, v.rest); }
  }

  /** A store over an entry that is no table loses none. */
  lemma SetTables(t: Sl, a: nat, k: nat, x: Sl)
    requires IsRoot(t) && k <= 3 && a < PT.Span(TOP) && PT.Fits(PF.At(a, TOP, k), TOP) && Open(t, TOP, PF.At(a, TOP, k))
    requires Wf(x, k)
    requires !Get(t, TOP, PF.At(a, TOP, k)).Table?
    ensures IsRoot(Set(t, TOP, PF.At(a, TOP, k), x)) && TablesKept(t, Set(t, TOP, PF.At(a, TOP, k), x))
  {
    PF.AtFits(a, TOP, k);
    var w := PF.At(a, TOP, k);
    SetWf(t, TOP, w, x);
    forall b: nat ensures TableAt(t, Set(t, TOP, w, x), b) {
      if b < PT.Span(TOP) && IsTable(t, b) {
        PF.AtFits(b, TOP, 1);
        TableStays(t, TOP, w, x, PF.At(b, TOP, 1));
      }
    }
  }

  /** The two entries cover different pages. */
  predicate Elsewhere(a: nat, k: nat, b: nat, j: nat) {
    var m := if k < j then j else k;
    a / PT.Span(m) != b / PT.Span(m)
  }

  ghost predicate VacantAt(t: Sl, u: Sl, a: nat, k: nat, b: nat, j: nat)
    requires IsRoot(t) && IsRoot(u)
  {
    b < PT.Span(TOP) && j <= 1 && Elsewhere(a, k, b, j) ==> (Vacant(u, b, j) <==> Vacant(t, b, j))
  }

  /** Work on one entry leaves the vacancy of the others alone. */
  ghost predicate VacancyKept(t: Sl, u: Sl, a: nat, k: nat)
    requires IsRoot(t) && IsRoot(u)
  {
    forall b: nat, j: nat :: VacantAt(t, u, a, k, b, j)
  }

  /** Neither path is part of the other. */
  predicate Diverge(w: PT.Path, v: PT.Path) {
    w.Slot? && v.Slot? && (w.i != v.i || Diverge(w.rest, v.rest))
  }

  lemma {:induction false} SetElsewhere(e: Sl, h: nat, w: PT.Path, x: Sl, v: PT.Path)
    requires Wf(e, h) && PT.Fits(w, h) && PT.Fits(v, h) && Open(e, h, w) && Wf(x, h - PT.Len(w)) && Diverge(w, v)
    ensures Wf(Set(e, h, w, x), h) && (Open(Set(e, h, w, x), h, v) <==> Open(e, h, v))
    ensures Open(e, h, v) ==> Get(Set(e, h, w, x), h, v) == Get(e, h, v)
    decreases h
  {
    SetWf(e, h, w, x);
    if w.i == v.i { SetElsewhere(e.slots[w.i], h - 1, w.rest, x, v.rest); }
  }

  lemma {:induction false} SetWf(e: Sl, h: nat, w: PT.Path, x: Sl)
    requires Wf(e, h) && PT.Fits(w, h) && Open(e, h, w) && Wf(x, h - PT.Len(w))
    ensures Wf(Set(e, h, w, x), h)
    decreases h
  {
    if w.Slot? { SetWf(e.slots[w.i], h - 1, w.rest, x); }
  }

  lemma {:induction false} PathsDiverge(a: nat, b: nat, h: nat, k: nat, j: nat)
    requires a < PT.Span(h) && b < PT.Span(h) && k <= h && j <= h && Elsewhere(a, k, b, j)
    ensures Diverge(PF.At(a, h, k), PF.At(b, h, j))
    decreases h
  {
    var m := if k < j then j else k;
    if h == m {
      DivUnique(a, 0, a, PT.Span(h));
      DivUnique(b, 0, b, PT.Span(h));
    } else {
      PF.SpanStep(a, h);
      PF.SpanStep(b, h);
      var d := PT.Span(h - 1);
      PF.SpanShared(b, b / d, b % d, a, a / d, a % d, h - 1, m);
      if a / d == b / d { PathsDiverge(a % d, b % d, h - 1, k, j); }
    }
  }

  lemma SetVacancy(t: Sl, a: nat, i: nat, x: Sl, b: nat, j: nat)
    requires IsRoot(t) && i <= 3 && j <= 3 && a < PT.Span(TOP) && b < PT.Span(TOP) && Elsewhere(a, i, b, j)
    requires PT.Fits(PF.At(a, TOP, i), TOP) && Open(t, TOP, PF.At(a, TOP, i)) && Wf(x, i)
    ensures IsRoot(Set(t, TOP, PF.At(a, TOP, i), x))
    ensures (Vacant(Set(t, TOP, PF.At(a, TOP, i), x), b, j) <==> Vacant(t, b, j))
  {
    PF.AtFits(a, TOP, i);
    PF.AtFits(b, TOP, j);
    PathsDiverge(a, b, TOP, i, j);
    SetElsewhere(t, TOP, PF.At(a, TOP, i), x, PF.At(b, TOP, j));
  }

  /** Below an empty entry, and below the empty table put there, everything is vacant. */
  lemma {:induction false} VacantBelow(t: Sl, h: nat, b: nat, i: nat, j: nat)
    requires Wf(t, h) && b < PT.Span(h) && j < i <= h && PT.Fits(PF.At(b, h, i), h) && Open(t, h, PF.At(b, h, i))
    requires Get(t, h, PF.At(b, h, i)) == Empty || Get(t, h, PF.At(b, h, i)) == Table(Blank())
    ensures PT.Fits(PF.At(b, h, j), h) && (Open(t, h, PF.At(b, h, j)) ==> Get(t, h, PF.At(b, h, j)).Empty?)
    decreases h
  {
    PF.AtFits(b, h, j);
    PF.SpanStep(b, h);
    if h > i {
      VacantBelow(t.slots[b / PT.Span(h - 1)], h - 1, b % PT.Span(h - 1), i, j);
    } else if t.Table? {
      EmptyAll(h - 1, PF.At(b % PT.Span(h - 1), h - 1, j));
    }
  }

  lemma EmptyAll(h: nat, w: PT.Path)
    requires PT.Fits(w, h)
    ensures Open(Empty, h, w) ==> Get(Empty, h, w).Empty?
  {
  }

  /** Making a table at (a, i) for an entry at (a, k) below it keeps the vacancy of the others. */
  lemma GrowVacancy(t: Sl, a: nat, i: nat, k: nat)
    requires IsRoot(t) && k < i <= 3 && k <= 1 && a < PT.Span(TOP)
    requires PT.Fits(PF.At(a, TOP, i), TOP) && Open(t, TOP, PF.At(a, TOP, i)) && Get(t, TOP, PF.At(a, TOP, i)).Empty?
    ensures IsRoot(Set(t, TOP, PF.At(a, TOP, i), Table(Blank())))
    ensures VacancyKept(t, Set(t, TOP, PF.At(a, TOP, i), Table(Blank())), a, k)
  {
    PF.AtFits(a, TOP, i);
    var w := PF.At(a, TOP, i);
    SetSeen(t, a, i, Table(Blank()), a);
    var u := Set(t, TOP, w, Table(Blank()));
    forall b: nat, j: nat ensures VacantAt(t, u, a, k, b, j) {
      if b < PT.Span(TOP) && j <= 1 && Elsewhere(a, k, b, j) {
        if a / PT.Span(i) != b / PT.Span(i) {
          Coarser(a, b, i, j);
          SetVacancy(t, a, i, Table(Blank()), b, j);
        } else {
          SamePath(a, b, TOP, i);
          assert j < i;
          VacantBelow(t, TOP, b, i, j);
          VacantBelow(u, TOP, b, i, j);
        }
      }
    }
  }

  lemma Coarser(a: nat, b: nat, i: nat, j: nat)
    requires a / PT.Span(i) != b / PT.Span(i) && 0 < i && j <= 1
    ensures Elsewhere(a, i, b, j)
  {
  }

  lemma {:induction false} SamePath(a: nat, b: nat, h: nat, i: nat)
    requires i <= h && a < PT.Span(h) && b < PT.Span(h) && a / PT.Span(i) == b / PT.Span(i)
    ensures PF.At(a, h, i) == PF.At(b, h, i)
    decreases h
  {
    if h > i {
      PF.SpanStep(a, h);
      PF.SpanStep(b, h);
      var d := PT.Span(h - 1);
      PF.SpanShared(b, b / d, b % d, a, a / d, a % d, h - 1, i);
      SamePath(a % d, b % d, h - 1, i);
    }
  }

  /** One level of the descent: the table below height `j` is there, or is made. */
  method Descend(t: Sl, a: nat, j: nat, ghost k: nat, allocate: bool, budget: nat)
    returns (found: bool, u: Sl, left: nat)
    requires IsRoot(t) && a < PT.Span(TOP) && k < j <= 3 && k <= 1 && Slot(t, a, j).Some? && !Slot(t, a, j).value.Leaf?
    ensures IsRoot(u) && left <= budget && Same(t, u) && VacancyKept(t, u, a, k)
    ensures Slot(t, a, j - 1).Some? <==> Slot(t, a, j).value.Table?
    ensures Slot(t, a, j).value.Table? ==> found && u == t && left == budget
    ensures Slot(t, a, j).value.Empty? ==> (found <==> allocate && budget > 0) && Slot(t, a, j - 1).None?
    ensures Slot(t, a, j).value.Empty? && found ==> Slot(u, a, j - 1) == Some(Empty) && left + 1 == budget
    ensures !found ==> u == t
  {
    PF.AtFits(a, TOP, j);
    PF.AtFits(a, TOP, j - 1);
    u, left, found := t, budget, true;
    forall n: nat ensures SameAt(t, t, n) { }
    forall b: nat, i: nat ensures VacantAt(t, t, a, k, b, i) { }
    if Open(t, TOP, PF.At(a, TOP, j - 1)) { OpenUp(t, TOP, a, j); }
    if Get(t, TOP, PF.At(a, TOP, j)).Table? {
      ghost var _ := OpenDown(t, TOP, a, j);
      return;
    }
    if !allocate || budget == 0 { return false, t, budget; }
    u := Set(t, TOP, PF.At(a, TOP, j), Table(Blank()));
    left := budget - 1;
    SetSeen(t, a, j, Table(Blank()), a);
    ghost var _ := OpenDown(u, TOP, a, j);
    EmptyBelow(t, a, j);
    GrowVacancy(t, a, j, k);
  }

  /** Giving an empty entry an empty table maps nothing. */
  lemma EmptyBelow(t: Sl, a: nat, j: nat)
    requires IsRoot(t) && a < PT.Span(TOP) && 0 < j <= 3
    requires PT.Fits(PF.At(a, TOP, j), TOP) && Open(t, TOP, PF.At(a, TOP, j)) && Get(t, TOP, PF.At(a, TOP, j)).Empty?
    ensures IsRoot(Set(t, TOP, PF.At(a, TOP, j), Table(Blank())))
    ensures Same(t, Set(t, TOP, PF.At(a, TOP, j), Table(Blank())))
  {
    PF.AtFits(a, TOP, j);
    var w := PF.At(a, TOP, j);
    SetSeen(t, a, j, Table(Blank()), a);
    var u := Set(t, TOP, w, Table(Blank()));
    forall n: nat ensures SameAt(t, u, n) {
      if n < PT.Span(TOP) {
        SetSeen(t, a, j, Table(Blank()), n);
        if n / PT.Span(j) == a / PT.Span(j) {
          PF.ValAt(n, TOP);
          PF.UnderAt(a, TOP, j, PF.At(n, TOP, 0));
          GetLook(t, TOP, w, PF.At(n, TOP, 0));
        }
      }
    }
  }

  /** slpt_entry: finds the entry over page `a` at height `k`, making tables on the way if asked to. */
  method SlptEntry(t: Sl, a: nat, k: nat, allocate: bool, budget: nat) returns (found: bool, u: Sl, left: nat)
    requires IsRoot(t) && a < PT.Span(TOP) && k <= 1 && (Seen(t, a).Some? ==> Seen(t, a).value.height <= k)
    ensures IsRoot(u) && left <= budget && Same(t, u) && VacancyKept(t, u, a, k)
    ensures !allocate ==> u == t && (found <==> Slot(t, a, k).Some?)
    ensures allocate && budget >= 3 ==> found
    ensures found ==>
              budget - left <= 3 && Slot(u, a, k).Some? &&
              Slot(u, a, k).value == (if Slot(t, a, k).Some? then Slot(t, a, k).value else Empty)
  {
    u, left, found := t, budget, true;
    var j := 3;
    PF.AtFits(a, TOP, 3);
    forall n: nat ensures SameAt(t, t, n) { }
    assert Slot(t, a, 3).Some?;
    forall b: nat, i: nat ensures VacantAt(t, t, a, k, b, i) { }
    while j > k
      invariant k <= j <= 3 && IsRoot(u) && left <= budget && budget - left <= 3 - j && Same(t, u)
      invariant VacancyKept(t, u, a, k)
      invariant Slot(u, a, j).Some? && (!allocate ==> u == t)
      invariant Slot(t, a, j).Some? ==> u == t
      invariant Slot(t, a, j).None? ==> Slot(u, a, j) == Some(Empty) && Slot(t, a, k).None?
    {
      PF.AtFits(a, TOP, j);
      assert SameAt(t, u, a);
      NoLeafAbove(u, a, k, j);
      ghost var before := u;
      found, u, left := Descend(u, a, j, k, allocate, left);
      SameTrans(t, before, u);
      VacancyTrans(t, before, u, a, k);
      NoneBelow(t, a, k, j);
      if !found { return; }
      j := j - 1;
    }
  }

  lemma SameTrans(t: Sl, u: Sl, v: Sl)
    requires IsRoot(t) && IsRoot(u) && IsRoot(v) && Same(t, u) && Same(u, v)
    ensures Same(t, v)
  {
    forall n: nat ensures SameAt(t, v, n) { assert SameAt(t, u, n) && SameAt(u, v, n); }
  }

  lemma VacancyTrans(t: Sl, u: Sl, v: Sl, a: nat, k: nat)
    requires IsRoot(t) && IsRoot(u) && IsRoot(v) && VacancyKept(t, u, a, k) && VacancyKept(u, v, a, k)
    ensures VacancyKept(t, v, a, k)
  {
    forall b: nat, j: nat
      ensures VacantAt(t, v, a, k, b, j)
    {
      assert VacantAt(t, u, a, k, b, j) && VacantAt(u, v, a, k, b, j);
    }
  }

  /** A missing table hides everything below it. */
  lemma {:induction false} NoneBelow(t: Sl, a: nat, k: nat, j: nat)
    requires IsRoot(t) && a < PT.Span(TOP) && k < j <= 3
    ensures Slot(t, a, j - 1).None? ==> Slot(t, a, k).None?
    decreases j - k
  {
    if k < j - 1 {
      PF.AtFits(a, TOP, j - 1);
      PF.AtFits(a, TOP, j - 2);
      if Open(t, TOP, PF.At(a, TOP, j - 2)) { OpenUp(t, TOP, a, j - 1); }
      NoneBelow(t, a, k, j - 1);
    }
  }
}
