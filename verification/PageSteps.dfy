/** How the single writes of install_leaf and try_merge_path add up to the
    whole-tree operations, and which pages each write can disturb. */
module PageSteps {
  import opened Arith
  import opened PageTree
  import opened PageFlag
  import opened PageMem
  import opened Seqs

  // -------------------------------------------------------------------------
  // Installs along an open path
  // -------------------------------------------------------------------------

  ghost function Sub(e: Entry, h: nat, w: Path): (x: Entry)
    requires Wf(e, h) && Fits(w, h) && PathOpen(e, h, w)
    ensures Wf(x, h - Len(w))
    decreases h
  {
    if w.Here? then e else Sub(e.slots[w.i], h - 1, w.rest)
  }

  lemma {:induction false} SubInstall(e: Entry, h: nat, w: Path, y: Entry)
    requires Wf(e, h) && Fits(w, h) && PathOpen(e, h, w) && Wf(y, h - Len(w))
    ensures Wf(Install(e, h, w, y), h) && PathOpen(Install(e, h, w, y), h, w)
    ensures Sub(Install(e, h, w, y), h, w) == y
    decreases h
  {
    InstallWf(e, h, w, y);
    if w.Slot? { SubInstall(e.slots[w.i], h - 1, w.rest, y); }
  }

  lemma {:induction false} InstallTwice(e: Entry, h: nat, w: Path, y: Entry, z: Entry)
    requires Wf(e, h) && Fits(w, h) && PathOpen(e, h, w) && Wf(y, h - Len(w))
    ensures Wf(Install(e, h, w, y), h)
    ensures Install(Install(e, h, w, y), h, w, z) == Install(e, h, w, z)
    decreases h
  {
    InstallWf(e, h, w, y);
    if w.Slot? {
      InstallTwice(e.slots[w.i], h - 1, w.rest, y, z);
      var s := Install(e, h, w, y).slots;
      assert s[w.i := Install(s[w.i], h - 1, w.rest, z)] == e.slots[w.i := Install(e.slots[w.i], h - 1, w.rest, z)];
    }
  }

  lemma {:induction false} InstallSub(e: Entry, h: nat, w: Path)
    requires Wf(e, h) && Fits(w, h) && PathOpen(e, h, w)
    ensures Install(e, h, w, Sub(e, h, w)) == e
    decreases h
  {
    if w.Slot? {
      InstallSub(e.slots[w.i], h - 1, w.rest);
      assert e.slots[w.i := e.slots[w.i]] == e.slots;
    }
  }

  /** Going down to height `j` passes through the entry at height `k`. */
  lemma {:induction false} InstallVia(e: Entry, h: nat, n: nat, k: nat, j: nat, x: Entry)
    requires j <= k <= h && n < Span(h) && Wf(e, h)
    requires Fits(At(n, h, k), h) && PathOpen(e, h, At(n, h, k))
    ensures 0 <= n % Span(k) < Span(k) && Len(At(n, h, k)) == h - k
    ensures Fits(At(n, h, j), h) && Fits(At(n % Span(k), k, j), k)
    ensures Install(e, h, At(n, h, j), x)
         == Install(e, h, At(n, h, k), Install(Sub(e, h, At(n, h, k)), k, At(n % Span(k), k, j), x))
    decreases h
  {
    AtFits(n, h, k);
    AtFits(n, h, j);
    ModMod(n, k, k);
    AtFits(n % Span(k), k, j);
    if h == k {
      DivUnique(n, 0, n, Span(k));
    } else {
      SpanStep(n, h);
      ModMod(n, h - 1, k);
      InstallVia(e.slots[n / Span(h - 1)], h - 1, n % Span(h - 1), k, j, x);
    }
  }

  /** Giving the entry at height `k` a table first does not change an install
      below it. */
  lemma GrowSame(t: Entry, page: nat, k: nat, j: nat, x: Entry)
    requires IsRoot(t) && j < k <= 3 && page < Span(4)
    requires Fits(At(page, 4, k), 4) && Len(At(page, 4, k)) == 4 - k && PathOpen(t, 4, At(page, 4, k))
    requires !(Sub(t, 4, At(page, 4, k)).Absent? && x.Absent?)
    ensures var u := Install(t, 4, At(page, 4, k), Table(Open(Sub(t, 4, At(page, 4, k)), k)));
            && IsRoot(u) && Fits(At(page, 4, j), 4)
            && Install(u, 4, At(page, 4, j), x) == Install(t, 4, At(page, 4, j), x)
  {
    var w := At(page, 4, k);
    var e := Sub(t, 4, w);
    var y := Table(Open(e, k));
    OpenWf(e, k);
    SubInstall(t, 4, w, y);
    var u := Install(t, 4, w, y);
    InstallVia(t, 4, page, k, j, x);
    InstallVia(u, 4, page, k, j, x);
    InstallTwice(t, 4, w, y, Install(e, k, At(page % Span(k), k, j), x));
  }

  /** Clearing below an absent entry changes nothing. */
  lemma ClearAbsent(t: Entry, page: nat, k: nat, j: nat)
    requires IsRoot(t) && j < k <= 3 && page < Span(4)
    requires Fits(At(page, 4, k), 4) && PathOpen(t, 4, At(page, 4, k))
    requires Sub(t, 4, At(page, 4, k)).Absent?
    ensures Fits(At(page, 4, j), 4) && Install(t, 4, At(page, 4, j), Absent) == t
  {
    InstallVia(t, 4, page, k, j, Absent);
    InstallSub(t, 4, At(page, 4, k));
  }

  /** The entry a walk finds in memory is the entry of the tree. */
  lemma SubEntry(mem: Mem, tab: Tabs, at: Spots, root: nat, page: nat, k: nat)
    requires WfMem(mem, tab, at, root) && k <= 3 && page < Span(4) && Way(page, k) in tab
    ensures Readable(mem, tab) && Index(page, k) < FANOUT && Fits(At(page, 4, k), 4) && Len(At(page, 4, k)) == 4 - k
    ensures PathOpen(Tree(mem, tab, at, root), 4, At(page, 4, k))
    ensures Sub(Tree(mem, tab, at, root), 4, At(page, 4, k)) == EntryAt(mem, tab, Way(page, k), Index(page, k))
  {
    Digit(page, k);
    AtFits(page, 4, k);
    WfReadable(mem, tab, at, root);
    var row := mem[tab[Way(page, k)]];
    var e := row[Index(page, k)];
    assert row[Index(page, k) := e] == row;
    forall key | key in tab ensures tab[key] in mem {}
    RewriteTree(mem, tab, at, mem, tab, at, root, page, k, e);
    var x := EntryAt(mem, tab, Way(page, k), Index(page, k));
    TreeWf(mem, tab, Way(page, k));
    assert Wf(x, k);
    SubInstall(Tree(mem, tab, at, root), 4, At(page, 4, k), x);
  }

  // -------------------------------------------------------------------------
  // What a write disturbs
  // -------------------------------------------------------------------------

  /** What the hardware walk finds for page `n`. */
  ghost function Walked(t: Entry, n: nat): (v: Option<View>)
    requires IsRoot(t) && n < Span(4)
  {
    ValAt(n, 4);
    Look(t, 4, At(n, 4, 0))
  }

  lemma {:induction false} InstallOpenLook(e: Entry, h: nat, w: Path, y: Entry, q: Path)
    requires Wf(e, h) && Fits(w, h) && PathOpen(e, h, w) && Wf(y, h - Len(w)) && IsPage(q, h)
    ensures Wf(Install(e, h, w, y), h)
    ensures !Under(w, q) ==> Look(Install(e, h, w, y), h, q) == Look(e, h, q)
    ensures Sub(e, h, w).Absent? && y.Table? && AllAbsent(y.slots) ==>
              Look(Install(e, h, w, y), h, q) == Look(e, h, q)
    decreases h
  {
    InstallWf(e, h, w, y);
    if w.Slot? && q.i == w.i { InstallOpenLook(e.slots[w.i], h - 1, w.rest, y, q.rest); }
  }

  /** A write at height `k` disturbs only the span of its slot. */
  /** A store changes only walks below its entry. */
  /** The walks of two trees differ at most on the pages a..b. */
  ghost predicate DifferWithin(t: Entry, u: Entry, a: nat, b: nat) {
    IsRoot(t) && IsRoot(u) && forall n :: 0 <= n < Span(4) && Walked(u, n) != Walked(t, n) ==> a <= n < b
  }

  lemma WriteDisturbsOnly(t: Entry, page: nat, k: nat, y: Entry)
    requires IsRoot(t) && k <= 3 && page < Span(4)
    requires Fits(At(page, 4, k), 4) && Len(At(page, 4, k)) == 4 - k && PathOpen(t, 4, At(page, 4, k)) && Wf(y, k)
    ensures DifferWithin(t, Install(t, 4, At(page, 4, k), y), Base(page, k), Base(page, k) + Span(k))
  {
    WriteDisturbs(t, page, k, y, 0);
    forall n | 0 <= n < Span(4) && Walked(Install(t, 4, At(page, 4, k), y), n) != Walked(t, n)
      ensures Base(page, k) <= n < Base(page, k) + Span(k)
    {
      WriteDisturbs(t, page, k, y, n);
    }
  }

  lemma WriteDisturbs(t: Entry, page: nat, k: nat, y: Entry, n: nat)
    requires IsRoot(t) && k <= 3 && page < Span(4) && n < Span(4)
    requires Fits(At(page, 4, k), 4) && Len(At(page, 4, k)) == 4 - k && PathOpen(t, 4, At(page, 4, k)) && Wf(y, k)
    ensures IsRoot(Install(t, 4, At(page, 4, k), y))
    ensures !(Base(page, k) <= n < Base(page, k) + Span(k)) ==>
              Walked(Install(t, 4, At(page, 4, k), y), n) == Walked(t, n)
    ensures Sub(t, 4, At(page, 4, k)).Absent? && y.Table? && AllAbsent(y.slots) ==>
              Walked(Install(t, 4, At(page, 4, k), y), n) == Walked(t, n)
  {
    ValAt(n, 4);
    var q := At(n, 4, 0);
    SubInstall(t, 4, At(page, 4, k), y);
    InstallOpenLook(t, 4, At(page, 4, k), y, q);
    UnderAt(page, 4, k, q);
    BaseShared(n, page, Span(k));
  }

  lemma BaseShared(n: nat, page: nat, d: nat)
    requires d > 0
    ensures n / d == page / d ==> page - page % d <= n < page - page % d + d
  {
    assert n == n / d * d + n % d && page == page / d * d + page % d;
  }

  /** Every page that any of the trees in `seen` walks differently from `cur`
      lies in the range. */
  ghost predicate Covered(seen: set<Entry>, cur: Entry, lo: nat, hi: nat)
    requires IsRoot(cur) && forall t :: t in seen ==> IsRoot(t)
  {
    forall t, n :: t in seen && 0 <= n < Span(4) && Walked(t, n) != Walked(cur, n) ==> lo <= n < hi
  }

  lemma CoverStep(seen: set<Entry>, cur: Entry, lo: nat, hi: nat, nxt: Entry, lo': nat, hi': nat)
    requires IsRoot(cur) && IsRoot(nxt) && (forall t :: t in seen ==> IsRoot(t)) && Covered(seen, cur, lo, hi)
    requires lo' <= lo && hi <= hi' && DifferWithin(cur, nxt, lo', hi')
    ensures Covered(seen + {nxt}, nxt, lo', hi')
  {
    forall t, n | t in seen + {nxt} && 0 <= n < Span(4) && Walked(t, n) != Walked(nxt, n)
      ensures lo' <= n < hi'
    {
      if t in seen && Walked(t, n) != Walked(cur, n) {
        assert lo <= n < hi;
      }
    }
  }

  // -------------------------------------------------------------------------
  // Merging step by step
  // -------------------------------------------------------------------------

  /** The page path below the height-`k` entry over `page`. */
  function Tail(page: nat, k: nat): (q: Path)
    ensures IsPage(q, k)
  {
    ModMod(page, k, k);
    ValAt(page % Span(k), k);
    At(page % Span(k), k, 0)
  }

  lemma TailStep(n: nat, h: nat)
    requires 0 < h && n < Span(h)
    ensures At(n, h, 0) == Slot(n / Span(h - 1), Tail(n, h - 1))
  {
    SpanStep(n, h);
  }

  lemma TailMod(n: nat, h: nat, k: nat)
    requires k <= h
    ensures 0 <= n % Span(h) < Span(h) && Tail(n % Span(h), k) == Tail(n, k)
  {
    ModMod(n, h, k);
  }

  lemma MergeSlot(s: seq<Entry>, h: nat, i: nat, q: Path, a: Entry, b: Entry)
    requires 0 < h <= 4 && Wf(Table(s), h) && i < FANOUT && IsPage(q, h - 1) && Wf(a, h - 1) && Wf(b, h - 1)
    requires MergePath(a, h - 1, q) == MergePath(b, h - 1, q)
    ensures Wf(Table(s[i := a]), h) && Wf(Table(s[i := b]), h) && IsPage(Slot(i, q), h)
    ensures MergePath(Table(s[i := a]), h, Slot(i, q)) == MergePath(Table(s[i := b]), h, Slot(i, q))
  {
    var c := MergePath(a, h - 1, q);
    assert s[i := a][i := c] == s[i := b][i := c];
  }

  /** Entries that merge alike merge alike inside the same tree. */
  lemma {:induction false} MergeAlike(t: Entry, h: nat, n: nat, k: nat, x: Entry, y: Entry)
    requires k <= h <= 4 && n < Span(h) && Wf(t, h) && Wf(x, k) && Wf(y, k)
    requires Fits(At(n, h, k), h) && PathOpen(t, h, At(n, h, k))
    requires MergePath(x, k, Tail(n, k)) == MergePath(y, k, Tail(n, k))
    ensures Len(At(n, h, k)) == h - k && IsPage(At(n, h, 0), h)
    ensures Wf(Install(t, h, At(n, h, k), x), h) && Wf(Install(t, h, At(n, h, k), y), h)
    ensures MergePath(Install(t, h, At(n, h, k), x), h, At(n, h, 0))
         == MergePath(Install(t, h, At(n, h, k), y), h, At(n, h, 0))
    decreases h
  {
    AtFits(n, h, k);
    AtFits(n, h, 0);
    InstallWf(t, h, At(n, h, k), x);
    InstallWf(t, h, At(n, h, k), y);
    if h == k {
      DivUnique(n, 0, n, Span(k));
    } else {
      SpanStep(n, h);
      TailMod(n, h - 1, k);
      var i, r := n / Span(h - 1), n % Span(h - 1);
      MergeAlike(t.slots[i], h - 1, r, k, x, y);
      MergeSlot(t.slots, h, i, At(r, h - 1, 0),
                Install(t.slots[i], h - 1, At(r, h - 1, k), x), Install(t.slots[i], h - 1, At(r, h - 1, k), y));
    }
  }

  /** A table that does not merge stops the merge: nothing above it changes. */
  lemma {:induction false} MergeStuck(t: Entry, h: nat, n: nat, k: nat)
    requires k <= h <= 4 && n < Span(h) && Wf(t, h)
    requires Fits(At(n, h, k), h) && PathOpen(t, h, At(n, h, k))
    requires Len(At(n, h, k)) == h - k
    requires Sub(t, h, At(n, h, k)).Table? || h == k || (h == 4 && k == 3)
    requires MergePath(Sub(t, h, At(n, h, k)), k, Tail(n, k)) == Sub(t, h, At(n, h, k))
    ensures IsPage(At(n, h, 0), h) && MergePath(t, h, At(n, h, 0)) == t
    decreases h
  {
    AtFits(n, h, 0);
    if h == k {
      DivUnique(n, 0, n, Span(k));
    } else {
      SpanStep(n, h);
      TailMod(n, h - 1, k);
      var i, r := n / Span(h - 1), n % Span(h - 1);
      AtFits(n, h, k);
      MergeStuck(t.slots[i], h - 1, r, k);
      assert t.slots[i := t.slots[i]] == t.slots;
      if h < 4 {
        assert t.slots[i].Table? by { SubTable(t.slots[i], h - 1, At(r, h - 1, k)); }
        assert !AllAbsent(t.slots);
      }
    }
  }

  lemma SubTable(e: Entry, h: nat, w: Path)
    requires Wf(e, h) && Fits(w, h) && PathOpen(e, h, w) && Sub(e, h, w).Table?
    ensures e.Table?
  {
  }

  /** One step of try_merge_path: collapsing the entry at height `k` once the
      entry below it on the path is merged. */
  lemma MergeHere(e: Entry, page: nat, k: nat)
    requires 0 < k <= 3 && page < Span(4) && Wf(e, k) && e.Table? && 0 <= page % Span(k) / Span(k - 1) < FANOUT
    requires MergePath(e.slots[page % Span(k) / Span(k - 1)], k - 1, Tail(page, k - 1))
             == e.slots[page % Span(k) / Span(k - 1)]
    ensures MergePath(e, k, Tail(page, k)) == Collapse(e, k)
  {
    var i := page % Span(k) / Span(k - 1);
    ModMod(page, k, k);
    TailStep(page % Span(k), k);
    TailMod(page, k, k - 1);
    assert e.slots[i := e.slots[i]] == e.slots;
  }

  lemma MergeStep(t: Entry, page: nat, k: nat)
    requires IsRoot(t) && 0 < k <= 3 && page < Span(4)
    requires Fits(At(page, 4, k), 4) && Len(At(page, 4, k)) == 4 - k && PathOpen(t, 4, At(page, 4, k))
    requires var e := Sub(t, 4, At(page, 4, k));
             e.Table? && 0 <= page % Span(k) / Span(k - 1) < FANOUT
             && MergePath(e.slots[page % Span(k) / Span(k - 1)], k - 1, Tail(page, k - 1))
                == e.slots[page % Span(k) / Span(k - 1)]
    ensures var e := Sub(t, 4, At(page, 4, k));
            var u := Install(t, 4, At(page, 4, k), Collapse(e, k));
            && MergePath(e, k, Tail(page, k)) == Collapse(e, k)
            && IsRoot(u) && IsPage(At(page, 4, 0), 4)
            && MergePath(u, 4, At(page, 4, 0)) == MergePath(t, 4, At(page, 4, 0))
            && PathOpen(u, 4, At(page, 4, k)) && Sub(u, 4, At(page, 4, k)) == Collapse(e, k)
            && MergePath(Collapse(e, k), k, Tail(page, k)) == Collapse(e, k)
  {
    var w := At(page, 4, k);
    var e := Sub(t, 4, w);
    MergeHere(e, page, k);
    CollapseLook(e, k, Tail(page, k));
    SubInstall(t, 4, w, Collapse(e, k));
    InstallSub(t, 4, w);
    MergeAlike(t, 4, page, k, Collapse(e, k), e);
  }
}
