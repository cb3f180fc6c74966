/** The in-place code of paging.c over page-table frames: walk, split, install,
    merge, free, count, as_flag and dirty tracking, each proved to do to the
    frames exactly what modules PageTree and PageFlag say it does to the tree. */
module PageFrames {
  import opened Arith
  import opened PageTree
  import opened PageFlag
  import opened PageMem
  import opened PageSteps
  import C = PageCanon
  import opened Seqs

  /** API flags; the cache type is one of WB, UC, WC, WT. */
  datatype Cache = WB | UC | WC | WT
  datatype Flags = Flags(r: bool, w: bool, x: bool, u: bool, cache: Cache)

  /** The assert of leaf_flags_to_pte: any right needs the right to read. */
  predicate Allowed(f: Flags) {
    f.w || f.x || f.u ==> f.r
  }

  /** paging.c: leaf_flags_to_pte. */
  function ToBits(f: Flags): (ob: Option<Bits>)
    requires Allowed(f)
  {
    if !f.r then None
    else Some(Bits(f.w, f.u, !f.x, f.cache.WT? || f.cache.WC?, f.cache.UC?))
  }

  /** paging.c: pte_to_flags, on the leaf a walk found. */
  function ToFlags(ob: Option<Bits>): (f: Flags) {
    if ob.None? then Flags(false, false, false, false, WB)
    else
      var b := ob.value;
      Flags(true, b.rw, !b.nx, b.us, if b.pcd then UC else if b.pwt then WT else WB)
  }

  /** Reading back what was flagged loses only the difference of WC and WT, and
      the cache type of an absent page. */
  lemma FlagsRoundTrip(f: Flags)
    requires Allowed(f)
    ensures ToFlags(ToBits(f)) == (if !f.r then f.(cache := WB) else if f.cache.WC? then f.(cache := WT) else f)
    ensures ToBits(ToFlags(ToBits(f))) == ToBits(f)
  {
  }

  datatype Access = Read | Write | Fetch

  /** Whether the processor lets user or kernel code make an access (Intel SDM Vol. 3A, section 4.6.1); EFER.NXE is
      set, `wp` is CR0.WP, and no table entry above the leaf restricts it. */
  ghost predicate Permits(m: Option<Mapping>, user: bool, wp: bool, acc: Access) {
    m.Some? && (user ==> m.value.bits.us) &&
    match acc
    case Read => true
    case Write => m.value.bits.rw || (!user && !wp)
    case Fetch => !m.value.bits.nx
  }

  /** The page is itself, cached and open to each access exactly as the flags say; without the right to read it is
      closed to all. */
  ghost predicate Obeys(m: Option<Mapping>, n: nat, f: Flags) {
    && (m.Some? <==> f.r)
    && (m.Some? ==> m.value.frame == n && (m.value.bits.pcd <==> f.cache == UC))
    && (m.Some? ==> (m.value.bits.pwt <==> f.cache == WT || f.cache == WC))
    && forall user: bool, wp: bool, acc: Access :: Permits(m, user, wp, acc) <==>
         f.r && (user ==> f.u) && (acc == Write ==> f.w || (!user && !wp)) && (acc == Fetch ==> f.x)
  }

  /** Kernel code may do anything to the page, user code nothing. */
  ghost predicate KernelOnly(m: Option<Mapping>, n: nat) {
    && m.Some? && m.value.frame == n
    && forall wp: bool, acc: Access :: Permits(m, false, wp, acc) && !Permits(m, true, wp, acc)
  }

  /** From tree `t` to tree `t'` the pages of the range came to obey the flags, and no other page changed. */
  ghost predicate FlaggedTo(t: Entry, t': Entry, a: nat, end: nat, f: Flags) {
    && IsRoot(t) && IsRoot(t')
    && forall n: nat :: n < Span(4) ==>
         if a <= n < end then Obeys(Page(t', n), n, f) else Page(t', n) == Page(t, n)
  }

  /** What as_flag does to every access of every page. */
  lemma FlagAccess(t: Entry, a: nat, end: nat, f: Flags)
    requires IsRoot(t) && a <= end <= Span(4) && Allowed(f)
    ensures FlaggedTo(t, PageFlag.Flag(t, a, end, ToBits(f)), a, end, f)
  {
    var t' := PageFlag.Flag(t, a, end, ToBits(f));
    forall n: nat | n < Span(4)
      ensures if a <= n < end then Obeys(Page(t', n), n, f) else Page(t', n) == Page(t, n)
    {
      FlagRefines(t, a, end, ToBits(f), n);
    }
  }

  /** At boot the first 512 GiB are the kernel's alone, and nothing else is mapped. */
  ghost predicate BootOpen(t: Entry) {
    IsRoot(t) && forall n: nat :: n < Span(4) ==>
      if n < Span(3) then KernelOnly(Page(t, n), n) else Page(t, n).None?
  }

  lemma BootAccess()
    ensures BootOpen(C.Boot())
  {
    C.BootRoot();
    forall n: nat | n < Span(4)
      ensures if n < Span(3) then KernelOnly(Page(C.Boot(), n), n) else Page(C.Boot(), n).None?
    {
      C.BootPages(n);
    }
  }

  function Min(a: nat, b: nat): nat { if a < b then a else b }
  function Max(a: nat, b: nat): nat { if a > b then a else b }

  lemma KeysBounded(s: set<nat>) returns (b: nat)
    ensures forall f :: f in s ==> f < b
  {
    if s == {} {
      b := 0;
    } else {
      var x :| x in s;
      var c := KeysBounded(s - {x});
      b := if x < c then c else x + 1;
      assert forall f :: f in s ==> f == x || f in s - {x};
    }
  }

  lemma FreshFrame(mem: Mem)
    ensures exists f: nat :: f !in mem
  {
    var b := KeysBounded(mem.Keys);
    assert b !in mem;
  }

  /** The tables above an entry stay where they are when what is below it goes. */
  lemma PutWays(mem: Mem, tab: Tabs, at: Spots, root: nat, page: nat, k: nat)
    requires WfMem(mem, tab, at, root) && Way(page, k) in tab && k <= 3
    ensures var tab' := PutTab(tab, k, Base(page, k));
            forall m :: k <= m <= 3 ==>
              Way(page, m) in tab && Way(page, m) in tab' && tab'[Way(page, m)] == tab[Way(page, m)]
  {
    forall m | k <= m <= 3
      ensures Way(page, m) in tab
    {
      WayUp(mem, tab, at, root, page, k, m);
    }
  }

  /** The frames of the tables strictly below a slot are as they were. */
  ghost predicate Intact(mem: Mem, was: Mem, at: Spots, k: nat, lo: nat) {
    forall g :: g in at && Inside(at[g], k, lo) ==> g in mem && g in was && mem[g] == was[g]
  }

  /** Freeing the slots before `i` leaves the table itself and slot `i` as they were. */
  lemma IntactSlot(m: Mem, was: Mem, tab: Tabs, at: Spots, root: nat, key: Key, i: nat)
    requires WfMem(was, tab, at, root) && key in tab && key.k > 0 && i < FANOUT && Intact(m, was, at, key.k + 1, key.lo)
    ensures var m' := m - FreedUpTo(at, key, i);
            tab[key] in m' && tab[key] in was && m'[tab[key]] == was[tab[key]] &&
            Intact(m', was, at, key.k, Child(key, i).lo)
  {
    FreedStep(was, tab, at, root, key, i);
  }

  /** A huge leaf and its split take the same installs below them. */
  lemma SplitSame(mem: Mem, tab: Tabs, at: Spots, root: nat, page: nat, j: nat, k: nat, x: Entry)
    requires WfMem(mem, tab, at, root) && j < k <= 2 && page < Span(4) && Way(page, k) in tab
    requires Index(page, k) < FANOUT && tab[Way(page, k)] in mem && |mem[tab[Way(page, k)]]| == FANOUT
    requires var e := mem[tab[Way(page, k)]][Index(page, k)]; e.p && e.ps && e.addr % Span(k) == 0
    ensures var t, e := Tree(mem, tab, at, root), mem[tab[Way(page, k)]][Index(page, k)];
            var y := Table(Split(e.addr, e.bits, k));
            && Wf(y, k) && Fits(At(page, 4, j), 4) && Fits(At(page, 4, k), 4) && Len(At(page, 4, k)) == 4 - k
            && PathOpen(t, 4, At(page, 4, k)) && IsRoot(Install(t, 4, At(page, 4, k), y))
            && Install(Install(t, 4, At(page, 4, k), y), 4, At(page, 4, j), x) == Install(t, 4, At(page, 4, j), x)
            && DifferWithin(t, Install(t, 4, At(page, 4, k), y), Base(page, k), Base(page, k) + Span(k))
  {
    var t, e := Tree(mem, tab, at, root), mem[tab[Way(page, k)]][Index(page, k)];
    SubEntry(mem, tab, at, root, page, k);
    GrowSame(t, page, k, j, x);
    OpenWf(Leaf(e.addr, e.bits), k);
    WriteDisturbsOnly(t, page, k, Table(Split(e.addr, e.bits, k)));
  }

  lemma SlotWay(key: Key, i: nat)
    requires key.k > 0 && key.lo % Span(key.k + 1) == 0 && i < FANOUT
    ensures Way(Child(key, i).lo, key.k) == key && Index(Child(key, i).lo, key.k) == i
    ensures Base(Child(key, i).lo, key.k) == Child(key, i).lo
  {
    var page := Child(key, i).lo;
    ChildSpan(key, i);
    BaseOf(page, key.lo, key.k + 1);
    SlotAligned(key, i);
    Digit(page, key.k);
    if Index(page, key.k) != i { MulGap(i, Index(page, key.k), Span(key.k)); }
  }

  /** The frames below the first `i` slots of a table. */
  ghost function FreedUpTo(at: Spots, key: Key, i: nat): (fs: set<nat>) {
    set f | f in at && at[f].k < key.k && Inside(at[f], key.k + 1, key.lo) && at[f].lo < key.lo + i * Span(key.k)
  }

  lemma MinusMinus(m: Mem, a: set<nat>, b: set<nat>)
    ensures m - a - b == m - (a + b)
  {
  }

  lemma NoneBelow(at: Spots, key: Key)
    requires key.k == 0
    ensures FreedUpTo(at, key, FANOUT) == {}
  {
  }

  lemma FreedNone(at: Spots, key: Key)
    ensures FreedUpTo(at, key, 0) == {}
  {
    forall f | f in at && Inside(at[f], key.k + 1, key.lo) ensures at[f].lo >= key.lo {}
  }

  lemma FreedStep(mem: Mem, tab: Tabs, at: Spots, root: nat, key: Key, i: nat)
    requires WfMem(mem, tab, at, root) && key in tab && key.k > 0 && i < FANOUT
    ensures tab[key] in mem && i < |mem[tab[key]]|
    ensures FreedUpTo(at, key, i + 1) == FreedUpTo(at, key, i) + Freed(at, key.k, Child(key, i).lo)
    ensures !IsPtr(mem[tab[key]][i], key.k) ==> Freed(at, key.k, Child(key, i).lo) == {}
    ensures forall f :: f in at && Inside(at[f], key.k, Child(key, i).lo) ==> Inside(at[f], key.k + 1, key.lo)
    ensures forall f :: f in at && Inside(at[f], key.k, Child(key, i).lo) ==> f !in FreedUpTo(at, key, i)
    ensures tab[key] !in FreedUpTo(at, key, i) && tab[key] in at && Inside(at[tab[key]], key.k + 1, key.lo)
  {
    var lo := Child(key, i).lo;
    assert KeyOk(mem, tab, at, key);
    SlotWay(key, i);
    assert (i + 1) * Span(key.k) == i * Span(key.k) + Span(key.k);
    forall f | f in at
      ensures Inside(at[f], key.k, lo) <==>
              at[f].k < key.k && Inside(at[f], key.k + 1, key.lo) && lo <= at[f].lo < lo + Span(key.k)
    {
      if Inside(at[f], key.k, lo) {
        BaseBase(at[f].lo, key.k + 1, key.k);
        ModMod(at[f].lo, key.k, key.k);
      } else if lo <= at[f].lo < lo + Span(key.k) {
        SlotAligned(key, i);
        BaseOf(at[f].lo, lo, key.k);
      }
    }
    if !IsPtr(mem[tab[key]][i], key.k) {
      forall f | f in at ensures !Inside(at[f], key.k, lo) {
        NoInside(mem, tab, at, root, lo, key.k, at[f]);
      }
    }
  }

  lemma FreedCount(mem: Mem, tab: Tabs, at: Spots, root: nat, key: Key, i: nat)
    requires WfMem(mem, tab, at, root) && key in tab && key.k > 0 && i < FANOUT
    ensures |FreedUpTo(at, key, i + 1)| == |FreedUpTo(at, key, i)| + |Freed(at, key.k, Child(key, i).lo)|
  {
    FreedStep(mem, tab, at, root, key, i);
    assert FreedUpTo(at, key, i) * Freed(at, key.k, Child(key, i).lo) == {};
  }

  lemma FreedAll(mem: Mem, tab: Tabs, at: Spots, root: nat, key: Key)
    requires WfMem(mem, tab, at, root) && key in tab
    ensures Freed(at, key.k + 1, key.lo) == FreedUpTo(at, key, FANOUT) + {tab[key]}
    ensures tab[key] !in FreedUpTo(at, key, FANOUT)
  {
    assert KeyOk(mem, tab, at, key);
    forall f | f in at && Inside(at[f], key.k + 1, key.lo)
      ensures at[f].k == key.k ==> f == tab[key]
      ensures at[f].lo < key.lo + Span(key.k + 1)
    {
      assert KeyOk(mem, tab, at, at[f]);
      ModMod(at[f].lo, key.k + 1, key.k + 1);
    }
    assert FANOUT * Span(key.k) == Span(key.k + 1);
  }

  /** Entry `i` continues the run of like leaves that entry 0 starts. */
  predicate Continues(row: seq<Pte>, k: nat, i: nat)
    requires i < |row|
  {
    && row[i].p && (k >= 1 ==> row[i].ps)
    && row[i].(addr := 0) == row[0].(addr := 0)
    && row[i].addr == row[0].addr + i * Span(k)
  }

  ghost predicate NoPointers(row: seq<Pte>, k: nat) {
    forall s :: 0 <= s < |row| ==> !IsPtr(row[s], k)
  }

  /** `slots` are what the entries of `row` stand for, as far as leaves go. */
  ghost predicate Spells(row: seq<Pte>, slots: seq<Entry>, k: nat, i: nat)
    requires i < |row| && i < |slots|
  {
    && (slots[i] == Absent <==> !row[i].p)
    && (slots[i].Leaf? <==> row[i].p && !IsPtr(row[i], k))
    && (slots[i].Leaf? ==> slots[i] == Leaf(row[i].addr, row[i].bits) && row[i].ps == (k > 0))
  }

  /** What the scan of a row says about the entries it spells. */
  lemma ScanUniform(row: seq<Pte>, slots: seq<Entry>, k: nat)
    requires |row| == |slots| == FANOUT && forall i :: 0 <= i < FANOUT ==> Spells(row, slots, k, i)
    ensures Uniform(slots, k + 1) <==>
              row[0].addr % Span(k + 1) == 0 && forall i :: 0 <= i < FANOUT ==> Continues(row, k, i)
  {
    if Uniform(slots, k + 1) {
      forall i | 0 <= i < FANOUT ensures Continues(row, k, i) {
        assert Spells(row, slots, k, i) && Spells(row, slots, k, 0);
      }
      assert Spells(row, slots, k, 0);
    }
    if row[0].addr % Span(k + 1) == 0 && forall i :: 0 <= i < FANOUT ==> Continues(row, k, i) {
      assert Spells(row, slots, k, 0) && Continues(row, k, 0);
      forall i | 0 <= i < FANOUT ensures slots[i] == Leaf(slots[0].frame + i * Span(k), slots[0].bits) {
        assert Continues(row, k, i) && Spells(row, slots, k, i);
      }
    }
  }

  lemma RowSpells(mem: Mem, tab: Tabs, key: Key)
    requires Readable(mem, tab) && key in tab
    ensures forall i :: 0 <= i < FANOUT ==> Spells(mem[tab[key]], TreeAt(mem, tab, key).slots, key.k, i)
  {
    assert SlotsOk(mem, tab, key);
    forall i | 0 <= i < FANOUT ensures Spells(mem[tab[key]], TreeAt(mem, tab, key).slots, key.k, i) {
      assert SlotOk(mem, tab, key, i);
      assert TreeAt(mem, tab, key).slots[i] == EntryAt(mem, tab, key, i);
    }
  }

  lemma ScanMeaning(row: seq<Pte>, slots: seq<Entry>, k: nat, allAbsent: bool, allLeaf: bool)
    requires |row| == |slots| == FANOUT && forall i :: 0 <= i < FANOUT ==> Spells(row, slots, k, i)
    requires allAbsent <==> forall i :: 0 <= i < FANOUT ==> !row[i].p
    requires allLeaf <==> forall i :: 0 <= i < FANOUT ==> Continues(row, k, i)
    ensures AllAbsent(slots) <==> allAbsent
    ensures Uniform(slots, k + 1) <==> allLeaf && row[0].addr % Span(k + 1) == 0
    ensures allLeaf ==> slots[0] == Leaf(row[0].addr, row[0].bits)
    ensures allAbsent || allLeaf ==> NoPointers(row, k)
  {
    ScanUniform(row, slots, k);
    assert Spells(row, slots, k, 0);
    if allLeaf {
      assert Continues(row, k, 0);
      forall i | 0 <= i < FANOUT ensures !IsPtr(row[i], k) { assert Continues(row, k, i); }
    }
    if allAbsent {
      forall i | 0 <= i < FANOUT ensures slots[i] == Absent { assert Spells(row, slots, k, i); }
    } else {
      var i :| 0 <= i < FANOUT && row[i].p;
      assert Spells(row, slots, k, i);
    }
  }

  /** A table without pointers is the only frame below its slot. */
  lemma FreedLone(mem: Mem, tab: Tabs, at: Spots, root: nat, page: nat, k: nat)
    requires WfMem(mem, tab, at, root) && 1 <= k <= 3 && Way(page, k) in tab && Way(page, k - 1) in tab
    requires tab[Way(page, k - 1)] in mem
    requires NoPointers(mem[tab[Way(page, k - 1)]], k - 1)
    ensures Freed(at, k, Base(page, k)) == {tab[Way(page, k - 1)]}
  {
    assert KeyOk(mem, tab, at, Way(page, k - 1));
    BaseBase(page, k, k);
    forall f | f in at && Inside(at[f], k, Base(page, k))
      ensures at[f] == Way(page, k - 1)
    {
      InsideSplit(mem, tab, at, root, page, k, at[f]);
      if at[f] != Way(page, k - 1) {
        WayUp(mem, tab, at, root, at[f].lo, k - 2, k - 1);
      }
    }
  }

  lemma WayStays(mem: Mem, tab: Tabs, at: Spots, root: nat, page: nat, k: nat)
    requires WfMem(mem, tab, at, root) && Way(page, k) in tab && k <= 3
    ensures forall m :: k <= m <= 3 ==> Way(page, m) in tab
  {
    forall m | k <= m <= 3 ensures Way(page, m) in tab { WayUp(mem, tab, at, root, page, k, m); }
  }

  lemma CoverWider(seen: set<Entry>, cur: Entry, lo: nat, hi: nat, lo': nat, hi': nat)
    requires IsRoot(cur) && (forall t :: t in seen ==> IsRoot(t)) && Covered(seen, cur, lo, hi)
    requires lo' <= lo && hi <= hi'
    ensures Covered(seen, cur, lo', hi')
  {
  }

  /** The entry of height `k` on the way to `page` is already merged. */
  ghost predicate Settled(t: Entry, page: nat, k: nat)
    requires IsRoot(t) && page < Span(4)
  {
    && k <= 3 && Fits(At(page, 4, k), 4) && Len(At(page, 4, k)) == 4 - k && PathOpen(t, 4, At(page, 4, k))
    && MergePath(Sub(t, 4, At(page, 4, k)), k, Tail(page, k)) == Sub(t, 4, At(page, 4, k))
    && (k < 3 ==> Fits(At(page, 4, k + 1), 4) && PathOpen(t, 4, At(page, 4, k + 1)))
  }

  /** An entry without a table below it has nothing to merge. */
  /** The entry for `page` in the table is not a pointer. */
  predicate Stops(mem: Mem, table: nat, page: nat, k: nat) {
    k > 0 && Index(page, k) < FANOUT && table in mem && |mem[table]| == FANOUT && !IsPtr(mem[table][Index(page, k)], k)
  }

  lemma PathSettled(mem: Mem, tab: Tabs, at: Spots, root: nat, page: nat, k: nat)
    requires WfMem(mem, tab, at, root) && k <= 3 && page < Span(4) && Way(page, k) in tab
    requires k == 0 || Stops(mem, tab[Way(page, k)], page, k)
    ensures Settled(Tree(mem, tab, at, root), page, k)
    ensures k < 3 ==> Sub(Tree(mem, tab, at, root), 4, At(page, 4, k + 1)).Table?
  {
    SubEntry(mem, tab, at, root, page, k);
    assert SlotsOk(mem, tab, Way(page, k));
    assert SlotOk(mem, tab, Way(page, k), Index(page, k));
    if k < 3 { TableAbove(Tree(mem, tab, at, root), page, k); }
  }

  /** The path to height `k - 1` goes through slot `page % Span(k) / Span(k - 1)`. */
  lemma {:induction false} SubStep(t: Entry, h: nat, n: nat, k: nat)
    requires 0 < k <= h && n < Span(h) && Wf(t, h)
    requires Fits(At(n, h, k), h) && PathOpen(t, h, At(n, h, k)) && Sub(t, h, At(n, h, k)).Table?
    ensures 0 <= n % Span(k) / Span(k - 1) < FANOUT && Len(At(n, h, k)) == h - k
    ensures Fits(At(n, h, k - 1), h) && PathOpen(t, h, At(n, h, k - 1))
    ensures Sub(t, h, At(n, h, k - 1)) == Sub(t, h, At(n, h, k)).slots[n % Span(k) / Span(k - 1)]
    decreases h
  {
    AtFits(n, h, k);
    AtFits(n, h, k - 1);
    Digit(n, k - 1);
    if h == k {
      DivUnique(n, 0, n, Span(k));
      SpanStep(n, h);
    } else {
      SpanStep(n, h);
      ModMod(n, h - 1, k);
      SubStep(t.slots[n / Span(h - 1)], h - 1, n % Span(h - 1), k);
    }
  }

  /** A settled child makes its parent ready for the next merge attempt. */
  lemma MergeReady(t: Entry, page: nat, k: nat)
    requires IsRoot(t) && page < Span(4) && 1 <= k <= 3 && Settled(t, page, k - 1)
    requires Sub(t, 4, At(page, 4, k)).Table?
    ensures Fits(At(page, 4, k), 4) && Len(At(page, 4, k)) == 4 - k && PathOpen(t, 4, At(page, 4, k))
    ensures var e := Sub(t, 4, At(page, 4, k));
            var u := Install(t, 4, At(page, 4, k), Collapse(e, k));
            && IsRoot(u) && IsPage(At(page, 4, 0), 4)
            && MergePath(u, 4, At(page, 4, 0)) == MergePath(t, 4, At(page, 4, 0))
            && PathOpen(u, 4, At(page, 4, k)) && Sub(u, 4, At(page, 4, k)) == Collapse(e, k)
            && MergePath(Collapse(e, k), k, Tail(page, k)) == Collapse(e, k)
  {
    SubStep(t, 4, page, k);
    AtFits(page, 4, k);
    MergeStep(t, page, k);
  }

  /** Every entry strictly above an open path is a table. */
  lemma TableAbove(t: Entry, page: nat, k: nat)
    requires IsRoot(t) && page < Span(4) && k < 3 && Fits(At(page, 4, k), 4) && PathOpen(t, 4, At(page, 4, k))
    ensures Fits(At(page, 4, k + 1), 4) && Len(At(page, 4, k + 1)) == 3 - k
    ensures PathOpen(t, 4, At(page, 4, k + 1)) && Sub(t, 4, At(page, 4, k + 1)).Table?
  {
    AtFits(page, 4, k + 1);
    OpenUp(t, 4, page, k);
  }

  lemma {:induction false} OpenUp(t: Entry, h: nat, n: nat, k: nat)
    requires k < h && n < Span(h) && Wf(t, h) && Fits(At(n, h, k), h) && PathOpen(t, h, At(n, h, k))
    ensures Fits(At(n, h, k + 1), h) && PathOpen(t, h, At(n, h, k + 1)) && Sub(t, h, At(n, h, k + 1)).Table?
    decreases h
  {
    AtFits(n, h, k + 1);
    SpanStep(n, h);
    if k + 1 < h { OpenUp(t.slots[n / Span(h - 1)], h - 1, n % Span(h - 1), k); }
  }

  /** min_dirty of a clean space: beyond every page. */
  const EMPTY_MIN: nat := 0x10_0000_0000_0000

  lemma EmptyRoot(mem: Mem, tab: Tabs, at: Spots, root: nat, zeros: seq<Pte>)
    requires |zeros| == FANOUT && (forall i :: 0 <= i < FANOUT ==> zeros[i] == ZERO)
    requires mem == map[root := zeros] && tab == map[Key(3, 0) := root] && at == map[root := Key(3, 0)]
    ensures WfMem(mem, tab, at, root) && Tree(mem, tab, at, root) == Table(Blank())
  {
    assert KeyOk(mem, tab, at, Key(3, 0));
    forall i | 0 <= i < FANOUT ensures SlotOk(mem, tab, Key(3, 0), i) {}
    assert SlotsOk(mem, tab, Key(3, 0));
    var s := Tree(mem, tab, at, root).slots;
    forall i | 0 <= i < FANOUT ensures s[i] == Absent { assert s[i] == EntryAt(mem, tab, Key(3, 0), i); }
    assert s == Blank();
  }

  /** Number of tables of an entry (as_table_count). */
  ghost function Tables(e: Entry): (n: nat) {
    if !e.Table? then 0 else 1 + SlotTables(e.slots, |e.slots|)
  }

  ghost function SlotTables(s: seq<Entry>, i: nat): (n: nat)
    requires i <= |s|
  {
    if i == 0 then 0 else SlotTables(s, i - 1) + Tables(s[i - 1])
  }

  lemma NoTables(s: seq<Entry>, i: nat)
    requires i <= |s| && forall m :: 0 <= m < i ==> !s[m].Table?
    ensures SlotTables(s, i) == 0
  {
  }

  class AddressSpace {
    var mem: Mem
    var root: nat
    var minDirty: nat // first dirty page
    var maxDirty: nat // one past the last dirty page
    ghost var tab: Tabs
    ghost var at: Spots
    ghost var seen: set<Entry> // every tree a walker could have met since the last flush

    ghost predicate Shape()
      reads this
    {
      WfMem(mem, tab, at, root)
    }

    /** The tree the frames spell out. */
    ghost function Now(): (t: Entry)
      requires Shape()
      reads this
      ensures IsRoot(t)
    {
      Tree(mem, tab, at, root)
    }

    ghost function Tree0(): (t: Entry)
      reads this
    {
      if Shape() then Now() else Absent
    }

    /** Every tree seen since the last flush agrees with the present one outside
        the dirty range widened by the pages `lo..hi`. */
    ghost predicate Tracked(lo: nat, hi: nat)
      requires Shape()
      reads this
    {
      && (forall t :: t in seen ==> IsRoot(t)) && Now() in seen
      && Covered(seen, Now(), Min(lo, minDirty), Max(hi, maxDirty))
    }

    ghost predicate Valid()
      reads this
    {
      Shape() && Tracked(Span(4), 0)
    }

    // -----------------------------------------------------------------------
    // Frames
    // -----------------------------------------------------------------------

    /** A frame the address space does not own yet. */
    method PtAlloc() returns (f: nat)
      ensures f !in mem
    {
      FreshFrame(mem);
      f :| f !in mem;
    }

    static method ZeroedTable() returns (body: seq<Pte>)
      ensures |body| == FANOUT && forall i :: 0 <= i < FANOUT ==> body[i] == ZERO
    {
      body := seq(FANOUT, i => ZERO);
    }

    /** paging.c: split_huge. */
    static method SplitHuge(huge: Pte, k: nat) returns (body: seq<Pte>)
      requires 1 <= k <= 2 && huge.p && huge.ps && huge.addr % Span(k) == 0
      ensures |body| == FANOUT
      ensures forall i :: 0 <= i < FANOUT ==>
                Plain(body[i], k - 1) && Meaning(body[i]) == Split(huge.addr, huge.bits, k)[i]
    {
      body := ZeroedTable();
      var step := Span(k - 1);
      var i := 0;
      while i < FANOUT
        invariant i <= FANOUT && |body| == FANOUT
        invariant forall s :: 0 <= s < i ==> body[s] == LeafPte(huge.addr + s * Span(k - 1), huge.bits, k - 1)
      {
        body := body[i := Pte(true, k - 1 > 0, huge.bits, huge.addr + i * step)];
        i := i + 1;
      }
      forall s | 0 <= s < FANOUT
        ensures Plain(body[s], k - 1) && Meaning(body[s]) == Split(huge.addr, huge.bits, k)[s]
      {
        SpanAligned(huge.addr, s, k);
      }
    }

    /** Stores a pointer to the new table `child` in the slot on the way to `page`. */
    method Hang(page: nat, k: nat, child: nat, body: seq<Pte>, table: nat, ghost slots: seq<Entry>)
      requires Shape() && CanGrow(mem, tab, at, root, page, k, child, body) && tab[Way(page, k)] == table
      requires |slots| == FANOUT && forall i :: 0 <= i < FANOUT ==> slots[i] == Meaning(body[i])
      modifies this`mem, this`tab, this`at
      ensures Shape() && Way(page, k - 1) in tab && tab[Way(page, k - 1)] == child
      ensures Fits(At(page, 4, k), 4) && PathOpen(old(Now()), 4, At(page, 4, k))
      ensures Now() == Install(old(Now()), 4, At(page, 4, k), Table(slots))
    {
      Grow(mem, tab, at, root, page, k, child, body);
      GrowKeys(mem, tab, at, root, page, k, child, body);
      GrowTree(mem, tab, at, root, page, k, child, body, slots);
      mem := GrowMem(mem, table, Index(page, k), child, body);
      at := at[child := Way(page, k - 1)];
      tab := tab[Way(page, k - 1) := child];
    }

    method MarkDirty(lo: nat, hi: nat)
      modifies this`minDirty, this`maxDirty
      ensures minDirty == Min(lo, old(minDirty)) && maxDirty == Max(hi, old(maxDirty))
    {
      if lo < minDirty { minDirty := lo; }
      if hi > maxDirty { maxDirty := hi; }
    }

    // -----------------------------------------------------------------------
    // Walk
    // -----------------------------------------------------------------------

    /** paging.c: walk. */
    method Walk(page: nat) returns (e: Pte)
      requires Shape() && page < Span(4)
      ensures Forget(Walked(Now(), page)).None? <==> !e.p
      ensures e.p ==> exists k :: 0 <= k <= 2 && Walked(Now(), page) == Some(View(e.addr + page % Span(k), e.bits, k))
    {
      var table := root;
      var k := 3;
      RootWay(page);
      while true
        invariant 0 <= k <= 3 && Way(page, k) in tab && tab[Way(page, k)] == table
        decreases k
      {
        SubEntry(mem, tab, at, root, page, k);
        WalkSub(Now(), 4, page, k);
        assert KeyOk(mem, tab, at, Way(page, k)) && SlotsOk(mem, tab, Way(page, k));
        assert SlotOk(mem, tab, Way(page, k), Index(page, k));
        e := mem[table][Index(page, k)];
        if !e.p { return ZERO; }
        if k == 0 || e.ps {
          ModMod(page, k, k);
          return;
        }
        WayChild(page, k);
        table := e.addr;
        k := k - 1;
      }
    }

    // -----------------------------------------------------------------------
    // Free
    // -----------------------------------------------------------------------

    /** paging.c: free_table, for the table of `key` in the memory `was`; the
        frames of its whole subtree go, and no others. */
    method FreeTable(k: nat, f: nat, ghost key: Key, ghost was: Mem)
      requires WfMem(was, tab, at, root) && key in tab && key.k == k && tab[key] == f
      requires Intact(mem, was, at, k + 1, key.lo)
      modifies this`mem
      ensures mem == old(mem) - Freed(at, k + 1, key.lo)
      decreases k, 1
    {
      if k > 0 {
        FreeSlots(k, f, key, was);
        assert mem == old(mem) - FreedUpTo(at, key, FANOUT);
      } else {
        NoneBelow(at, key);
      }
      FreedAll(was, tab, at, root, key);
      MinusMinus(old(mem), FreedUpTo(at, key, FANOUT), {f});
      mem := mem - {f};
    }

    /** The loop of free_table over the slots of an inner table. */
    method FreeSlots(k: nat, f: nat, ghost key: Key, ghost was: Mem)
      requires WfMem(was, tab, at, root) && key in tab && key.k == k > 0 && tab[key] == f
      requires Intact(mem, was, at, k + 1, key.lo)
      modifies this`mem
      ensures mem == old(mem) - FreedUpTo(at, key, FANOUT)
      decreases k, 0, 1
    {
      FreedNone(at, key);
      var i := 0;
      while i < FANOUT
        invariant i <= FANOUT
        invariant mem == old(mem) - FreedUpTo(at, key, i)
      {
        FreeSlot(k, f, i, key, was, old(mem));
        i := i + 1;
      }
    }

    /** One round of that loop; `all` is the memory before the first. */
    method FreeSlot(k: nat, f: nat, i: nat, ghost key: Key, ghost was: Mem, ghost all: Mem)
      requires WfMem(was, tab, at, root) && key in tab && key.k == k > 0 && tab[key] == f && i < FANOUT
      requires Intact(all, was, at, k + 1, key.lo) && mem == all - FreedUpTo(at, key, i)
      modifies this`mem
      ensures mem == all - FreedUpTo(at, key, i + 1)
      decreases k, 0, 0
    {
      IntactSlot(all, was, tab, at, root, key, i);
      FreedStep(was, tab, at, root, key, i);
      MinusMinus(all, FreedUpTo(at, key, i), Freed(at, k, Child(key, i).lo));
      assert KeyOk(was, tab, at, key) && SlotsOk(was, tab, key);
      assert SlotOk(was, tab, key, i);
      var e := mem[f][i];
      if e.p && !e.ps { FreeTable(k - 1, e.addr, Child(key, i), was); }
    }

    // -----------------------------------------------------------------------
    // Install
    // -----------------------------------------------------------------------

    /** One level of install_leaf's descent: follow, allocate or split. */
    method StepDown(page: nat, j: nat, k: nat, table: nat, leaf: Pte, ghost lo: nat, ghost hi: nat)
      returns (stop: bool, child: nat)
      requires Shape() && j < k <= 3 && page < Span(4) && Way(page, k) in tab && tab[Way(page, k)] == table
      requires Tracked(lo, hi) && (leaf.p || leaf == ZERO)
      modifies this
      ensures Shape() && root == old(root) && Tracked(lo, hi) && old(seen) <= seen
      ensures minDirty <= old(minDirty) && old(maxDirty) <= maxDirty
      ensures Fits(At(page, 4, j), 4)
      ensures Install(Now(), 4, At(page, 4, j), Meaning(leaf)) == Install(old(Now()), 4, At(page, 4, j), Meaning(leaf))
      ensures stop ==> !leaf.p && Install(Now(), 4, At(page, 4, j), Meaning(leaf)) == Now()
      ensures !stop ==> Way(page, k - 1) in tab && tab[Way(page, k - 1)] == child
    {
      SubEntry(mem, tab, at, root, page, k);
      AtFits(page, 4, j);
      assert KeyOk(mem, tab, at, Way(page, k)) && SlotsOk(mem, tab, Way(page, k));
      assert SlotOk(mem, tab, Way(page, k), Index(page, k));
      stop, child := false, 0;
      var e := mem[table][Index(page, k)];
      if !e.p {
        if leaf == ZERO {
          ClearAbsent(Now(), page, k, j);
          return true, 0;
        }
        child := GrowEmpty(page, j, k, table, Meaning(leaf), lo, hi);
      } else if e.ps {
        child := GrowSplit(page, j, k, table, e, Meaning(leaf), lo, hi);
      } else {
        WayChild(page, k);
        child := e.addr;
      }
    }

    /** Allocates an empty table below an absent entry. */
    method GrowEmpty(page: nat, j: nat, k: nat, table: nat, ghost x: Entry, ghost lo: nat, ghost hi: nat)
      returns (child: nat)
      requires Shape() && j < k <= 3 && page < Span(4) && Way(page, k) in tab && tab[Way(page, k)] == table
      requires Index(page, k) < FANOUT && table in mem && |mem[table]| == FANOUT && !mem[table][Index(page, k)].p
      requires Tracked(lo, hi) && !x.Absent?
      modifies this`mem, this`tab, this`at, this`seen
      ensures Shape() && Tracked(lo, hi) && old(seen) <= seen && Fits(At(page, 4, j), 4)
      ensures Install(Now(), 4, At(page, 4, j), x) == Install(old(Now()), 4, At(page, 4, j), x)
      ensures Way(page, k - 1) in tab && tab[Way(page, k - 1)] == child
    {
      SubEntry(mem, tab, at, root, page, k);
      ghost var t := Now();
      child := PtAlloc();
      var body := ZeroedTable();
      Hang(page, k, child, body, table, Blank());
      assert Now() == Install(t, 4, At(page, 4, k), Table(Blank()));
      GrowSame(t, page, k, j, x);
      assert Wf(Table(Blank()), k);
      forall n | 0 <= n < Span(4) ensures Walked(Now(), n) == Walked(t, n) {
        WriteDisturbs(t, page, k, Table(Blank()), n);
      }
      See(t, lo, hi, Min(lo, old(minDirty)), Max(hi, old(maxDirty)));
    }

    /** Splits the huge leaf over `page`. */
    method GrowSplit(page: nat, j: nat, k: nat, table: nat, e: Pte, ghost x: Entry, ghost lo: nat, ghost hi: nat)
      returns (child: nat)
      requires Shape() && j < k <= 3 && page < Span(4) && Way(page, k) in tab && tab[Way(page, k)] == table
      requires Index(page, k) < FANOUT && table in mem && |mem[table]| == FANOUT && mem[table][Index(page, k)] == e
      requires e.p && e.ps && k <= 2 && e.addr % Span(k) == 0 && Tracked(lo, hi)
      modifies this
      ensures Shape() && root == old(root) && Tracked(lo, hi) && old(seen) <= seen && Fits(At(page, 4, j), 4)
      ensures minDirty <= old(minDirty) && old(maxDirty) <= maxDirty
      ensures Install(Now(), 4, At(page, 4, j), x) == Install(old(Now()), 4, At(page, 4, j), x)
      ensures Way(page, k - 1) in tab && tab[Way(page, k - 1)] == child
    {
      ghost var t := Now();
      child := HangSplit(page, j, k, table, e, x);
      MarkDirty(Base(page, k), Base(page, k) + Span(k));
      See(t, lo, hi, Min(lo, old(minDirty)), Max(hi, old(maxDirty)));
    }

    method HangSplit(page: nat, j: nat, k: nat, table: nat, e: Pte, ghost x: Entry) returns (child: nat)
      requires Shape() && j < k <= 3 && page < Span(4) && Way(page, k) in tab && tab[Way(page, k)] == table
      requires Index(page, k) < FANOUT && table in mem && |mem[table]| == FANOUT && mem[table][Index(page, k)] == e
      requires e.p && e.ps && k <= 2 && e.addr % Span(k) == 0
      modifies this`mem, this`tab, this`at
      ensures Shape() && Fits(At(page, 4, j), 4)
      ensures DifferWithin(old(Now()), Now(), Base(page, k), Base(page, k) + Span(k))
      ensures Install(Now(), 4, At(page, 4, j), x) == Install(old(Now()), 4, At(page, 4, j), x)
      ensures Way(page, k - 1) in tab && tab[Way(page, k - 1)] == child
    {
      SplitSame(mem, tab, at, root, page, j, k, x);
      child := PtAlloc();
      var body := SplitHuge(e, k);
      Hang(page, k, child, body, table, Split(e.addr, e.bits, k));
    }

    /** Records the present tree as one a walker could have met. */
    ghost method See(t: Entry, lo: nat, hi: nat, a: nat, b: nat)
      requires Shape() && IsRoot(t) && (forall u :: u in seen ==> IsRoot(u)) && Covered(seen, t, a, b)
      requires Min(lo, minDirty) <= a && b <= Max(hi, maxDirty)
      requires DifferWithin(t, Now(), Min(lo, minDirty), Max(hi, maxDirty))
      modifies this`seen
      ensures Tracked(lo, hi) && seen == old(seen) + {Now()}
    {
      CoverStep(seen, t, a, b, Now(), Min(lo, minDirty), Max(hi, maxDirty));
      seen := seen + {Now()};
    }

    /** Overwrites the slot on the way to `page` with a plain entry, after the
        frames below it were freed. */
    method Overwrite(page: nat, k: nat, table: nat, e: Pte, ghost was: Mem, ghost lo: nat, ghost hi: nat)
      requires CanPut(was, tab, at, root, page, k, e) && tab[Way(page, k)] == table
      requires mem == was - Freed(at, k, Base(page, k))
      requires table in mem && Index(page, k) < |mem[table]|
      requires forall u :: u in seen ==> IsRoot(u)
      requires Covered(seen, Tree(was, tab, at, root), Min(lo, minDirty), Max(hi, maxDirty))
      requires Min(lo, minDirty) <= Base(page, k) && Base(page, k) + Span(k) <= Max(hi, maxDirty)
      modifies this`mem, this`tab, this`at, this`seen
      ensures Shape() && Tracked(lo, hi) && old(seen) <= seen && Fits(At(page, 4, k), 4)
      ensures Way(page, k) in tab && tab[Way(page, k)] == table
      ensures Now() == Install(old(Tree(was, tab, at, root)), 4, At(page, 4, k), Meaning(e))
      ensures forall m :: k <= m <= 3 ==>
                Way(page, m) in old(tab) && Way(page, m) in tab && tab[Way(page, m)] == old(tab)[Way(page, m)]
    {
      Put(was, tab, at, root, page, k, e);
      ghost var t := Tree(was, tab, at, root);
      ghost var lo0 := Base(page, k);
      PutWays(was, tab, at, root, page, k);
      mem := mem[table := mem[table][Index(page, k) := e]];
      at := at - Freed(at, k, lo0);
      tab := PutTab(tab, k, lo0);
      assert mem == PutMem(was, old(at), k, lo0, table, Index(page, k), e);
      AtFits(page, 4, k);
      WriteDisturbsOnly(t, page, k, Meaning(e));
      See(t, lo, hi, Min(lo, minDirty), Max(hi, maxDirty));
    }

    /** paging.c: install_leaf. */
    method InstallLeaf(page: nat, j: nat, leaf: Pte, ghost lo: nat, ghost hi: nat)
      requires Shape() && j <= 2 && page % Span(j) == 0 && page + Span(j) <= Span(4)
      requires Plain(leaf, j) && (leaf.p || leaf == ZERO)
      requires Tracked(lo, hi) && lo <= page && page + Span(j) <= hi
      modifies this
      ensures Shape() && root == old(root) && Tracked(lo, hi) && old(seen) <= seen
      ensures minDirty <= old(minDirty) && old(maxDirty) <= maxDirty
      ensures Fits(At(page, 4, j), 4)
      ensures Now() == Install(old(Now()), 4, At(page, 4, j), Meaning(leaf))
    {
      var stop, table := Descend(page, j, leaf, lo, hi);
      if !stop { Replace(page, j, table, leaf, lo, hi); }
    }

    /** The loop of install_leaf down to the table that holds the target slot. */
    method Descend(page: nat, j: nat, leaf: Pte, ghost lo: nat, ghost hi: nat) returns (stop: bool, table: nat)
      requires Shape() && j <= 3 && page < Span(4) && Tracked(lo, hi) && (leaf.p || leaf == ZERO)
      modifies this
      ensures Shape() && root == old(root) && Tracked(lo, hi) && old(seen) <= seen
      ensures minDirty <= old(minDirty) && old(maxDirty) <= maxDirty
      ensures Fits(At(page, 4, j), 4)
      ensures Install(Now(), 4, At(page, 4, j), Meaning(leaf)) == Install(old(Now()), 4, At(page, 4, j), Meaning(leaf))
      ensures stop ==> !leaf.p && Install(Now(), 4, At(page, 4, j), Meaning(leaf)) == Now()
      ensures !stop ==> Way(page, j) in tab && tab[Way(page, j)] == table
    {
      AtFits(page, 4, j);
      RootWay(page);
      stop, table := false, root;
      var k := 3;
      while k > j
        invariant j <= k <= 3 && Shape() && root == old(root) && Tracked(lo, hi) && old(seen) <= seen
        invariant minDirty <= old(minDirty) && old(maxDirty) <= maxDirty
        invariant !stop && Way(page, k) in tab && tab[Way(page, k)] == table
        invariant Install(Now(), 4, At(page, 4, j), Meaning(leaf)) == Install(old(Now()), 4, At(page, 4, j),
                                                                              Meaning(leaf))
      {
        stop, table := StepDown(page, j, k, table, leaf, lo, hi);
        if stop { return; }
        k := k - 1;
      }
    }

    /** Frees what the slot held and stores the new entry in it. */
    method Replace(page: nat, k: nat, table: nat, e: Pte, ghost lo: nat, ghost hi: nat)
      requires Shape() && k <= 3 && page < Span(4) && Way(page, k) in tab && tab[Way(page, k)] == table
      requires Plain(e, k) && Tracked(lo, hi) && Min(lo, minDirty) <= Base(page, k)
      requires Base(page, k) + Span(k) <= Max(hi, maxDirty)
      modifies this`mem, this`tab, this`at, this`seen
      ensures Shape() && Tracked(lo, hi) && old(seen) <= seen && Fits(At(page, 4, k), 4)
      ensures Now() == Install(old(Now()), 4, At(page, 4, k), Meaning(e))
    {
      ghost var was := mem;
      DropBelow(page, k, table);
      Overwrite(page, k, table, e, was, lo, hi);
    }

    /** Frees the subtree below the slot on the way to `page`, if there is one. */
    method DropBelow(page: nat, k: nat, table: nat)
      requires Shape() && k <= 3 && page < Span(4) && Way(page, k) in tab && tab[Way(page, k)] == table
      modifies this`mem
      ensures Index(page, k) < FANOUT
      ensures mem == old(mem) - Freed(at, k, Base(page, k))
      ensures table in mem && |mem[table]| == FANOUT
    {
      Digit(page, k);
      assert KeyOk(mem, tab, at, Way(page, k)) && SlotsOk(mem, tab, Way(page, k));
      assert SlotOk(mem, tab, Way(page, k), Index(page, k));
      assert at[table] == Way(page, k) && table !in Freed(at, k, Base(page, k));
      var prev := mem[table][Index(page, k)];
      if prev.p && !prev.ps && k > 0 {
        WayChild(page, k);
        FreeTable(k - 1, prev.addr, Way(page, k - 1), mem);
      } else {
        forall f | f in at ensures !Inside(at[f], k, Base(page, k)) {
          NoInside(mem, tab, at, root, page, k, at[f]);
        }
        assert Freed(at, k, Base(page, k)) == {};
      }
    }

    // -----------------------------------------------------------------------
    // Merge
    // -----------------------------------------------------------------------

    /** The scan of try_merge_child over a child table with height-`k` entries. */
    static method Scan(row: seq<Pte>, k: nat) returns (allAbsent: bool, allLeaf: bool)
      requires |row| == FANOUT
      ensures allAbsent <==> forall i :: 0 <= i < FANOUT ==> !row[i].p
      ensures allLeaf <==> forall i :: 0 <= i < FANOUT ==> Continues(row, k, i)
    {
      allAbsent, allLeaf := true, true;
      var first := row[0];
      var step := Span(k);
      var i := 0;
      while i < FANOUT && (allAbsent || allLeaf)
        invariant i <= FANOUT
        invariant allAbsent <==> forall s :: 0 <= s < i ==> !row[s].p
        invariant allLeaf <==> forall s :: 0 <= s < i ==> Continues(row, k, s)
      {
        var c := row[i];
        if !c.p {
          allLeaf := false;
        } else {
          allAbsent := false;
          if (k >= 1 && !c.ps) || c.(addr := 0) != first.(addr := 0) || c.addr != first.addr + i * step {
            allLeaf := false;
          }
        }
        assert Continues(row, k, i) <==>
            !(!c.p || (k >= 1 && !c.ps) || c.(addr := 0) != first.(addr := 0) || c.addr != first.addr + i * step);
        i := i + 1;
      }
    }

    /** paging.c: try_merge_child, on the slot of height `k` on the way to `page`. */
    method TryMergeChild(page: nat, k: nat, table: nat, ghost lo: nat, ghost hi: nat) returns (merged: bool)
      requires Shape() && 1 <= k <= 3 && page < Span(4) && Way(page, k) in tab && tab[Way(page, k)] == table
      requires Tracked(lo, hi)
      modifies this
      ensures Shape() && root == old(root) && Tracked(lo, hi) && old(seen) <= seen
      ensures minDirty <= old(minDirty) && old(maxDirty) <= maxDirty
      ensures Fits(At(page, 4, k), 4) && Len(At(page, 4, k)) == 4 - k && PathOpen(old(Now()), 4, At(page, 4, k))
      ensures var e := Sub(old(Now()), 4, At(page, 4, k));
              && Now() == Install(old(Now()), 4, At(page, 4, k), Collapse(e, k))
              && (merged <==> e.Table? && !Collapse(e, k).Table?)
              && (!merged ==> Now() == old(Now()) && Collapse(e, k) == e)
      ensures forall m :: k <= m <= 3 ==>
                Way(page, m) in old(tab) && Way(page, m) in tab && tab[Way(page, m)] == old(tab)[Way(page, m)]
    {
      SubEntry(mem, tab, at, root, page, k);
      InstallSub(Now(), 4, At(page, 4, k));
      assert KeyOk(mem, tab, at, Way(page, k)) && SlotsOk(mem, tab, Way(page, k));
      assert SlotOk(mem, tab, Way(page, k), Index(page, k));
      WayStays(mem, tab, at, root, page, k);
      merged := false;
      var e := mem[table][Index(page, k)];
      if !e.p || e.ps { return; }
      WayChild(page, k);
      var child := e.addr;
      assert KeyOk(mem, tab, at, Way(page, k - 1));
      var row := mem[child];
      var allAbsent, allLeaf := Scan(row, k - 1);
      RowSpells(mem, tab, Way(page, k - 1));
      ScanMeaning(row, TreeAt(mem, tab, Way(page, k - 1)).slots, k - 1, allAbsent, allLeaf);
      if allAbsent {
        Collapsed(page, k, table, child, ZERO, lo, hi);
        return true;
      }
      if allLeaf && k <= 2 {
        if row[0].addr % Span(k) != 0 { return; }
        Collapsed(page, k, table, child, Pte(true, true, row[0].bits, row[0].addr), lo, hi);
        return true;
      }
    }

    /** Stores the merged entry, frees the child, and marks the span dirty. */
    method Collapsed(page: nat, k: nat, table: nat, child: nat, e: Pte, ghost lo: nat, ghost hi: nat)
      requires Shape() && 1 <= k <= 3 && page < Span(4) && Way(page, k) in tab && tab[Way(page, k)] == table
      requires Way(page, k - 1) in tab && tab[Way(page, k - 1)] == child
      requires child in mem && NoPointers(mem[child], k - 1)
      requires Plain(e, k) && Tracked(lo, hi)
      modifies this
      ensures Shape() && root == old(root) && Tracked(lo, hi) && old(seen) <= seen && Fits(At(page, 4, k), 4)
      ensures minDirty <= old(minDirty) && old(maxDirty) <= maxDirty
      ensures Now() == Install(old(Now()), 4, At(page, 4, k), Meaning(e))
      ensures forall m :: k <= m <= 3 ==>
                Way(page, m) in old(tab) && Way(page, m) in tab && tab[Way(page, m)] == old(tab)[Way(page, m)]
    {
      ghost var was := mem;
      Digit(page, k);
      FreedLone(mem, tab, at, root, page, k);
      assert KeyOk(mem, tab, at, Way(page, k)) && KeyOk(mem, tab, at, Way(page, k - 1));
      CoverWider(seen, Now(), Min(lo, minDirty), Max(hi, maxDirty),
                 Min(lo, Min(Base(page, k), minDirty)), Max(hi, Max(Base(page, k) + Span(k), maxDirty)));
      mem := mem - {child};
      MarkDirty(Base(page, k), Base(page, k) + Span(k));
      Overwrite(page, k, table, e, was, lo, hi);
    }

    /** paging.c: try_merge_path. */
    method TryMergePath(page: nat, ghost lo: nat, ghost hi: nat)
      requires Shape() && page < Span(4) && Tracked(lo, hi)
      modifies this
      ensures Shape() && root == old(root) && Tracked(lo, hi) && old(seen) <= seen
      ensures minDirty <= old(minDirty) && old(maxDirty) <= maxDirty
      ensures IsPage(At(page, 4, 0), 4) && Now() == MergePath(old(Now()), 4, At(page, 4, 0))
    {
      ValAt(page, 4);
      var lowest, tables := CollectPath(page);
      var k := lowest + 1;
      while k <= 3
        invariant 1 <= k <= 4 && Shape() && root == old(root) && Tracked(lo, hi) && old(seen) <= seen
        invariant minDirty <= old(minDirty) && old(maxDirty) <= maxDirty
        invariant |tables| == 4 && forall m :: k <= m <= 3 ==> Way(page, m) in tab && tab[Way(page, m)] == tables[m]
        invariant MergePath(Now(), 4, At(page, 4, 0)) == MergePath(old(Now()), 4, At(page, 4, 0))
        invariant Settled(Now(), page, k - 1)
        invariant k <= 3 ==> Sub(Now(), 4, At(page, 4, k)).Table?
      {
        ghost var t := Now();
        assert Way(page, k) in tab;
        MergeReady(t, page, k);
        var merged := TryMergeChild(page, k, tables[k], lo, hi);
        if !merged {
          MergeStuck(Now(), 4, page, k);
          return;
        }
        if k < 3 { TableAbove(Now(), page, k); }
        k := k + 1;
      }
      MergeStuck(Now(), 4, page, 3);
    }

    /** The next table on the walk to `page`, if the entry points to one. */
    method TableBelow(page: nat, k: nat, table: nat) returns (child: Option<nat>)
      requires Shape() && page < Span(4) && 0 < k <= 3 && Way(page, k) in tab && tab[Way(page, k)] == table
      ensures child.Some? ==> Way(page, k - 1) in tab && tab[Way(page, k - 1)] == child.value
      ensures child.None? ==> Stops(mem, table, page, k)
    {
      Digit(page, k);
      assert KeyOk(mem, tab, at, Way(page, k)) && SlotsOk(mem, tab, Way(page, k));
      assert SlotOk(mem, tab, Way(page, k), Index(page, k));
      var e := mem[table][Index(page, k)];
      WayChild(page, k);
      child := if !e.p || e.ps then None else Some(e.addr);
    }

    /** The first loop of try_merge_path: the tables on the walk to `page`. */
    method CollectPath(page: nat) returns (lowest: nat, tables: seq<nat>)
      requires Shape() && page < Span(4)
      ensures lowest <= 3 && |tables| == 4
      ensures forall m :: lowest <= m <= 3 ==> Way(page, m) in tab && tab[Way(page, m)] == tables[m]
      ensures Settled(Now(), page, lowest)
      ensures lowest < 3 ==> Sub(Now(), 4, At(page, 4, lowest + 1)).Table?
    {
      RootWay(page);
      tables := [0, 0, 0, root];
      lowest := 3;
      var more := true;
      while lowest > 0 && more
        invariant lowest <= 3 && |tables| == 4
        invariant forall m :: lowest <= m <= 3 ==> Way(page, m) in tab && tab[Way(page, m)] == tables[m]
        invariant more || Stops(mem, tables[lowest], page, lowest)
        decreases lowest, more
      {
        var child := TableBelow(page, lowest, tables[lowest]);
        if child.None? {
          more := false;
        } else {
          tables := tables[lowest - 1 := child.value];
          lowest := lowest - 1;
        }
      }
      PathSettled(mem, tab, at, root, page, lowest);
    }

    // -----------------------------------------------------------------------
    // as_flag and the dirty range
    // -----------------------------------------------------------------------

    /** One round of as_flag's loop: the largest leaf that starts at `a`. */
    method InstallPiece(a: nat, addr: nat, end: nat, ob: Option<Bits>) returns (next: nat)
      requires Shape() && addr <= a < end <= Span(4) && Tracked(addr, end)
      modifies this
      ensures Shape() && root == old(root) && Tracked(addr, end) && old(seen) <= seen
      ensures minDirty <= old(minDirty) && old(maxDirty) <= maxDirty
      ensures next == Next(a, end) && Now() == FlagStep(old(Now()), a, end, ob)
    {
      var j := if a % Span(2) == 0 && end - a >= Span(2) then 2
           else if a % Span(1) == 0 && end - a >= Span(1) then 1 else 0;
      var leaf := if ob.Some? then LeafPte(a, ob.value, j) else ZERO;
      assert j == LeafHeight(a, end) && Meaning(leaf) == NewLeaf(a, ob);
      InstallLeaf(a, j, leaf, addr, end);
      next := a + Span(j);
    }

    /** The install loop of as_flag. */
    method InstallRange(addr: nat, end: nat, ob: Option<Bits>)
      requires Shape() && addr < end <= Span(4) && Tracked(addr, end)
      modifies this
      ensures Shape() && root == old(root) && Tracked(addr, end) && old(seen) <= seen
      ensures minDirty <= old(minDirty) && old(maxDirty) <= maxDirty
      ensures Now() == FlagLoop(old(Now()), addr, end, ob)
    {
      ghost var goal := FlagLoop(Now(), addr, end, ob);
      var a := addr;
      while a < end
        invariant addr <= a <= end && Shape() && root == old(root) && Tracked(addr, end) && old(seen) <= seen
        invariant minDirty <= old(minDirty) && old(maxDirty) <= maxDirty
        invariant FlagLoop(Now(), a, end, ob) == goal
      {
        a := InstallPiece(a, addr, end, ob);
      }
    }

    /** paging.c: as_flag.  The tree becomes the flagged tree, and the dirty range
        covers every page whose walk changed since the last flush. */
    method Flag(addr: nat, end: nat, flags: Flags)
      requires Valid() && addr <= end <= Span(4) && Allowed(flags)
      modifies this
      ensures Valid() && root == old(root) && old(seen) <= seen
      ensures minDirty <= old(minDirty) && old(maxDirty) <= maxDirty
      ensures Now() == PageFlag.Flag(old(Now()), addr, end, ToBits(flags))
      ensures FlaggedTo(old(Now()), Now(), addr, end, flags)
    {
      FlagAccess(Now(), addr, end, flags);
      if addr == end { return; }
      CoverWider(seen, Now(), Min(Span(4), minDirty), Max(0, maxDirty), Min(addr, minDirty), Max(end, maxDirty));
      InstallRange(addr, end, ToBits(flags));
      MarkDirty(addr, end);
      MergeBothEnds(addr, end);
    }

    /** The two boundary merges of as_flag. */
    method MergeBothEnds(addr: nat, end: nat)
      requires Valid() && addr < end <= Span(4)
      modifies this
      ensures Valid() && root == old(root) && old(seen) <= seen
      ensures minDirty <= old(minDirty) && old(maxDirty) <= maxDirty
      ensures Now() == MergeEnds(old(Now()), addr, end)
    {
      TryMergePath(addr, Span(4), 0);
      TryMergePath(end - 1, Span(4), 0);
    }

    // -----------------------------------------------------------------------
    // Creation, counting, and handing over the dirty range
    // -----------------------------------------------------------------------

    /** paging.c: as_identity_mapping; `r` is the frame pt_alloc gave for the root. */
    constructor (r: nat)
      ensures Valid() && Now() == C.Boot() && minDirty >= maxDirty && BootOpen(Now())
    {
      var zeros := seq(FANOUT, i => ZERO);
      root, mem := r, map[r := zeros];
      tab, at := map[Key(3, 0) := r], map[r := Key(3, 0)];
      minDirty, maxDirty := EMPTY_MIN, 0;
      seen := {};
      new;
      EmptyRoot(mem, tab, at, root, zeros);
      MapIdentity();
      BootAccess();
      seen := {Now()};
    }

    /** as_identity_mapping on an empty root: one table of 1 GiB leaves in the first slot. */
    method MapIdentity()
      requires Shape() && Now() == Table(Blank())
      requires tab == map[Key(3, 0) := root] && mem.Keys == {root} && |mem[root]| == FANOUT && forall i ::
                 0 <= i < FANOUT ==> mem[root][i] == ZERO
      modifies this`mem, this`tab, this`at
      ensures Shape() && Now() == C.Boot()
    {
      var pdpt := PtAlloc();
      var body := BootTable();
      RootWay(0);
      Digit(0, 3);
      Hang(0, 3, pdpt, body, root, Split(0, C.PRISTINE, 3));
    }

    /** The loop of as_identity_mapping: 512 identity leaves of 1 GiB. */
    static method BootTable() returns (body: seq<Pte>)
      ensures |body| == FANOUT
      ensures forall i :: 0 <= i < FANOUT ==> Plain(body[i], 2) && Meaning(body[i]) == Split(0, C.PRISTINE, 3)[i]
    {
      body := ZeroedTable();
      var i := 0;
      while i < FANOUT
        invariant i <= FANOUT && |body| == FANOUT
        invariant forall s :: 0 <= s < i ==> body[s] == LeafPte(s * Span(2), C.PRISTINE, 2)
      {
        body := body[i := Pte(true, true, C.PRISTINE, i * Span(2))];
        i := i + 1;
      }
      forall s | 0 <= s < FANOUT ensures Plain(body[s], 2) && Meaning(body[s]) == Split(0, C.PRISTINE, 3)[s] {
        SpanAligned(0, s, 3);
      }
    }

    /** paging.c: count_tables.  The tables of the tree are the frames owned. */
    method CountTables(k: nat, f: nat, ghost key: Key) returns (n: nat)
      requires Shape() && key in tab && key.k == k && tab[key] == f
      ensures n == |Freed(at, k + 1, key.lo)|
      ensures Readable(mem, tab) && n == Tables(TreeAt(mem, tab, key))
      decreases k, 1
    {
      n := 1;
      WfReadable(mem, tab, at, root);
      FreedAll(mem, tab, at, root, key);
      if k > 0 {
        var c := CountSlots(k, f, key);
        n := n + c;
      } else {
        NoneBelow(at, key);
        ghost var slots := TreeAt(mem, tab, key).slots;
        forall i | 0 <= i < FANOUT ensures !slots[i].Table? { assert slots[i] == EntryAt(mem, tab, key, i); }
        NoTables(slots, FANOUT);
      }
    }

    /** The loop of count_tables over the slots of an inner table. */
    method CountSlots(k: nat, f: nat, ghost key: Key) returns (n: nat)
      requires Shape() && key in tab && key.k == k > 0 && tab[key] == f
      ensures n == |FreedUpTo(at, key, FANOUT)|
      ensures Readable(mem, tab) && n == SlotTables(TreeAt(mem, tab, key).slots, FANOUT)
      decreases k, 0, 1
    {
      n := 0;
      WfReadable(mem, tab, at, root);
      FreedNone(at, key);
      ghost var slots := TreeAt(mem, tab, key).slots;
      var i := 0;
      while i < FANOUT
        invariant i <= FANOUT
        invariant n == |FreedUpTo(at, key, i)| && n == SlotTables(slots, i)
      {
        FreedCount(mem, tab, at, root, key, i);
        var c := CountSlot(k, f, i, key);
        n := n + c;
        i := i + 1;
      }
    }

    /** One round of that loop. */
    method CountSlot(k: nat, f: nat, i: nat, ghost key: Key) returns (n: nat)
      requires Shape() && key in tab && key.k == k > 0 && tab[key] == f && i < FANOUT
      ensures n == |Freed(at, k, Child(key, i).lo)|
      ensures Readable(mem, tab) && n == Tables(TreeAt(mem, tab, key).slots[i])
      decreases k, 0, 0
    {
      WfReadable(mem, tab, at, root);
      assert KeyOk(mem, tab, at, key) && SlotsOk(mem, tab, key);
      assert SlotOk(mem, tab, key, i) && TreeAt(mem, tab, key).slots[i] == EntryAt(mem, tab, key, i);
      var e := mem[f][i];
      if e.p && !e.ps {
        n := CountTables(k - 1, e.addr, Child(key, i));
      } else {
        n := 0;
        FreedStep(mem, tab, at, root, key, i);
      }
    }

    /** paging.c: as_table_count. */
    method TableCount() returns (n: nat)
      requires Valid()
      ensures n == Tables(Now()) && n == |mem|
    {
      n := CountTables(3, root, Key(3, 0));
      forall f | f in at ensures Inside(at[f], 4, 0) {
        assert KeyOk(mem, tab, at, at[f]);
        DivUnique(at[f].lo, 0, at[f].lo, Span(4));
      }
      assert Freed(at, 4, 0) == mem.Keys;
    }

    /** The per-space part of as_flush_multi: take the dirty range and clear it. */
    method TakeDirty(lo: nat, hi: nat) returns (lo': nat, hi': nat)
      requires Valid()
      modifies this`minDirty, this`maxDirty, this`seen
      ensures Valid() && Tree0() == old(Tree0()) && seen == {Tree0()}
      ensures lo' <= lo && hi <= hi'
      ensures Confined(old(seen), Tree0(), lo', hi')
    {
      lo', hi' := lo, hi;
      if minDirty < maxDirty {
        if minDirty < lo' { lo' := minDirty; }
        if maxDirty > hi' { hi' := maxDirty; }
        minDirty, maxDirty := EMPTY_MIN, 0;
      }
      seen := {Now()};
    }
  }

  /** A walk continues inside the entry the open path leads to. */
  lemma {:induction false} WalkSub(t: Entry, h: nat, n: nat, k: nat)
    requires k <= h && n < Span(h) && Wf(t, h)
    requires Fits(At(n, h, k), h) && PathOpen(t, h, At(n, h, k))
    ensures Len(At(n, h, k)) == h - k && IsPage(At(n, h, 0), h)
    ensures Look(t, h, At(n, h, 0)) == Look(Sub(t, h, At(n, h, k)), k, Tail(n, k))
    ensures 0 <= n % Span(k) < Span(k) && Val(Tail(n, k), k) == n % Span(k)
    decreases h
  {
    AtFits(n, h, k);
    AtFits(n, h, 0);
    ModMod(n, k, k);
    ValAt(n % Span(k), k);
    if h == k {
      DivUnique(n, 0, n, Span(k));
    } else {
      SpanStep(n, h);
      TailMod(n, h - 1, k);
      WalkSub(t.slots[n / Span(h - 1)], h - 1, n % Span(h - 1), k);
    }
  }

  /** All trees in `past` walk like `cur` outside the range. */
  ghost predicate Confined(past: set<Entry>, cur: Entry, lo: nat, hi: nat) {
    IsRoot(cur) && (forall t :: t in past ==> IsRoot(t)) && Covered(past, cur, lo, hi)
  }
}
