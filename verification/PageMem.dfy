/** Page-table frames in memory, and the tree they spell out.

    `mem` holds the 512-entry frames an address space owns.  The ghost maps
    `tab` and `at` say which frame is the table of which span: a table whose
    entries have height `k` and whose first page is `lo`. */
module PageMem {
  import opened Arith
  import opened PageTree
  import opened PageFlag

  /** A page-table entry: P, PS, the other flag bits, and the address field. */
  datatype Pte = Pte(p: bool, ps: bool, bits: Bits, addr: nat)

  datatype Key = Key(k: nat, lo: nat)

  type Mem = map<nat, seq<Pte>>
  type Tabs = map<Key, nat>
  type Spots = map<nat, Key>

  const ZERO: Pte := Pte(false, false, Bits(false, false, false, false, false), 0)

  /** paging.c: intermediate_flags. */
  function Pointer(child: nat): (e: Pte) {
    Pte(true, false, Bits(true, true, false, false, false), child)
  }

  function LeafPte(f: nat, b: Bits, k: nat): (e: Pte) {
    Pte(true, k > 0, b, f)
  }

  predicate IsPtr(e: Pte, k: nat) {
    e.p && !e.ps && k > 0
  }

  /** First page of the height-`k` span that holds `page`. */
  function Base(page: nat, k: nat): (b: nat)
    ensures b <= page
  {
    page - page % Span(k)
  }

  /** paging.c: level_idx for level `k + 1`. */
  function Index(page: nat, k: nat): nat {
    page / Span(k) % FANOUT
  }

  function Child(key: Key, i: nat): Key {
    Key(if key.k > 0 then key.k - 1 else 0, key.lo + i * Span(key.k))
  }

  function Parent(key: Key): Key {
    Key(key.k + 1, Base(key.lo, key.k + 2))
  }

  /** The table with height-`k` entries on the walk to `page`. */
  function Way(page: nat, k: nat): Key {
    Key(k, Base(page, k + 1))
  }

  // -------------------------------------------------------------------------
  // Arithmetic of spans
  // -------------------------------------------------------------------------

  lemma ModMod(n: nat, h: nat, j: nat)
    requires j <= h
    ensures 0 <= n % Span(h) < Span(h) && 0 <= n / Span(h)
    ensures n % Span(h) % Span(j) == n % Span(j)
  {
    DivMod(n, Span(h));
    DivMul(n, n / Span(h), n % Span(h), Span(h), Ratio(h, j), Span(j));
  }

  /** The digits of the walk: slot `Index(page, k)` of the table on the way. */
  lemma Digit(page: nat, k: nat)
    ensures Index(page, k) < FANOUT
    ensures Base(page, k) == Base(page, k + 1) + Index(page, k) * Span(k)
    ensures page % Span(k + 1) / Span(k) == Index(page, k)
    ensures page % Span(k + 1) % Span(k) == page % Span(k)
    ensures page % Span(k + 1) < Span(k + 1)
  {
    var s, d := Span(k + 1), Span(k);
    var c, r := page / s, page % s;
    DivMul(page, c, r, s, FANOUT, d);
    DivUnique(page / d, c, r / d, FANOUT);
    ModMod(page, k + 1, k);
    assert r == r / d * d + r % d;
  }

  lemma BaseAligned(page: nat, k: nat)
    ensures Base(page, k) % Span(k) == 0
  {
    DivUnique(Base(page, k), page / Span(k), 0, Span(k));
  }

  lemma WayChild(page: nat, k: nat)
    requires k > 0
    ensures Index(page, k) < FANOUT
    ensures Child(Way(page, k), Index(page, k)) == Way(page, k - 1)
  {
    Digit(page, k);
  }

  // -------------------------------------------------------------------------
  // Well-formed memory
  // -------------------------------------------------------------------------

  /** A table entry that restricts no access below it. */
  predicate Passes(b: Bits) {
    b.rw && b.us && !b.nx
  }

  ghost predicate SlotOk(mem: Mem, tab: Tabs, key: Key, i: nat)
    requires key in tab && tab[key] in mem && i < |mem[tab[key]]|
  {
    var e := mem[tab[key]][i];
    if IsPtr(e, key.k) then
      Child(key, i) in tab && tab[Child(key, i)] == e.addr && Passes(e.bits)
    else
      && (key.k > 0 ==> Child(key, i) !in tab)
      && (e.p ==> key.k <= 2 && e.addr % Span(key.k) == 0 && e.ps == (key.k > 0))
  }

  ghost predicate KeyOk(mem: Mem, tab: Tabs, at: Spots, key: Key)
    requires key in tab
  {
    && key.k <= 3 && key.lo % Span(key.k + 1) == 0 && key.lo + Span(key.k + 1) <= Span(4)
    && tab[key] in mem && |mem[tab[key]]| == FANOUT
    && tab[key] in at && at[tab[key]] == key
    && (key.k < 3 ==> Parent(key) in tab)
  }

  ghost predicate SlotsOk(mem: Mem, tab: Tabs, key: Key)
    requires key in tab && tab[key] in mem
  {
    forall i :: 0 <= i < |mem[tab[key]]| ==> SlotOk(mem, tab, key, i)
  }

  /** Every frame is the table of exactly one span, reached from the root. */
  ghost predicate WfMem(mem: Mem, tab: Tabs, at: Spots, root: nat) {
    && Key(3, 0) in tab && tab[Key(3, 0)] == root
    && (forall key :: key in tab ==> KeyOk(mem, tab, at, key))
    && (forall key :: key in tab ==> SlotsOk(mem, tab, key))
    && (forall f :: f in mem ==> f in at)
    && (forall f :: f in at ==> f in mem && at[f] in tab && tab[at[f]] == f)
  }

  // -------------------------------------------------------------------------
  // The tree
  // -------------------------------------------------------------------------

  ghost predicate Readable(mem: Mem, tab: Tabs) {
    && (forall key :: key in tab ==> tab[key] in mem && |mem[tab[key]]| == FANOUT)
    && (forall key :: key in tab ==> SlotsOk(mem, tab, key))
  }

  ghost function EntryAt(mem: Mem, tab: Tabs, key: Key, i: nat): (e: Entry)
    requires Readable(mem, tab) && key in tab && i < FANOUT
    decreases key.k, 0
  {
    var e := mem[tab[key]][i];
    assert SlotOk(mem, tab, key, i);
    if !e.p then Absent
    else if !IsPtr(e, key.k) then Leaf(e.addr, e.bits)
    else TreeAt(mem, tab, Child(key, i))
  }

  ghost function TreeAt(mem: Mem, tab: Tabs, key: Key): (e: Entry)
    requires Readable(mem, tab) && key in tab
    ensures e.Table? && |e.slots| == FANOUT
    ensures forall i :: 0 <= i < FANOUT ==> e.slots[i] == EntryAt(mem, tab, key, i)
    decreases key.k, 1
  {
    Table(seq(FANOUT, i requires 0 <= i < FANOUT => EntryAt(mem, tab, key, i)))
  }

  lemma {:induction false} TreeWf(mem: Mem, tab: Tabs, key: Key)
    requires Readable(mem, tab) && key in tab
    ensures Wf(TreeAt(mem, tab, key), key.k + 1)
    decreases key.k
  {
    forall i | 0 <= i < FANOUT
      ensures Wf(EntryAt(mem, tab, key, i), key.k)
    {
      assert SlotOk(mem, tab, key, i);
      if IsPtr(mem[tab[key]][i], key.k) { TreeWf(mem, tab, Child(key, i)); }
    }
  }

  /** Whether the span of `key` and the height-`k` span at `lo` are disjoint. */
  predicate Apart(key: Key, k: nat, lo: nat) {
    key.lo + Span(key.k + 1) <= lo || lo + Span(k) <= key.lo
  }

  /** Both memories agree on every table whose span avoids the one at `lo`. */
  ghost predicate AgreeOff(mem: Mem, tab: Tabs, mem': Mem, tab': Tabs, k: nat, lo: nat)
    requires Readable(mem, tab) && Readable(mem', tab')
  {
    forall key :: key in tab && Apart(key, k, lo) ==>
      key in tab' && mem'[tab'[key]] == mem[tab[key]]
  }

  lemma ChildSpan(key: Key, i: nat)
    requires i < FANOUT && key.k > 0
    ensures key.lo <= Child(key, i).lo
    ensures Child(key, i).lo + Span(key.k) <= key.lo + Span(key.k + 1)
  {
    MulLe(i, FANOUT - 1, Span(key.k));
  }

  /** A subtree that avoids the changed span is the same tree. */
  lemma {:induction false} Frame(mem: Mem, tab: Tabs, mem': Mem, tab': Tabs, k: nat, lo: nat, key: Key)
    requires Readable(mem, tab) && Readable(mem', tab') && AgreeOff(mem, tab, mem', tab', k, lo)
    requires key in tab && Apart(key, k, lo)
    ensures key in tab' && TreeAt(mem', tab', key) == TreeAt(mem, tab, key)
    decreases key.k
  {
    forall i | 0 <= i < FANOUT
      ensures EntryAt(mem', tab', key, i) == EntryAt(mem, tab, key, i)
    {
      assert SlotOk(mem, tab, key, i);
      if IsPtr(mem[tab[key]][i], key.k) {
        ChildSpan(key, i);
        Frame(mem, tab, mem', tab', k, lo, Child(key, i));
      }
    }
  }

  /** The other slots of a table on the way do not meet the walked-to span. */
  lemma SiblingApart(page: nat, m: nat, k: nat, i: nat)
    requires 0 < m && k <= m && i < FANOUT && i != Index(page, m)
    ensures Apart(Child(Way(page, m), i), k, Base(page, k))
  {
    Digit(page, m);
    BaseInside(page, m, k);
    MulGap(i, Index(page, m), Span(m));
  }

  lemma MulGap(i: nat, j: nat, d: nat)
    requires i != j
    ensures i * d + d <= j * d || j * d + d <= i * d
  {
    if i < j { MulLe(i + 1, j, d); } else { MulLe(j + 1, i, d); }
  }

  lemma {:induction false} BaseInside(page: nat, m: nat, k: nat)
    requires k <= m
    ensures Base(page, m) <= Base(page, k) && Base(page, k) + Span(k) <= Base(page, m) + Span(m)
    decreases m
  {
    if k < m {
      BaseInside(page, m - 1, k);
      Digit(page, m - 1);
      MulLe(Index(page, m - 1), FANOUT - 1, Span(m - 1));
    }
  }

  /** The tables on the walk to `page` above height `k` are the same frames. */
  ghost predicate SameAbove(mem: Mem, tab: Tabs, mem': Mem, tab': Tabs, page: nat, k: nat)
    requires Readable(mem, tab) && Readable(mem', tab')
  {
    forall m :: k < m <= 3 ==>
      Way(page, m) in tab && Way(page, m) in tab' && mem'[tab'[Way(page, m)]] == mem[tab[Way(page, m)]]
  }

  /** All entries above where `w` leads are tables. */
  ghost predicate PathOpen(e: Entry, h: nat, w: Path)
    requires Wf(e, h) && Fits(w, h)
    decreases h
  {
    w.Here? || (e.Table? && PathOpen(e.slots[w.i], h - 1, w.rest))
  }

  /** Writing one slot of the table on the way to `page`, with anything below
      that slot, is an install at that slot's height. */
  lemma {:induction false} WriteTree(mem: Mem, tab: Tabs, mem': Mem, tab': Tabs, page: nat, k: nat, m: nat, e: Pte)
    requires Readable(mem, tab) && Readable(mem', tab') && k <= m <= 3
    requires AgreeOff(mem, tab, mem', tab', k, Base(page, k)) && SameAbove(mem, tab, mem', tab', page, k)
    requires Way(page, k) in tab && Way(page, k) in tab' && Index(page, k) < FANOUT
    requires mem'[tab'[Way(page, k)]] == mem[tab[Way(page, k)]][Index(page, k) := e]
    requires k < m ==> IsPtr(mem[tab[Way(page, m)]][Index(page, m)], m)
    requires forall n :: k < n < m ==> IsPtr(mem[tab[Way(page, n)]][Index(page, n)], n)
    ensures Way(page, m) in tab && Way(page, m) in tab'
    ensures Wf(TreeAt(mem, tab, Way(page, m)), m + 1)
    ensures page % Span(m + 1) < Span(m + 1) && Fits(At(page % Span(m + 1), m + 1, k), m + 1)
    ensures PathOpen(TreeAt(mem, tab, Way(page, m)), m + 1, At(page % Span(m + 1), m + 1, k))
    ensures TreeAt(mem', tab', Way(page, m))
         == Install(TreeAt(mem, tab, Way(page, m)), m + 1, At(page % Span(m + 1), m + 1, k),
                    EntryAt(mem', tab', Way(page, k), Index(page, k)))
    decreases m
  {
    var key, i := Way(page, m), Index(page, m);
    Digit(page, m);
    TreeWf(mem, tab, key);
    AtFits(page % Span(m + 1), m + 1, k);
    forall s | 0 <= s < FANOUT && s != i
      ensures EntryAt(mem', tab', key, s) == EntryAt(mem, tab, key, s)
    {
      assert SlotOk(mem, tab, key, s);
      if IsPtr(mem[tab[key]][s], m) {
        SiblingApart(page, m, k, s);
        Frame(mem, tab, mem', tab', k, Base(page, k), Child(key, s));
      }
    }
    if m > k {
      WayChild(page, m);
      assert SlotOk(mem, tab, key, i) && SlotOk(mem', tab', key, i);
      WriteTree(mem, tab, mem', tab', page, k, m - 1, e);
      assert EntryAt(mem, tab, key, i) == TreeAt(mem, tab, Way(page, m - 1));
    }
    var x := EntryAt(mem', tab', Way(page, k), Index(page, k));
    var t := TreeAt(mem, tab, key);
    assert TreeAt(mem', tab', key).slots == t.slots[i := TreeAt(mem', tab', key).slots[i]];
  }

  // -------------------------------------------------------------------------
  // Keys
  // -------------------------------------------------------------------------

  lemma BaseBase(page: nat, h: nat, j: nat)
    requires j <= h
    ensures Base(Base(page, j), h) == Base(page, h)
  {
    BaseInside(page, h, j);
    BaseAligned(page, h);
    BaseOf(Base(page, j), Base(page, h), h);
  }

  lemma BaseOf(page: nat, lo: nat, k: nat)
    requires lo % Span(k) == 0 && lo <= page < lo + Span(k)
    ensures Base(page, k) == lo
  {
    DivUnique(page, lo / Span(k), page - lo, Span(k));
  }

  lemma ParentChild(key: Key, s: nat)
    requires key.k > 0 && key.lo % Span(key.k + 1) == 0 && s < FANOUT
    ensures Parent(Child(key, s)) == key
  {
    ChildSpan(key, s);
    BaseOf(Child(key, s).lo, key.lo, key.k + 1);
  }

  lemma ChildInjective(key: Key, s: nat, t: nat)
    requires s != t
    ensures Child(key, s) != Child(key, t)
  {
    MulGap(s, t, Span(key.k));
  }

  lemma ParentWay(page: nat, k: nat)
    ensures Parent(Way(page, k)) == Way(page, k + 1)
  {
    BaseBase(page, k + 2, k + 1);
  }

  /** Every table on the walk to a table's first page exists. */
  lemma {:induction false} Ancestor(mem: Mem, tab: Tabs, at: Spots, root: nat, key: Key, m: nat)
    requires WfMem(mem, tab, at, root) && key in tab && key.k <= m <= 3
    ensures Way(key.lo, m) in tab
    decreases m
  {
    assert KeyOk(mem, tab, at, key);
    if m == key.k {
      assert Way(key.lo, m) == key;
    } else {
      Ancestor(mem, tab, at, root, key, m - 1);
      assert KeyOk(mem, tab, at, Way(key.lo, m - 1));
      ParentWay(key.lo, m - 1);
    }
  }

  lemma WayUp(mem: Mem, tab: Tabs, at: Spots, root: nat, page: nat, k: nat, m: nat)
    requires WfMem(mem, tab, at, root) && Way(page, k) in tab && k <= m <= 3
    ensures Way(page, m) in tab
    ensures k < m ==> Index(page, m) < FANOUT && IsPtr(mem[tab[Way(page, m)]][Index(page, m)], m)
  {
    Ancestor(mem, tab, at, root, Way(page, k), m);
    BaseBase(page, m + 1, k + 1);
    if k < m {
      Ancestor(mem, tab, at, root, Way(page, k), m - 1);
      BaseBase(page, m, k + 1);
      WayChild(page, m);
      assert SlotsOk(mem, tab, Way(page, m)) && KeyOk(mem, tab, at, Way(page, m));
      assert SlotOk(mem, tab, Way(page, m), Index(page, m));
    }
  }

  /** `key` lies strictly below the height-`k` slot whose first page is `lo`. */
  predicate Inside(key: Key, k: nat, lo: nat) {
    key.k < k && Base(key.lo, k) == lo
  }

  /** Nothing lies below a slot that holds no table pointer. */
  lemma NoInside(mem: Mem, tab: Tabs, at: Spots, root: nat, page: nat, k: nat, key: Key)
    requires WfMem(mem, tab, at, root) && Way(page, k) in tab && k <= 3 && Index(page, k) < FANOUT
    requires !IsPtr(mem[tab[Way(page, k)]][Index(page, k)], k)
    requires key in tab
    ensures !Inside(key, k, Base(page, k))
  {
    assert SlotsOk(mem, tab, Way(page, k));
    assert SlotOk(mem, tab, Way(page, k), Index(page, k));
    if k > 0 { WayChild(page, k); }
    if Inside(key, k, Base(page, k)) { Ancestor(mem, tab, at, root, key, k - 1); }
  }

  /** What lies below a slot is its child table and what lies below that one's slots. */
  lemma InsideSplit(mem: Mem, tab: Tabs, at: Spots, root: nat, page: nat, k: nat, key: Key)
    requires WfMem(mem, tab, at, root) && Way(page, k) in tab && 0 < k <= 3
    requires key in tab && Inside(key, k, Base(page, k))
    ensures Way(page, k - 1) in tab
    ensures key != Way(page, k - 1) ==>
              k > 1 && Way(key.lo, k - 2) in tab && Way(key.lo, k - 1) == Way(page, k - 1)
  {
    Ancestor(mem, tab, at, root, key, k - 1);
    assert KeyOk(mem, tab, at, key);
    if key != Way(page, k - 1) { Ancestor(mem, tab, at, root, key, k - 2); }
  }

  // -------------------------------------------------------------------------
  // Hanging a new table below a slot
  // -------------------------------------------------------------------------

  /** An entry with no table below it, valid at height `k`. */
  predicate Plain(e: Pte, k: nat) {
    !IsPtr(e, k) && (e.p ==> k <= 2 && e.addr % Span(k) == 0 && e.ps == (k > 0))
  }

  function Meaning(e: Pte): (x: Entry) {
    if e.p then Leaf(e.addr, e.bits) else Absent
  }

  ghost predicate CanGrow(mem: Mem, tab: Tabs, at: Spots, root: nat, page: nat, k: nat, child: nat, body: seq<Pte>)
  {
    && WfMem(mem, tab, at, root) && 0 < k <= 3 && page < Span(4) && Way(page, k) in tab
    && Index(page, k) < FANOUT && !IsPtr(mem[tab[Way(page, k)]][Index(page, k)], k)
    && child !in mem && |body| == FANOUT && forall i :: 0 <= i < FANOUT ==> Plain(body[i], k - 1)
  }

  function GrowMem(mem: Mem, table: nat, i: nat, child: nat, body: seq<Pte>): (m: Mem)
    requires table in mem && i < |mem[table]|
  {
    mem[child := body][table := mem[table][i := Pointer(child)]]
  }

  lemma GrowKeys(mem: Mem, tab: Tabs, at: Spots, root: nat, page: nat, k: nat, child: nat, body: seq<Pte>)
    requires CanGrow(mem, tab, at, root, page, k, child, body)
    ensures var mem' := GrowMem(mem, tab[Way(page, k)], Index(page, k), child, body);
            var tab', at' := tab[Way(page, k - 1) := child], at[child := Way(page, k - 1)];
            && Way(page, k - 1) !in tab
            && (forall key :: key in tab' ==> KeyOk(mem', tab', at', key))
            && (forall f :: f in mem' ==> f in at')
            && (forall f :: f in at' ==> f in mem' && at'[f] in tab' && tab'[at'[f]] == f)
  {
    var mem' := GrowMem(mem, tab[Way(page, k)], Index(page, k), child, body);
    var tab', at' := tab[Way(page, k - 1) := child], at[child := Way(page, k - 1)];
    WayChild(page, k);
    assert SlotsOk(mem, tab, Way(page, k));
    assert SlotOk(mem, tab, Way(page, k), Index(page, k));
    forall key | key in tab'
      ensures KeyOk(mem', tab', at', key)
    {
      if key == Way(page, k - 1) {
        BaseAligned(page, k);
        BaseInside(page, 4, k);
        DivUnique(page, 0, page, Span(4));
        ParentWay(page, k - 1);
      } else {
        assert KeyOk(mem, tab, at, key);
      }
    }
  }

  lemma GrowSlots(mem: Mem, tab: Tabs, at: Spots, root: nat, page: nat, k: nat, child: nat, body: seq<Pte>, key: Key,
                  s: nat)
    requires CanGrow(mem, tab, at, root, page, k, child, body) && Way(page, k - 1) !in tab
    requires s < FANOUT
    requires key in tab || key == Way(page, k - 1)
    ensures var mem' := GrowMem(mem, tab[Way(page, k)], Index(page, k), child, body);
            var tab' := tab[Way(page, k - 1) := child];
            && tab'[key] in mem' && |mem'[tab'[key]]| == FANOUT && SlotOk(mem', tab', key, s)
  {
    WayChild(page, k);
    if key == Way(page, k - 1) {
      if key.k > 0 {
        BaseAligned(page, k);
        ParentChild(key, s);
        assert Child(key, s) in tab ==> KeyOk(mem, tab, at, Child(key, s));
      }
    } else {
      assert KeyOk(mem, tab, at, key) && SlotsOk(mem, tab, key);
      assert SlotOk(mem, tab, key, s);
      if key.k > 0 && Child(key, s) == Way(page, k - 1) {
        ParentChild(key, s);
        ParentWay(page, k - 1);
        if s != Index(page, k) { ChildInjective(key, s, Index(page, k)); }
      }
    }
  }

  /** The new table is in place, and the tree is an install of that table. */
  lemma Grow(mem: Mem, tab: Tabs, at: Spots, root: nat, page: nat, k: nat, child: nat, body: seq<Pte>)
    requires CanGrow(mem, tab, at, root, page, k, child, body)
    ensures var mem' := GrowMem(mem, tab[Way(page, k)], Index(page, k), child, body);
            var tab', at' := tab[Way(page, k - 1) := child], at[child := Way(page, k - 1)];
            WfMem(mem', tab', at', root)
  {
    GrowKeys(mem, tab, at, root, page, k, child, body);
    var mem' := GrowMem(mem, tab[Way(page, k)], Index(page, k), child, body);
    var tab', at' := tab[Way(page, k - 1) := child], at[child := Way(page, k - 1)];
    forall key | key in tab'
      ensures SlotsOk(mem', tab', key)
    {
      assert KeyOk(mem', tab', at', key);
      forall s | 0 <= s < |mem'[tab'[key]]| ensures SlotOk(mem', tab', key, s) {
        GrowSlots(mem, tab, at, root, page, k, child, body, key, s);
      }
    }
  }

  // -------------------------------------------------------------------------
  // The tree of a whole memory
  // -------------------------------------------------------------------------

  ghost function Tree(mem: Mem, tab: Tabs, at: Spots, root: nat): (t: Entry)
    requires WfMem(mem, tab, at, root)
    ensures IsRoot(t)
  {
    WfReadable(mem, tab, at, root);
    TreeWf(mem, tab, Key(3, 0));
    TreeAt(mem, tab, Key(3, 0))
  }

  lemma WfReadable(mem: Mem, tab: Tabs, at: Spots, root: nat)
    requires WfMem(mem, tab, at, root)
    ensures Readable(mem, tab)
  {
    forall key | key in tab
      ensures tab[key] in mem && |mem[tab[key]]| == FANOUT
    {
      assert KeyOk(mem, tab, at, key);
    }
  }

  lemma RootWay(page: nat)
    requires page < Span(4)
    ensures Way(page, 3) == Key(3, 0) && page % Span(4) == page
  {
    DivUnique(page, 0, page, Span(4));
  }

  /** One slot was rewritten on the way to `page`; other tables are as before. */
  ghost predicate Rewrites(mem: Mem, tab: Tabs, at: Spots, mem': Mem, tab': Tabs, at': Spots, root: nat,
                           page: nat, k: nat, e: Pte)
  {
    && WfMem(mem, tab, at, root) && WfMem(mem', tab', at', root)
    && k <= 3 && page < Span(4) && Way(page, k) in tab && Way(page, k) in tab' && Index(page, k) < FANOUT
    && mem'[tab'[Way(page, k)]] == mem[tab[Way(page, k)]][Index(page, k) := e]
    && (forall key :: key in tab && key != Way(page, k) && !Inside(key, k, Base(page, k)) ==>
          key in tab' && tab'[key] == tab[key] && tab'[key] in mem' && mem'[tab[key]] == mem[tab[key]])
  }

  lemma ApartNotInside(key: Key, k: nat, lo: nat)
    requires Apart(key, k, lo)
    ensures !Inside(key, k, lo) && key != Key(k, Base(lo, k + 1))
  {
    var b := Base(lo, k + 1);
    assert lo < b + Span(k + 1);
  }

  lemma RewriteTree(mem: Mem, tab: Tabs, at: Spots, mem': Mem, tab': Tabs, at': Spots, root: nat,
                    page: nat, k: nat, e: Pte)
    requires Rewrites(mem, tab, at, mem', tab', at', root, page, k, e)
    ensures Readable(mem', tab') && Fits(At(page, 4, k), 4)
    ensures PathOpen(Tree(mem, tab, at, root), 4, At(page, 4, k))
    ensures Tree(mem', tab', at', root)
         == Install(Tree(mem, tab, at, root), 4, At(page, 4, k), EntryAt(mem', tab', Way(page, k), Index(page, k)))
  {
    WfReadable(mem, tab, at, root);
    WfReadable(mem', tab', at', root);
    RootWay(page);
    forall key | key in tab && Apart(key, k, Base(page, k))
      ensures key in tab' && mem'[tab'[key]] == mem[tab[key]]
    {
      ApartNotInside(key, k, Base(page, k));
      BaseBase(page, k + 1, k);
    }
    forall m | k < m <= 3
      ensures Way(page, m) in tab && IsPtr(mem[tab[Way(page, m)]][Index(page, m)], m)
      ensures Way(page, m) in tab' && mem'[tab'[Way(page, m)]] == mem[tab[Way(page, m)]]
    {
      WayUp(mem, tab, at, root, page, k, m);
      assert Way(page, m).k > k;
    }
    WriteTree(mem, tab, mem', tab', page, k, 3, e);
  }

  lemma GrowTree(mem: Mem, tab: Tabs, at: Spots, root: nat, page: nat, k: nat, child: nat, body: seq<Pte>,
                 slots: seq<Entry>)
    requires CanGrow(mem, tab, at, root, page, k, child, body) && Way(page, k - 1) !in tab
    requires |slots| == FANOUT && forall i :: 0 <= i < FANOUT ==> slots[i] == Meaning(body[i])
    requires WfMem(GrowMem(mem, tab[Way(page, k)], Index(page, k), child, body),
                   tab[Way(page, k - 1) := child], at[child := Way(page, k - 1)], root)
    ensures Fits(At(page, 4, k), 4) && PathOpen(Tree(mem, tab, at, root), 4, At(page, 4, k))
    ensures Tree(GrowMem(mem, tab[Way(page, k)], Index(page, k), child, body),
                 tab[Way(page, k - 1) := child], at[child := Way(page, k - 1)], root)
         == Install(Tree(mem, tab, at, root), 4, At(page, 4, k), Table(slots))
  {
    var mem' := GrowMem(mem, tab[Way(page, k)], Index(page, k), child, body);
    var tab', at' := tab[Way(page, k - 1) := child], at[child := Way(page, k - 1)];
    forall key | key in tab && key != Way(page, k)
      ensures tab[key] in mem && tab[key] != tab[Way(page, k)] && tab[key] != child
    {
      assert KeyOk(mem, tab, at, key) && KeyOk(mem, tab, at, Way(page, k));
    }
    RewriteTree(mem, tab, at, mem', tab', at', root, page, k, Pointer(child));
    WayChild(page, k);
    var e := TreeAt(mem', tab', Way(page, k - 1));
    forall i | 0 <= i < FANOUT ensures e.slots[i] == slots[i] {
      assert Plain(body[i], k - 1);
      assert e.slots[i] == EntryAt(mem', tab', Way(page, k - 1), i);
    }
    assert e == Table(slots);
  }

  // -------------------------------------------------------------------------
  // Writing a plain entry over a slot and dropping what was below it
  // -------------------------------------------------------------------------

  /** The frames of the tables below a slot. */
  ghost function Freed(at: Spots, k: nat, lo: nat): (fs: set<nat>) {
    set f | f in at && Inside(at[f], k, lo)
  }

  ghost function PutMem(mem: Mem, at: Spots, k: nat, lo: nat, table: nat, i: nat, e: Pte): (m: Mem)
    requires table in mem && i < |mem[table]|
  {
    (mem - Freed(at, k, lo))[table := mem[table][i := e]]
  }

  ghost function PutTab(tab: Tabs, k: nat, lo: nat): (t: Tabs) {
    map key | key in tab && !Inside(key, k, lo) :: tab[key]
  }

  ghost predicate CanPut(mem: Mem, tab: Tabs, at: Spots, root: nat, page: nat, k: nat, e: Pte) {
    && WfMem(mem, tab, at, root) && k <= 3 && page < Span(4) && Way(page, k) in tab
    && Index(page, k) < FANOUT && Plain(e, k)
  }

  lemma PutKeys(mem: Mem, tab: Tabs, at: Spots, root: nat, page: nat, k: nat, e: Pte)
    requires CanPut(mem, tab, at, root, page, k, e)
    ensures var lo := Base(page, k);
            var mem' := PutMem(mem, at, k, lo, tab[Way(page, k)], Index(page, k), e);
            var tab', at' := PutTab(tab, k, lo), at - Freed(at, k, lo);
            && Key(3, 0) in tab' && Way(page, k) in tab'
            && (forall key :: key in tab' ==> KeyOk(mem', tab', at', key))
            && (forall f :: f in mem' ==> f in at')
            && (forall f :: f in at' ==> f in mem' && at'[f] in tab' && tab'[at'[f]] == f)
  {
    var lo := Base(page, k);
    var mem' := PutMem(mem, at, k, lo, tab[Way(page, k)], Index(page, k), e);
    var tab', at' := PutTab(tab, k, lo), at - Freed(at, k, lo);
    assert KeyOk(mem, tab, at, Way(page, k));
    forall key | key in tab'
      ensures KeyOk(mem', tab', at', key)
    {
      assert KeyOk(mem, tab, at, key);
      if key.k < 3 && Inside(Parent(key), k, lo) { BaseBase(key.lo, k, key.k + 2); }
    }
  }

  lemma PutSlots(mem: Mem, tab: Tabs, at: Spots, root: nat, page: nat, k: nat, e: Pte, key: Key, s: nat)
    requires CanPut(mem, tab, at, root, page, k, e) && s < FANOUT
    requires key in tab && !Inside(key, k, Base(page, k))
    ensures var lo := Base(page, k);
            var mem' := PutMem(mem, at, k, lo, tab[Way(page, k)], Index(page, k), e);
            var tab' := PutTab(tab, k, lo);
            && tab'[key] in mem' && |mem'[tab'[key]]| == FANOUT && SlotOk(mem', tab', key, s)
  {
    var lo := Base(page, k);
    assert KeyOk(mem, tab, at, Way(page, k));
    assert KeyOk(mem, tab, at, key) && SlotsOk(mem, tab, key);
    assert SlotOk(mem, tab, key, s);
    if k > 0 { WayChild(page, k); }
    if key == Way(page, k) && s == Index(page, k) {
      if k > 0 { BaseBase(page, k, k); }
    } else if key.k > 0 {
      NotBelow(key, s, page, k);
    }
  }

  /** A table that is not below a slot has, apart from that slot, no entry that leads below it. */
  lemma NotBelow(key: Key, s: nat, page: nat, k: nat)
    requires key.k > 0 && key.lo % Span(key.k + 1) == 0 && s < FANOUT && Index(page, k) < FANOUT
    requires !Inside(key, k, Base(page, k)) && !(key == Way(page, k) && s == Index(page, k))
    ensures !Inside(Child(key, s), k, Base(page, k))
  {
    if Inside(Child(key, s), k, Base(page, k)) {
      if k > 0 { WayChild(page, k); }
      ParentChild(key, s);
      if key.k < k {
        BaseBase(Child(key, s).lo, k, key.k + 1);
      } else {
        BaseBase(Child(key, s).lo, k + 1, k);
        BaseBase(page, k + 1, k);
        SlotAligned(key, s);
        if s != Index(page, k) { ChildInjective(key, s, Index(page, k)); }
      }
      assert false;
    }
  }

  lemma SlotAligned(key: Key, s: nat)
    requires key.lo % Span(key.k + 1) == 0
    ensures (key.lo + s * Span(key.k)) % Span(key.k) == 0
  {
    SpanAligned(key.lo, s, key.k + 1);
  }

  lemma Put(mem: Mem, tab: Tabs, at: Spots, root: nat, page: nat, k: nat, e: Pte)
    requires CanPut(mem, tab, at, root, page, k, e)
    ensures var lo := Base(page, k);
            var mem' := PutMem(mem, at, k, lo, tab[Way(page, k)], Index(page, k), e);
            var tab', at' := PutTab(tab, k, lo), at - Freed(at, k, lo);
            && Rewrites(mem, tab, at, mem', tab', at', root, page, k, e)
            && Fits(At(page, 4, k), 4) && PathOpen(Tree(mem, tab, at, root), 4, At(page, 4, k))
            && Tree(mem', tab', at', root) == Install(Tree(mem, tab, at, root), 4, At(page, 4, k), Meaning(e))
  {
    var lo := Base(page, k);
    var mem' := PutMem(mem, at, k, lo, tab[Way(page, k)], Index(page, k), e);
    var tab', at' := PutTab(tab, k, lo), at - Freed(at, k, lo);
    PutKeys(mem, tab, at, root, page, k, e);
    forall key | key in tab'
      ensures SlotsOk(mem', tab', key)
    {
      assert KeyOk(mem', tab', at', key);
      forall s | 0 <= s < |mem'[tab'[key]]| ensures SlotOk(mem', tab', key, s) {
        PutSlots(mem, tab, at, root, page, k, e, key, s);
      }
    }
    assert WfMem(mem', tab', at', root);
    forall key | key in tab && key != Way(page, k) && !Inside(key, k, lo)
      ensures tab[key] in mem' && mem'[tab[key]] == mem[tab[key]]
    {
      assert KeyOk(mem, tab, at, key) && KeyOk(mem, tab, at, Way(page, k));
    }
    RewriteTree(mem, tab, at, mem', tab', at', root, page, k, e);
  }
}
