/** The four-level x86-64 page tree as a value, and the meaning of one.

    A page is named by the digits a hardware walk takes: 512 slots per table,
    most significant digit first.  An entry of height `h` is an entry of a
    level `h + 1` table: 0 is a PT entry, 3 a PML4 entry, and the PML4 itself
    is the `Table` of the height-4 root.  It covers `Span(h)` pages.

    `Install`, `MergePath` and `Flag` say what install_leaf, try_merge_path and
    as_flag do to the tree; module PageFrames proves that the in-place code
    over page-table frames does exactly this.  */
module PageTree {
  import opened Arith
  import opened Seqs


  const FANOUT: nat := 512

  /** Flag bits of a leaf, excluding P, PS and the address field. */
  datatype Bits = Bits(rw: bool, us: bool, nx: bool, pwt: bool, pcd: bool)

  /** What one page-table entry stands for; `frame` is the physical page. */
  datatype Entry = Absent | Leaf(frame: nat, bits: Bits) | Table(slots: seq<Entry>)

  /** The slots taken from an entry downwards. */
  datatype Path = Here | Slot(i: nat, rest: Path)

  /** What a hardware walk finds for a page: frame, flags, and leaf height. */
  datatype View = View(frame: nat, bits: Bits, height: nat)

  /** What software relies on: the view without the leaf size. */
  datatype Mapping = Mapping(frame: nat, bits: Bits)

  function Span(h: nat): (n: nat)
    ensures n > 0
  {
    if h == 0 then 1 else FANOUT * Span(h - 1)
  }

  /** `w` leads from a height-`h` entry to some entry at or below it. */
  predicate Fits(w: Path, h: nat): (b: bool)
    ensures b ==> Len(w) <= h
  {
    match w
    case Here => true
    case Slot(i, r) => h > 0 && i < FANOUT && Fits(r, h - 1)
  }

  function Len(w: Path): nat {
    if w.Here? then 0 else 1 + Len(w.rest)
  }

  /** `q` names one page below a height-`h` entry. */
  predicate IsPage(q: Path, h: nat) {
    Fits(q, h) && Len(q) == h
  }

  /** Offset of page `q` from the first page of its height-`h` entry. */
  function Val(q: Path, h: nat): nat
    requires IsPage(q, h)
  {
    if q.Here? then 0 else q.i * Span(h - 1) + Val(q.rest, h - 1)
  }

  /** Whether page `q` lies below the entry that `w` leads to. */
  predicate Under(w: Path, q: Path) {
    w.Here? || (q.Slot? && q.i == w.i && Under(w.rest, q.rest))
  }

  function Below(w: Path, q: Path): Path
    requires Under(w, q)
  {
    if w.Here? then q else Below(w.rest, q.rest)
  }

  lemma BelowIsPage(w: Path, q: Path, h: nat)
    requires Fits(w, h) && IsPage(q, h) && Under(w, q)
    ensures IsPage(Below(w, q), h - Len(w))
  {
    if w.Slot? { BelowIsPage(w.rest, q.rest, h - 1); }
  }

  ghost predicate Wf(e: Entry, h: nat) {
    match e
    case Absent => true
    case Leaf(f, _) => h <= 2 && f % Span(h) == 0
    case Table(s) => h > 0 && |s| == FANOUT && forall i :: 0 <= i < FANOUT ==> Wf(s[i], h - 1)
  }

  // -------------------------------------------------------------------------
  // Meaning
  // -------------------------------------------------------------------------

  /** The hardware walk (paging.c: walk), with the leaf's size and offset. */
  ghost function Look(e: Entry, h: nat, q: Path): (v: Option<View>)
    requires Wf(e, h) && IsPage(q, h)
    decreases h
  {
    match e
    case Absent => None
    case Leaf(f, b) => Some(View(f + Val(q, h), b, h))
    case Table(s) => Look(s[q.i], h - 1, q.rest)
  }

  ghost function Forget(v: Option<View>): (m: Option<Mapping>) {
    if v.None? then None else Some(Mapping(v.value.frame, v.value.bits))
  }

  /** The flat page-to-mapping function an entry stands for. */
  ghost function Trans(e: Entry, h: nat, q: Path): (m: Option<Mapping>)
    requires Wf(e, h) && IsPage(q, h)
  {
    Forget(Look(e, h, q))
  }

  // -------------------------------------------------------------------------
  // Split (paging.c: split_huge) and install (paging.c: install_leaf)
  // -------------------------------------------------------------------------

  function Blank(): (s: seq<Entry>)
    ensures |s| == FANOUT && forall i :: 0 <= i < FANOUT ==> s[i] == Absent
  {
    seq(FANOUT, i => Absent)
  }

  function Split(f: nat, b: Bits, h: nat): (s: seq<Entry>)
    requires h > 0
    ensures |s| == FANOUT
    ensures forall i :: 0 <= i < FANOUT ==> s[i] == Leaf(f + i * Span(h - 1), b)
  {
    seq(FANOUT, i requires 0 <= i < FANOUT => Leaf(f + i * Span(h - 1), b))
  }

  /** Multiples of a span stay multiples of every smaller span. */
  lemma SpanAligned(f: nat, i: nat, h: nat)
    requires h > 0 && f % Span(h) == 0
    ensures (f + i * Span(h - 1)) % Span(h - 1) == 0
  {
    var d := Span(h - 1);
    var k := f / Span(h);
    assert f == k * (FANOUT * d);
    assert f + i * d == (k * FANOUT + i) * d;
    DivUnique(f + i * d, k * FANOUT + i, 0, d);
  }

  /** The slots that replace `e` when a walk has to go below it. */
  function Open(e: Entry, h: nat): (s: seq<Entry>)
    requires h > 0 && Wf(e, h)
    ensures |s| == FANOUT
  {
    match e
    case Absent => Blank()
    case Leaf(f, b) => Split(f, b, h)
    case Table(s) => s
  }

  lemma OpenWf(e: Entry, h: nat)
    requires h > 0 && Wf(e, h)
    ensures Wf(Table(Open(e, h)), h)
  {
    if e.Leaf? {
      forall i | 0 <= i < FANOUT ensures Wf(Open(e, h)[i], h - 1) { SpanAligned(e.frame, i, h); }
    }
  }

  /** Splitting an entry, or giving an absent one an empty table, preserves the
      translation of every page; only a split changes a leaf size. */
  lemma OpenLook(e: Entry, h: nat, q: Path)
    requires h > 0 && Wf(e, h) && IsPage(q, h)
    ensures Wf(Table(Open(e, h)), h)
    ensures !e.Leaf? ==> Look(Table(Open(e, h)), h, q) == Look(e, h, q)
    ensures Trans(Table(Open(e, h)), h, q) == Trans(e, h, q)
  {
    OpenWf(e, h);
    if e.Leaf? {
      var c := Open(e, h)[q.i];
      assert Look(Table(Open(e, h)), h, q) == Look(c, h - 1, q.rest);
      assert Val(q, h) == q.i * Span(h - 1) + Val(q.rest, h - 1);
      assert Look(c, h - 1, q.rest) == Some(View(e.frame + Val(q, h), e.bits, h - 1));
    }
  }

  /** Puts `x` where `w` leads, below the height-`h` entry `e`. */
  function Install(e: Entry, h: nat, w: Path, x: Entry): (r: Entry)
    requires Wf(e, h) && Fits(w, h)
    decreases h
  {
    if w.Here? then x
    else if e.Absent? && x.Absent? then Absent
    else
      OpenWf(e, h);
      var s := Open(e, h);
      Table(s[w.i := Install(s[w.i], h - 1, w.rest, x)])
  }

  lemma InstallWf(e: Entry, h: nat, w: Path, x: Entry)
    requires Wf(e, h) && Fits(w, h) && Wf(x, h - Len(w))
    ensures Wf(Install(e, h, w, x), h)
    decreases h
  {
    if w.Slot? {
      OpenWf(e, h);
      InstallWf(Open(e, h)[w.i], h - 1, w.rest, x);
    }
  }

  /** An install changes the translation below `w` and nowhere else. */
  lemma {:induction false} InstallTrans(e: Entry, h: nat, w: Path, x: Entry, q: Path)
    requires Wf(e, h) && Fits(w, h) && Wf(x, h - Len(w)) && IsPage(q, h)
    ensures Wf(Install(e, h, w, x), h)
    ensures Under(w, q) ==> IsPage(Below(w, q), h - Len(w))
    ensures Trans(Install(e, h, w, x), h, q)
         == if Under(w, q) then Trans(x, h - Len(w), Below(w, q)) else Trans(e, h, q)
    decreases h
  {
    InstallWf(e, h, w, x);
    if w.Slot? && !(e.Absent? && x.Absent?) {
      OpenLook(e, h, q);
      if q.i == w.i {
        InstallTrans(Open(e, h)[w.i], h - 1, w.rest, x, q.rest);
      }
    } else if Under(w, q) {
      BelowIsPage(w, q, h);
    }
  }

  /** The path down to the huge leaf an install at `w` has to split, else `w`. */
  ghost function Touched(e: Entry, h: nat, w: Path): (d: Path)
    requires Wf(e, h) && Fits(w, h)
    ensures Fits(d, h)
    decreases h
  {
    if w.Here? then Here
    else match e
      case Absent => w
      case Leaf(_, _) => Here
      case Table(s) => Slot(w.i, Touched(s[w.i], h - 1, w.rest))
  }

  /** Outside the split leaf and the installed span not even leaf sizes change. */
  lemma {:induction false} InstallLook(e: Entry, h: nat, w: Path, x: Entry, q: Path)
    requires Wf(e, h) && Fits(w, h) && Wf(x, h - Len(w)) && IsPage(q, h)
    requires !Under(Touched(e, h, w), q)
    ensures Wf(Install(e, h, w, x), h)
    ensures Look(Install(e, h, w, x), h, q) == Look(e, h, q)
    decreases h
  {
    InstallWf(e, h, w, x);
    if !(e.Absent? && x.Absent?) {
      OpenLook(e, h, q);
      if q.i == w.i {
        var s := Open(e, h);
        if e.Absent? { TouchedAbsent(s[w.i], h - 1, w.rest); }
        InstallLook(s[w.i], h - 1, w.rest, x, q.rest);
      }
    }
  }

  lemma TouchedAbsent(e: Entry, h: nat, w: Path)
    requires e == Absent && Fits(w, h)
    ensures Touched(e, h, w) == w
  {
  }

  // -------------------------------------------------------------------------
  // Merge (paging.c: try_merge_child, try_merge_path)
  // -------------------------------------------------------------------------

  predicate AllAbsent(s: seq<Entry>) {
    forall i :: 0 <= i < |s| ==> s[i] == Absent
  }

  /** All leaves, same flags, contiguous, and aligned as one height-`h` leaf. */
  predicate Uniform(s: seq<Entry>, h: nat)
    requires h > 0
  {
    && |s| > 0 && s[0].Leaf? && s[0].frame % Span(h) == 0
    && forall i :: 0 <= i < |s| ==> s[i] == Leaf(s[0].frame + i * Span(h - 1), s[0].bits)
  }

  /** One merge attempt on the height-`h` entry `e`; PML4 entries (height 3)
      cannot become leaves. */
  function Collapse(e: Entry, h: nat): (r: Entry)
    requires 0 < h <= 3
  {
    if !e.Table? then e
    else if AllAbsent(e.slots) then Absent
    else if h <= 2 && Uniform(e.slots, h) then Leaf(e.slots[0].frame, e.slots[0].bits)
    else e
  }

  lemma CollapseLook(e: Entry, h: nat, q: Path)
    requires 0 < h <= 3 && Wf(e, h) && IsPage(q, h)
    ensures Wf(Collapse(e, h), h)
    ensures Trans(Collapse(e, h), h, q) == Trans(e, h, q)
  {
    var r := Collapse(e, h);
    if e.Table? && r.Leaf? {
      var c := e.slots[q.i];
      assert c == Leaf(r.frame + q.i * Span(h - 1), r.bits);
      assert Val(q, h) == q.i * Span(h - 1) + Val(q.rest, h - 1);
      assert Look(c, h - 1, q.rest) == Some(View(r.frame + Val(q, h), r.bits, h - 1));
    } else if e.Table? && r.Absent? {
      assert e.slots[q.i] == Absent;
      assert Look(e, h, q) == Look(e.slots[q.i], h - 1, q.rest);
    }
  }

  /** Merges upwards along the walk to page `q`; the root itself never merges. */
  function MergePath(e: Entry, h: nat, q: Path): (r: Entry)
    requires h <= 4 && Wf(e, h) && IsPage(q, h)
    decreases h
  {
    if !e.Table? then e
    else
      var t := Table(e.slots[q.i := MergePath(e.slots[q.i], h - 1, q.rest)]);
      if h == 4 then t else Collapse(t, h)
  }

  lemma {:induction false} MergeTrans(e: Entry, h: nat, q: Path, r: Path)
    requires h <= 4 && Wf(e, h) && IsPage(q, h) && IsPage(r, h)
    ensures Wf(MergePath(e, h, q), h)
    ensures Trans(MergePath(e, h, q), h, r) == Trans(e, h, r)
    decreases h
  {
    if e.Table? {
      var c := MergePath(e.slots[q.i], h - 1, q.rest);
      MergeTrans(e.slots[q.i], h - 1, q.rest, if r.i == q.i then r.rest else q.rest);
      var t := Table(e.slots[q.i := c]);
      assert Wf(t, h);
      assert Trans(t, h, r) == Trans(e, h, r);
      if h < 4 { CollapseLook(t, h, r); }
    }
  }

  /** The path down to the highest entry that the merge collapsed, else `q`. */
  ghost function Merged(e: Entry, h: nat, q: Path): (d: Path)
    requires h <= 4 && Wf(e, h) && IsPage(q, h)
    ensures Fits(d, h)
    decreases h
  {
    if !e.Table? then q
    else if !MergePath(e, h, q).Table? then Here
    else Slot(q.i, Merged(e.slots[q.i], h - 1, q.rest))
  }

  /** Outside the collapsed span a merge changes no leaf size. */
  lemma {:induction false} MergeLook(e: Entry, h: nat, q: Path, r: Path)
    requires h <= 4 && Wf(e, h) && IsPage(q, h) && IsPage(r, h)
    requires !Under(Merged(e, h, q), r)
    ensures Wf(MergePath(e, h, q), h)
    ensures Look(MergePath(e, h, q), h, r) == Look(e, h, r)
    decreases h
  {
    MergeTrans(e, h, q, r);
    if e.Table? {
      assert MergePath(e, h, q).Table?;
      if r.i == q.i { MergeLook(e.slots[q.i], h - 1, q.rest, r.rest); }
    }
  }
}
