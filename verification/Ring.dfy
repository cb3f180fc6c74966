/** Kernel rings: the kernel half of channel.c and the user half of kring.c over one
    shared block, with 32-bit indices that wrap.  Each method is one step of one
    side; the ghost fields count what the indices stand for. */
module Ring {
  import opened Arith
  import opened Seqs

  const WORD32: nat := 0x1_0000_0000
  const HDR_SIZE: nat := 64
  const ENTRY_SIZE: nat := 32
  const PAGE: nat := 4096
  const SQ_BATCH: nat := 1024
  const SQ_CHUNK: nat := 64

  datatype Sqe = Sqe(op: nat, a: nat, b: nat, c: nat)
  datatype Cqe = Cqe(kind: nat, a: nat, b: nat, status: nat)

  // -------------------------------------------------------------------------
  // Geometry
  // -------------------------------------------------------------------------

  /** KRING_NSLOTS: a 32-bit shift. */
  function NSlots(order: nat): (n: nat) {
    (32 * Pow2(order)) % WORD32
  }

  lemma Pow2Of27()
    ensures Pow2(27) == 0x800_0000
  {
    assert Pow2(9) == 512;
    Pow2Add(9, 9);
    Pow2Add(18, 9);
  }

  /** The shift wraps from order 27 on; below, slots divide the index space and everything fits the block. */
  lemma Geometry(order: nat)
    ensures order <= 26 <==> NSlots(order) != 0
    ensures order <= 26 ==> NSlots(order) == 32 * Pow2(order) && NSlots(order) * Pow2(27 - order) == WORD32
    ensures order <= 26 ==> HDR_SIZE + 2 * NSlots(order) * ENTRY_SIZE <= PAGE * Pow2(order)
  {
    Pow2Of27();
    if order <= 26 {
      var a, b := Pow2(order), Pow2(27 - order);
      Pow2Add(order, 27 - order);
      assert b == 2 * Pow2(26 - order);
      Halves(a, b);
    } else {
      Pow2Add(27, order - 27);
      DivUnique(32 * Pow2(order), Pow2(order - 27), 0, WORD32);
    }
  }

  lemma Halves(a: nat, b: nat)
    requires a * b == 0x800_0000 && b >= 2
    ensures (32 * a) % WORD32 == 32 * a && 32 * a * b == WORD32
  {
    assert 2 * a <= a * b;
    assert (32 * a) * b == 32 * (a * b);
  }

  // -------------------------------------------------------------------------
  // Wrapping indices
  // -------------------------------------------------------------------------

  /** The 32-bit word that stands for a count. */
  function Low(x: nat): (w: nat)
    ensures w < WORD32
  {
    x % WORD32
  }

  /** 32-bit subtraction. */
  function Sub(x: nat, y: nat): (w: nat)
    requires x < WORD32 && y < WORD32
  {
    (x - y) % WORD32
  }

  lemma SubExact(x: nat, y: nat)
    requires y <= x && x - y < WORD32
    ensures Sub(Low(x), Low(y)) == x - y
  {
    var q, r := x / WORD32, y / WORD32;
    assert x == WORD32 * q + Low(x) && y == WORD32 * r + Low(y);
  }

  lemma SameWord(x: nat, y: nat, n: nat)
    requires y <= x && x - y <= n < WORD32
    ensures Low(x) == Low(y) <==> x == y
    ensures Low(Low(x)) == Low(x) && Low(Low(y)) == Low(y) && Sub(Low(x), Low(y)) <= n
  {
    SubExact(x, y);
  }

  lemma Fewer(n: nat, k: nat)
    requires n > 0 && k >= 2 && n * k == WORD32
    ensures n < WORD32
  {
    assert n * 2 <= n * k;
  }

  lemma LowNext(x: nat)
    ensures Low(Low(x) + 1) == Low(x + 1)
  {
  }

  /** Slots are the same for a count and for its word, because they divide the index space. */
  lemma SlotOfLow(x: nat, n: nat, k: nat)
    requires n > 0 && WORD32 == n * k
    ensures Low(x) % n == x % n
  {
    var q, r := x / WORD32, x % WORD32;
    var s, t := r / n, r % n;
    assert x == q * WORD32 + r && r == s * n + t;
    assert q * WORD32 == (q * k) * n;
    assert x == (q * k + s) * n + t;
    DivUnique(x, q * k + s, t, n);
  }

  lemma SlotsDiffer(x: nat, y: nat, n: nat)
    requires n > 0 && x < y && y - x < n
    ensures x % n != y % n
  {
    DivMod(x, n);
    var q, r, d := x / n, x % n, y - x;
    if r + d < n {
      DivUnique(y, q, r + d, n);
    } else {
      assert y == (q + 1) * n + (r + d - n);
      DivUnique(y, q + 1, r + d - n, n);
    }
  }

  /** The words of a queue's two counts: their difference, the next slot and the next word. */
  lemma Window(hi: nat, lo: nat, n: nat, k: nat)
    requires lo <= hi && hi - lo <= n && (n > 0 ==> n * k == WORD32 && k >= 2)
    ensures Sub(Low(hi), Low(lo)) == hi - lo && Low(Low(hi) + 1) == Low(hi + 1) && (n > 0 ==> Low(hi) % n == hi % n)
  {
    if n > 0 {
      Fewer(n, k);
      SlotOfLow(hi, n, k);
    }
    SubExact(hi, lo);
    LowNext(hi);
  }

  /** cqe_consumed: the sign of the 32-bit difference. */
  predicate Passed(consumed: nat, index: nat)
    requires consumed < WORD32 && index < WORD32
  {
    0 < Sub(consumed, index) < 0x8000_0000
  }

  /** It is right exactly when the counts, one past the other, are less than 2^31 apart modulo 2^32. */
  lemma ConsumedExact(consumed: nat, index: nat)
    ensures (Passed(Low(consumed), Low(index)) <==> consumed > index) <==>
            if consumed > index then 0 < (consumed - index) % WORD32 < 0x8000_0000
              else (index - consumed) % WORD32 <= 0x8000_0000
  {
    var d := if consumed > index then (consumed - index) % WORD32 else (index - consumed) % WORD32;
    if consumed > index {
      SubMod(consumed, index);
    } else {
      SubMod(index, consumed);
      SubSwap(Low(index), Low(consumed));
    }
  }

  lemma Judged(consumed: nat, index: nat)
    requires index - consumed <= 0x8000_0000
    ensures index >= consumed ==> !Passed(Low(consumed), Low(index))
    ensures index < consumed ==> (Passed(Low(consumed), Low(index)) <==> 0 < (consumed - index) % WORD32 < 0x8000_0000)
  {
    ConsumedExact(consumed, index);
  }

  lemma SubMod(x: nat, y: nat)
    requires y <= x
    ensures Sub(Low(x), Low(y)) == (x - y) % WORD32
  {
    var q, r := x / WORD32, y / WORD32;
    assert x == WORD32 * q + Low(x) && y == WORD32 * r + Low(y);
    assert x - y == WORD32 * (q - r) + (Low(x) - Low(y));
  }

  lemma SubSwap(x: nat, y: nat)
    requires x < WORD32 && y < WORD32
    ensures Sub(y, x) == if x == y then 0 else WORD32 - Sub(x, y)
  {
  }

  // -------------------------------------------------------------------------
  // Completions among other posts
  // -------------------------------------------------------------------------

  /** What anybody else may do to the ring between two entries of a drain: events posted by
      interrupts and by the scheme's replay, and the user reading and acknowledging. */
  datatype Event = EvPost(e: Cqe) | EvRead | EvAck

  function Posts(es: seq<Event>): (n: nat) {
    if es == [] then 0 else Posts(es[..|es| - 1]) + if es[|es| - 1].EvPost? then 1 else 0
  }

  function AllPosts(noise: nat -> seq<Event>, n: nat): (m: nat) {
    if n == 0 then 0 else AllPosts(noise, n - 1) + Posts(noise(n - 1))
  }

  function Results(exec: Sqe -> Cqe, es: seq<Sqe>): (cs: seq<Cqe>)
    ensures |cs| == |es| && forall i :: 0 <= i < |es| ==> cs[i] == exec(es[i])
  {
    seq(|es|, i requires 0 <= i < |es| => exec(es[i]))
  }

  /** Every completion that arrived is that of its entry, and they arrived in the order of execution. */
  ghost predicate InOrder(origin: seq<Option<nat>>, posted: seq<Cqe>, results: seq<Cqe>) {
    && |origin| == |posted|
    && (forall i :: 0 <= i < |origin| && origin[i].Some? ==>
          origin[i].value < |results| && posted[i] == results[origin[i].value])
    && (forall i, j :: 0 <= i < j < |origin| && origin[i].Some? && origin[j].Some? ==>
          origin[i].value < origin[j].value)
  }

  /** Every executed entry's completion arrived or was dropped, and not both. */
  ghost predicate Accounted(origin: seq<Option<nat>>, lost: set<nat>, executed: nat) {
    && (forall k: nat :: k < executed ==> (k in lost <==> Some(k) !in origin))
    && (forall k: nat :: k in lost ==> k < executed)
  }

  lemma OrderPost(origin: seq<Option<nat>>, posted: seq<Cqe>, results: seq<Cqe>, e: Cqe)
    requires InOrder(origin, posted, results)
    ensures InOrder(origin + [None], posted + [e], results)
  {
  }

  lemma OrderComplete(origin: seq<Option<nat>>, posted: seq<Cqe>, results: seq<Cqe>, e: Cqe)
    requires InOrder(origin, posted, results)
    ensures InOrder(origin, posted, results + [e]) && InOrder(origin + [Some(|results|)], posted + [e], results + [e])
  {
  }

  lemma AccountPost(origin: seq<Option<nat>>, lost: set<nat>, executed: nat)
    requires Accounted(origin, lost, executed)
    ensures Accounted(origin + [None], lost, executed)
  {
    forall k: nat | k < executed ensures Some(k) in origin + [None] <==> Some(k) in origin { }
  }

  lemma AccountComplete(origin: seq<Option<nat>>, lost: set<nat>, executed: nat, arrived: bool)
    requires Accounted(origin, lost, executed) && forall i :: 0 <= i < |origin| && origin[i].Some? ==>
               origin[i].value < executed
    ensures Accounted(if arrived then origin + [Some(executed)] else origin, if arrived then lost
                      else lost + {executed}, executed + 1)
  {
    assert Some(executed) !in origin;
    if arrived {
      assert (origin + [Some(executed)])[|origin|] == Some(executed);
      forall k: nat | k < executed ensures Some(k) in origin + [Some(executed)] <==> Some(k) in origin { }
    }
  }

  // -------------------------------------------------------------------------
  // The ring
  // -------------------------------------------------------------------------

  class Channel {
    const nslots: nat
    ghost const wraps: nat        // nslots * wraps == 2^32
    // shared header
    var hdrCqCount: nat
    var hdrCqHead: nat
    var hdrSqHead: nat
    var hdrSqTail: nat
    // shared entries
    var sq: array<Sqe>
    var cq: array<Cqe>
    // kernel side
    var cqCount: nat
    var sqHead: nat
    // user library
    var userSqTail: nat
    var userCqHead: nat
    // what the indices count
    ghost var posted: seq<Cqe>
    ghost var read: nat
    ghost var acked: nat
    ghost var filled: seq<Sqe>
    ghost var published: nat
    ghost var executed: nat
    ghost var trace: seq<Sqe>             // what ran, in order
    ghost var results: seq<Cqe>           // with what result
    ghost var origin: seq<Option<nat>>    // per post: the entry it completes, if it is a completion
    ghost var lost: set<nat>              // entries whose completion found the queue full

    ghost predicate Shape()
      reads this`sq, this`cq
    {
      && (nslots > 0 ==> nslots * wraps == WORD32 && wraps >= 2)
      && sq.Length == nslots && cq.Length == nslots
    }

    /** The 32-bit words stand for the counts. */
    ghost predicate Words()
      reads this`acked, this`read, this`posted, this`cqCount, this`hdrCqCount, this`hdrCqHead, this`userCqHead,
            this`executed, this`published,
            this`filled, this`trace, this`sqHead, this`hdrSqHead, this`hdrSqTail, this`userSqTail
    {
      && acked <= read <= |posted| && |posted| - acked <= nslots
      && cqCount == hdrCqCount == Low(|posted|) && hdrCqHead == Low(acked) && userCqHead == Low(read)
      && executed <= published <= |filled| && |filled| - executed <= nslots && trace == filled[..executed]
      && sqHead == hdrSqHead == Low(executed) && hdrSqTail == Low(published) && userSqTail == Low(|filled|)
    }

    /** The outstanding entry number `k` is in its slot. */
    ghost predicate At(k: nat)
      reads this`sq, this`cq, sq, cq
      reads this`acked, this`read, this`posted, this`cqCount, this`hdrCqCount, this`hdrCqHead, this`userCqHead,
            this`executed, this`published,
            this`filled, this`trace, this`sqHead, this`hdrSqHead, this`hdrSqTail, this`userSqTail
    {
      && Shape() && Words()
      && (acked <= k < |posted| ==> nslots > 0 && cq[k % nslots] == posted[k])
      && (executed <= k < |filled| ==> nslots > 0 && sq[k % nslots] == filled[k])
    }

    ghost predicate Ledger()
      reads this`results, this`executed, this`origin, this`posted, this`lost
    {
      |results| == executed && InOrder(origin, posted, results) && Accounted(origin, lost, executed)
    }

    ghost predicate Valid()
      reads this, sq, cq
    {
      (forall k: nat :: At(k)) && Ledger()
    }

    /** From number `e0` on the entries ran with `exec`, their results following `r0`. */
    ghost predicate Ran(exec: Sqe -> Cqe, e0: nat, r0: seq<Cqe>)
      reads this`executed, this`filled, this`results
    {
      e0 <= executed <= |filled| && results == r0 + Results(exec, filled[e0..executed])
    }

    /** Since `p0` posts with `a0` acknowledged, at most `used` more; and nothing dropped if those fit. */
    ghost predicate Kept(p0: nat, a0: nat, l0: set<nat>, used: nat)
      reads this`posted, this`acked, this`lost
    {
      a0 <= acked && |posted| <= p0 + used && (p0 - a0 + used <= nslots ==> lost == l0)
    }

    lemma Counts()
      requires Valid()
      ensures acked <= read <= |posted| && executed <= published <= |filled| && trace == filled[..executed]
      ensures |results| == executed
      ensures sq.Length == cq.Length == nslots && |posted| - acked <= nslots
    {
      assert At(0);
    }

    /** KRING_NSLOTS of an order from 27 on is zero: such a ring refuses everything. */
    constructor (order: nat)
      ensures Valid() && fresh(sq) && fresh(cq) && nslots == NSlots(order) && posted == [] && filled == []
    {
      Geometry(order);
      nslots, wraps := NSlots(order), if order <= 26 then Pow2(27 - order) else 0;
      sq := new Sqe[NSlots(order)](_ => Sqe(0, 0, 0, 0));
      cq := new Cqe[NSlots(order)](_ => Cqe(0, 0, 0, 0));
      hdrCqCount, hdrCqHead, hdrSqHead, hdrSqTail := 0, 0, 0, 0;
      cqCount, sqHead, userSqTail, userCqHead := 0, 0, 0, 0;
      posted, read, acked, filled, published, executed, trace := [], 0, 0, [], 0, 0, [];
      results, origin, lost := [], [], {};
      new;
      if order <= 26 { assert Pow2(27 - order) == 2 * Pow2(26 - order); }
      forall k: nat ensures At(k) { }
    }

    /** ring_post_locked: posts unless that would overwrite an entry not yet acknowledged. */
    method Put(e: Cqe) returns (ok: bool)
      requires forall k: nat :: At(k)
      modifies this`posted, this`cqCount, this`hdrCqCount, cq
      ensures forall k: nat :: At(k)
      ensures ok <==> old(|posted|) - acked < nslots
      ensures posted == if ok then old(posted) + [e] else old(posted)
    {
      assert At(0);
      ghost var n := |posted|;
      Window(n, acked, nslots, wraps);
      if Sub(cqCount, hdrCqHead) >= nslots { return false; }
      cq[cqCount % nslots] := e;
      cqCount := Low(cqCount + 1);
      hdrCqCount := cqCount;
      posted := posted + [e];
      ok := true;
      forall k: nat ensures At(k) {
        assert old(At(k));
        if acked <= k < n { SlotsDiffer(k, n, nslots); }
      }
    }

    /** An event, which its scheme keeps pending if it is refused. */
    method Post(e: Cqe) returns (ok: bool)
      requires Valid()
      modifies this`posted, this`cqCount, this`hdrCqCount, cq, this`origin
      ensures Valid()
      ensures ok <==> old(|posted|) - acked < nslots
      ensures posted == (if ok then old(posted) + [e] else old(posted))
      ensures origin == (if ok then old(origin) + [None] else old(origin))
    {
      OrderPost(origin, posted, results, e);
      AccountPost(origin, lost, executed);
      ok := Put(e);
      if ok { origin := origin + [None]; }
    }

    /** kring_peek_cqe and kring_cqe_seen: the k-th entry read is the k-th posted. */
    method Read() returns (r: Option<Cqe>)
      requires Valid()
      modifies this`read, this`userCqHead
      ensures Valid()
      ensures r.None? <==> old(read) == |posted|
      ensures r.Some? ==> old(read) < |posted| && r.value == posted[old(read)] && read == old(read) + 1
      ensures r.None? ==> read == old(read)
    {
      assert At(read);
      Seen();
      if hdrCqCount == userCqHead { return None; }
      SlotOfLow(read, nslots, wraps);
      r := Some(cq[userCqHead % nslots]);
      LowNext(read);
      userCqHead := Low(userCqHead + 1);
      read := read + 1;
      forall k: nat ensures At(k) { assert old(At(k)); }
    }

    /** The count word equals the user's head exactly when everything posted has been read. */
    lemma Seen()
      requires Valid()
      ensures hdrCqCount == userCqHead <==> read == |posted|
      ensures read < |posted| ==> nslots > 0 && cq.Length == nslots
    {
      assert At(0);
      if nslots > 0 {
        Fewer(nslots, wraps);
        SameWord(|posted|, read, nslots);
      }
    }

    /** kring_ack: everything read may be overwritten. */
    method Ack()
      requires Valid()
      modifies this`acked, this`hdrCqHead
      ensures Valid() && acked == read
    {
      assert At(0);
      hdrCqHead := userCqHead;
      acked := read;
      forall k: nat ensures At(k) { assert old(At(k)); }
    }

    /** cqe_consumed, for the event posted as number `k`: right while it is not acknowledged; afterwards it says
        yes exactly while the acknowledged count is less than 2^31 past it modulo 2^32. */
    method Consumed(ghost k: nat, index: nat) returns (yes: bool)
      requires Valid() && k < |posted| && index == Low(k)
      ensures k >= acked ==> !yes
      ensures k < acked ==> (yes <==> 0 < (acked - k) % WORD32 < 0x8000_0000)
    {
      assert At(0);
      yes := Passed(hdrCqHead, index);
      HalfSlots(nslots, wraps);
      Judged(acked, k);
    }

    /** kring_get_sqe, with the caller's store into the slot it hands out. */
    method Fill(e: Sqe) returns (ok: bool)
      requires Valid()
      modifies this`filled, this`userSqTail, sq
      ensures Valid()
      ensures ok <==> old(|filled|) - executed < nslots
      ensures filled == if ok then old(filled) + [e] else old(filled)
    {
      assert At(0);
      ghost var n := |filled|;
      Window(n, executed, nslots, wraps);
      if Sub(userSqTail, hdrSqHead) >= nslots { return false; }
      sq[userSqTail % nslots] := e;
      userSqTail := Low(userSqTail + 1);
      filled := filled + [e];
      ok := true;
      forall k: nat ensures At(k) {
        assert old(At(k));
        if executed <= k < n { SlotsDiffer(k, n, nslots); }
      }
    }

    /** The first half of one round of ring_run_chunk: copy the entry out and publish its consumption. */
    method TakeOne() returns (e: Sqe)
      requires (forall k: nat :: At(k)) && executed < published <= |filled|
      modifies this`executed, this`sqHead, this`hdrSqHead, this`trace
      ensures (forall k: nat :: At(k)) && executed == old(executed) + 1 && e == filled[old(executed)]
      ensures trace == old(trace) + [e]
    {
      assert At(executed);
      SlotOfLow(executed, nslots, wraps);
      e := sq[sqHead % nslots];
      LowNext(executed);
      sqHead := Low(sqHead + 1);
      hdrSqHead := sqHead;
      executed := executed + 1;
      trace := trace + [e];
      forall k: nat ensures At(k) { assert old(At(k)); }
    }

    /** One round of ring_run_chunk: the completion is posted, or dropped if the queue is full. */
    method RunOne(exec: Sqe -> Cqe)
      requires Valid() && executed < published <= |filled|
      modifies this`executed, this`sqHead, this`hdrSqHead, this`trace, this`results, this`origin, this`lost,
               this`posted, this`cqCount, this`hdrCqCount, cq
      ensures Valid() && executed == old(executed) + 1 && trace == old(trace) + [filled[old(executed)]]
      ensures results == old(results) + [exec(filled[old(executed)])]
      ensures if old(|posted|) - acked < nslots
              then posted == old(posted) + [exec(filled[old(executed)])] &&
              origin == old(origin) + [Some(old(executed))] && lost == old(lost)
              else posted == old(posted) && origin == old(origin) && lost == old(lost) + {old(executed)}
    {
      var e := TakeOne();
      Complete(exec(e));
    }

    /** Its second half, for the entry just taken. */
    method Complete(c: Cqe)
      requires (forall k: nat :: At(k)) && |results| + 1 == executed && InOrder(origin, posted, results)
      requires Accounted(origin, lost, |results|)
      modifies this`results, this`origin, this`lost, this`posted, this`cqCount, this`hdrCqCount, cq
      ensures Valid() && results == old(results) + [c]
      ensures if old(|posted|) - acked < nslots
              then posted == old(posted) + [c] && origin == old(origin) + [Some(old(|results|))] && lost == old(lost)
              else posted == old(posted) && origin == old(origin) && lost == old(lost) + {old(|results|)}
    {
      ghost var k := |results|;
      OrderComplete(origin, posted, results, c);
      AccountComplete(origin, lost, k, |posted| - acked < nslots);
      var ok := Put(c);
      results := results + [c];
      if ok { origin := origin + [Some(k)]; } else { lost := lost + {k}; }
    }

    /** An entry, and what others do before the next. */
    method Round(exec: Sqe -> Cqe, es: seq<Event>, ghost e0: nat, ghost r0: seq<Cqe>, ghost p0: nat, ghost a0: nat,
                 ghost l0: set<nat>, ghost used: nat)
      requires Valid() && executed < published <= |filled| && Ran(exec, e0, r0) && Kept(p0, a0, l0, used)
      modifies this`executed, this`sqHead, this`hdrSqHead, this`trace, this`results, this`origin, this`lost,
               this`posted, this`cqCount, this`hdrCqCount, cq,
               this`read, this`userCqHead, this`acked, this`hdrCqHead
      ensures Valid() && executed == old(executed) + 1 && Ran(exec, e0, r0)
      ensures Kept(p0, a0, l0, used + 1 + Posts(es)) && (sqHead == hdrSqTail <==> executed == published)
    {
      MoreResults(exec, filled, e0, executed);
      RunOne(exec);
      Disturb(es);
      CaughtUp();
    }

    /** What others do between two entries. */
    method Disturb(es: seq<Event>)
      requires Valid()
      modifies this`posted, this`cqCount, this`hdrCqCount, cq, this`origin, this`read, this`userCqHead, this`acked,
               this`hdrCqHead
      ensures Valid() && old(acked) <= acked && old(|posted|) <= |posted| <= old(|posted|) + Posts(es)
    {
      var i := 0;
      assert es[..0] == [];
      Counts();
      while i < |es|
        invariant i <= |es| && Valid() && old(acked) <= acked
        invariant old(|posted|) <= |posted| <= old(|posted|) + Posts(es[..i])
      {
        assert es[..i + 1][..i] == es[..i];
        Counts();
        match es[i] {
          case EvPost(e) => var _ := Post(e);
          case EvRead => var _ := Read();
          case EvAck => Ack();
        }
        i := i + 1;
      }
      assert es[..|es|] == es;
    }

    /** The consumption mirror equals the tail word exactly when all published entries have run. */
    lemma CaughtUp()
      requires Valid()
      ensures sqHead == hdrSqTail <==> executed == published
      ensures hdrSqHead == sqHead && Sub(Low(hdrSqTail), Low(sqHead)) <= nslots && hdrSqTail < WORD32 && sqHead < WORD32
      ensures userSqTail == Low(|filled|) && hdrSqTail == Low(published)
    {
      assert At(0);
      if nslots > 0 {
        Fewer(nslots, wraps);
        SameWord(published, executed, nslots);
      } else {
        SameWord(published, executed, 0);
      }
    }

    /** ring_run_chunk, with `noise(k)` happening after its entry number `k`: executes the next entries in order, as
        many as the budget and the tail allow; their completions arrive in order among the other posts, and none is
        dropped if the queue has room for them and the others together. */
    method RunChunk(exec: Sqe -> Cqe, budget: nat, noise: nat -> seq<Event>, ghost e0: nat, ghost r0: seq<Cqe>)
      returns (done: nat)
      requires Valid() && Ran(exec, e0, r0)
      modifies this`executed, this`sqHead, this`hdrSqHead, this`trace, this`results, this`origin, this`lost,
               this`posted, this`cqCount, this`hdrCqCount, cq,
               this`read, this`userCqHead, this`acked, this`hdrCqHead
      ensures Valid() && executed == old(executed) + done && done <= budget && (done < budget ==> executed == published)
      ensures Ran(exec, e0, r0)
      ensures Kept(old(|posted|), old(acked), old(lost), done + AllPosts(noise, done))
    {
      done := 0;
      CaughtUp();
      Counts();
      var tail := hdrSqTail;
      if Sub(Low(tail), Low(sqHead)) > nslots { return; }
      done := RunEntries(exec, budget, noise, tail, e0, r0);
    }

    /** Its loop, up to the tail as it was loaded. */
    method RunEntries(exec: Sqe -> Cqe, budget: nat, noise: nat -> seq<Event>, tail: nat, ghost e0: nat,
                      ghost r0: seq<Cqe>)
      returns (done: nat)
      requires Valid() && Ran(exec, e0, r0) && tail == hdrSqTail
      modifies this`executed, this`sqHead, this`hdrSqHead, this`trace, this`results, this`origin, this`lost,
               this`posted, this`cqCount, this`hdrCqCount, cq,
               this`read, this`userCqHead, this`acked, this`hdrCqHead
      ensures Valid() && executed == old(executed) + done && done <= budget && (done < budget ==> executed == published)
      ensures Ran(exec, e0, r0)
      ensures Kept(old(|posted|), old(acked), old(lost), done + AllPosts(noise, done))
    {
      done := 0;
      CaughtUp();
      Counts();
      ghost var p0, a0, l0 := |posted|, acked, lost;
      while sqHead != tail && done < budget
        invariant Valid() && executed == old(executed) + done && done <= budget && tail == hdrSqTail
        invariant executed <= published <= |filled| && (sqHead == tail <==> executed == published)
        invariant Ran(exec, e0, r0) && Kept(p0, a0, l0, done + AllPosts(noise, done))
        decreases published - executed
      {
        Round(exec, noise(done), e0, r0, p0, a0, l0, done + AllPosts(noise, done));
        done := done + 1;
      }
    }

    /** channel_ring_drain: chunks until the queue or the batch budget is used up, each followed by the scheme's
        `replay` of pending events; both by number of the chunk. */
    method Drain(exec: Sqe -> Cqe, noise: (nat, nat) -> seq<Event>, replay: nat -> seq<Event>, ghost e0: nat,
                 ghost r0: seq<Cqe>)
      requires Valid() && Ran(exec, e0, r0)
      modifies this`executed, this`sqHead, this`hdrSqHead, this`trace, this`results, this`origin, this`lost,
               this`posted, this`cqCount, this`hdrCqCount, cq,
               this`read, this`userCqHead, this`acked, this`hdrCqHead
      ensures Valid()
      ensures executed == if published - old(executed) < SQ_BATCH then published else old(executed) + SQ_BATCH
      ensures Ran(exec, e0, r0)
    {
      var budget: nat, round: nat, more := SQ_BATCH, 0, true;
      Counts();
      while more
        invariant Valid() && budget <= SQ_BATCH && executed + budget == old(executed) + SQ_BATCH
        invariant executed <= published <= |filled|
        invariant Ran(exec, e0, r0)
        invariant !more ==> executed == published || budget == 0
        decreases budget, more
      {
        var chunk := if budget < SQ_CHUNK then budget else SQ_CHUNK;
        var done := RunChunk(exec, chunk, (k: nat) => noise(round, k), e0, r0);
        Counts();
        Disturb(replay(round));
        round := round + 1;
        budget := budget - done;
        more := !(done < chunk || budget == 0);
      }
    }

    /** kring_submit: re-rings until the kernel has consumed what was published, whatever else is posted, read or
        acknowledged meanwhile; every filled entry has then run once, in order. */
    method Submit(exec: Sqe -> Cqe, noise: (nat, nat, nat) -> seq<Event>, replay: (nat, nat) -> seq<Event>)
      requires Valid()
      modifies this`executed, this`sqHead, this`hdrSqHead, this`trace, this`results, this`origin, this`lost,
               this`posted, this`cqCount, this`hdrCqCount, cq,
               this`published, this`hdrSqTail, this`read, this`userCqHead, this`acked, this`hdrCqHead
      ensures Valid() && executed == published == |filled| && trace == filled
      ensures old(executed) <= |filled| && results == old(results) + Results(exec, filled[old(executed)..])
    {
      Counts();
      Publish();
      Counts();
      ghost var e0, r0 := executed, results;
      assert filled[e0..executed] == [];
      var again, ring: nat := true, 0;
      while again
        invariant Valid() && published == |filled| && Ran(exec, e0, r0)
        invariant !again ==> executed == published
        decreases published - executed, again
      {
        Counts();
        Drain(exec, (i: nat, k: nat) => noise(ring, i, k), (i: nat) => replay(ring, i), e0, r0);
        ring := ring + 1;
        CaughtUp();
        again := hdrSqHead != userSqTail;
      }
      Counts();
    }

    method Publish()
      requires Valid()
      modifies this`published, this`hdrSqTail
      ensures Valid() && published == |filled|
    {
      assert At(0);
      hdrSqTail := userSqTail;
      published := |filled|;
      forall k: nat ensures At(k) { assert old(At(k)); }
    }
  }

  lemma MoreResults(exec: Sqe -> Cqe, fs: seq<Sqe>, i: nat, j: nat)
    requires i <= j < |fs|
    ensures Results(exec, fs[i..j + 1]) == Results(exec, fs[i..j]) + [exec(fs[j])]
  {
  }

  lemma HalfSlots(n: nat, k: nat)
    requires n > 0 ==> n * k == WORD32 && k >= 2
    ensures n <= 0x8000_0000
  {
    if n > 0 { assert n * 2 <= n * k; }
  }
}
