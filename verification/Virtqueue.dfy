/** Descriptors, chains and rings of kernel/virtio_disk.c, after section 2.6
    "Split Virtqueues" and section 5.2 "Block Device" of virtio v1.1. */
module Virtqueue {
  import Blocks

  const NUM: nat := 8
  const IDX: nat := 0x1_0000          // indices are 16 bits wide

  datatype Addr = Nowhere | OpOf(i: nat) | DataOf(b: nat) | StatusOf(i: nat)
  datatype Desc = Desc(addr: Addr, len: nat, hasNext: bool, deviceWrites: bool, next: nat)
  datatype Op = Op(out: bool, sector: nat)
  datatype Info = Info(b: nat, status: nat)    // b == 0: none

  /** A request in flight: its buffer, what it asks for, and its other descriptors. */
  datatype Request = Request(b: nat, write: bool, block: nat, d1: nat, d2: nat)

  /** The first sector of a block, in the 32 bits the driver computes it in. */
  function Sector(blockno: nat): nat { blockno * (Blocks.BSIZE / 512) % Blocks.UINT_MAX }

  /** It is the one the block starts at, counted in bytes, exactly for blocks below 2^31. */
  lemma SectorIs(blockno: nat)
    ensures Sector(blockno) * 512 == blockno * Blocks.BSIZE <==> blockno < 0x8000_0000
  {
  }

  const FREED: Desc := Desc(Nowhere, 0, false, false, 0)

  /** The descriptors of the chain headed by h. */
  function Chain(h: nat, r: Request): set<nat> { {h, r.d1, r.d2} }

  /** The three descriptors spell out the request to the device. */
  predicate Spells(desc: seq<Desc>, ops: seq<Op>, h: nat, r: Request) {
    && h < |desc| == NUM && |ops| == NUM && r.d1 < NUM && r.d2 < NUM && h != r.d1 && h != r.d2 && r.d1 != r.d2
    && desc[h] == Desc(OpOf(h), 16, true, false, r.d1)
    && desc[r.d1] == Desc(DataOf(r.b), Blocks.BSIZE, true, !r.write, r.d2)
    && desc[r.d2] == Desc(StatusOf(h), 1, false, true, 0)
    && ops[h] == Op(r.write, Sector(r.block))
  }

  type Flight = map<nat, Request>

  /** Non-free descriptors are exactly those of the chains in flight, which are
      disjoint, and those the driver holds for a chain it is making or undoing. */
  ghost predicate Chains(desc: seq<Desc>, ops: seq<Op>, free: seq<bool>, flight: Flight, held: set<nat>) {
    && |desc| == |free| == |ops| == NUM
    && (forall h :: h in flight ==> Spells(desc, ops, h, flight[h]))
    && (forall g, h :: g in flight && h in flight && g != h ==> Chain(g, flight[g]) !! Chain(h, flight[h]))
    && (forall i :: i in held ==> i < NUM && !InChain(flight, i))
    && (forall i :: 0 <= i < NUM ==> (!free[i] <==> InChain(flight, i) || i in held))
  }

  ghost predicate InChain(flight: Flight, i: nat) { exists h :: h in flight && i in Chain(h, flight[h]) }

  function Slot(n: nat): (k: nat)
    ensures k < NUM
  { n % NUM }

  /** A count as the 16-bit index shows it. */
  function Index(n: nat): nat { n % IDX }

  lemma SlotOfIndex(n: nat)
    ensures Slot(Index(n)) == Slot(n) && Index(Index(n) + 1) == Index(n + 1)
  {
    var q, m := n / IDX, n % IDX;
    assert n == NUM * (q * 0x2000) + m;
    SlotPeriod(q * 0x2000, m);
  }

  lemma SlotPeriod(k: nat, m: nat)
    ensures Slot(NUM * k + m) == Slot(m)
  {
  }

  lemma CloseCounts(n: nat, k: nat)
    requires k < NUM
    ensures (Index(n) == Index(n + k) <==> k == 0) && (Slot(n) == Slot(n + k) <==> k == 0)
  {
    var q, m := n / NUM, n % NUM;
    SlotPeriod(q, m + k);
    assert Slot(m + k) == if m + k < NUM then m + k else m + k - NUM;
    assert Index(n + k) == if n % IDX + k < IDX then n % IDX + k else n % IDX + k - IDX;
  }

  /** Ring entries from count `n` on hold `q`; the 16-bit index stands at its end. */
  ghost predicate RingHolds(ring: seq<nat>, idx: nat, n: nat, q: seq<nat>) {
    && |ring| == NUM && |q| < NUM && idx == Index(n + |q|)
    && (forall i: nat :: i < |q| ==> ring[Slot(n + i)] == q[i])
  }

  /** Who has each request: the avail ring, the device, the used ring, or its
      submitter, told but not yet awake. */
  ghost predicate Stages(flight: Flight, pending: seq<nat>, taken: set<nat>, done: seq<nat>, finished: set<nat>) {
    && (forall i, j :: 0 <= i < j < |pending| ==> pending[i] != pending[j])
    && (forall i, j :: 0 <= i < j < |done| ==> done[i] != done[j])
    && (forall h :: h in flight <==> h in pending || h in taken || h in done || h in finished)
    && (forall h :: h in pending ==> h !in taken && h !in done && h !in finished)
    && (forall h :: h in taken ==> h !in done && h !in finished)
    && (forall h :: h in done ==> h !in finished)
  }

  /** b->disk is 1 until the interrupt handler has seen the request used; no buffer
      is in two requests. */
  ghost predicate Buffers(flight: Flight, info: seq<Info>, busy: set<nat>, finished: set<nat>) {
    && |info| == NUM
    && (forall h :: h in flight ==> h < NUM && flight[h].b != 0 && info[h].b == flight[h].b)
    && (forall g, h :: g in flight && h in flight && flight[g].b == flight[h].b ==> g == h)
    && (forall h :: h in flight ==> (flight[h].b in busy <==> h !in finished))
  }

  // -------------------------------------------------------------- how many can be in flight

  /** At most two requests fit in eight descriptors. */
  lemma AtMostTwo(desc: seq<Desc>, ops: seq<Op>, free: seq<bool>, flight: Flight, held: set<nat>)
    requires Chains(desc, ops, free, flight, held) == true
    ensures |flight| <= 2
  {
    hide *;
    if |flight| >= 3 {
      assert |flight| == |flight.Keys|;
      var a, b, c := ThreeOf(flight.Keys);
      TwoApart(desc, ops, free, flight, held, a, b);
      TwoApart(desc, ops, free, flight, held, a, c);
      TwoApart(desc, ops, free, flight, held, b, c);
      NineAreTooMany(Chain(a, flight[a]), Chain(b, flight[b]), Chain(c, flight[c]));
      assert false;
    }
  }

  lemma TwoApart(desc: seq<Desc>, ops: seq<Op>, free: seq<bool>, flight: Flight, held: set<nat>, g: nat, h: nat)
    requires Chains(desc, ops, free, flight, held) == true && g in flight && h in flight && g != h
    ensures Chain(g, flight[g]) !! Chain(h, flight[h]) && |Chain(g, flight[g])| == |Chain(h, flight[h])| == 3
    ensures (forall x :: x in Chain(g, flight[g]) ==> x < NUM) && (forall x :: x in Chain(h, flight[h]) ==> x < NUM)
  {
    assert Spells(desc, ops, g, flight[g]) && Spells(desc, ops, h, flight[h]);
    ThreeEach(g, flight[g]);
    ThreeEach(h, flight[h]);
  }

  lemma NineAreTooMany(a: set<nat>, b: set<nat>, c: set<nat>)
    requires |a| == |b| == |c| == 3 && a !! b && a !! c && b !! c
    ensures exists x :: x in a + b + c && x >= NUM
  {
    if forall x :: x in a + b + c ==> x < NUM { Bounded(a + b + c, NUM); }
  }

  lemma ThreeOf(s: set<nat>) returns (a: nat, b: nat, c: nat)
    requires |s| >= 3
    ensures a in s && b in s && c in s && a != b && a != c && b != c
  {
    a :| a in s;
    var t := s - {a};
    assert |t| == |s| - 1;
    b :| b in t;
    var u := t - {b};
    assert |u| == |t| - 1;
    c :| c in u;
  }

  lemma ThreeEach(h: nat, r: Request)
    requires h != r.d1 && h != r.d2 && r.d1 != r.d2
    ensures |Chain(h, r)| == 3
  {
  }

  lemma {:induction false} Bounded(s: set<nat>, n: nat)
    requires forall x :: x in s ==> x < n
    ensures |s| <= n
  {
    if n > 0 { Bounded(s - {n - 1}, n - 1); }
  }

  lemma {:induction false} SeqInSet(q: seq<nat>, s: set<nat>)
    requires (forall i, j :: 0 <= i < j < |q| ==> q[i] != q[j]) && forall i :: 0 <= i < |q| ==> q[i] in s
    ensures |q| <= |s|
  {
    if q != [] {
      var last := q[|q| - 1];
      SeqInSet(q[..|q| - 1], s - {last});
    }
  }

  /** So neither ring ever holds more than two entries. */
  lemma RingsHaveRoom(desc: seq<Desc>, ops: seq<Op>, free: seq<bool>, flight: Flight, held: set<nat>,
                      pending: seq<nat>, taken: set<nat>, done: seq<nat>, finished: set<nat>)
    requires Chains(desc, ops, free, flight, held) && Stages(flight, pending, taken, done, finished)
    ensures |pending| <= 2 && |done| <= 2
  {
    AtMostTwo(desc, ops, free, flight, held);
    SeqInSet(pending, flight.Keys);
    SeqInSet(done, flight.Keys);
    assert |flight| == |flight.Keys|;
  }
}
