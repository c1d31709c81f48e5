/** kernel/virtio_disk.c: the driver, and the device as another party to the rings.
    The driver's calls hold vdisk_lock; the device takes no lock, and may move
    between any two steps of theirs. */
module VirtioDisk {
  import Blocks
  import opened Virtqueue

  // ------------------------------------------------------------- descriptors and chains

  lemma InOwnChain(flight: Flight, g: nat)
    requires g in flight
    ensures InChain(flight, g) && InChain(flight, flight[g].d1) && InChain(flight, flight[g].d2)
  {
    assert g in Chain(g, flight[g]) && flight[g].d1 in Chain(g, flight[g]) && flight[g].d2 in Chain(g, flight[g]);
  }

  /** What is written to descriptors no chain in flight has, the chains do not see. */
  lemma ChainsElsewhere(desc: seq<Desc>, ops: seq<Op>, free: seq<bool>, flight: Flight, held: set<nat>,
                        desc': seq<Desc>, ops': seq<Op>)
    requires Chains(desc, ops, free, flight, held) && |desc'| == |ops'| == NUM
    requires forall i: nat :: i < NUM && InChain(flight, i) ==> desc'[i] == desc[i] && ops'[i] == ops[i]
    ensures Chains(desc', ops', free, flight, held) == true
  {
    forall g | g in flight ensures Spells(desc', ops', g, flight[g]) {
      assert Spells(desc, ops, g, flight[g]);
      InOwnChain(flight, g);
      hide InChain;
    }
    hide InChain, Spells, Chain;
  }

  /** The driver takes a free descriptor, or gives one back. */
  lemma ChainsHold(desc: seq<Desc>, ops: seq<Op>, free: seq<bool>, flight: Flight, held: set<nat>, i: nat)
    requires Chains(desc, ops, free, flight, held) && i < NUM
    ensures free[i] ==> i !in held && Chains(desc, ops, free[i := false], flight, held + {i}) == true
    ensures i in held ==> !free[i] && Chains(desc, ops, free[i := true], flight, held - {i}) == true
  {
    hide InChain, Spells, Chain;
  }

  /** A chain the driver holds and has spelled out joins those in flight. */
  lemma ChainsPost(desc: seq<Desc>, ops: seq<Op>, free: seq<bool>, flight: Flight, h: nat, r: Request)
    requires Chains(desc, ops, free, flight, Chain(h, r)) && Spells(desc, ops, h, r)
    ensures h !in flight && Chains(desc, ops, free, flight[h := r], {}) == true
  {
    var flight' := flight[h := r];
    assert h !in flight by { if h in flight { InOwnChain(flight, h); } }
    forall g, x | g in flight && x in Chain(g, flight[g]) ensures x !in Chain(h, r) { assert InChain(flight, x); }
    forall i: nat | i < NUM ensures InChain(flight', i) <==> InChain(flight, i) || i in Chain(h, r) {
      PostedChain(flight, h, r, i);
    }
    hide InChain, Spells, Chain;
  }

  lemma PostedChain(flight: Flight, h: nat, r: Request, i: nat)
    requires h !in flight
    ensures InChain(flight[h := r], i) <==> InChain(flight, i) || i in Chain(h, r)
  {
    var flight' := flight[h := r];
    if InChain(flight, i) {
      var g :| g in flight && i in Chain(g, flight[g]);
      assert g in flight' && i in Chain(g, flight'[g]);
    }
    if i in Chain(h, r) { assert h in flight' && i in Chain(h, flight'[h]); }
  }

  /** A chain leaves the flight and is the driver's again. */
  lemma ChainsRetire(desc: seq<Desc>, ops: seq<Op>, free: seq<bool>, flight: Flight, h: nat, r: Request)
    requires Chains(desc, ops, free, flight, {}) && h in flight && r == flight[h]
    ensures Spells(desc, ops, h, r) && Chains(desc, ops, free, flight - {h}, Chain(h, r)) == true
  {
    hide InChain, Spells, Chain;
    RetiredChain(desc, ops, free, flight, h, r);
    assert Spells(desc, ops, h, r);
    assert forall g :: g in flight - {h} ==> Spells(desc, ops, g, (flight - {h})[g]);
  }

  lemma RetiredChain(desc: seq<Desc>, ops: seq<Op>, free: seq<bool>, flight: Flight, h: nat, r: Request)
    requires Chains(desc, ops, free, flight, {}) && h in flight && r == flight[h]
    ensures forall i: nat :: InChain(flight - {h}, i) <==> InChain(flight, i) && i !in Chain(h, r)
    ensures forall i :: i in Chain(h, r) ==> i < NUM && InChain(flight, i)
  {
    hide InChain, Chain, Spells;
    OwnChain(desc, ops, free, flight, h, r);
    forall i: nat ensures InChain(flight - {h}, i) <==> InChain(flight, i) && i !in Chain(h, r) {
      FreedChain(flight, h, i);
    }
  }

  lemma OwnChain(desc: seq<Desc>, ops: seq<Op>, free: seq<bool>, flight: Flight, h: nat, r: Request)
    requires Chains(desc, ops, free, flight, {}) && h in flight && r == flight[h]
    ensures forall i :: i in Chain(h, r) ==> i < NUM && InChain(flight, i)
  {
    InOwnChain(flight, h);
    assert Spells(desc, ops, h, r);
    hide InChain;
  }

  lemma FreedChain(flight: Flight, h: nat, i: nat)
    requires h in flight && forall g :: g in flight && g != h ==> Chain(g, flight[g]) !! Chain(h, flight[h])
    ensures InChain(flight - {h}, i) <==> InChain(flight, i) && i !in Chain(h, flight[h])
  {
    if InChain(flight - {h}, i) {
      var g :| g in flight - {h} && i in Chain(g, (flight - {h})[g]);
      assert g in flight && i in Chain(g, flight[g]);
    }
    if InChain(flight, i) && i !in Chain(h, flight[h]) {
      var g :| g in flight && i in Chain(g, flight[g]);
      assert g in flight - {h} && i in Chain(g, (flight - {h})[g]);
    }
  }

  // ---------------------------------------------------------------------------- rings

  /** The slot at the index is none of the unread ones, under index wrap. */
  lemma RingSlot(ring: seq<nat>, idx: nat, n: nat, q: seq<nat>, h: nat)
    requires RingHolds(ring, idx, n, q) && |q| < NUM - 1
    ensures RingHolds(ring[Slot(idx) := h], idx, n, q) == true
  {
    SlotOfIndex(n + |q|);
    hide Slot, Index;
    var ring' := ring[Slot(idx) := h];
    forall i: nat | i < |q| ensures ring'[Slot(n + i)] == q[i] { CloseCounts(n + i, |q| - i); }
  }

  /** Moving the index makes the head in its slot readable, behind all others. */
  lemma RingPut(ring: seq<nat>, idx: nat, n: nat, q: seq<nat>, h: nat)
    requires RingHolds(ring, idx, n, q) && |q| < NUM - 1 && ring[Slot(idx)] == h
    ensures RingHolds(ring, Index(idx + 1), n, q + [h]) == true
  {
    SlotOfIndex(n + |q|);
    hide Slot, Index;
    var q' := q + [h];
    forall i: nat | i < |q'| ensures ring[Slot(n + i)] == q'[i] { }
  }

  /** The other side reads the oldest entry; it is there exactly when the indices differ. */
  lemma RingGet(ring: seq<nat>, idx: nat, n: nat, q: seq<nat>)
    requires RingHolds(ring, idx, n, q)
    ensures Index(n) == idx <==> q == []
    ensures q != [] ==>
              && ring[Slot(Index(n))] == q[0] && Index(Index(n) + 1) == Index(n + 1)
              && RingHolds(ring, idx, n + 1, q[1..]) == true
  {
    CloseCounts(n, |q|);
    SlotOfIndex(n);
    hide Slot, Index;
    if q != [] {
      assert ring[Slot(n + 0)] == q[0];
      var rest := q[1..];
      forall i: nat | i < |rest| ensures ring[Slot(n + 1 + i)] == rest[i] {
        assert rest[i] == q[i + 1] && ring[Slot(n + (i + 1))] == q[i + 1];
      }
    }
  }

  // -------------------------------------------------------------- stages and buffers

  lemma StagesPost(flight: Flight, pending: seq<nat>, taken: set<nat>, done: seq<nat>, finished: set<nat>, h: nat,
                   r: Request)
    requires Stages(flight, pending, taken, done, finished) && h !in flight
    ensures Stages(flight[h := r], pending + [h], taken, done, finished) == true
  {
  }

  lemma StagesTake(flight: Flight, pending: seq<nat>, taken: set<nat>, done: seq<nat>, finished: set<nat>)
    requires Stages(flight, pending, taken, done, finished) && pending != []
    ensures Stages(flight, pending[1..], taken + {pending[0]}, done, finished) == true
  {
    HeadAndRest(pending);
  }

  lemma StagesUse(flight: Flight, pending: seq<nat>, taken: set<nat>, done: seq<nat>, finished: set<nat>, h: nat)
    requires Stages(flight, pending, taken, done, finished) && h in taken
    ensures Stages(flight, pending, taken - {h}, done + [h], finished) == true
  {
  }

  lemma StagesSee(flight: Flight, pending: seq<nat>, taken: set<nat>, done: seq<nat>, finished: set<nat>)
    requires Stages(flight, pending, taken, done, finished) && done != []
    ensures Stages(flight, pending, taken, done[1..], finished + {done[0]}) == true
  {
    HeadAndRest(done);
  }

  lemma StagesEnd(flight: Flight, pending: seq<nat>, taken: set<nat>, done: seq<nat>, finished: set<nat>, h: nat)
    requires Stages(flight, pending, taken, done, finished) && h in finished
    ensures Stages(flight - {h}, pending, taken, done, finished - {h}) == true
  {
  }

  lemma HeadAndRest(q: seq<nat>)
    requires q != [] && forall i, j :: 0 <= i < j < |q| ==> q[i] != q[j]
    ensures forall h :: h in q[1..] <==> h in q && h != q[0]
  {
    forall h | h in q && h != q[0] ensures h in q[1..] {
      var i :| 0 <= i < |q| && q[i] == h;
      assert q[1..][i - 1] == h;
    }
  }

  // -------------------------------------------------------------------- the invariant

  /** The shared memory of driver and device, with who has which request. */
  datatype DiskState = DiskState(
    desc: seq<Desc>, ops: seq<Op>, free: seq<bool>, avail: seq<nat>, availIdx: nat, used: seq<nat>, usedIdx: nat,
    seen: nat, devIdx: nat, info: seq<Info>, busy: set<nat>,
    flight: Flight, held: set<nat>, pending: seq<nat>, taken: set<nat>, done: seq<nat>, finished: set<nat>,
    takes: nat, sees: nat, behind: nat)

  /** Kept by every single step of the driver and of the device. */
  ghost predicate Inv(d: DiskState) {
    && Chains(d.desc, d.ops, d.free, d.flight, d.held)
    && RingHolds(d.avail, d.availIdx, d.takes, d.pending) && d.devIdx == Index(d.takes)
    && RingHolds(d.used, d.usedIdx, d.sees, d.done) && d.behind <= d.sees && d.seen == Index(d.sees - d.behind)
    && Stages(d.flight, d.pending, d.taken, d.done, d.finished)
    && Buffers(d.flight, d.info, d.busy, d.finished) && Unread(d.info, d.pending)
  }

  /** The status byte of a request the device has not taken is the driver's 0xff. */
  ghost predicate Unread(info: seq<Info>, pending: seq<nat>) {
    forall h :: h in pending ==> h < |info| && info[h].status == 0xff
  }

  /** With vdisk_lock free, in addition: the driver is not in the middle of anything. */
  ghost predicate Idle(d: DiskState) { Inv(d) && d.held == {} && d.behind == 0 }

  /** Any number of the device's steps. */
  ghost predicate Moved(d: DiskState, e: DiskState) {
    && e == d.(devIdx := e.devIdx, takes := e.takes, pending := e.pending, taken := e.taken,
               used := e.used, usedIdx := e.usedIdx, done := e.done, info := e.info)
    && |e.info| == |d.info| && d.done <= e.done && e.takes + |e.pending| == d.takes + |d.pending|
    && (forall i :: 0 <= i < |d.info| ==> e.info[i].b == d.info[i].b)
    && (forall i :: 0 <= i < |d.info| && i !in d.pending && i !in d.taken ==> e.info[i] == d.info[i])
    && (forall h :: h in e.pending ==> h in d.pending) && (forall h :: h in e.taken ==> h in d.pending || h in d.taken)
  }

  lemma MovedTwice(d: DiskState, e: DiskState, f: DiskState)
    requires Moved(d, e) == true && Moved(e, f) == true
    ensures Moved(d, f) == true
  {
  }

  lemma NotMoved(d: DiskState)
    ensures Moved(d, d) == true
  {
  }

  lemma Sizes(d: DiskState)
    requires Inv(d) == true
    ensures |d.desc| == |d.ops| == |d.free| == |d.info| == |d.avail| == |d.used| == NUM
    ensures |d.pending| <= 2 && |d.done| <= 2
  {
    RingsHaveRoom(d.desc, d.ops, d.free, d.flight, d.held, d.pending, d.taken, d.done, d.finished);
  }

  /** Whatever the driver is doing, the device finds behind every head it can see or
      has taken the whole request, and the request's buffer still waits for it. */
  lemma DeviceSees(d: DiskState, h: nat)
    requires Inv(d) == true && (h in d.pending || h in d.taken)
    ensures h in d.flight && Spells(d.desc, d.ops, h, d.flight[h]) && d.flight[h].b in d.busy
    ensures |d.info| == NUM && h < NUM && d.info[h].b == d.flight[h].b && (h in d.pending ==> d.info[h].status == 0xff)
    ensures d.flight[h].block < 0x8000_0000 ==> d.ops[h].sector * 512 == d.flight[h].block * Blocks.BSIZE
  {
    assert h in d.flight;
    SectorIs(d.flight[h].block);
  }

  /** Requests for different blocks lead the device to different sectors. */
  lemma SectorsApart(d: DiskState, g: nat, h: nat, i: nat, j: nat)
    requires Inv(d) == true && (g in d.pending || g in d.taken) && (h in d.pending || h in d.taken)
    ensures g in d.flight && h in d.flight && g < |d.ops| && h < |d.ops|
    ensures && d.flight[g].block < 0x8000_0000 && d.flight[h].block < 0x8000_0000
            && d.flight[g].block != d.flight[h].block && i < Blocks.BSIZE / 512 && j < Blocks.BSIZE / 512 ==>
              d.ops[g].sector + i != d.ops[h].sector + j
  {
    hide Inv;
    DeviceSees(d, g);
    DeviceSees(d, h);
  }

  // ------------------------------------------------------------ the driver's single steps

  lemma HoldKeeps(d: DiskState, i: nat)
    requires Inv(d) == true && i < NUM && |d.free| == NUM
    ensures d.free[i] ==> i !in d.held && Inv(d.(free := d.free[i := false], held := d.held + {i})) == true
    ensures i in d.held ==> !d.free[i] && Inv(d.(free := d.free[i := true], held := d.held - {i})) == true
  {
    ChainsHold(d.desc, d.ops, d.free, d.flight, d.held, i);
    hide Chains, Stages, Buffers, RingHolds, Unread, Index;
  }

  lemma HeldDesc(d: DiskState, i: nat, x: Desc)
    requires Inv(d) == true && i in d.held
    ensures i < |d.desc| == NUM && Inv(d.(desc := d.desc[i := x])) == true
  {
    ChainsElsewhere(d.desc, d.ops, d.free, d.flight, d.held, d.desc[i := x], d.ops);
    hide Chains, Stages, Buffers, RingHolds, Unread, Index;
  }

  lemma HeldOp(d: DiskState, i: nat, x: Op)
    requires Inv(d) == true && i in d.held
    ensures i < |d.ops| == NUM && Inv(d.(ops := d.ops[i := x])) == true
  {
    ChainsElsewhere(d.desc, d.ops, d.free, d.flight, d.held, d.desc, d.ops[i := x]);
    hide Chains, Stages, Buffers, RingHolds, Unread, Index;
  }

  lemma HeldInfo(d: DiskState, i: nat, x: Info)
    requires Inv(d) == true && i in d.held
    ensures i < |d.info| == NUM && Inv(d.(info := d.info[i := x])) == true
  {
    assert i !in d.flight by { if i in d.flight { InOwnChain(d.flight, i); } }
    assert i < NUM;
    assert Buffers(d.flight, d.info[i := x], d.busy, d.finished) && Unread(d.info[i := x], d.pending);
    hide Chains, Stages, Buffers, RingHolds, Unread, Index;
  }

  lemma NewBusy(d: DiskState, b: nat)
    requires Inv(d) == true && forall g :: g in d.flight ==> d.flight[g].b != b
    ensures Inv(d.(busy := d.busy + {b})) == true
  {
    assert Buffers(d.flight, d.info, d.busy + {b}, d.finished);
    hide Chains, Stages, Buffers, RingHolds, Unread, Index;
  }

  lemma SlotKeeps(d: DiskState, h: nat)
    requires Inv(d) == true
    ensures |d.avail| == NUM && Inv(d.(avail := d.avail[Slot(d.availIdx) := h])) == true
  {
    Sizes(d);
    RingSlot(d.avail, d.availIdx, d.takes, d.pending, h);
    hide Chains, Stages, Buffers, RingHolds, Unread, Index, Slot;
  }

  /** The index moves: from here on the device may read the request. */
  lemma PublishKeeps(d: DiskState, h: nat, r: Request)
    requires Inv(d) == true && d.held == Chain(h, r) && Spells(d.desc, d.ops, h, r) == true
            && |d.avail| == |d.info| == NUM && h < NUM
    requires d.avail[Slot(d.availIdx)] == h && d.info[h] == Info(r.b, 0xff) && r.b != 0 && r.b in d.busy
            && forall g :: g in d.flight ==> d.flight[g].b != r.b
    ensures h !in d.flight
    ensures Inv(d.(availIdx := Index(d.availIdx + 1), flight := d.flight[h := r], pending := d.pending + [h],
                   held := {})) == true
  {
    Sizes(d);
    ChainsPost(d.desc, d.ops, d.free, d.flight, h, r);
    RingPut(d.avail, d.availIdx, d.takes, d.pending, h);
    StagesPost(d.flight, d.pending, d.taken, d.done, d.finished, h, r);
    assert Buffers(d.flight[h := r], d.info, d.busy, d.finished) && Unread(d.info, d.pending + [h]);
    hide Chains, Stages, Buffers, RingHolds, Unread, Slot, Index, Spells;
  }

  /** b->disk is cleared: the oldest used entry is dealt with, though not yet passed. */
  lemma SeeKeeps(d: DiskState)
    requires Inv(d) == true && d.done != [] && d.behind == 0 && |d.info| == NUM
    ensures var h := d.done[0];
            && h < NUM && h in d.flight && d.info[h].b == d.flight[h].b && d.flight[h].b in d.busy
            && Inv(d.(sees := d.sees + 1, behind := 1, done := d.done[1..], finished := d.finished + {h},
                      busy := d.busy - {d.info[h].b})) == true
  {
    SeeRequest(d);
    RingGet(d.used, d.usedIdx, d.sees, d.done);
    hide Chains, Stages, Buffers, RingHolds, Unread, Slot, Index;
  }

  lemma SeeRequest(d: DiskState)
    requires Inv(d) == true && d.done != [] && |d.info| == NUM
    ensures var h := d.done[0];
            && h < NUM && h in d.flight && d.info[h].b == d.flight[h].b && d.flight[h].b in d.busy
            && Stages(d.flight, d.pending, d.taken, d.done[1..], d.finished + {h}) == true
            && Buffers(d.flight, d.info, d.busy - {d.info[h].b}, d.finished + {h}) == true
  {
    var h := d.done[0];
    assert h in d.done && h in d.flight && h !in d.finished;
    StagesSee(d.flight, d.pending, d.taken, d.done, d.finished);
  }

  /** What the driver reads in the used ring. */
  lemma UsedRing(d: DiskState)
    requires Inv(d) == true && d.behind == 0
    ensures d.seen == d.usedIdx <==> d.done == []
    ensures d.done != [] ==> |d.used| == |d.info| == NUM && d.used[Slot(d.seen)] == d.done[0] && d.done[0] < NUM
  {
    RingGet(d.used, d.usedIdx, d.sees, d.done);
    if d.done != [] { SeeRequest(d); }
  }

  lemma PassKeeps(d: DiskState)
    requires Inv(d) == true && d.behind == 1
    ensures Inv(d.(seen := Index(d.seen + 1), behind := 0)) == true
  {
    SlotOfIndex(d.sees - 1);
    hide Chains, Stages, Buffers, RingHolds, Unread, Slot, Index;
  }

  /** The submitter, finding b->disk clear, takes its request out. */
  lemma RetireKeeps(d: DiskState, h: nat)
    requires Inv(d) == true && d.held == {} && h in d.flight && d.flight[h].b !in d.busy
    ensures var r := d.flight[h];
            && h < |d.info| == NUM && Spells(d.desc, d.ops, h, r) == true
            && Inv(d.(info := d.info[h := d.info[h].(b := 0)], flight := d.flight - {h}, finished := d.finished - {h},
                      held := Chain(h, r))) == true
  {
    hide Chains, Stages, RingHolds, Index, Spells;
    ChainsRetire(d.desc, d.ops, d.free, d.flight, h, d.flight[h]);
    RetireStage(d, h);
    assert Unread(d.info[h := d.info[h].(b := 0)], d.pending) == true;
    assert Buffers(d.flight - {h}, d.info[h := d.info[h].(b := 0)], d.busy, d.finished - {h}) == true;
  }

  lemma RetireStage(d: DiskState, h: nat)
    requires Inv(d) == true && h in d.flight && d.flight[h].b !in d.busy
    ensures h in d.finished && Stages(d.flight - {h}, d.pending, d.taken, d.done, d.finished - {h}) == true
  {
    StagesEnd(d.flight, d.pending, d.taken, d.done, d.finished, h);
  }

  // ------------------------------------------------------------ the device's single steps

  lemma TakeKeeps(d: DiskState)
    requires Inv(d) == true && |d.avail| == NUM
    ensures d.devIdx == d.availIdx <==> d.pending == []
    ensures d.pending != [] ==>
              var h := d.avail[Slot(d.devIdx)];
              && h == d.pending[0]
              && Inv(d.(devIdx := Index(d.devIdx + 1), takes := d.takes + 1, pending := d.pending[1..],
                        taken := d.taken + {h})) == true
  {
    hide Chains, Stages, Buffers, RingHolds, Unread, Slot, Index;
    TakeRing(d);
    if d.pending != [] {
      TakeStage(d);
    }
  }

  lemma TakeRing(d: DiskState)
    requires Inv(d) == true
    ensures d.devIdx == d.availIdx <==> d.pending == []
    ensures d.pending != [] ==>
              && |d.avail| == NUM && d.avail[Slot(d.devIdx)] == d.pending[0]
              && Index(d.devIdx + 1) == Index(d.takes + 1)
              && RingHolds(d.avail, d.availIdx, d.takes + 1, d.pending[1..]) == true
  {
    RingGet(d.avail, d.availIdx, d.takes, d.pending);
  }

  lemma TakeStage(d: DiskState)
    requires Inv(d) == true && d.pending != []
    ensures Stages(d.flight, d.pending[1..], d.taken + {d.pending[0]}, d.done, d.finished) == true
            && Unread(d.info, d.pending[1..]) == true
  {
    StagesTake(d.flight, d.pending, d.taken, d.done, d.finished);
  }

  lemma StatusOfTaken(flight: Flight, info: seq<Info>, busy: set<nat>, pending: seq<nat>, taken: set<nat>,
                      done: seq<nat>, finished: set<nat>, h: nat, status: nat)
    requires Stages(flight, pending, taken, done, finished) == true && Buffers(flight, info, busy, finished) == true
    requires Unread(info, pending) == true && h in taken && |info| == NUM
    ensures h < NUM && Buffers(flight, info[h := info[h].(status := status)], busy, finished) == true
    ensures Unread(info[h := info[h].(status := status)], pending) == true
  {
    assert h in flight && h !in pending;
  }

  lemma StatusKeeps(d: DiskState, h: nat, status: nat)
    requires Inv(d) == true && h in d.taken && |d.info| == NUM
    ensures h < NUM && Inv(d.(info := d.info[h := d.info[h].(status := status)])) == true
  {
    hide Chains, Stages, Buffers, RingHolds, Unread, Index;
    StatusOfTaken(d.flight, d.info, d.busy, d.pending, d.taken, d.done, d.finished, h, status);
  }

  lemma UseKeeps(d: DiskState, h: nat)
    requires Inv(d) == true && h in d.taken && |d.used| == NUM && |d.done| <= 2
    ensures Inv(d.(used := d.used[Slot(d.usedIdx) := h], usedIdx := Index(d.usedIdx + 1), taken := d.taken - {h},
                   done := d.done + [h])) == true
  {
    RingSlot(d.used, d.usedIdx, d.sees, d.done, h);
    RingPut(d.used[Slot(d.usedIdx) := h], d.usedIdx, d.sees, d.done, h);
    StagesUse(d.flight, d.pending, d.taken, d.done, d.finished, h);
    hide Chains, Stages, Buffers, RingHolds, Unread, Slot, Index;
  }

  // ------------------------------------------------------------- a request being posted

  /** Since `d0` the driver has put the first `k` of the eight parts of request `r` in
      place; the device may have moved, but sees none of it. */
  ghost predicate Draft(d0: DiskState, d: DiskState, h: nat, r: Request, k: nat) {
    && d.held == Chain(h, r) && h < NUM && r.d1 < NUM && r.d2 < NUM && h != r.d1 && h != r.d2 && r.d1 != r.d2
    && |d.desc| == |d.ops| == |d.info| == |d.avail| == NUM
    && r.b != 0 && (forall g :: g in d.flight ==> d.flight[g].b != r.b)
    && (k >= 1 ==> d.ops[h] == Op(r.write, Sector(r.block)))
    && (k >= 2 ==> d.desc[h] == Desc(OpOf(h), 16, true, false, r.d1))
    && (k >= 3 ==> d.desc[r.d1] == Desc(DataOf(r.b), Blocks.BSIZE, true, !r.write, r.d2))
    && (k >= 4 ==> d.info[h].status == 0xff)
    && (k >= 5 ==> d.desc[r.d2] == Desc(StatusOf(h), 1, false, true, 0))
    && d.busy == (if k >= 6 then d0.busy + {r.b} else d0.busy)
    && (k >= 7 ==> d.info[h].b == r.b)
    && (k >= 8 ==> d.avail[Slot(d.availIdx)] == h)
    && d.free == d0.free && d.flight == d0.flight && d.finished == d0.finished && d.behind == d0.behind
    && d.takes + |d.pending| == d0.takes + |d0.pending|
  }

  lemma DraftStays(d0: DiskState, d: DiskState, e: DiskState, h: nat, r: Request, k: nat)
    requires Inv(d) == true && Draft(d0, d, h, r, k) == true && Moved(d, e) == true
    ensures Draft(d0, e, h, r, k) == true
  {
    assert h !in d.flight by { HeldInfo(d, h, d.info[h]); if h in d.flight { InOwnChain(d.flight, h); } }
    assert h !in d.pending && h !in d.taken;
    hide Inv;
  }

  lemma DraftOp(d0: DiskState, d: DiskState, h: nat, r: Request)
    requires Inv(d) == true && Draft(d0, d, h, r, 0) == true
    ensures var e := d.(ops := d.ops[h := Op(r.write, Sector(r.block))]);
            Inv(e) == true && Draft(d0, e, h, r, 1) == true
  {
    HeldOp(d, h, Op(r.write, Sector(r.block)));
    hide Inv;
  }

  /** Descriptor `i` of the request is to be `x`, as part k + 1 of it. */
  ghost predicate Piece(h: nat, r: Request, k: nat, i: nat, x: Desc) {
    || (k == 1 && i == h && x == Desc(OpOf(h), 16, true, false, r.d1))
    || (k == 2 && i == r.d1 && x == Desc(DataOf(r.b), Blocks.BSIZE, true, !r.write, r.d2))
    || (k == 4 && i == r.d2 && x == Desc(StatusOf(h), 1, false, true, 0))
  }

  lemma Pieces(h: nat, r: Request)
    ensures Piece(h, r, 1, h, Desc(OpOf(h), 16, true, false, r.d1)) == true
    ensures Piece(h, r, 2, r.d1, Desc(DataOf(r.b), Blocks.BSIZE, true, !r.write, r.d2)) == true
    ensures Piece(h, r, 4, r.d2, Desc(StatusOf(h), 1, false, true, 0)) == true
  {
  }

  lemma DraftDesc(d0: DiskState, d: DiskState, h: nat, r: Request, k: nat, i: nat, x: Desc)
    requires Inv(d) == true && Draft(d0, d, h, r, k) == true
    requires Piece(h, r, k, i, x)
    ensures i < |d.desc| && Inv(d.(desc := d.desc[i := x])) == true
            && Draft(d0, d.(desc := d.desc[i := x]), h, r, k + 1) == true
  {
    HeldDesc(d, i, x);
    hide Inv;
  }

  lemma DraftStatus(d0: DiskState, d: DiskState, h: nat, r: Request)
    requires Inv(d) == true && Draft(d0, d, h, r, 3) == true
    ensures var e := d.(info := d.info[h := d.info[h].(status := 0xff)]);
            Inv(e) == true && Draft(d0, e, h, r, 4) == true
  {
    HeldInfo(d, h, d.info[h].(status := 0xff));
    hide Inv;
  }

  lemma DraftBusy(d0: DiskState, d: DiskState, h: nat, r: Request)
    requires Inv(d) == true && Draft(d0, d, h, r, 5) == true
    ensures var e := d.(busy := d.busy + {r.b}); Inv(e) == true && Draft(d0, e, h, r, 6) == true
  {
    NewBusy(d, r.b);
    hide Inv;
  }

  lemma DraftOwner(d0: DiskState, d: DiskState, h: nat, r: Request)
    requires Inv(d) == true && Draft(d0, d, h, r, 6) == true
    ensures var e := d.(info := d.info[h := d.info[h].(b := r.b)]); Inv(e) == true && Draft(d0, e, h, r, 7) == true
  {
    HeldInfo(d, h, d.info[h].(b := r.b));
    hide Inv;
  }

  lemma DraftSlot(d0: DiskState, d: DiskState, h: nat, r: Request)
    requires Inv(d) == true && Draft(d0, d, h, r, 7) == true
    ensures var e := d.(avail := d.avail[Slot(d.availIdx) := h]); Inv(e) == true && Draft(d0, e, h, r, 8) == true
  {
    SlotKeeps(d, h);
    hide Inv, Slot;
  }

  /** Request h, for buffer b, has been made available since `d`. */
  ghost predicate Posted(d: DiskState, e: DiskState, h: nat, b: nat, block: nat, write: bool) {
    && h !in d.flight && h in e.flight && e.flight == d.flight[h := e.flight[h]]
    && e.flight[h].b == b && e.flight[h].block == block && e.flight[h].write == write
    && e.busy == d.busy + {b} && e.finished == d.finished && e.takes + |e.pending| == d.takes + |d.pending| + 1
  }

  lemma DraftDone(d0: DiskState, d: DiskState, h: nat, r: Request)
    requires Inv(d) == true && Draft(d0, d, h, r, 8) == true
    ensures d.behind == d0.behind
    ensures var e := d.(availIdx := Index(d.availIdx + 1), flight := d.flight[h := r], pending := d.pending + [h],
                        held := {});
            Inv(e) == true && Posted(d0, e, h, r.b, r.block, r.write) == true
  {
    assert Spells(d.desc, d.ops, h, r);
    PublishKeeps(d, h, r);
    hide Inv, Index, Slot;
  }

  /** What the driver's allocation and freeing of descriptors, and the device, leave alone. */
  ghost predicate Steady(d: DiskState, e: DiskState) {
    && e.flight == d.flight && e.finished == d.finished && e.busy == d.busy && e.behind == d.behind
    && e.takes + |e.pending| == d.takes + |d.pending|
  }

  class Disk {
    var desc: seq<Desc>
    var ops: seq<Op>
    var free: seq<bool>
    var avail: seq<nat>
    var availIdx: nat
    var used: seq<nat>
    var usedIdx: nat
    var seen: nat                // disk.used_idx
    var info: seq<Info>
    var busy: set<nat>           // buffers with b->disk == 1
    var devIdx: nat              // the device's own position in the avail ring
    var taken: set<nat>          // heads the device is working on
    ghost var flight: Flight
    ghost var held: set<nat>     // descriptors neither free nor in a chain in flight
    ghost var pending: seq<nat>  // heads in the avail ring the device has not read
    ghost var done: seq<nat>     // heads in the used ring the driver has not dealt with
    ghost var finished: set<nat> // heads whose submitter may go on
    ghost var takes: nat
    ghost var sees: nat
    ghost var behind: nat        // entries dealt with that disk.used_idx has yet to pass

    ghost function D(): DiskState
      reads this
    {
      DiskState(desc, ops, free, avail, availIdx, used, usedIdx, seen, devIdx, info, busy,
                flight, held, pending, taken, done, finished, takes, sees, behind)
    }

    /** virtio_disk_init, as far as the rings go: all descriptors free, indices 0. */
    constructor ()
      ensures Idle(D()) == true && flight == map[] && busy == {}
    {
      desc, ops, free := seq(NUM, _ => FREED), seq(NUM, _ => Op(false, 0)), seq(NUM, _ => true);
      avail, availIdx, used, usedIdx, seen, devIdx := seq(NUM, _ => 0), 0, seq(NUM, _ => 0), 0, 0, 0;
      info, busy, taken := seq(NUM, _ => Info(0, 0)), {}, {};
      flight, held, pending, done, finished, takes, sees, behind := map[], {}, [], [], {}, 0, 0, 0;
    }

    // ------------------------------------------------------------------- the device

    /** The device reads the next available head, if there is one, and the request
        behind it. */
    method DeviceTake() returns (h: int)
      requires Inv(D()) == true
      modifies this`devIdx, this`pending, this`taken, this`takes
      ensures Inv(D()) == true && Moved(old(D()), D()) == true && (h == -1 <==> old(pending) == [])
      ensures h != -1 ==>
                && h == old(pending)[0] && pending == old(pending)[1..] && taken == old(taken) + {h}
                && h in flight && Spells(desc, ops, h, flight[h]) && 0 <= h < |info| && info[h].status == 0xff
                && (flight[h].block < 0x8000_0000 ==> ops[h].sector * 512 == flight[h].block * Blocks.BSIZE)
    {
      hide Inv, Chains, Stages, Buffers, RingHolds, Slot, Index;
      Sizes(D());
      TakeKeeps(D());
      if devIdx == availIdx {
        return -1;
      }
      DeviceSees(D(), pending[0]);
      h := avail[Slot(devIdx)];
      devIdx := Index(devIdx + 1);
      takes, pending, taken := takes + 1, pending[1..], taken + {h};
    }

    /** The device sets the status byte of a request it has taken. */
    method DeviceStatus(h: nat, status: nat)
      requires Inv(D()) == true && h in taken
      modifies this`info
      ensures Inv(D()) == true && Moved(old(D()), D()) == true && h < |info| == NUM && info[h].status == status
    {
      hide Inv, Chains, Stages, Buffers, RingHolds, Slot, Index;
      Sizes(D());
      StatusKeeps(D(), h, status);
      info := info[h := info[h].(status := status)];
    }

    /** The device returns a request it has taken, in any order. */
    method DeviceUse(h: nat)
      requires Inv(D()) == true && h in taken
      modifies this`used, this`usedIdx, this`taken, this`done
      ensures Inv(D()) == true && Moved(old(D()), D()) == true && done == old(done) + [h] && taken == old(taken) - {h}
    {
      hide Inv, Chains, Stages, Buffers, RingHolds, Slot, Index;
      Sizes(D());
      UseKeeps(D(), h);
      used := used[Slot(usedIdx) := h];
      usedIdx := Index(usedIdx + 1);
      taken, done := taken - {h}, done + [h];
    }

    /** Whatever the device does before the driver's next step. */
    method Device()
      requires Inv(D()) == true
      modifies this`info, this`used, this`usedIdx, this`devIdx, this`pending, this`taken, this`takes, this`done
      ensures Inv(D()) == true && Moved(old(D()), D()) == true
    {
      hide Inv, Moved;
      NotMoved(D());
      var steps: nat := *;
      while steps > 0
        invariant Inv(D()) == true && Moved(old(D()), D()) == true
      {
        ghost var d := D();
        DeviceStep();
        MovedTwice(old(D()), d, D());
        steps := steps - 1;
      }
    }

    method DeviceStep()
      requires Inv(D()) == true
      modifies this`info, this`used, this`usedIdx, this`devIdx, this`pending, this`taken, this`takes, this`done
      ensures Inv(D()) == true && Moved(old(D()), D()) == true
    {
      hide Inv, Moved;
      NotMoved(D());
      var take: bool := *;
      if take || taken == {} {
        var _ := DeviceTake();
      } else {
        var h: nat :| h in taken;
        var sets: bool := *;
        if sets {
          var status: nat := *;
          DeviceStatus(h, status);
        } else {
          DeviceUse(h);
        }
      }
    }

    // ------------------------------------------------------------- the driver's pieces

    method AllocDesc() returns (i: int)
      requires Inv(D()) == true
      modifies this`free, this`held
      ensures Inv(D()) == true && |free| == |old(free)| == NUM
      ensures i == -1 <==> forall j :: 0 <= j < NUM ==> !old(free)[j]
      ensures i == -1 ==> D() == old(D())
      ensures i != -1 ==> 0 <= i < NUM && old(free)[i] && free == old(free)[i := false] && held == old(held) + {i}
    {
      hide Inv;
      Sizes(D());
      for k := 0 to NUM
        invariant D() == old(D()) && |free| == NUM && forall j :: 0 <= j < k ==> !free[j]
      {
        if free[k] {
          HoldKeeps(D(), k);
          free := free[k := false];
          held := held + {k};
          return k;
        }
      }
      return -1;
    }

    method FreeDesc(i: nat) returns (panicked: bool)
      requires Inv(D()) == true && (i < |free| && !free[i] ==> i in held)
      modifies this`free, this`desc, this`held
      ensures Inv(D()) == true && |free| == |old(free)| == |old(desc)| == NUM
      ensures panicked <==> i >= NUM || old(free)[i]
      ensures panicked ==> D() == old(D())
      ensures !panicked ==> free == old(free)[i := true] && desc == old(desc)[i := FREED] && held == old(held) - {i}
    {
      hide Inv;
      Sizes(D());
      if i >= NUM || free[i] {
        return true;
      }
      HeldDesc(D(), i, FREED);
      desc := desc[i := FREED];
      HoldKeeps(D(), i);
      free := free[i := true];
      held := held - {i};
      return false;
    }

    /** A descriptor freed, and what the device does then. */
    method GiveBack(i: nat, ghost d0: DiskState) returns (panicked: bool)
      requires Inv(D()) == true && Steady(d0, D()) == true && i in held
      modifies this`free, this`desc, this`held, this`info, this`used, this`usedIdx, this`devIdx, this`pending,
          this`taken, this`takes, this`done
      ensures !panicked && Inv(D()) == true && Steady(d0, D()) == true && i < |old(free)| == |old(desc)| == NUM
      ensures free == old(free)[i := true] && desc == old(desc)[i := FREED] && held == old(held) - {i}
    {
      hide Inv, Moved, Steady;
      ghost var d := D();
      IsHeld(d, i);
      panicked := FreeDesc(i);
      Device();
      StillSteady(d0, d, D());
    }

    /** free_chain: follows the next links, and frees exactly the request's chain. */
    method FreeChain(h: nat, ghost r: Request) returns (panicked: bool)
      requires Inv(D()) == true && held == Chain(h, r) && Spells(desc, ops, h, r) == true
      modifies this`free, this`desc, this`held, this`info, this`used, this`usedIdx, this`devIdx, this`pending,
          this`taken, this`takes, this`done
      ensures !panicked && Inv(D()) == true && held == {} && Steady(old(D()), D()) == true
              && |old(free)| == |free| == NUM
      ensures forall i :: 0 <= i < NUM ==> free[i] == (old(free)[i] || i in Chain(h, r))
    {
      hide Inv, Moved, Steady, Unlinked, Spells, Chain;
      var i := h;
      ghost var step := 0;
      Sizes(D());
      SteadySelf(D());
      AllLinked(D(), h, r);
      while true
        invariant Inv(D()) == true && Steady(old(D()), D()) == true && |free| == |old(free)| == NUM
        invariant Unlinked(desc, old(free), free, held, h, r, step) == true && step <= 2
                && i == (if step == 0 then h else if step == 1 then r.d1 else r.d2)
        decreases 2 - step
      {
        UnlinkOne(desc, old(free), free, held, h, r, step, i);
        var flag, nxt := desc[i].hasNext, desc[i].next;
        panicked := GiveBack(i, old(D()));
        if panicked {
          return;
        }
        if flag {
          i := nxt;
          step := step + 1;
        } else {
          break;
        }
      }
    }

    /** alloc3_desc: three free descriptors into idx, or none taken. */
    method Alloc3(idx: array<int>) returns (ok: bool)
      requires Inv(D()) == true && held == {} && idx.Length == 3
      modifies this`free, this`desc, this`held, this`info, this`used, this`usedIdx, this`devIdx, this`pending,
          this`taken, this`takes, this`done, idx
      ensures Inv(D()) == true && Steady(old(D()), D()) == true && ops == old(ops) && avail == old(avail)
      ensures ok ==> Picked(old(free), free, held, idx[..]) == true
      ensures !ok ==> free == old(free) && held == {} && !ThreeFree(free)
    {
      hide Inv, Moved, Steady, ThreeFree, Picked;
      Sizes(D());
      SteadySelf(D());
      NonePicked(D());
      assert idx[..0] == [];
      for i := 0 to 3
        invariant Inv(D()) == true && Steady(old(D()), D()) == true && Picked(old(free), free, held, idx[..i]) == true
        invariant ops == old(ops) && avail == old(avail)
      {
        ghost var d := D();
        var x := AllocDesc();
        idx[i] := x;
        Device();
        StillSteady(old(D()), d, D());
        if x < 0 {
          NoThird(old(free), free, held, idx[..i]);
          PutBack(idx, i, old(D()));
          return false;
        }
        PickOne(old(free), d.free, d.held, idx[..i], x);
        assert idx[..i + 1] == idx[..i] + [x];
      }
      assert idx[..] == idx[..3];
      return true;
    }

    /** alloc3_desc's way out: the first n descriptors of idx are freed again. */
    method PutBack(idx: array<int>, n: nat, ghost d0: DiskState)
      requires Inv(D()) == true && Steady(d0, D()) == true && n <= idx.Length
              && Picked(d0.free, free, held, idx[..n]) == true
      modifies this`free, this`desc, this`held, this`info, this`used, this`usedIdx, this`devIdx, this`pending,
          this`taken, this`takes, this`done
      ensures Inv(D()) == true && Steady(d0, D()) == true && free == d0.free && held == {}
      ensures ops == old(ops) && avail == old(avail)
    {
      hide Inv, Moved, Steady, Picked, D;
      ghost var ds := idx[..n];
      assert idx[0..n] == ds;
      for j := 0 to n
        invariant Inv(D()) == true && Steady(d0, D()) == true && Picked(d0.free, free, held, ds[j..]) == true
                && ds == idx[..n]
        invariant ops == old(ops) && avail == old(avail)
      {
        UnpickOne(d0.free, free, held, ds[j..]);
        assert ds[j..][0] == idx[j] && ds[j..][1..] == ds[j + 1..];
        var _ := GiveBack(idx[j], d0);
      }
      Unpicked(d0.free, free, held);
    }

    // ------------------------------------------------- the driver's critical sections

    /** virtio_disk_rw up to its wait: the request is described and made available.
        -1: it must sleep for descriptors, which two requests in flight already hold. */
    method Submit(b: nat, blockno: nat, write: bool, idx: array<int>) returns (h: int)
      requires Idle(D()) == true && b != 0 && idx.Length == 3 && (forall g :: g in flight ==> flight[g].b != b)
      modifies this, idx
      ensures Idle(D()) == true
      ensures h == -1 ==> free == old(free) && Steady(old(D()), D()) == true && |flight| == 2
      ensures h != -1 ==> 0 <= h < NUM && Posted(old(D()), D(), h, b, blockno, write) == true
    {
      hide Inv, Moved, Picked, ThreeFree, Posted, Draft, Sector;
      var ok := Alloc3(idx);
      if !ok {
        MustWait(D());
        return -1;
      }
      ghost var d := D();
      PickedThree(old(D()), d, idx[..]);
      h := idx[0];
      Post(idx[0], idx[1], idx[2], b, blockno, write);
      PostedSince(old(D()), d, D(), h, b, blockno, write);
    }

    /** The request written down piece by piece, and last of all the index moved. The
        device may act after every piece. */
    method Post(x: nat, y: nat, z: nat, b: nat, blockno: nat, write: bool)
      requires Inv(D()) == true && x < NUM && y < NUM && z < NUM && x != y && x != z && y != z && held == {x, y, z}
      requires b != 0 && behind == 0 && (forall g :: g in flight ==> flight[g].b != b)
      modifies this
      ensures Idle(D()) == true && Posted(old(D()), D(), x, b, blockno, write) == true
    {
      hide Inv, Moved, Posted, Draft;
      ghost var d0, r := D(), Request(b, write, blockno, y, z);
      StartDraft(d0, x, r);
      Describe(d0, x, r, y, z, b, blockno, write);
      MakeAvailable(d0, x, r, b);
    }

    /** The header, the three descriptors and the status byte. */
    method Describe(ghost d0: DiskState, x: nat, ghost r: Request, y: nat, z: nat, b: nat, blockno: nat, write: bool)
      requires Inv(D()) == true && Draft(d0, D(), x, r, 0) == true && r == Request(b, write, blockno, y, z)
      requires x < NUM && y < NUM && z < NUM && |desc| == |ops| == |info| == NUM
      modifies this`ops, this`desc, this`info, this`used, this`usedIdx, this`devIdx, this`pending, this`taken,
          this`takes, this`done
      ensures Inv(D()) == true && Draft(d0, D(), x, r, 5) == true
    {
      hide *;
      Pieces(x, r);
      PutOp(d0, x, r, Op(write, Sector(blockno)));
      PutDesc(d0, x, r, 1, x, Desc(OpOf(x), 16, true, false, y));
      PutDesc(d0, x, r, 2, y, Desc(DataOf(b), Blocks.BSIZE, true, !write, z));
      PutStatus(d0, x, r);
      PutDesc(d0, x, r, 4, z, Desc(StatusOf(x), 1, false, true, 0));
    }

    /** b->disk, the buffer's record, the ring slot, and the index. */
    method MakeAvailable(ghost d0: DiskState, x: nat, ghost r: Request, b: nat)
      requires Inv(D()) == true && Draft(d0, D(), x, r, 5) == true && b == r.b && x < NUM && d0.behind == 0
      modifies this
      ensures Idle(D()) == true && Posted(d0, D(), x, r.b, r.block, r.write) == true
    {
      hide *;
      PutBusy(d0, x, r, b);
      PutOwner(d0, x, r, b);
      PutSlot(d0, x, r);
      PutIndex(d0, x, r);
    }

    // Each step of the driver here is followed by whatever the device does.

    method PutOp(ghost d0: DiskState, x: nat, ghost r: Request, op: Op)
      requires Inv(D()) == true && Draft(d0, D(), x, r, 0) == true && x < NUM && op == Op(r.write, Sector(r.block))
      modifies this`ops, this`info, this`used, this`usedIdx, this`devIdx, this`pending, this`taken, this`takes,
          this`done
      ensures Inv(D()) == true && Draft(d0, D(), x, r, 1) == true
    {
      hide Inv, Moved, Draft, Slot, Index;
      Sizes(D());
      DraftOp(d0, D(), x, r);
      ops := ops[x := op];
      Meanwhile(d0, x, r, 1);
    }

    method PutDesc(ghost d0: DiskState, x: nat, ghost r: Request, ghost k: nat, i: nat, c: Desc)
      requires Inv(D()) == true && Draft(d0, D(), x, r, k) == true && x < NUM && i < NUM && Piece(x, r, k, i, c) == true
      modifies this`desc, this`info, this`used, this`usedIdx, this`devIdx, this`pending, this`taken, this`takes,
          this`done
      ensures Inv(D()) == true && Draft(d0, D(), x, r, k + 1) == true
    {
      hide Inv, Moved, Draft, Slot, Index;
      Sizes(D());
      DraftDesc(d0, D(), x, r, k, i, c);
      desc := desc[i := c];
      Meanwhile(d0, x, r, k + 1);
    }

    method PutStatus(ghost d0: DiskState, x: nat, ghost r: Request)
      requires Inv(D()) == true && Draft(d0, D(), x, r, 3) == true && x < NUM
      modifies this`info, this`used, this`usedIdx, this`devIdx, this`pending, this`taken, this`takes, this`done
      ensures Inv(D()) == true && Draft(d0, D(), x, r, 4) == true
    {
      hide Inv, Moved, Draft, Slot, Index;
      Sizes(D());
      DraftStatus(d0, D(), x, r);
      info := info[x := info[x].(status := 0xff)];
      Meanwhile(d0, x, r, 4);
    }

    method PutBusy(ghost d0: DiskState, x: nat, ghost r: Request, b: nat)
      requires Inv(D()) == true && Draft(d0, D(), x, r, 5) == true && x < NUM && b == r.b
      modifies this`busy, this`info, this`used, this`usedIdx, this`devIdx, this`pending, this`taken, this`takes,
          this`done
      ensures Inv(D()) == true && Draft(d0, D(), x, r, 6) == true
    {
      hide Inv, Moved, Draft, Slot, Index;
      Sizes(D());
      DraftBusy(d0, D(), x, r);
      busy := busy + {b};
      Meanwhile(d0, x, r, 6);
    }

    method PutOwner(ghost d0: DiskState, x: nat, ghost r: Request, b: nat)
      requires Inv(D()) == true && Draft(d0, D(), x, r, 6) == true && x < NUM && b == r.b
      modifies this`info, this`used, this`usedIdx, this`devIdx, this`pending, this`taken, this`takes, this`done
      ensures Inv(D()) == true && Draft(d0, D(), x, r, 7) == true
    {
      hide Inv, Moved, Draft, Slot, Index;
      Sizes(D());
      DraftOwner(d0, D(), x, r);
      info := info[x := info[x].(b := b)];
      Meanwhile(d0, x, r, 7);
    }

    method PutSlot(ghost d0: DiskState, x: nat, ghost r: Request)
      requires Inv(D()) == true && Draft(d0, D(), x, r, 7) == true && x < NUM
      modifies this`avail, this`info, this`used, this`usedIdx, this`devIdx, this`pending, this`taken, this`takes,
          this`done
      ensures Inv(D()) == true && Draft(d0, D(), x, r, 8) == true
    {
      hide Inv, Moved, Draft, Slot, Index;
      Sizes(D());
      DraftSlot(d0, D(), x, r);
      avail := avail[Slot(availIdx) := x];
      Meanwhile(d0, x, r, 8);
    }

    method PutIndex(ghost d0: DiskState, x: nat, ghost r: Request)
      requires Inv(D()) == true && Draft(d0, D(), x, r, 8) == true && d0.behind == 0
      modifies this
      ensures Idle(D()) == true && Posted(d0, D(), x, r.b, r.block, r.write) == true
    {
      hide Inv, Moved, Posted, Draft, Index;
      DraftDone(d0, D(), x, r);
      availIdx := Index(availIdx + 1);
      flight, pending, held := flight[x := r], pending + [x], {};
      ghost var d := D();
      Device();
      PostedStays(d0, d, D(), x, r);
      DoneGrows(d, D());
    }

    /** The device's steps while a request is being written down. */
    method Meanwhile(ghost d0: DiskState, ghost h: nat, ghost r: Request, ghost k: nat)
      requires Inv(D()) == true && Draft(d0, D(), h, r, k) == true
      modifies this`info, this`used, this`usedIdx, this`devIdx, this`pending, this`taken, this`takes, this`done
      ensures Inv(D()) == true && Draft(d0, D(), h, r, k) == true && |desc| == |ops| == |info| == |avail| == NUM
    {
      hide Inv, Moved, Draft;
      ghost var d := D();
      Device();
      DraftStays(d0, d, D(), h, r, k);
      Sizes(D());
    }

    /** One turn of the interrupt handler's loop: the oldest used entry clears
        b->disk of the very buffer whose request it is, which was still set. */
    method IntrOne() returns (more: bool, panicked: bool, ghost h: nat)
      requires Idle(D()) == true
      modifies this
      ensures Idle(D()) == true && flight == old(flight) && free == old(free)
      ensures panicked ==> more && Failed(info, done) == true && finished == old(finished) && busy == old(busy)
      ensures !more ==> done == [] && old(done) == [] && finished == old(finished) && busy == old(busy)
      ensures more && !panicked ==>
                && h in flight && h !in old(finished) && finished == old(finished) + {h} && old(done) <= [h] + done
                && flight[h].b in old(busy) && busy == old(busy) - {flight[h].b}
                && h < |info| && info[h].status == 0
      ensures Settled(old(D()), D()) == true
    {
      hide Inv, Idle, Moved, D, Failed, Settled;
      var id;
      more, id := NextUsed();
      h := id;
      if !more {
        return false, false, h;
      }
      ghost var d1 := D();
      panicked := BadStatus(id);
      SettledTwice(old(D()), d1, D());
      if panicked {
        return true, true, h;
      }
      ghost var d2 := D();
      ClearBusy(id);
      SettledTwice(old(D()), d2, D());
    }

    /** The loop's test, and the head in the used ring. */
    method NextUsed() returns (more: bool, id: nat)
      requires Idle(D()) == true
      modifies this`info, this`used, this`usedIdx, this`devIdx, this`pending, this`taken, this`takes, this`done
      ensures Idle(D()) == true && old(done) <= done
      ensures if more then done != [] && id == done[0] else done == []
      ensures Settled(old(D()), D()) == true
    {
      hide Inv, Moved, Slot, Index, Settled;
      Device();
      DoneGrows(old(D()), D());
      SettledByDevice(old(D()), D());
      UsedRing(D());
      if seen == usedIdx {
        return false, 0;
      }
      ghost var d := D();
      Device();
      StillFirst(d, D());
      SettledByDevice(d, D());
      SettledTwice(old(D()), d, D());
      UsedRing(D());
      return true, used[Slot(seen)];
    }

    method BadStatus(id: nat) returns (bad: bool)
      requires Idle(D()) == true && done != [] && id == done[0]
      modifies this`info, this`used, this`usedIdx, this`devIdx, this`pending, this`taken, this`takes, this`done
      ensures Idle(D()) == true && old(done) <= done && done[0] == id && (bad ==> Failed(info, done) == true)
      ensures id < |info| && (!bad ==> info[id].status == 0) && Settled(old(D()), D()) == true
    {
      hide Inv, Moved, Settled;
      Device();
      StillFirst(old(D()), D());
      SettledByDevice(old(D()), D());
      bad := info[id].status != 0;
    }

    /** b->disk = 0, and the used index passed. */
    method ClearBusy(id: nat)
      requires Idle(D()) == true && done != [] && id == done[0]
      modifies this
      ensures Idle(D()) == true && flight == old(flight) && free == old(free) && old(done) <= [id] + done
      ensures id in flight && id !in old(finished) && finished == old(finished) + {id}
      ensures flight[id].b in old(busy) && busy == old(busy) - {flight[id].b}
      ensures Settled(old(D()), D()) == true && id < |old(info)| == |info| && info[id] == old(info)[id]
    {
      hide Inv, Moved, Index, Settled;
      MarkDone(id);
      ghost var d := D();
      Device();
      DoneGrows(d, D());
      SettledInMiddle(d, D());
      SettledTwice(old(D()), d, D());
      SettledHead(old(D()), D(), id);
      PassKeeps(D());
      SettledPassed(old(D()), D(), Index(seen + 1));
      seen := Index(seen + 1);
      behind := 0;
    }

    method MarkDone(id: nat)
      requires Idle(D()) == true && done != [] && id == done[0]
      modifies this
      ensures Inv(D()) == true && held == {} && behind == 1
      ensures flight == old(flight) && free == old(free) && old(done) <= [id] + done
      ensures id in flight && id !in old(finished) && finished == old(finished) + {id}
      ensures flight[id].b in old(busy) && busy == old(busy) - {flight[id].b} && Settled(old(D()), D()) == true
    {
      hide Inv, Moved, Index, Settled;
      Device();
      StillFirst(old(D()), D());
      SettledByDevice(old(D()), D());
      ghost var d := D();
      Sizes(D());
      SeeKeeps(D());
      FirstUnfinished(D());
      busy := busy - {info[id].b};
      sees, done, finished, behind := sees + 1, done[1..], finished + {id}, 1;
      assert d.done == [id] + done;
      SettledBySeeing(d, D());
      SettledTwice(old(D()), d, D());
    }

    /** virtio_disk_intr: every used entry is dealt with, those posted meanwhile too. */
    method Intr() returns (panicked: bool)
      requires Idle(D()) == true
      modifies this
      ensures Idle(D()) == true && flight == old(flight) && free == old(free)
      ensures !panicked ==> done == [] && forall h :: h in old(done) ==> h in finished
      ensures panicked ==> Failed(info, done) == true
      ensures (exists h :: h in old(done) && h < |old(info)| && old(info)[h].status != 0) ==> panicked
      ensures old(finished) <= finished && Told(flight, old(busy), busy, old(finished), finished)
      ensures Succeeded(info, old(finished), finished) == true
    {
      hide Inv, Idle, Settled;
      DoneUnfinished(D());
      SettledSelf(D());
      while true
        invariant Idle(D()) == true && flight == old(flight) && free == old(free) && old(finished) <= finished
        invariant Told(flight, old(busy), busy, old(finished), finished)
        invariant forall h :: h in old(done) ==> h in finished || h in done
        invariant Settled(old(D()), D()) == true && Succeeded(info, old(finished), finished) == true
        decreases flight.Keys - finished
      {
        var more;
        ghost var h, d := 0, D();
        more, panicked, h := IntrOne();
        SettledTwice(old(D()), d, D());
        StillSucceeded(d, D(), old(finished));
        if panicked || !more {
          SettledDone(old(D()), D());
          return;
        }
        FirstOrRest(d.done, h, done);
        TellOne(D(), old(busy), d.busy, old(finished), d.finished, h);
      }
    }

    /** virtio_disk_rw once b->disk is 0: the chain is freed, and nothing else. */
    method Finish(h: nat) returns (panicked: bool)
      requires Idle(D()) == true && h in flight && flight[h].b !in busy
      modifies this
      ensures Idle(D()) == true && !panicked && |old(free)| == |free| == NUM
      ensures flight == old(flight) - {h} && finished == old(finished) - {h} && busy == old(busy)
      ensures forall i :: 0 <= i < NUM ==> free[i] == (old(free)[i] || i in Chain(h, old(flight)[h]))
    {
      hide Inv, Moved, Spells, Chain;
      ghost var r := flight[h];
      Forget(h);
      panicked := FreeChain(h, r);
    }

    /** disk.info[idx[0]].b = 0: the request is no longer in flight. */
    method Forget(h: nat)
      requires Idle(D()) == true && h in flight && flight[h].b !in busy
      modifies this`flight, this`finished, this`held, this`info, this`used, this`usedIdx, this`devIdx, this`pending,
          this`taken, this`takes, this`done
      ensures Inv(D()) == true && held == Chain(h, old(flight)[h]) && Spells(desc, ops, h, old(flight)[h]) == true
      ensures flight == old(flight) - {h} && finished == old(finished) - {h}
    {
      hide Inv, Moved, Spells, Chain, Index;
      RetireKeeps(D(), h);
      info := info[h := info[h].(b := 0)];
      flight, finished, held := flight - {h}, finished - {h}, Chain(h, flight[h]);
      Device();
    }
  }

  lemma StartDraft(d: DiskState, h: nat, r: Request)
    requires Inv(d) == true && d.held == {h, r.d1, r.d2} && h < NUM && r.d1 < NUM && r.d2 < NUM && h != r.d1
            && h != r.d2 && r.d1 != r.d2
    requires r.b != 0 && forall g :: g in d.flight ==> d.flight[g].b != r.b
    ensures |d.desc| == |d.ops| == |d.info| == |d.avail| == NUM && Draft(d, d, h, r, 0) == true
  {
    Sizes(d);
    hide Inv;
  }

  lemma PostedSince(d0: DiskState, d: DiskState, e: DiskState, h: nat, b: nat, block: nat, write: bool)
    requires Steady(d0, d) == true && Posted(d, e, h, b, block, write) == true
    ensures Posted(d0, e, h, b, block, write) == true
  {
  }

  lemma PostedStays(d0: DiskState, d: DiskState, e: DiskState, h: nat, r: Request)
    requires Posted(d0, d, h, r.b, r.block, r.write) == true && Moved(d, e) == true
    ensures Posted(d0, e, h, r.b, r.block, r.write) == true
  {
  }

  /** The oldest used entry stays the oldest, and its status what it is. */
  lemma StillFirst(d: DiskState, e: DiskState)
    requires Inv(d) == true && d.done != [] && Moved(d, e) == true
    ensures d.done <= e.done && e.done != [] && e.done[0] == d.done[0] && e.done[0] < |d.info| == |e.info|
            && e.info[e.done[0]] == d.info[e.done[0]]
    ensures e.flight == d.flight && e.finished == d.finished && e.busy == d.busy && e.free == d.free && e.held == d.held
            && e.behind == d.behind && e.seen == d.seen
  {
    var h := d.done[0];
    assert h in d.done && h !in d.pending && h !in d.taken && h in d.flight;
  }

  /** Requests the device is through with, seen by the driver or not, keep their status. */
  ghost predicate Settled(d: DiskState, e: DiskState) {
    && |d.info| == |e.info|
    && forall h :: h in d.finished || h in d.done ==>
         h < |d.info| && e.info[h] == d.info[h] && (h in e.finished || h in e.done)
  }

  lemma SettledSelf(d: DiskState)
    requires Idle(d) == true
    ensures Settled(d, d) == true
  {
  }

  lemma SettledTwice(d: DiskState, e: DiskState, f: DiskState)
    requires Settled(d, e) == true && Settled(e, f) == true
    ensures Settled(d, f) == true
  {
  }

  lemma SettledInMiddle(d: DiskState, e: DiskState)
    requires Inv(d) == true && Moved(d, e) == true
    ensures Settled(d, e) == true
  {
  }

  lemma SettledByDevice(d: DiskState, e: DiskState)
    requires Idle(d) == true && Moved(d, e) == true
    ensures Settled(d, e) == true
  {
    SettledInMiddle(d, e);
  }

  lemma SettledBySeeing(d: DiskState, e: DiskState)
    requires Inv(d) == true && d.done != [] && d.done == [d.done[0]] + e.done
    requires e.finished == d.finished + {d.done[0]} && e.info == d.info
    ensures Settled(d, e) == true
  {
  }

  lemma SettledPassed(d: DiskState, e: DiskState, n: nat)
    requires Settled(d, e) == true
    ensures Settled(d, e.(seen := n, behind := 0)) == true
  {
  }

  lemma SettledHead(d: DiskState, e: DiskState, h: nat)
    requires Settled(d, e) == true && h in d.done
    ensures h < |d.info| == |e.info| && e.info[h] == d.info[h]
  {
  }

  lemma DoneUnfinished(d: DiskState)
    requires Idle(d) == true
    ensures forall h :: h in d.done ==> h !in d.finished
  {
  }

  /** The requests finished since had status 0. */
  ghost predicate Succeeded(info: seq<Info>, finished0: set<nat>, finished: set<nat>) {
    forall h :: h in finished && h !in finished0 ==> h < |info| && info[h].status == 0
  }

  lemma StillSucceeded(d: DiskState, e: DiskState, finished0: set<nat>)
    requires Settled(d, e) == true && Succeeded(d.info, finished0, d.finished) == true
    requires forall h :: h in e.finished && h !in d.finished ==> h < |e.info| && e.info[h].status == 0
    ensures Succeeded(e.info, finished0, e.finished) == true
  {
  }

  lemma SettledDone(d: DiskState, e: DiskState)
    requires Settled(d, e) == true
    ensures forall h :: h in d.done ==> h < |d.info| == |e.info| && e.info[h] == d.info[h]
  {
  }

  lemma DoneGrows(d: DiskState, e: DiskState)
    requires Moved(d, e) == true
    ensures d.done <= e.done && e.flight == d.flight && e.finished == d.finished && e.busy == d.busy && e.free == d.free
    ensures e.held == d.held && e.behind == d.behind && e.seen == d.seen
  {
  }

  lemma FirstUnfinished(d: DiskState)
    requires Inv(d) == true && d.done != []
    ensures d.done[0] in d.flight && d.done[0] !in d.finished
  {
    assert d.done[0] in d.done;
  }

  ghost predicate Failed(info: seq<Info>, done: seq<nat>) {
    done != [] && done[0] < |info| && info[done[0]].status != 0
  }

  /** b->disk has been cleared for exactly the buffers of the newly finished requests. */
  ghost predicate Told(flight: Flight, busy: set<nat>, busy': set<nat>, finished: set<nat>, finished': set<nat>) {
    && (forall h :: h in finished' && h !in finished ==> h in flight && flight[h].b in busy && flight[h].b !in busy')
    && (forall b :: b in busy && b !in busy' ==>
            exists h :: h in finished' && h !in finished && h in flight && flight[h].b == b)
    && busy' <= busy
  }

  lemma TellOne(d: DiskState, busy0: set<nat>, busy: set<nat>, finished0: set<nat>, finished: set<nat>, h: nat)
    requires Told(d.flight, busy0, busy, finished0, finished) && finished0 <= finished && h in d.flight
            && h !in finished
    requires d.flight[h].b in busy && d.busy == busy - {d.flight[h].b} && d.finished == finished + {h}
    ensures Told(d.flight, busy0, d.busy, finished0, d.finished)
  {
    forall b | b in busy0 && b !in d.busy
      ensures exists g :: g in d.finished && g !in finished0 && g in d.flight && d.flight[g].b == b
    {
      if b !in busy {
        var g :| g in finished && g !in finished0 && g in d.flight && d.flight[g].b == b;
        assert g in d.finished;
      } else {
        assert h in d.finished;
      }
    }
  }

  lemma FirstOrRest(q: seq<nat>, h: nat, rest: seq<nat>)
    requires q <= [h] + rest
    ensures forall g :: g in q ==> g == h || g in rest
  {
  }

  lemma PickedThree(d: DiskState, e: DiskState, ds: seq<int>)
    requires Picked(d.free, e.free, e.held, ds) == true && |ds| == 3
    ensures 0 <= ds[0] < NUM && 0 <= ds[1] < NUM && 0 <= ds[2] < NUM && ds[0] != ds[1] && ds[0] != ds[2]
            && ds[1] != ds[2]
    ensures e.held == {ds[0], ds[1], ds[2]}
  {
  }

  /** With one request in flight or none, three descriptors are free. */
  lemma MustWait(d: DiskState)
    requires Inv(d) == true && d.held == {} && !ThreeFree(d.free)
    ensures |d.flight| == 2
  {
    AtMostTwo(d.desc, d.ops, d.free, d.flight, d.held);
    if |d.flight| < 2 { PlentyFree(d); }
  }

  lemma PlentyFree(d: DiskState)
    requires Inv(d) == true && d.held == {} && |d.flight| < 2
    ensures ThreeFree(d.free)
  {
    if d.flight == map[] {
      forall i | 0 <= i < NUM ensures d.free[i] { assert !InChain(d.flight, i); }
      InOrder(d.free, 0, 1, 2);
    } else {
      var h :| h in d.flight;
      OnlyOne(d.flight, h);
      assert Spells(d.desc, d.ops, h, d.flight[h]);
      hide Inv, ThreeFree;
      FiveOthers(h, d.flight[h]);
      FreeOutside(d, h, Upto(NUM) - Chain(h, d.flight[h]));
    }
  }

  lemma FiveOthers(h: nat, r: Request)
    requires h < NUM && r.d1 < NUM && r.d2 < NUM && h != r.d1 && h != r.d2 && r.d1 != r.d2
    ensures |Upto(NUM) - Chain(h, r)| == 5
  {
    ThreeEach(h, r);
    InUpto(h, r);
    hide *;
    LessSubset(Upto(NUM), Chain(h, r));
  }

  lemma InUpto(h: nat, r: Request)
    requires h < NUM && r.d1 < NUM && r.d2 < NUM
    ensures Chain(h, r) <= Upto(NUM) && |Upto(NUM)| == 8
  {
  }

  lemma LessSubset(all: set<nat>, c: set<nat>)
    requires c <= all
    ensures |all - c| == |all| - |c|
  {
    assert all * c == c;
    assert |all - c| == |all| - |all * c|;
  }

  lemma OnlyOne(flight: Flight, h: nat)
    requires h in flight && |flight| < 2
    ensures flight.Keys == {h}
  {
    assert |flight.Keys - {h}| == |flight| - 1;
  }

  function Upto(n: nat): (s: set<nat>)
    ensures |s| == n && forall x: nat :: x in s <==> x < n
  {
    if n == 0 then {} else Upto(n - 1) + {n - 1}
  }

  lemma FreeOutside(d: DiskState, h: nat, others: set<nat>)
    requires Inv(d) == true && d.held == {} && d.flight.Keys == {h} && |others| >= 3
            && others == Upto(NUM) - Chain(h, d.flight[h])
    ensures ThreeFree(d.free)
  {
    hide Inv, Chain, ThreeFree;
    var a, b, c := ThreeOf(others);
    IsFree(d, h, a);
    IsFree(d, h, b);
    IsFree(d, h, c);
    InOrder(d.free, a, b, c);
  }

  lemma IsFree(d: DiskState, h: nat, x: nat)
    requires Inv(d) == true && d.held == {} && d.flight.Keys == {h} && x < NUM && x !in Chain(h, d.flight[h])
    ensures |d.free| == NUM && d.free[x]
  {
    assert !InChain(d.flight, x);
  }

  lemma InOrder(free: seq<bool>, a: nat, b: nat, c: nat)
    requires a < |free| && b < |free| && c < |free| && a != b && a != c && b != c && free[a] && free[b] && free[c]
    ensures ThreeFree(free)
  {
    var lo := if a < b && a < c then a else if b < c then b else c;
    var hi := if a > b && a > c then a else if b > c then b else c;
    var mid := if a != lo && a != hi then a else if b != lo && b != hi then b else c;
    assert lo < mid < hi && free[lo] && free[mid] && free[hi];
  }

  lemma SteadySelf(d: DiskState)
    ensures Steady(d, d) == true
  {
  }

  lemma IsHeld(d: DiskState, i: nat)
    requires Inv(d) == true && i in d.held
    ensures i < |d.free| == NUM && !d.free[i]
  {
  }

  lemma StillSteady(d0: DiskState, d: DiskState, e: DiskState)
    requires Steady(d0, d) == true && Moved(d.(free := e.free, held := e.held, desc := e.desc), e) == true
    ensures Steady(d0, e) == true
  {
  }

  /** free_chain after `step` turns: what is left is still linked. */
  ghost predicate Unlinked(desc: seq<Desc>, free0: seq<bool>, free: seq<bool>, held: set<nat>, h: nat, r: Request,
                           step: nat) {
    && step <= 2 && |desc| == |free0| == |free| == NUM && h < NUM && r.d1 < NUM && r.d2 < NUM && h != r.d1 && h != r.d2
    && r.d1 != r.d2
    && held == (if step == 0 then {h, r.d1, r.d2} else if step == 1 then {r.d1, r.d2} else {r.d2})
    && (step == 0 ==> desc[h].hasNext && desc[h].next == r.d1)
    && (step <= 1 ==> desc[r.d1].hasNext && desc[r.d1].next == r.d2)
    && !desc[r.d2].hasNext
    && forall i :: 0 <= i < NUM ==> free[i] == (free0[i] || (i == h && step > 0) || (i == r.d1 && step > 1))
  }

  lemma AllLinked(d: DiskState, h: nat, r: Request)
    requires |d.free| == NUM && Spells(d.desc, d.ops, h, r) == true && d.held == Chain(h, r)
    ensures Unlinked(d.desc, d.free, d.free, d.held, h, r, 0) == true
  {
  }

  lemma UnlinkOne(desc: seq<Desc>, free0: seq<bool>, free: seq<bool>, held: set<nat>, h: nat, r: Request, step: nat,
                  i: nat)
    requires Unlinked(desc, free0, free, held, h, r, step) == true
            && i == (if step == 0 then h else if step == 1 then r.d1 else r.d2)
    ensures i < |desc| == |free| == |free0| == NUM && i in held && (desc[i].hasNext <==> step < 2)
    ensures step < 2 ==>
              && desc[i].next == (if step == 0 then r.d1 else r.d2)
              && Unlinked(desc[i := FREED], free0, free[i := true], held - {i}, h, r, step + 1) == true
    ensures step == 2 ==>
              held - {i} == {} && forall k :: 0 <= k < NUM ==> free[i := true][k] == (free0[k] || k in Chain(h, r))
  {
    assert held - {i} == (if step == 0 then {r.d1, r.d2} else if step == 1 then {r.d2} else {});
  }

  /** The descriptors ds, distinct and free before, have been marked used and are
      held; no other was. */
  ghost predicate Picked(free: seq<bool>, free': seq<bool>, held: set<nat>, ds: seq<int>) {
    && |free| == |free'| == NUM
    && (forall i :: 0 <= i < |ds| ==> 0 <= ds[i] < NUM && free[ds[i]])
    && (forall i, j :: 0 <= i < j < |ds| ==> ds[i] != ds[j])
    && (forall k: nat :: k in held <==> k in ds)
    && (forall k :: 0 <= k < NUM ==> (free'[k] <==> free[k] && k !in ds))
  }

  lemma NonePicked(d: DiskState)
    requires |d.free| == NUM && d.held == {}
    ensures Picked(d.free, d.free, d.held, []) == true
  {
  }

  lemma PickOne(free: seq<bool>, free': seq<bool>, held: set<nat>, ds: seq<int>, x: nat)
    requires Picked(free, free', held, ds) == true && x < |free'| && free'[x]
    ensures Picked(free, free'[x := false], held + {x}, ds + [x]) == true
  {
  }

  lemma UnpickOne(free: seq<bool>, free': seq<bool>, held: set<nat>, ds: seq<int>)
    requires Picked(free, free', held, ds) == true && ds != []
    ensures 0 <= ds[0] < |free'| && !free'[ds[0]] && ds[0] in held
    ensures Picked(free, free'[ds[0] := true], held - {ds[0]}, ds[1..]) == true
  {
    assert ds == [ds[0]] + ds[1..];
  }

  lemma Unpicked(free: seq<bool>, free': seq<bool>, held: set<nat>)
    requires Picked(free, free', held, []) == true
    ensures free' == free && held == {}
  {
  }

  lemma NoThird(free: seq<bool>, free': seq<bool>, held: set<nat>, ds: seq<int>)
    requires Picked(free, free', held, ds) == true && |ds| < 3 && forall k :: 0 <= k < NUM ==> !free'[k]
    ensures !ThreeFree(free)
  {
    forall i, j, k | 0 <= i < j < k < |free| ensures !(free[i] && free[j] && free[k]) {
      assert (free[i] ==> i in ds) && (free[j] ==> j in ds) && (free[k] ==> k in ds);
    }
  }

  ghost predicate ThreeFree(free: seq<bool>) {
    exists i, j, k :: 0 <= i < j < k < |free| && free[i] && free[j] && free[k]
  }
}
