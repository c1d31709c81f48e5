/** How many free blocks a write takes: one for every block of the file it finds
    unmapped, and one for the indirect block if it is the first to need it. */
module FsSpace {
  import opened Blocks
  import opened FsLayout
  import opened FsMaps
  import opened FsBytes
  import opened FsFiles

  /** The free blocks of a disk whose blocks in use are `owner`'s. */
  function FreeBlocks(sb: Superblock, owner: map<nat, Owner>): int { sb.size - sb.nmeta - |owner| }

  /** What bmap of block `bn` must allocate. */
  function NeedOf(blocks: Store, ino: Inode, bn: nat): nat
    requires InodeOK(|blocks|, ino) && bn < MAXFILE
  {
    if DataBlock(blocks, ino, bn) != 0 then 0 else if bn < NDIRECT || ino.addrs[INDIRECT] != 0 then 1 else 2
  }

  /** A range of block numbers that a file has. */
  predicate InFile(lo: nat, c: nat) { c == 0 || lo + c <= MAXFILE }

  /** The unmapped blocks among the `c` from `lo` on. */
  function Holes(blocks: Store, ino: Inode, lo: nat, c: nat): nat
    requires InodeOK(|blocks|, ino) && InFile(lo, c)
  {
    if c == 0 then 0
    else Holes(blocks, ino, lo, c - 1) + if DataBlock(blocks, ino, lo + c - 1) == 0 then 1 else 0
  }

  function IndirectNeeded(ino: Inode, lo: nat, c: nat): nat
    requires |ino.addrs| == NDIRECT + 1
  {
    if ino.addrs[INDIRECT] == 0 && c > 0 && lo + c > NDIRECT then 1 else 0
  }

  /** What it takes to have the `c` blocks from `lo` on mapped. */
  function Needed(blocks: Store, ino: Inode, lo: nat, c: nat): nat
    requires InodeOK(|blocks|, ino) && InFile(lo, c)
  {
    Holes(blocks, ino, lo, c) + IndirectNeeded(ino, lo, c)
  }

  /** An attempt to map a block took `need` blocks, or there were fewer. */
  predicate Charges(sb: Superblock, o0: map<nat, Owner>, o: map<nat, Owner>, need: nat, addr: nat) {
    if addr != 0 then |o| == |o0| + need else FreeBlocks(sb, o0) < need
  }

  /** Since (b0, ino0), exactly the `c` blocks from `lo` on have been mapped. */
  ghost predicate MapsRange(b0: Store, ino0: Inode, b: Store, ino: Inode, lo: nat, c: nat) {
    && InodeOK(|b0|, ino0) && InodeOK(|b|, ino) && InFile(lo, c)
    && (forall n :: 0 <= n < MAXFILE ==>
          (DataBlock(b, ino, n) != 0 <==> lo <= n < lo + c || DataBlock(b0, ino0, n) != 0))
    && (ino.addrs[INDIRECT] != 0 <==> ino0.addrs[INDIRECT] != 0 || (c > 0 && lo + c > NDIRECT))
  }

  /** So they have, and at what it takes. */
  ghost predicate Charged(b0: Store, i0: seq<Inode>, o0: map<nat, Owner>, b: Store, inodes: seq<Inode>,
                          o: map<nat, Owner>, i: nat, lo: nat, c: nat) {
    && i < |i0| && i < |inodes| && MapsRange(b0, i0[i], b, inodes[i], lo, c)
    && |o| == |o0| + Needed(b0, i0[i], lo, c)
  }

  /** There is room for the `c` blocks from `lo` on, and not for one more. */
  ghost predicate RoomFor(sb: Superblock, b0: Store, i0: seq<Inode>, o0: map<nat, Owner>, i: nat, lo: nat, c: nat) {
    && i < |i0| && InodeOK(|b0|, i0[i]) && lo + c < MAXFILE
    && Needed(b0, i0[i], lo, c) <= FreeBlocks(sb, o0) < Needed(b0, i0[i], lo, c + 1)
  }

  /** One block mapped, unless there was too little room: `addr` is 0 then. */
  ghost predicate Took(sb: Superblock, b0: Store, i0: seq<Inode>, o0: map<nat, Owner>, b: Store, inodes: seq<Inode>,
                       o: map<nat, Owner>, i: nat, bn: nat, addr: nat) {
    && i < |i0| && i < |inodes| && InodeOK(|b0|, i0[i]) && bn < MAXFILE
    && Charges(sb, o0, o, NeedOf(b0, i0[i], bn), addr)
    && (addr != 0 ==> MapsRange(b0, i0[i], b, inodes[i], bn, 1))
  }

  lemma TookOne(sb: Superblock, blocks: Store, inodes: seq<Inode>, owner: map<nat, Owner>, blocks': Store,
                inodes': seq<Inode>, owner': map<nat, Owner>, i: nat, bn: nat, addr: nat)
    requires Mapped(blocks, inodes, owner, blocks', inodes', owner', i, bn, addr) == true
    requires i < |inodes'| && i < |inodes| && InodeOK(|blocks|, inodes[i]) && |inodes'[i].addrs| == NDIRECT + 1
            && bn < MAXFILE
    requires addr != 0 ==>
               (inodes'[i].addrs[INDIRECT] != 0 <==> inodes[i].addrs[INDIRECT] != 0 || bn >= NDIRECT)
    requires Charges(sb, owner, owner', NeedOf(blocks, inodes[i], bn), addr) == true
    ensures Took(sb, blocks, inodes, owner, blocks', inodes', owner', i, bn, addr) == true
  {
  }

  ghost predicate SameMap(b: Store, inodes: seq<Inode>, b': Store, inodes': seq<Inode>, i: nat) {
    && i < |inodes| && i < |inodes'| && InodeOK(|b|, inodes[i]) && InodeOK(|b'|, inodes'[i])
    && inodes[i].addrs == inodes'[i].addrs
    && (forall n :: 0 <= n < MAXFILE ==> DataBlock(b', inodes'[i], n) == DataBlock(b, inodes[i], n))
  }

  lemma TookStays(sb: Superblock, b0: Store, i0: seq<Inode>, o0: map<nat, Owner>, b: Store, b': Store,
                  inodes: seq<Inode>, o: map<nat, Owner>, i: nat, bn: nat, addr: nat)
    requires Took(sb, b0, i0, o0, b, inodes, o, i, bn, addr) == true && SameMap(b, inodes, b', inodes, i) == true
    ensures Took(sb, b0, i0, o0, b', inodes, o, i, bn, addr) == true
  {
  }

  lemma ChargeStays(b0: Store, i0: seq<Inode>, o0: map<nat, Owner>, b: Store, inodes: seq<Inode>, b': Store,
                    inodes': seq<Inode>, o: map<nat, Owner>, i: nat, lo: nat, c: nat)
    requires Charged(b0, i0, o0, b, inodes, o, i, lo, c) == true && SameMap(b, inodes, b', inodes', i) == true
    ensures Charged(b0, i0, o0, b', inodes', o, i, lo, c) == true
  {
  }

  lemma NothingCharged(b: Store, inodes: seq<Inode>, o: map<nat, Owner>, i: nat, lo: nat)
    requires i < |inodes| && InodeOK(|b|, inodes[i])
    ensures Charged(b, inodes, o, b, inodes, o, i, lo, 0) == true
  {
  }

  /** The next block costs what the range with it costs more. */
  lemma NeedOfNext(b0: Store, ino0: Inode, b: Store, ino: Inode, lo: nat, c: nat)
    requires MapsRange(b0, ino0, b, ino, lo, c) == true && lo + c < MAXFILE
    ensures InodeOK(|b0|, ino0) && InodeOK(|b|, ino)
    ensures Needed(b0, ino0, lo, c + 1) == Needed(b0, ino0, lo, c) + NeedOf(b, ino, lo + c)
  {
    var n := lo + c;
    assert DataBlock(b, ino, n) != 0 <==> DataBlock(b0, ino0, n) != 0;
  }

  lemma MapsMore(b0: Store, ino0: Inode, b1: Store, ino1: Inode, b2: Store, ino2: Inode, lo: nat, c: nat)
    requires MapsRange(b0, ino0, b1, ino1, lo, c) == true && MapsRange(b1, ino1, b2, ino2, lo + c, 1) == true
    ensures MapsRange(b0, ino0, b2, ino2, lo, c + 1) == true
  {
  }

  /** One chunk's mapping, on top of `c`. */
  lemma ChargedMore(sb: Superblock, b0: Store, i0: seq<Inode>, o0: map<nat, Owner>, b1: Store, i1: seq<Inode>,
                    o1: map<nat, Owner>, b2: Store, i2: seq<Inode>, o2: map<nat, Owner>, i: nat, lo: nat, c: nat,
                    addr: nat)
    requires Charged(b0, i0, o0, b1, i1, o1, i, lo, c) == true && FreeBlocks(sb, o1) >= 0
    requires Took(sb, b1, i1, o1, b2, i2, o2, i, lo + c, addr) == true
    ensures addr != 0 ==> Charged(b0, i0, o0, b2, i2, o2, i, lo, c + 1) == true
    ensures addr == 0 ==> RoomFor(sb, b0, i0, o0, i, lo, c) == true
  {
    hide MapsRange;
    NeedOfNext(b0, i0[i], b1, i1[i], lo, c);
    if addr != 0 { MapsMore(b0, i0[i], b1, i1[i], b2, i2[i], lo, c); }
  }

  /** How many of `n` bytes a write touches when `avail` can be read: the first that
      cannot has its block mapped before the copy fails. */
  function Reach(n: nat, avail: nat): nat { if avail < n then avail + 1 else n }

  /** Which block of a file byte `at` is in. */
  function BlockOf(at: nat): nat { at / BSIZE }

  lemma AtBlock(off: nat, n: nat, tot: nat, c: nat)
    requires tot < n && off + n <= MAXFILE * BSIZE && AtChunk(off, n, tot, c) == true
    ensures BlockOf(off) + c == BlockOf(off + tot) && c == Chunks(off, tot)
  {
    if tot > 0 {
      var x := off + tot;
      assert x % BSIZE == 0 && (x - 1) / BSIZE == x / BSIZE - 1;
    }
  }

  lemma LastReached(off: nat, n: nat, tot: nat, c: nat, avail: nat)
    requires tot < n && AtChunk(off, n, tot, c) == true && BlockOf(off) + c == BlockOf(off + tot)
    requires tot <= avail < tot + ChunkSize(off + tot, n - tot)
    ensures c + 1 == Chunks(off, Reach(n, avail))
  {
    var x, y := off + tot, off + avail;
    assert y / BSIZE == x / BSIZE;
  }

  /** The disk has room for a write of `n` bytes at `off`. */
  ghost predicate Enough(sb: Superblock, b0: Store, i0: seq<Inode>, o0: map<nat, Owner>, i: nat, off: nat, n: nat) {
    && i < |i0| && InodeOK(|b0|, i0[i]) && InFile(BlockOf(off), Chunks(off, n))
    && Needed(b0, i0[i], BlockOf(off), Chunks(off, n)) <= FreeBlocks(sb, o0)
  }

  lemma NeededGrows(b: Store, ino: Inode, lo: nat, c: nat, c': nat)
    requires InodeOK(|b|, ino) && c <= c' && InFile(lo, c')
    ensures Needed(b, ino, lo, c) <= Needed(b, ino, lo, c')
  {
    if c < c' { NeededGrows(b, ino, lo, c, c' - 1); }
  }

  /** A write that found a block missing was one the disk had no room for. */
  lemma NotEnough(sb: Superblock, b0: Store, i0: seq<Inode>, o0: map<nat, Owner>, i: nat, off: nat, tot: nat, n: nat)
    requires RoomFor(sb, b0, i0, o0, i, BlockOf(off), Chunks(off, tot)) == true && StopsAt(off, tot, 0) == true
    requires tot < n
    ensures Enough(sb, b0, i0, o0, i, off, n) == false
  {
    assert Chunks(off, tot) + 1 <= Chunks(off, n) by {
      var x, y := off + tot, off + n - 1;
      assert x / BSIZE <= y / BSIZE;
      if tot > 0 { assert (x - 1) / BSIZE == x / BSIZE - 1; }
    }
    if InFile(BlockOf(off), Chunks(off, n)) {
      NeededGrows(b0, i0[i], BlockOf(off), Chunks(off, tot) + 1, Chunks(off, n));
    }
  }

  lemma ChargedIsEnough(sb: Superblock, b0: Store, i0: seq<Inode>, o0: map<nat, Owner>, b: Store, inodes: seq<Inode>,
                        o: map<nat, Owner>, i: nat, off: nat, n: nat)
    requires Charged(b0, i0, o0, b, inodes, o, i, BlockOf(off), Chunks(off, n)) == true && FreeBlocks(sb, o) >= 0
    ensures Enough(sb, b0, i0, o0, i, off, n) == true
  {
  }

  lemma HolesFilled(b0: Store, ino0: Inode, b1: Store, ino1: Inode, lo: nat, c: nat, lo2: nat, c2: nat)
    requires MapsRange(b0, ino0, b1, ino1, lo, c) && lo <= lo2 && lo2 + c2 <= lo + c
    ensures Holes(b1, ino1, lo2, c2) == 0
  {
    if c2 > 0 { HolesFilled(b0, ino0, b1, ino1, lo, c, lo2, c2 - 1); }
  }

  lemma HolesSplit(b0: Store, ino0: Inode, b1: Store, ino1: Inode, lo: nat, c: nat, lo2: nat, c2: nat)
    requires MapsRange(b0, ino0, b1, ino1, lo, c) && lo <= lo2 <= lo + c <= lo2 + c2 && InFile(lo2, c2)
    ensures Holes(b0, ino0, lo, lo2 + c2 - lo) == Holes(b0, ino0, lo, c) + Holes(b1, ino1, lo2, c2)
    decreases c2
  {
    if lo2 + c2 == lo + c {
      HolesFilled(b0, ino0, b1, ino1, lo, c, lo2, c2);
    } else {
      HolesSplit(b0, ino0, b1, ino1, lo, c, lo2, c2 - 1);
      var n := lo2 + c2 - 1;
      assert DataBlock(b1, ino1, n) != 0 <==> DataBlock(b0, ino0, n) != 0;
    }
  }

  /** What a range takes is what its start took and what the rest takes after that. */
  lemma NeededSplit(b0: Store, ino0: Inode, b1: Store, ino1: Inode, lo: nat, c: nat, lo2: nat, c2: nat)
    requires MapsRange(b0, ino0, b1, ino1, lo, c) == true && lo <= lo2 <= lo + c <= lo2 + c2 && InFile(lo2, c2)
    ensures InodeOK(|b0|, ino0) && InodeOK(|b1|, ino1)
    ensures Needed(b0, ino0, lo, lo2 + c2 - lo) == Needed(b0, ino0, lo, c) + Needed(b1, ino1, lo2, c2)
  {
    HolesSplit(b0, ino0, b1, ino1, lo, c, lo2, c2);
  }

  lemma MapsJoin(b0: Store, ino0: Inode, b1: Store, ino1: Inode, b2: Store, ino2: Inode, lo: nat, c: nat, lo2: nat,
                 c2: nat)
    requires MapsRange(b0, ino0, b1, ino1, lo, c) == true && MapsRange(b1, ino1, b2, ino2, lo2, c2) == true
    requires lo <= lo2 <= lo + c <= lo2 + c2
    ensures MapsRange(b0, ino0, b2, ino2, lo, lo2 + c2 - lo) == true
  {
  }

  lemma ChunksJoin(off: nat, k: nat, m: nat)
    requires m > 0
    ensures BlockOf(off) <= BlockOf(off + k) <= BlockOf(off) + Chunks(off, k) <= BlockOf(off + k) + Chunks(off + k, m)
    ensures BlockOf(off + k) + Chunks(off + k, m) == BlockOf(off) + Chunks(off, k + m)
  {
    var x, y := off + k, off + k + m - 1;
    assert x / BSIZE <= y / BSIZE;
    if k > 0 {
      assert off / BSIZE <= (x - 1) / BSIZE <= x / BSIZE <= (x - 1) / BSIZE + 1;
    }
  }

  /** After `k` bytes of a write, there is room for `m` more exactly if there was room
      for `k + m` at the start. */
  lemma EnoughMore(sb: Superblock, b0: Store, i0: seq<Inode>, o0: map<nat, Owner>, b1: Store, i1: seq<Inode>,
                   o1: map<nat, Owner>, i: nat, off: nat, k: nat, m: nat)
    requires Charged(b0, i0, o0, b1, i1, o1, i, BlockOf(off), Chunks(off, k)) == true && m > 0
    ensures Enough(sb, b1, i1, o1, i, off + k, m) == true <==> Enough(sb, b0, i0, o0, i, off, k + m) == true
  {
    hide MapsRange, Needed, BlockOf, Chunks;
    MapsOK(b0, i0[i], b1, i1[i], BlockOf(off), Chunks(off, k));
    ChunksJoin(off, k, m);
    if InFile(BlockOf(off), Chunks(off, k + m)) {
      NeededSplit(b0, i0[i], b1, i1[i], BlockOf(off), Chunks(off, k), BlockOf(off + k), Chunks(off + k, m));
    }
  }

  lemma MapsOK(b0: Store, ino0: Inode, b: Store, ino: Inode, lo: nat, c: nat)
    requires MapsRange(b0, ino0, b, ino, lo, c) == true
    ensures InodeOK(|b0|, ino0) && InodeOK(|b|, ino) && InFile(lo, c)
  {
  }

  lemma ChargedJoin(b0: Store, i0: seq<Inode>, o0: map<nat, Owner>, b1: Store, i1: seq<Inode>, o1: map<nat, Owner>,
                    b2: Store, i2: seq<Inode>, o2: map<nat, Owner>, i: nat, off: nat, k: nat, m: nat)
    requires Charged(b0, i0, o0, b1, i1, o1, i, BlockOf(off), Chunks(off, k)) == true && m > 0
    requires Charged(b1, i1, o1, b2, i2, o2, i, BlockOf(off + k), Chunks(off + k, m)) == true
    ensures Charged(b0, i0, o0, b2, i2, o2, i, BlockOf(off), Chunks(off, k + m)) == true
  {
    hide MapsRange, Needed, BlockOf, Chunks;
    MapsOK(b1, i1[i], b2, i2[i], BlockOf(off + k), Chunks(off + k, m));
    ChunksJoin(off, k, m);
    NeededSplit(b0, i0[i], b1, i1[i], BlockOf(off), Chunks(off, k), BlockOf(off + k), Chunks(off + k, m));
    MapsJoin(b0, i0[i], b1, i1[i], b2, i2[i], BlockOf(off), Chunks(off, k), BlockOf(off + k), Chunks(off + k, m));
  }

  lemma RoomForMore(sb: Superblock, b0: Store, i0: seq<Inode>, o0: map<nat, Owner>, b1: Store, i1: seq<Inode>,
                    o1: map<nat, Owner>, i: nat, off: nat, k: nat, r: nat)
    requires Charged(b0, i0, o0, b1, i1, o1, i, BlockOf(off), Chunks(off, k)) == true
    requires RoomFor(sb, b1, i1, o1, i, BlockOf(off + k), Chunks(off + k, r)) == true
    ensures RoomFor(sb, b0, i0, o0, i, BlockOf(off), Chunks(off, k + r)) == true
  {
    hide MapsRange, Needed, BlockOf, Chunks;
    var lo, c, lo2, c2 := BlockOf(off), Chunks(off, k), BlockOf(off + k), Chunks(off + k, r);
    MapsOK(b0, i0[i], b1, i1[i], lo, c);
    NoChunks(off + k);
    if r > 0 {
      ChunksJoin(off, k, r);
      NeededSplit(b0, i0[i], b1, i1[i], lo, c, lo2, c2);
    } else {
      ChunksJoin(off, k, 1);
      OneChunk(off + k);
      if lo2 + 1 == lo + c { MappedNeedsNone(b0, i0[i], b1, i1[i], lo, c, lo2); }
      NoneNeeded(b1, i1[i], lo2);
    }
    NeededSplit(b0, i0[i], b1, i1[i], lo, c, lo2, c2 + 1);
  }

  lemma NoChunks(off: nat)
    ensures Chunks(off, 0) == 0
  {
  }

  lemma OneChunk(off: nat)
    ensures Chunks(off, 1) == 1
  {
  }

  lemma NoneNeeded(b: Store, ino: Inode, lo: nat)
    requires InodeOK(|b|, ino)
    ensures Needed(b, ino, lo, 0) == 0
  {
  }

  lemma MappedNeedsNone(b0: Store, ino0: Inode, b: Store, ino: Inode, lo: nat, c: nat, bn: nat)
    requires MapsRange(b0, ino0, b, ino, lo, c) == true && lo <= bn < lo + c
    ensures InodeOK(|b|, ino) && lo + c <= MAXFILE && Needed(b, ino, bn, 1) == 0
  {
    assert DataBlock(b, ino, bn + 1 - 1) != 0 && Holes(b, ino, bn, 0) == 0;
  }

  lemma HoleWas(b0: Store, i0: seq<Inode>, o0: map<nat, Owner>, b: Store, inodes: seq<Inode>, o: map<nat, Owner>,
                i: nat, lo: nat, c: nat, at: nat)
    requires Charged(b0, i0, o0, b, inodes, o, i, lo, c) == true && HoleAt(b, inodes, i, at) == true
    ensures HoleAt(b0, i0, i, at) == true
  {
    assert DataBlock(b, inodes[i], at / BSIZE) == 0;
  }

  lemma HoleAtBoundary(b0: Store, i0: seq<Inode>, o0: map<nat, Owner>, b: Store, inodes: seq<Inode>,
                       o: map<nat, Owner>, i: nat, off: nat, k: nat)
    requires Charged(b0, i0, o0, b, inodes, o, i, BlockOf(off), Chunks(off, k)) == true && k > 0
            && HoleAt(b, inodes, i, off + k) == true
    ensures (off + k) % BSIZE == 0
  {
    var x := off + k;
    assert DataBlock(b, inodes[i], BlockOf(x)) == 0;
    assert BlockOf(x) >= BlockOf(off) + Chunks(off, k) == (x - 1) / BSIZE + 1;
  }

  lemma EnoughForLess(sb: Superblock, b0: Store, i0: seq<Inode>, o0: map<nat, Owner>, i: nat, off: nat, n: nat, m: nat)
    requires Enough(sb, b0, i0, o0, i, off, n) == true && m <= n
    ensures Enough(sb, b0, i0, o0, i, off, m) == true
  {
    ChunksGrow(off, m, n);
    NeededGrows(b0, i0[i], BlockOf(off), Chunks(off, m), Chunks(off, n));
  }

  /** What filewrite stores if the copy fails after `avail` bytes: all transactions
      before that, and of the one it fails in the whole chunks. */
  function CopyStops(off: nat, avail: nat): nat {
    var w := avail / (3 * BSIZE) * (3 * BSIZE);
    w + WholeChunks(off + w, avail - w)
  }

  /** A transaction starts after `k` bytes. */
  predicate AtTransaction(k: nat) { k % (3 * BSIZE) == 0 }

  /** More than a file can hold. */
  predicate Beyond(at: nat) { at > MAXFILE * BSIZE }

  predicate OnBoundary(at: nat) { at % BSIZE == 0 }

  /** The length of the transaction after `k` of `n` bytes. */
  function TransactionLength(k: nat, n: nat): nat
    requires k <= n
  {
    if n - k > 3 * BSIZE then 3 * BSIZE else n - k
  }

  /** filewrite of `n` bytes at `off` stores all of them. */
  ghost predicate Stores(sb: Superblock, b0: Store, i0: seq<Inode>, o0: map<nat, Owner>, i: nat, off: nat, n: nat,
                         avail: nat) {
    && i < |i0| && off <= i0[i].size && !Beyond(off + n) && n <= avail
    && Enough(sb, b0, i0, o0, i, off, n)
  }

  /** Why filewrite stores `w` of `n` bytes and no more, the blocks being `b` then: the
      offset is past the end; the next transaction would go beyond the largest file; the
      disk is full, the next block of the file is not mapped, it is past the old end and
      there was room for just the blocks up to it; or the user's memory gives no more. */
  ghost predicate Halted(sb: Superblock, b0: Store, i0: seq<Inode>, o0: map<nat, Owner>, b: Store, i: nat, off: nat,
                         n: nat, avail: nat, w: nat, spill: nat) {
    && i < |i0| && w < n
    && (if off > i0[i].size then w == spill == 0
        else
          || (&& spill == 0 && AtTransaction(w) && Beyond(off + w + TransactionLength(w, n)) && w <= avail
              && Enough(sb, b0, i0, o0, i, off, w))
          || (&& spill == 0 && Full(sb, b) && HoleAt(b0, i0, i, off + w) && off + w >= i0[i].size && w <= avail
              && (w == 0 || OnBoundary(off + w)) && RoomFor(sb, b0, i0, o0, i, BlockOf(off), Chunks(off, w)))
          || (&& w == CopyStops(off, avail) && w + spill == avail < n
              && Enough(sb, b0, i0, o0, i, off, avail + 1)))
  }

  lemma NextTransaction(k: nat)
    requires AtTransaction(k) == true
    ensures AtTransaction(k + 3 * BSIZE) == true
  {
  }

  lemma FirstTransaction()
    ensures AtTransaction(0) == true
  {
  }

  lemma CopyStopsIn(off: nat, k: nat, avail: nat)
    requires AtTransaction(k) == true && k <= avail < k + 3 * BSIZE
    ensures CopyStops(off, avail) == k + WholeChunks(off + k, avail - k)
  {
    assert avail / (3 * BSIZE) == k / (3 * BSIZE);
  }

  /** The transaction after `k` bytes stored only `r` (or failed). */
  lemma WhyHalted(sb: Superblock, b0: Store, i0: seq<Inode>, o0: map<nat, Owner>, b: Store, i: nat, off: nat, k: nat,
                  n: nat, avail: nat, r: int, spill: nat)
    requires i < |i0| && Tight(b0, i0) == true && k < n && k <= avail && AtTransaction(k) == true
            && (k == 0 || off <= i0[i].size)
    requires Enough(sb, b0, i0, o0, i, off, k) == true
    requires -1 <= r <= avail - k && r != TransactionLength(k, n)
    requires r == -1 <==> (k == 0 && off > i0[i].size) || Beyond(off + k + TransactionLength(k, n))
    requires r == -1 ==> spill == 0
    requires r != -1 && Enough(sb, b0, i0, o0, i, off, k + Reach(TransactionLength(k, n), avail - k)) == true ==>
               var m := TransactionLength(k, n);
               && r == (if avail - k < m then WholeChunks(off + k, avail - k) else m)
               && r + spill == (if avail - k < m then avail - k else m)
    requires r != -1 && Enough(sb, b0, i0, o0, i, off, k + Reach(TransactionLength(k, n), avail - k)) == false ==>
               && r < TransactionLength(k, n) && spill == 0 && Full(sb, b) == true
               && HoleAt(b0, i0, i, off + k + r) == true && (k + r == 0 || OnBoundary(off + k + r))
               && RoomFor(sb, b0, i0, o0, i, BlockOf(off), Chunks(off, k + r)) == true
    ensures Stores(sb, b0, i0, o0, i, off, n, avail) == false
    ensures Halted(sb, b0, i0, o0, b, i, off, n, avail, k + (if r < 0 then 0 else r), spill) == true
  {
    hide Enough, RoomFor, Full, CopyStops, AtTransaction, WholeChunks, BlockOf, Chunks;
    var m := TransactionLength(k, n);
    if Stores(sb, b0, i0, o0, i, off, n, avail) {
      EnoughForLess(sb, b0, i0, o0, i, off, n, k + m);
      assert false;
    }
    if r == -1 {
    } else if Enough(sb, b0, i0, o0, i, off, k + Reach(m, avail - k)) == true {
      CopyStopsIn(off, k, avail);
    } else {
      assert NoHoles(b0, i0[i]);
      HoleIsPastEnd(b0, i0, i, off, k + r);
    }
  }

  /** The transaction after `k` bytes stored all it had. */
  lemma Further(off: nat, k: nat, n: nat)
    requires k < n && AtTransaction(k) == true
    ensures var m := TransactionLength(k, n); k + m == n || AtTransaction(k + m) == true
  {
    NextTransaction(k);
  }

  lemma AllStored(sb: Superblock, b0: Store, i0: seq<Inode>, o0: map<nat, Owner>, i: nat, off: nat, n: nat, avail: nat)
    requires i < |i0| && off <= i0[i].size && !Beyond(off + n) && n <= avail
            && Enough(sb, b0, i0, o0, i, off, n) == true
    ensures Stores(sb, b0, i0, o0, i, off, n, avail) == true
  {
  }

  function ClearBits(sb: Superblock, blocks: Store): set<nat>
    requires sb.WellFormed() && |blocks| == sb.size
  {
    set b: nat | b < sb.size && !Used(sb, blocks, b)
  }

  /** The free blocks are those whose bit in the bitmap is clear. */
  lemma OwnersFit(sb: Superblock, blocks: Store, inodes: seq<Inode>, owner: map<nat, Owner>)
    requires Owned(sb, blocks, inodes, owner)
    ensures FreeBlocks(sb, owner) == |ClearBits(sb, blocks)|
    ensures Full(sb, blocks) == true <==> FreeBlocks(sb, owner) == 0
  {
    var free := ClearBits(sb, blocks);
    forall b: nat ensures b in free <==> sb.nmeta <= b < sb.size && b !in owner { }
    forall b: nat | b in owner ensures sb.nmeta <= b < sb.size { }
    if !Full(sb, blocks) {
      var b :| 0 <= b < sb.size && !Used(sb, blocks, b);
      assert b in free;
    }
    hide Owned, Used;
    FreeCount(owner, free, sb.nmeta, sb.size);
  }

  lemma FreeCount(owner: map<nat, Owner>, free: set<nat>, lo: nat, hi: nat)
    requires lo <= hi && forall b: nat :: b in free <==> lo <= b < hi && b !in owner
    requires forall b: nat :: b in owner ==> lo <= b < hi
    ensures hi - lo - |owner| == |free|
  {
    var all := DataBlocks(lo, hi);
    assert all == owner.Keys + free && owner.Keys !! free;
    assert |owner| == |owner.Keys| && |all| == |owner.Keys| + |free|;
  }

  function DataBlocks(lo: nat, hi: nat): (s: set<nat>)
    requires lo <= hi
    ensures |s| == hi - lo && forall b: nat :: b in s <==> lo <= b < hi
    decreases hi
  {
    if lo == hi then {} else DataBlocks(lo, hi - 1) + {hi - 1}
  }
}
