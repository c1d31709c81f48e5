/** File contents as bytes, and how writing one block changes them (kernel/fs.c). */
module FsBytes {
  import opened Blocks
  import opened FsLayout
  import opened FsMaps

  // ----------------------------------------------------------------- file contents

  /** Byte `p` of a file; 0 where no block is mapped. */
  function ByteOf(blocks: Store, ino: Inode, p: nat): byte
    requires InodeOK(|blocks|, ino) && p < MAXFILE * BSIZE
  {
    var addr := DataBlock(blocks, ino, p / BSIZE);
    if 0 < addr < |blocks| then blocks[addr][p % BSIZE] else 0
  }

  ghost predicate AllOK(n: nat, inodes: seq<Inode>) {
    forall j :: 0 <= j < |inodes| ==> InodeOK(n, inodes[j])
  }

  ghost predicate Comparable(blocks: Store, inodes: seq<Inode>, blocks': Store, inodes': seq<Inode>) {
    |blocks| == |blocks'| && |inodes| == |inodes'| && AllOK(|blocks|, inodes) && AllOK(|blocks|, inodes')
  }

  ghost predicate SameSizes(inodes: seq<Inode>, inodes': seq<Inode>) {
    |inodes| == |inodes'| && forall j :: 0 <= j < |inodes| ==> inodes'[j].size == inodes[j].size
  }

  ghost predicate SameBytes(blocks: Store, inodes: seq<Inode>, blocks': Store, inodes': seq<Inode>) {
    && Comparable(blocks, inodes, blocks', inodes')
    && forall j, p :: 0 <= j < |inodes| && 0 <= p < MAXFILE * BSIZE ==>
         ByteOf(blocks', inodes'[j], p) == ByteOf(blocks, inodes[j], p)
  }

  /** Bytes off..off+|data| of file `i` are `data`; every other byte of every file is as before. */
  ghost predicate BytesPut(blocks: Store, inodes: seq<Inode>, blocks': Store, inodes': seq<Inode>, i: nat, off: nat,
                           data: seq<byte>) {
    && Comparable(blocks, inodes, blocks', inodes') && i < |inodes|
    && forall j, p :: 0 <= j < |inodes| && 0 <= p < MAXFILE * BSIZE ==>
         ByteOf(blocks', inodes'[j], p) ==
         if j == i && off <= p < off + |data| then data[p - off] else ByteOf(blocks, inodes[j], p)
  }

  /** Blocks once mapped stay mapped. */
  ghost predicate MapGrew(blocks: Store, inodes: seq<Inode>, blocks': Store, inodes': seq<Inode>) {
    && Comparable(blocks, inodes, blocks', inodes')
    && forall j, n :: 0 <= j < |inodes| && 0 <= n < MAXFILE && DataBlock(blocks, inodes[j], n) != 0 ==>
         DataBlock(blocks', inodes'[j], n) == DataBlock(blocks, inodes[j], n)
  }

  function CopyIn(blk: Block, at: nat, data: seq<byte>): (r: Block)
    requires at + |data| <= BSIZE
    ensures forall q :: 0 <= q < BSIZE ==> r[q] == if at <= q < at + |data| then data[q - at] else blk[q]
  {
    blk[..at] + data + blk[at + |data|..]
  }

  lemma MappedKeepsBytes(sb: Superblock, blocks: Store, inodes: seq<Inode>, owner: map<nat, Owner>,
                         blocks': Store, inodes': seq<Inode>, owner': map<nat, Owner>, i: nat, bn: nat, addr: nat)
    requires Owned(sb, blocks, inodes, owner) && Owned(sb, blocks', inodes', owner')
    requires Mapped(blocks, inodes, owner, blocks', inodes', owner', i, bn, addr)
    ensures SameBytes(blocks, inodes, blocks', inodes') && MapGrew(blocks, inodes, blocks', inodes')
    ensures SameSizes(inodes, inodes')
  {
    forall j, p | 0 <= j < |inodes| && 0 <= p < MAXFILE * BSIZE
      ensures ByteOf(blocks', inodes'[j], p) == ByteOf(blocks, inodes[j], p)
    {
      var n := p / BSIZE;
      var a := DataBlock(blocks, inodes[j], n);
      if a != 0 {
        assert owner[a] == Owner(j, PtrOf(n)) && PtrOf(n) != INDIRECT;
      } else if j == i && n == bn && addr != 0 {
        FreshIsNotOwned(sb, blocks, inodes, owner, blocks', inodes', owner', i, bn, addr);
      }
    }
  }

  lemma FreshIsNotOwned(sb: Superblock, blocks: Store, inodes: seq<Inode>, owner: map<nat, Owner>,
                        blocks': Store, inodes': seq<Inode>, owner': map<nat, Owner>, i: nat, bn: nat, addr: nat)
    requires Owned(sb, blocks, inodes, owner) && Owned(sb, blocks', inodes', owner')
    requires Mapped(blocks, inodes, owner, blocks', inodes', owner', i, bn, addr)
    requires addr != 0 && DataBlock(blocks, inodes[i], bn) == 0
    ensures addr !in owner && addr < |blocks| && blocks'[addr] == ZeroBlock()
  {
    assert DataBlock(blocks', inodes'[i], bn) == addr;
    assert owner'[addr] == Owner(i, PtrOf(bn));
  }

  /** Changing the contents of a data block moves no pointer and no bitmap bit. */
  lemma CopyKeepsOwned(sb: Superblock, blocks: Store, inodes: seq<Inode>, owner: map<nat, Owner>, addr: nat, blk: Block)
    requires Owned(sb, blocks, inodes, owner) && addr in owner && owner[addr].k != INDIRECT
    ensures Owned(sb, blocks[addr := blk], inodes, owner)
    ensures forall j, k :: 0 <= j < |inodes| && 0 <= k < REFS ==>
              Ref(blocks[addr := blk], inodes[j], k) == Ref(blocks, inodes[j], k)
  {
    OnlyIndirectOwns(sb, blocks, inodes, owner, addr);
    RefsKept(sb, blocks, blocks[addr := blk], inodes, owner);
    OtherBlockSameBits(sb, blocks, blocks[addr := blk], addr);
  }

  lemma CopyPutsBytes(sb: Superblock, blocks: Store, inodes: seq<Inode>, owner: map<nat, Owner>,
                      i: nat, off: nat, data: seq<byte>, addr: nat)
    requires Owned(sb, blocks, inodes, owner) && i < |inodes| && off < MAXFILE * BSIZE
    requires 0 < |data| && off % BSIZE + |data| <= BSIZE
    requires addr != 0 && DataBlock(blocks, inodes[i], off / BSIZE) == addr
    ensures addr < |blocks|
    ensures var b' := blocks[addr := CopyIn(blocks[addr], off % BSIZE, data)];
            BytesPut(blocks, inodes, b', inodes, i, off, data) && MapGrew(blocks, inodes, b', inodes)
  {
    assert owner[addr] == Owner(i, PtrOf(off / BSIZE));
    var b' := blocks[addr := CopyIn(blocks[addr], off % BSIZE, data)];
    CopyKeepsOwned(sb, blocks, inodes, owner, addr, b'[addr]);
    forall j, p | 0 <= j < |inodes| && 0 <= p < MAXFILE * BSIZE
      ensures ByteOf(b', inodes[j], p) ==
              if j == i && off <= p < off + |data| then data[p - off] else ByteOf(blocks, inodes[j], p)
    {
      ByteInChunk(off, |data|, p);
      var a := DataBlock(blocks, inodes[j], p / BSIZE);
      if a == addr {
        assert owner[a] == Owner(j, PtrOf(p / BSIZE));
      }
    }
  }

  lemma ByteInChunk(off: nat, m: nat, p: nat)
    requires off % BSIZE + m <= BSIZE
    ensures off <= p < off + m <==> p / BSIZE == off / BSIZE && off % BSIZE <= p % BSIZE < off % BSIZE + m
    ensures off <= p < off + m ==> p % BSIZE - off % BSIZE == p - off
  {
  }

  // -------------------------------------------------------------------- inode blocks

  /** struct dinode number `slot` of an inode block: 16 words, of which word 2 is
      the size and words 3.. are the addresses. */
  function ReadDinode(blk: Block, slot: nat): Inode
    requires slot < IPB
  {
    Inode(GetWord(blk, 16 * slot + 2),
          seq<nat>(NDIRECT + 1, k requires 0 <= k <= NDIRECT => GetWord(blk, 16 * slot + 3 + k)))
  }

  lemma InodeBlockIsMeta(sb: Superblock, i: nat)
    requires sb.WellFormed() && i < sb.ninodes
    ensures sb.IBlock(i) < sb.bmapstart
  {
    assert i / IPB <= sb.ninodes / IPB;
  }

  lemma InodeBlockKeepsOwned(sb: Superblock, blocks: Store, inodes: seq<Inode>, owner: map<nat, Owner>, x: nat,
                             blk: Block)
    requires Owned(sb, blocks, inodes, owner) == true && x < sb.bmapstart
    ensures x < |blocks| && AllOK(|blocks|, inodes) && Owned(sb, blocks[x := blk], inodes, owner) == true
    ensures forall j, k :: 0 <= j < |inodes| && 0 <= k < REFS ==>
            Ref(blocks[x := blk], inodes[j], k) == Ref(blocks, inodes[j], k)
  {
    InodeBlockKeepsRefs(sb, blocks, inodes, owner, x, blk);
    InodeBlockSameBits(sb, blocks, owner, x, blk);
    hide OwnerPoints, PointerOwns, UsedIsOwned, Ref;
  }

  lemma InodeBlockKeepsRefs(sb: Superblock, blocks: Store, inodes: seq<Inode>, owner: map<nat, Owner>, x: nat,
                            blk: Block)
    requires Owned(sb, blocks, inodes, owner) && x < sb.bmapstart
    ensures Sized(sb, blocks[x := blk], inodes) && OwnerPoints(sb, blocks[x := blk], inodes, owner) == true
    ensures PointerOwns(blocks[x := blk], inodes, owner) == true
    ensures forall j, k :: 0 <= j < |inodes| && 0 <= k < REFS ==>
            Ref(blocks[x := blk], inodes[j], k) == Ref(blocks, inodes[j], k)
  {
    assert x < sb.nmeta && x !in owner;
    OnlyIndirectOwns(sb, blocks, inodes, owner, x);
    RefsKept(sb, blocks, blocks[x := blk], inodes, owner);
    hide Ref, Used;
  }

  lemma InodeBlockSameBits(sb: Superblock, blocks: Store, owner: map<nat, Owner>, x: nat, blk: Block)
    requires sb.WellFormed() && |blocks| == sb.size && x < sb.bmapstart && UsedIsOwned(sb, blocks, owner) == true
    ensures UsedIsOwned(sb, blocks[x := blk], owner) == true
  {
    var b' := blocks[x := blk];
    forall c | 0 <= c < sb.size ensures Used(sb, b', c) <==> c < sb.nmeta || c in owner {
      assert Used(sb, blocks, c) <==> c < sb.nmeta || c in owner;
    }
  }

  lemma InodeBlockKeepsBytes(sb: Superblock, blocks: Store, inodes: seq<Inode>, owner: map<nat, Owner>, x: nat,
                             blk: Block)
    requires Owned(sb, blocks, inodes, owner) && x < sb.bmapstart
    ensures var b' := blocks[x := blk]; SameBytes(blocks, inodes, b', inodes) && MapGrew(blocks, inodes, b', inodes)
  {
    InodeBlockKeepsOwned(sb, blocks, inodes, owner, x, blk);
    assert x < sb.nmeta && x !in owner;
    OwnedBlocksHoldBytes(blocks, blocks[x := blk], inodes, owner);
  }

  /** Files live in owned blocks only. */
  lemma OwnedBlocksHoldBytes(blocks: Store, b': Store, inodes: seq<Inode>, owner: map<nat, Owner>)
    requires |b'| == |blocks| && AllOK(|blocks|, inodes) && PointerOwns(blocks, inodes, owner)
    requires forall j, k :: 0 <= j < |inodes| && 0 <= k < REFS ==> Ref(b', inodes[j], k) == Ref(blocks, inodes[j], k)
    requires forall a :: a in owner && a < |blocks| ==> b'[a] == blocks[a]
    ensures SameBytes(blocks, inodes, b', inodes) && MapGrew(blocks, inodes, b', inodes)
  {
    forall j, p | 0 <= j < |inodes| && 0 <= p < MAXFILE * BSIZE
      ensures ByteOf(b', inodes[j], p) == ByteOf(blocks, inodes[j], p)
    {
      var a := Ref(blocks, inodes[j], PtrOf(p / BSIZE));
      if a != 0 { assert a in owner; }
    }
  }

  // ------------------------------------------------------------------------ writei

  /** `data` has been written at `off` of file `i`; sizes are not updated yet. */
  ghost predicate Written(blocks: Store, inodes: seq<Inode>, blocks': Store, inodes': seq<Inode>, i: nat, off: nat,
                          data: seq<byte>) {
    && BytesPut(blocks, inodes, blocks', inodes', i, off, data) && MapGrew(blocks, inodes, blocks', inodes')
    && SameSizes(inodes, inodes') && Covered(blocks', inodes'[i], off + |data|)
  }

  lemma MapGrewTwice(b0: Store, i0: seq<Inode>, b1: Store, i1: seq<Inode>, b2: Store, i2: seq<Inode>)
    requires MapGrew(b0, i0, b1, i1) && MapGrew(b1, i1, b2, i2)
    ensures MapGrew(b0, i0, b2, i2)
  {
  }

  lemma PutTwice(b0: Store, i0: seq<Inode>, b1: Store, i1: seq<Inode>, b2: Store, i2: seq<Inode>,
                 i: nat, off: nat, d: seq<byte>, e: seq<byte>)
    requires BytesPut(b0, i0, b1, i1, i, off, d) && BytesPut(b1, i1, b2, i2, i, off + |d|, e)
    ensures BytesPut(b0, i0, b2, i2, i, off, d + e)
  {
  }

  lemma CoveredMore(blocks: Store, ino: Inode, blocks': Store, ino': Inode, end: nat, m: nat)
    requires InodeOK(|blocks|, ino) && InodeOK(|blocks'|, ino') && Covered(blocks, ino, end)
    requires forall n :: 0 <= n < MAXFILE && DataBlock(blocks, ino, n) != 0 ==> DataBlock(blocks', ino', n) != 0
    requires end < MAXFILE * BSIZE && end % BSIZE + m <= BSIZE && DataBlock(blocks', ino', end / BSIZE) != 0
    ensures Covered(blocks', ino', end + m)
  {
    forall bn | 0 <= bn < MAXFILE && bn * BSIZE < end + m ensures DataBlock(blocks', ino', bn) != 0 {
      if bn * BSIZE >= end { assert bn == end / BSIZE; }
    }
  }

  lemma WrittenMore(b0: Store, i0: seq<Inode>, b1: Store, i1: seq<Inode>, b2: Store, i2: seq<Inode>,
                    i: nat, off: nat, d: seq<byte>, e: seq<byte>, at: nat)
    requires Written(b0, i0, b1, i1, i, off, d) && at == off + |d| < MAXFILE * BSIZE && at % BSIZE + |e| <= BSIZE
    requires BytesPut(b1, i1, b2, i2, i, at, e) && MapGrew(b1, i1, b2, i2) && SameSizes(i1, i2)
    requires DataBlock(b2, i2[i], at / BSIZE) != 0
    ensures Written(b0, i0, b2, i2, i, off, d + e)
  {
    PutTwice(b0, i0, b1, i1, b2, i2, i, off, d, e);
    MapGrewTwice(b0, i0, b1, i1, b2, i2);
    CoveredMore(b1, i1[i], b2, i2[i], at, |e|);
  }

  /** A chunk that failed may still have mapped its block, which changes no byte. */
  lemma WrittenNoMore(b0: Store, i0: seq<Inode>, b1: Store, i1: seq<Inode>, b2: Store, i2: seq<Inode>, i: nat, off: nat,
                      d: seq<byte>)
    requires Written(b0, i0, b1, i1, i, off, d) && SameBytes(b1, i1, b2, i2) && MapGrew(b1, i1, b2, i2)
            && SameSizes(i1, i2)
    ensures Written(b0, i0, b2, i2, i, off, d)
  {
    MapGrewTwice(b0, i0, b1, i1, b2, i2);
  }

  // ------------------------------------------------ blocks one writei may log

  /** m = min(left, BSIZE - at % BSIZE) */
  function ChunkSize(at: nat, left: nat): (m: nat)
    requires 0 < left
    ensures 0 < m <= left && at % BSIZE + m <= BSIZE
  {
    if left < BSIZE - at % BSIZE then left else BSIZE - at % BSIZE
  }

  /** How many blocks the bytes off..off+n touch. */
  function Chunks(off: nat, n: nat): nat {
    if n == 0 then 0 else (off + n - 1) / BSIZE - off / BSIZE + 1
  }

  /** A file's last, partly filled block is already mapped: no bitmap block for it. */
  function Slack(off: nat): nat { if off % BSIZE == 0 then 0 else 1 }

  /** The most data and bitmap blocks the first `c` chunks of a write log. */
  function ChunkLogs(off: nat, c: nat): nat {
    if c == 0 then 0 else 2 * c - Slack(off)
  }

  ghost function IndirectSet(sb: Superblock, ino: Inode): set<nat>
    requires |ino.addrs| == NDIRECT + 1
  {
    IndirectLogs(sb, NDIRECT, ino.addrs[INDIRECT])
  }

  ghost function ChunkSet(sb: Superblock, addr: nat, mapped: bool): set<nat> {
    if mapped then {addr} else NewLogs(sb, addr)
  }

  lemma ChunkSetSize(sb: Superblock, addr: nat, mapped: bool, spent: set<nat>, off: nat, c: nat)
    requires |spent| <= ChunkLogs(off, c) && (c == 0 && off % BSIZE != 0 ==> mapped)
    ensures |spent + ChunkSet(sb, addr, mapped)| <= ChunkLogs(off, c + 1)
  {
    UnionSize(spent, ChunkSet(sb, addr, mapped));
    UnionSize({addr}, {sb.BBlock(addr)});
    assert NewLogs(sb, addr) <= {addr} + {sb.BBlock(addr)};
    SubsetSize(NewLogs(sb, addr), {addr} + {sb.BBlock(addr)});
  }

  lemma UnionSize(a: set<nat>, b: set<nat>)
    ensures |a + b| <= |a| + |b|
  {
    assert a + b == a + (b - a);
  }

  lemma {:induction false} SubsetSize(a: set<nat>, b: set<nat>)
    requires a <= b
    ensures |a| <= |b|
  {
    if a != {} {
      var x :| x in a;
      SubsetSize(a - {x}, b - {x});
    }
  }

  /** The write loop stands at a block boundary, having done `c` chunks. */
  predicate AtChunk(off: nat, n: nat, tot: nat, c: nat) {
    (tot == 0 || tot == n || (off + tot) % BSIZE == 0) && c == Chunks(off, tot) && (c == 0 ==> tot == 0)
  }

  lemma ChunkCount(off: nat, tot: nat, m: nat, n: nat, c: nat)
    requires tot < n && AtChunk(off, n, tot, c) == true && m == ChunkSize(off + tot, n - tot)
    ensures AtChunk(off, n, tot + m, c + 1) == true && c + 1 <= Chunks(off, n) && (c == 0 ==> tot == 0)
  {
    ChunksGrow(off, tot + m, n);
  }

  lemma ChunksGrow(off: nat, n: nat, n': nat)
    requires n <= n'
    ensures Chunks(off, n) <= Chunks(off, n')
  {
  }

  /** No block is mapped at byte `at` of file `i`. */
  ghost predicate HoleAt(blocks: Store, inodes: seq<Inode>, i: nat, at: nat) {
    && i < |inodes| && InodeOK(|blocks|, inodes[i]) && at / BSIZE < MAXFILE
    && DataBlock(blocks, inodes[i], at / BSIZE) == 0
  }

  /** Where the write loop stops short: at the start of a chunk, `spill` bytes into it. */
  predicate StopsAt(off: nat, tot: nat, spill: nat) {
    (tot == 0 || (off + tot) % BSIZE == 0) && (off + tot) % BSIZE + spill < BSIZE
  }

  lemma ChunkStops(off: nat, n: nat, tot: nat, c: nat, spill: nat)
    requires tot < n && AtChunk(off, n, tot, c) == true && spill < ChunkSize(off + tot, n - tot)
    ensures StopsAt(off, tot, spill) == true
  {
  }

  /** Where writei's loop stands after writing `d` in `c` chunks: the blocks logged
      since `l0` are `spent` and those of the indirect block. */
  ghost predicate Progress(sb: Superblock, b0: Store, i0: seq<Inode>, l0: set<nat>, b: Store, inodes: seq<Inode>,
                           l: set<nat>,
                           i: nat, off: nat, d: seq<byte>, c: nat, spent: set<nat>) {
    && Written(b0, i0, b, inodes, i, off, d) && Grew(sb, b0, i0, b, inodes, i, 1)
    && l <= l0 + spent + IndirectSet(sb, inodes[i]) && |spent| <= ChunkLogs(off, c)
  }

  /** The chunk's own effect: one block mapped, and at most its data, bitmap and
      indirect blocks logged. */
  ghost predicate ChunkStep(sb: Superblock, b1: Store, i1: seq<Inode>, l1: set<nat>, b2: Store, i2: seq<Inode>,
                            l2: set<nat>,
                            i: nat, bn: nat, addr: nat) {
    && SameSizes(i1, i2) && MapGrew(b1, i1, b2, i2) && Grew(sb, b1, i1, b2, i2, i, 1) && bn < MAXFILE
    && (DataBlock(b1, i1[i], bn) != 0 ==> l2 <= l1 + {addr})
    && l2 <= l1 + NewLogs(sb, addr) + IndirectLogs(sb, bn, i2[i].addrs[INDIRECT])
  }

  lemma ChunkLogged(sb: Superblock, b1: Store, i1: seq<Inode>, l1: set<nat>, b2: Store, i2: seq<Inode>, l2: set<nat>,
                    i: nat, bn: nat, addr: nat)
    requires ChunkStep(sb, b1, i1, l1, b2, i2, l2, i, bn, addr) == true && addr != 0
    ensures ChunkStep(sb, b1, i1, l1, b2, i2, l2 + {addr}, i, bn, addr) == true
  {
  }

  lemma NoProgress(sb: Superblock, b: Store, inodes: seq<Inode>, l: set<nat>, i: nat, off: nat)
    requires AllOK(|b|, inodes) && i < |inodes| && Covered(b, inodes[i], off)
    ensures Progress(sb, b, inodes, l, b, inodes, l, i, off, [], 0, {}) == true
  {
  }

  lemma ProgressWithin(sb: Superblock, b0: Store, i0: seq<Inode>, l0: set<nat>, b: Store, inodes: seq<Inode>,
                       l: set<nat>,
                       i: nat, off: nat, d: seq<byte>, c: nat, c': nat, spent: set<nat>)
    requires Progress(sb, b0, i0, l0, b, inodes, l, i, off, d, c, spent) == true && c <= c'
    ensures Progress(sb, b0, i0, l0, b, inodes, l, i, off, d, c', spent) == true
  {
  }

  lemma ProgressLogs(sb: Superblock, b1: Store, i1: seq<Inode>, l1: set<nat>, b2: Store, i2: seq<Inode>, l2: set<nat>,
                     i: nat, bn: nat, addr: nat, l0: set<nat>, spent: set<nat>)
    requires ChunkStep(sb, b1, i1, l1, b2, i2, l2, i, bn, addr)
    requires l1 <= l0 + spent + IndirectSet(sb, i1[i])
    ensures l2 <= l0 + (spent + ChunkSet(sb, addr, DataBlock(b1, i1[i], bn) != 0)) + IndirectSet(sb, i2[i])
  {
  }

  lemma PartlyFilledIsMapped(blocks: Store, ino: Inode, off: nat)
    requires InodeOK(|blocks|, ino) && Covered(blocks, ino, off) && off < MAXFILE * BSIZE && off % BSIZE != 0
    ensures DataBlock(blocks, ino, off / BSIZE) != 0
  {
  }

  lemma ProgressOK(sb: Superblock, b0: Store, i0: seq<Inode>, l0: set<nat>, b: Store, inodes: seq<Inode>,
                   l: set<nat>, i: nat, off: nat, d: seq<byte>, c: nat, spent: set<nat>)
    requires Progress(sb, b0, i0, l0, b, inodes, l, i, off, d, c, spent) == true
    ensures i < |inodes| && InodeOK(|b|, inodes[i])
  {
  }

  /** A block that is unmapped after some chunks was so before. */
  lemma HoleBefore(sb: Superblock, b0: Store, i0: seq<Inode>, l0: set<nat>, b: Store, inodes: seq<Inode>,
                   l: set<nat>, i: nat, off: nat, d: seq<byte>, c: nat, spent: set<nat>, at: nat)
    requires Progress(sb, b0, i0, l0, b, inodes, l, i, off, d, c, spent) == true && HoleAt(b, inodes, i, at) == true
    ensures HoleAt(b0, i0, i, at) == true
  {
  }

  lemma ProgressFailed(sb: Superblock, b0: Store, i0: seq<Inode>, l0: set<nat>, b1: Store, i1: seq<Inode>, l1: set<nat>,
                       b2: Store, i2: seq<Inode>, l2: set<nat>,
                       i: nat, off: nat, d: seq<byte>, c: nat, spent: set<nat>, at: nat, addr: nat)
    requires at == off + |d| < MAXFILE * BSIZE && (c == 0 ==> d == [])
    requires Progress(sb, b0, i0, l0, b1, i1, l1, i, off, d, c, spent) == true
    requires ChunkStep(sb, b1, i1, l1, b2, i2, l2, i, at / BSIZE, addr) == true && SameBytes(b1, i1, b2, i2) == true
    ensures Progress(sb, b0, i0, l0, b2, i2, l2, i, off, d, c + 1,
                     spent + ChunkSet(sb, addr, DataBlock(b1, i1[i], at / BSIZE) != 0)) == true
  {
    if c == 0 && off % BSIZE != 0 { PartlyFilledIsMapped(b1, i1[i], off); }
    WrittenNoMore(b0, i0, b1, i1, b2, i2, i, off, d);
    GrewTwice(sb, b0, i0, b1, i1, b2, i2, i, 1, 1);
    ProgressLogs(sb, b1, i1, l1, b2, i2, l2, i, at / BSIZE, addr, l0, spent);
    ChunkSetSize(sb, addr, DataBlock(b1, i1[i], at / BSIZE) != 0, spent, off, c);
  }

  lemma ProgressMore(sb: Superblock, b0: Store, i0: seq<Inode>, l0: set<nat>, b1: Store, i1: seq<Inode>, l1: set<nat>,
                     b2: Store, i2: seq<Inode>, l2: set<nat>,
                     i: nat, off: nat, d: seq<byte>, c: nat, spent: set<nat>, at: nat, addr: nat, e: seq<byte>)
    requires at == off + |d| < MAXFILE * BSIZE && at % BSIZE + |e| <= BSIZE && (c == 0 ==> d == [])
    requires Progress(sb, b0, i0, l0, b1, i1, l1, i, off, d, c, spent) == true
    requires ChunkStep(sb, b1, i1, l1, b2, i2, l2, i, at / BSIZE, addr) == true
    requires BytesPut(b1, i1, b2, i2, i, at, e) == true && DataBlock(b2, i2[i], at / BSIZE) != 0
    ensures Progress(sb, b0, i0, l0, b2, i2, l2, i, off, d + e, c + 1,
                     spent + ChunkSet(sb, addr, DataBlock(b1, i1[i], at / BSIZE) != 0)) == true
  {
    if c == 0 && off % BSIZE != 0 { PartlyFilledIsMapped(b1, i1[i], off); }
    WrittenMore(b0, i0, b1, i1, b2, i2, i, off, d, e, at);
    GrewTwice(sb, b0, i0, b1, i1, b2, i2, i, 1, 1);
    ProgressLogs(sb, b1, i1, l1, b2, i2, l2, i, at / BSIZE, addr, l0, spent);
    ChunkSetSize(sb, addr, DataBlock(b1, i1[i], at / BSIZE) != 0, spent, off, c);
  }
}
