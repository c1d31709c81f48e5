/** kernel/fs.c: block allocation, inode block maps, reading and writing files. */
module FileSystem {
  import opened Blocks
  import opened FsLayout
  import opened FsMaps
  import opened FsBytes
  import opened FsSpace
  import opened FsFiles
  import opened FsTrunc
  import RedoLog

  class Fs {
    const sb: Superblock
    var blocks: Store            // what bread returns for each block
    var inodes: seq<Inode>       // the in-memory inodes
    ghost var owner: map<nat, Owner>
    ghost var base: Store        // the blocks as the transaction found them
    ghost var logged: set<nat>   // blocks passed to log_write in this transaction
    ghost var txs: seq<set<nat>> // what each finished transaction logged

    constructor (sb: Superblock, blocks: Store, inodes: seq<Inode>, ghost owner: map<nat, Owner>)
      requires Owned(sb, blocks, inodes, owner)
      ensures this.sb == sb && this.blocks == blocks && this.inodes == inodes && this.owner == owner
      ensures base == blocks && logged == {} && txs == []
    {
      this.sb, this.blocks, this.inodes, this.owner := sb, blocks, inodes, owner;
      base, logged, txs := blocks, {}, [];
    }

    ghost predicate MetaUsed()
      reads this
    {
      && sb.WellFormed() && |blocks| == sb.size
      && forall b :: 0 <= b < sb.nmeta ==> Used(sb, blocks, b)
    }

    /** balloc: the lowest free block, marked used and zeroed; 0 if there is none. */
    method Balloc() returns (b: nat)
      requires MetaUsed() == true
      modifies this`blocks, this`logged
      ensures |blocks| == |old(blocks)| && b < |blocks| && b < UINT_MAX
      ensures b == 0 ==> blocks == old(blocks) && logged == old(logged)
      ensures b == 0 ==> Full(sb, blocks) == true
      ensures b != 0 ==> Allocated(sb, old(blocks), blocks, b) == true && logged == old(logged) + {sb.BBlock(b), b}
      ensures b != 0 ==> UsedBelow(sb, old(blocks), b) == true
      ensures Recorded(base, old(blocks), old(logged)) == true ==> Recorded(base, blocks, logged) == true
    {
      hide Recorded, Used, UsedBelow, Full, Allocated, MetaUsed;
      AtFirst();
      var first := 0;
      while first < sb.size
        invariant first % BPB == 0 && blocks == old(blocks) && logged == old(logged)
        invariant UsedBelow(sb, blocks, first) == true
      {
        var bi := FindClear(first);
        if bi < BPB && first + bi < sb.size {
          b := first + bi;
          Take(b);
          return;
        }
        UsedOn(first + bi, first + BPB);
        first := first + BPB;
      }
      AllUsed(first);
      b := 0;
    }

    lemma AtFirst()
      requires MetaUsed() == true
      ensures UsedBelow(sb, blocks, 0) == true && 0 < |blocks| == sb.size < UINT_MAX
    {
    }

    lemma UsedOn(n: nat, m: nat)
      requires UsedBelow(sb, blocks, n) == true && (m <= n || sb.size <= n)
      ensures UsedBelow(sb, blocks, m) == true
    {
    }

    lemma AllUsed(n: nat)
      requires UsedBelow(sb, blocks, n) == true && n >= sb.size
      ensures Full(sb, blocks) == true
    {
    }

    /** balloc's inner loop: the first clear bit of one bitmap block, if any. */
    method FindClear(first: nat) returns (bi: nat)
      requires first < sb.size && first % BPB == 0 && UsedBelow(sb, blocks, first) == true
      ensures bi <= BPB && UsedBelow(sb, blocks, first + bi) == true
      ensures bi < BPB && first + bi < sb.size ==> Used(sb, blocks, first + bi) == false
    {
      bi := 0;
      while bi < BPB && first + bi < sb.size
        invariant 0 <= bi <= BPB && UsedBelow(sb, blocks, first + bi)
      {
        WithinBlock(first, bi);
        if !TestBit(blocks[sb.BBlock(first)], bi) {
          return;
        }
        bi := bi + 1;
      }
      hide Used;
    }

    /** The rest of balloc once a clear bit is found: set it, zero the block. */
    method Take(b: nat)
      requires MetaUsed() == true && b < sb.size && Used(sb, blocks, b) == false
      modifies this`blocks, this`logged
      ensures 0 < b && Allocated(sb, old(blocks), blocks, b) == true && |blocks| == |old(blocks)|
              && logged == old(logged) + {sb.BBlock(b), b}
      ensures Recorded(base, old(blocks), old(logged)) == true ==> Recorded(base, blocks, logged) == true
    {
      hide Recorded;
      var bb := sb.BBlock(b);
      BitmapIsMeta(sb, b);
      if Recorded(base, blocks, logged) == true {
        RecordedPut(base, blocks, logged, bb, SetBit(blocks[bb], b % BPB));
        RecordedPut(base, blocks[bb := SetBit(blocks[bb], b % BPB)], logged + {bb}, b, ZeroBlock());
      }
      blocks := blocks[bb := SetBit(blocks[bb], b % BPB)];
      logged := logged + {bb};
      blocks := blocks[b := ZeroBlock()];
      logged := logged + {b};
      TakeUsed(sb, old(blocks), blocks, b);
    }

    /** bfree: clears a set bit; panics on a clear one. */
    method Bfree(b: nat) returns (panicked: bool)
      requires sb.WellFormed() && |blocks| == sb.size && b < sb.size
      modifies this`blocks, this`logged
      ensures panicked <==> !old(Used(sb, blocks, b))
      ensures panicked ==> blocks == old(blocks) && logged == old(logged)
      ensures !panicked ==> Freed(sb, old(blocks), blocks, b) == true && logged == old(logged) + {sb.BBlock(b)}
      ensures Recorded(base, old(blocks), old(logged)) == true ==> Recorded(base, blocks, logged) == true
    {
      hide Recorded;
      var bb := sb.BBlock(b);
      BitmapIsMeta(sb, b);
      if !TestBit(blocks[bb], b % BPB) {
        return true;
      }
      if Recorded(base, blocks, logged) == true {
        RecordedPut(base, blocks, logged, bb, ClearBit(blocks[bb], b % BPB));
      }
      blocks := blocks[bb := ClearBit(blocks[bb], b % BPB)];
      logged := logged + {bb};
      FreeUsed(sb, old(blocks), blocks, b);
      return false;
    }

    ghost predicate Valid()
      reads this
    {
      Owned(sb, blocks, inodes, owner)
    }

    /** balloc, and ip->addrs[k] = b. */
    method AllocAddr(i: nat, k: nat) returns (b: nat)
      requires Valid() == true && i < |inodes| && k <= INDIRECT && |inodes[i].addrs| == NDIRECT + 1
              && inodes[i].addrs[k] == 0
      modifies this`blocks, this`inodes, this`owner, this`logged
      ensures Valid() == true
      ensures b == 0 ==> blocks == old(blocks) && inodes == old(inodes) && owner == old(owner) && logged == old(logged)
      ensures Grew(sb, old(blocks), old(inodes), blocks, inodes, i, b) == true
      ensures b != 0 ==>
                && Attached(old(blocks), old(inodes), old(owner), blocks, inodes, owner, i, k, b) == true
                && inodes == old(inodes)[i := WithPtr(old(inodes)[i], k, b)]
                && logged == old(logged) + {sb.BBlock(b), b}
      ensures Charges(sb, old(owner), owner, 1, b) == true
      ensures Recorded(base, old(blocks), old(logged)) == true ==> Recorded(base, blocks, logged) == true
    {
      hide Recorded, MetaUsed, Owned, Allocated, Grew, Attached, Full;
      BeforeBalloc(i);
      b := Balloc();
      if b == 0 {
        return;
      }
      AddrAttached(sb, old(blocks), blocks, inodes, inodes[i := WithPtr(inodes[i], k, b)], owner, i, k, b);
      inodes := inodes[i := WithPtr(inodes[i], k, b)];
      owner := owner[b := Owner(i, k)];
    }

    lemma BeforeBalloc(i: nat)
      requires Valid() == true && i < |inodes|
      ensures MetaUsed() == true && |inodes[i].addrs| == NDIRECT + 1 && inodes[i].addrs[INDIRECT] < |blocks|
      ensures Full(sb, blocks) == true ==> Grew(sb, blocks, inodes, blocks, inodes, i, 0) == true
      ensures Full(sb, blocks) == true ==> FreeBlocks(sb, owner) == 0
    {
      OwnersFit(sb, blocks, inodes, owner);
    }

    /** balloc, then a[e] = b and log_write of the indirect block. */
    method AllocEntry(i: nat, e: nat) returns (b: nat)
      requires Valid() == true && i < |inodes| && e < NINDIRECT && |inodes[i].addrs| == NDIRECT + 1
              && inodes[i].addrs[INDIRECT] < |blocks|
      requires inodes[i].addrs[INDIRECT] != 0 && Ref(blocks, inodes[i], NDIRECT + 1 + e) == 0
      modifies this`blocks, this`owner, this`logged
      ensures Valid() == true
      ensures b == 0 ==> blocks == old(blocks) && owner == old(owner) && logged == old(logged)
      ensures Grew(sb, old(blocks), inodes, blocks, inodes, i, b) == true
      ensures b != 0 ==>
                && Attached(old(blocks), inodes, old(owner), blocks, inodes, owner, i, NDIRECT + 1 + e, b) == true
                && logged == old(logged) + {sb.BBlock(b), b, inodes[i].addrs[INDIRECT]}
      ensures Charges(sb, old(owner), owner, 1, b) == true
      ensures Recorded(base, old(blocks), old(logged)) == true ==> Recorded(base, blocks, logged) == true
    {
      hide Recorded, MetaUsed, Owned, Allocated, Grew, Attached, Full;
      BeforeBalloc(i);
      b := Balloc();
      if b == 0 {
        return;
      }
      var ind := inodes[i].addrs[INDIRECT];
      ghost var mid := blocks;
      if Recorded(base, blocks, logged) == true { RecordedPut(base, blocks, logged, ind, PutWord(blocks[ind], e, b)); }
      blocks := blocks[ind := PutWord(blocks[ind], e, b)];
      logged := logged + {ind};
      EntryAttached(sb, old(blocks), mid, blocks, inodes, owner, i, e, b, ind);
      owner := owner[b := Owner(i, NDIRECT + 1 + e)];
    }

    /** bmap: the disk block of block number `bn` of file `i`, allocated (with the
        indirect block, if need be) when there was none; 0 when the disk is full.
        Panics on a block number no file has. */
    method Bmap(i: nat, bn: nat) returns (addr: nat, panicked: bool)
      requires Valid() == true && i < |inodes| && |inodes[i].addrs| == NDIRECT + 1
      modifies this`blocks, this`inodes, this`owner, this`logged
      ensures Valid() == true && (panicked <==> bn >= MAXFILE) && |inodes| == |old(inodes)|
              && |inodes[i].addrs| == NDIRECT + 1
      ensures panicked ==>
              blocks == old(blocks) && inodes == old(inodes) && owner == old(owner) && logged == old(logged)
      ensures !panicked ==>
                && Mapped(old(blocks), old(inodes), old(owner), blocks, inodes, owner, i, bn, addr) == true
                && Grew(sb, old(blocks), old(inodes), blocks, inodes, i, addr) == true
                && logged <= old(logged) + NewLogs(sb, addr) + IndirectLogs(sb, bn, inodes[i].addrs[INDIRECT])
      ensures !panicked ==>
                && Charges(sb, old(owner), owner, old(NeedOf(blocks, inodes[i], bn)), addr) == true
                && (addr != 0 ==>
                      (inodes[i].addrs[INDIRECT] != 0 <==> old(inodes)[i].addrs[INDIRECT] != 0 || bn >= NDIRECT))
      ensures !panicked && old(DataBlock(blocks, inodes[i], bn)) != 0 ==>
                blocks == old(blocks) && inodes == old(inodes) && owner == old(owner) && logged == old(logged)
      ensures Recorded(base, old(blocks), old(logged)) == true ==> Recorded(base, blocks, logged) == true
    {
      hide Recorded, Mapped, Grew, Valid;
      if bn < NDIRECT {
        addr := BmapDirect(i, bn);
        return addr, false;
      }
      if bn - NDIRECT < NINDIRECT {
        addr := BmapIndirect(i, bn - NDIRECT);
        return addr, false;
      }
      return 0, true;
    }

    method BmapDirect(i: nat, bn: nat) returns (addr: nat)
      requires Valid() == true && i < |inodes| && bn < NDIRECT && |inodes[i].addrs| == NDIRECT + 1
      modifies this`blocks, this`inodes, this`owner, this`logged
      ensures Valid() == true && |inodes| == |old(inodes)| && |inodes[i].addrs| == NDIRECT + 1
      ensures Mapped(old(blocks), old(inodes), old(owner), blocks, inodes, owner, i, bn, addr) == true
      ensures Grew(sb, old(blocks), old(inodes), blocks, inodes, i, addr) == true
      ensures old(DataBlock(blocks, inodes[i], bn)) != 0 ==>
                blocks == old(blocks) && inodes == old(inodes) && owner == old(owner) && logged == old(logged)
      ensures Charges(sb, old(owner), owner, old(NeedOf(blocks, inodes[i], bn)), addr) == true
      ensures inodes[i].addrs[INDIRECT] == old(inodes)[i].addrs[INDIRECT]
      ensures logged <= old(logged) + NewLogs(sb, addr)
      ensures Recorded(base, old(blocks), old(logged)) == true ==> Recorded(base, blocks, logged) == true
    {
      hide Recorded, Mapped, Attached, Grew, Valid;
      Unchanged(i, bn);
      addr := inodes[i].addrs[bn];
      if addr == 0 {
        addr := AllocAddr(i, bn);
        if addr != 0 {
          LinkedMaps(old(blocks), old(inodes), old(owner), blocks, inodes, owner, i, bn, addr);
        }
      }
    }

    method BmapIndirect(i: nat, e: nat) returns (addr: nat)
      requires Valid() == true && i < |inodes| && e < NINDIRECT && |inodes[i].addrs| == NDIRECT + 1
      modifies this`blocks, this`inodes, this`owner, this`logged
      ensures Valid() == true && |inodes| == |old(inodes)| && |inodes[i].addrs| == NDIRECT + 1
      ensures Mapped(old(blocks), old(inodes), old(owner), blocks, inodes, owner, i, NDIRECT + e, addr) == true
      ensures Grew(sb, old(blocks), old(inodes), blocks, inodes, i, addr) == true
      ensures old(DataBlock(blocks, inodes[i], NDIRECT + e)) != 0 ==>
                blocks == old(blocks) && inodes == old(inodes) && owner == old(owner) && logged == old(logged)
      ensures Charges(sb, old(owner), owner, old(NeedOf(blocks, inodes[i], NDIRECT + e)), addr) == true
      ensures addr != 0 ==> inodes[i].addrs[INDIRECT] != 0
      ensures logged <= old(logged) + NewLogs(sb, addr) + IndirectLogs(sb, NDIRECT + e, inodes[i].addrs[INDIRECT])
      ensures Recorded(base, old(blocks), old(logged)) == true ==> Recorded(base, blocks, logged) == true
    {
      hide Recorded, Mapped, Grew, Valid;
      if inodes[i].addrs[INDIRECT] == 0 {
        var ind := AllocIndirect(i, NDIRECT + e);
        if ind == 0 {
          return 0;
        }
        ghost var b1, i1, o1 := blocks, inodes, owner;
        addr := BmapEntry(i, e);
        GrewTwice(sb, old(blocks), old(inodes), b1, i1, blocks, inodes, i, ind, addr);
        MappedTwice(old(blocks), old(inodes), old(owner), b1, i1, o1, blocks, inodes, owner, i, NDIRECT + e, addr);
      } else {
        addr := BmapEntry(i, e);
      }
    }

    /** With nothing allocated, the maps are as they are. */
    lemma Unchanged(i: nat, bn: nat)
      requires Valid() == true && i < |inodes| && bn < MAXFILE
      ensures |inodes[i].addrs| == NDIRECT + 1 && InodeOK(|blocks|, inodes[i])
      ensures Mapped(blocks, inodes, owner, blocks, inodes, owner, i, bn, DataBlock(blocks, inodes[i], bn)) == true
      ensures DataBlock(blocks, inodes[i], bn) != 0 ==>
              Grew(sb, blocks, inodes, blocks, inodes, i, DataBlock(blocks, inodes[i], bn)) == true
      ensures inodes[i].addrs[INDIRECT] < |blocks|
    {
      NothingMapped(sb, blocks, inodes, owner, i, bn);
    }

    /** A missing indirect block allocated: it maps nothing yet. */
    method AllocIndirect(i: nat, ghost bn: nat) returns (ind: nat)
      requires Valid() == true && i < |inodes| && |inodes[i].addrs| == NDIRECT + 1 && inodes[i].addrs[INDIRECT] == 0
              && NDIRECT <= bn < MAXFILE
      modifies this`blocks, this`inodes, this`owner, this`logged
      ensures Valid() == true && |inodes| == |old(inodes)| && |inodes[i].addrs| == NDIRECT + 1
              && inodes[i].addrs[INDIRECT] == ind
      ensures DataBlock(old(blocks), old(inodes)[i], bn) == DataBlock(blocks, inodes[i], bn) == 0
      ensures ind == 0 ==>
              blocks == old(blocks) && inodes == old(inodes) && owner == old(owner) && logged == old(logged)
      ensures Mapped(old(blocks), old(inodes), old(owner), blocks, inodes, owner, i, bn, 0) == true
      ensures Grew(sb, old(blocks), old(inodes), blocks, inodes, i, ind) == true
      ensures Charges(sb, old(owner), owner, 1, ind) == true
      ensures ind != 0 ==> logged == old(logged) + {sb.BBlock(ind), ind}
      ensures Recorded(base, old(blocks), old(logged)) == true ==> Recorded(base, blocks, logged) == true
    {
      hide Recorded, Mapped, Attached, Grew, Valid;
      Unchanged(i, bn);
      ind := AllocAddr(i, INDIRECT);
      if ind != 0 {
        LinkedIndirectMapsNothing(old(blocks), old(inodes), old(owner), blocks, inodes, owner, i, ind, bn);
      }
    }

    /** The end of bmap, with the indirect block at hand. */
    method BmapEntry(i: nat, e: nat) returns (addr: nat)
      requires Valid() == true && i < |inodes| && e < NINDIRECT && |inodes[i].addrs| == NDIRECT + 1
              && inodes[i].addrs[INDIRECT] != 0
      modifies this`blocks, this`owner, this`logged
      ensures Valid() == true
      ensures Mapped(old(blocks), inodes, old(owner), blocks, inodes, owner, i, NDIRECT + e, addr) == true
      ensures Grew(sb, old(blocks), inodes, blocks, inodes, i, addr) == true
      ensures old(DataBlock(blocks, inodes[i], NDIRECT + e)) != 0 ==>
                blocks == old(blocks) && owner == old(owner) && logged == old(logged)
      ensures old(DataBlock(blocks, inodes[i], NDIRECT + e)) == 0 && addr != 0 ==> addr !in old(owner)
      ensures Charges(sb, old(owner), owner, old(NeedOf(blocks, inodes[i], NDIRECT + e)), addr) == true
      ensures logged <= old(logged) + NewLogs(sb, addr) + {inodes[i].addrs[INDIRECT]}
      ensures Recorded(base, old(blocks), old(logged)) == true ==> Recorded(base, blocks, logged) == true
    {
      hide Recorded, Mapped, Attached, Grew, Valid;
      Unchanged(i, NDIRECT + e);
      addr := GetWord(blocks[inodes[i].addrs[INDIRECT]], e);
      if addr == 0 {
        addr := AllocEntry(i, e);
        if addr != 0 {
          LinkedMaps(old(blocks), inodes, old(owner), blocks, inodes, owner, i, NDIRECT + e, addr);
        }
      }
    }

    /** One turn of writei's loop: map the block, copy the bytes in, log it. If the
        user's memory gives only `part` of the bytes, these are in the cached block
        all the same, and the block is not logged. `put` bytes have been copied. */
    method WriteChunk(i: nat, off: nat, data: seq<byte>, part: nat)
      returns (done: bool, ghost addr: nat, ghost put: nat)
      requires Valid() == true && i < |inodes| && 0 < |data| && off % BSIZE + |data| <= BSIZE && off < MAXFILE * BSIZE
              && part <= |data|
      modifies this`blocks, this`inodes, this`owner, this`logged
      ensures Valid() == true && |inodes| == |old(inodes)|
      ensures ChunkStep(sb, old(blocks), old(inodes), old(logged), blocks, inodes, logged, i, off / BSIZE, addr) == true
      ensures addr != 0 ==> put == part && (done <==> part == |data|)
      ensures addr == 0 ==>
                !done && put == 0 && Full(sb, blocks) == true && HoleAt(old(blocks), old(inodes), i, off) == true
      ensures Took(sb, old(blocks), old(inodes), old(owner), blocks, inodes, owner, i, off / BSIZE, addr) == true
      ensures put == 0 ==> SameBytes(old(blocks), old(inodes), blocks, inodes) == true
      ensures 0 < put <= |data| ==>
                && BytesPut(old(blocks), old(inodes), blocks, inodes, i, off, data[..put]) == true
                && InodeOK(|blocks|, inodes[i]) && off / BSIZE < MAXFILE
                && DataBlock(blocks, inodes[i], off / BSIZE) != 0
      ensures done || put == 0 ==>
              Recorded(base, old(blocks), old(logged)) == true ==> Recorded(base, blocks, logged) == true
    {
      hide Recorded, Owned, ChunkStep, SameBytes, BytesPut, Full, MapGrew, Grew, Mapped, HoleAt, Took;
      var a := MapChunk(i, off);
      addr := a;
      if a == 0 {
        return false, addr, 0;
      }
      ghost var mid, l := blocks, logged;
      if part > 0 {
        CopyChunk(i, off, data[..part], a, old(blocks), old(inodes), old(logged), old(owner));
      }
      if part < |data| {
        return false, addr, part;
      }
      assert data[..part] == data;
      if Recorded(base, mid, l) == true { RecordedPut(base, mid, l, a, blocks[a]); }
      logged := logged + {a};
      ChunkLogged(sb, old(blocks), old(inodes), old(logged), blocks, inodes, l, i, off / BSIZE, a);
      return true, addr, part;
    }

    /** bmap of the block a chunk goes to. */
    method MapChunk(i: nat, off: nat) returns (a: nat)
      requires Valid() == true && i < |inodes| && off < MAXFILE * BSIZE
      modifies this`blocks, this`inodes, this`owner, this`logged
      ensures Valid() == true && |inodes| == |old(inodes)|
              && SameBytes(old(blocks), old(inodes), blocks, inodes) == true
      ensures ChunkStep(sb, old(blocks), old(inodes), old(logged), blocks, inodes, logged, i, off / BSIZE, a) == true
      ensures a == 0 ==> Full(sb, blocks) == true && HoleAt(old(blocks), old(inodes), i, off) == true
      ensures a != 0 ==>
                InodeOK(|blocks|, inodes[i]) && off / BSIZE < MAXFILE && DataBlock(blocks, inodes[i], off / BSIZE) == a
      ensures Took(sb, old(blocks), old(inodes), old(owner), blocks, inodes, owner, i, off / BSIZE, a) == true
      ensures Recorded(base, old(blocks), old(logged)) == true ==> Recorded(base, blocks, logged) == true
    {
      hide Recorded;
      var panicked;
      a, panicked := Bmap(i, off / BSIZE);
      MappedKeepsBytes(sb, old(blocks), old(inodes), old(owner), blocks, inodes, owner, i, off / BSIZE, a);
      TookOne(sb, old(blocks), old(inodes), old(owner), blocks, inodes, owner, i, off / BSIZE, a);
    }

    /** Bytes copied into the block of a buffer. */
    method CopyChunk(i: nat, off: nat, data: seq<byte>, a: nat, ghost b0: Store, ghost i0: seq<Inode>,
                     ghost l0: set<nat>, ghost o0: map<nat, Owner>)
      requires Valid() == true && i < |inodes| && 0 < |data| && off % BSIZE + |data| <= BSIZE && off < MAXFILE * BSIZE
      requires a != 0 && off / BSIZE < MAXFILE && InodeOK(|blocks|, inodes[i])
              && DataBlock(blocks, inodes[i], off / BSIZE) == a
      requires SameBytes(b0, i0, blocks, inodes) == true
              && ChunkStep(sb, b0, i0, l0, blocks, inodes, logged, i, off / BSIZE, a) == true
              && Took(sb, b0, i0, o0, blocks, inodes, owner, i, off / BSIZE, a) == true
      modifies this`blocks
      ensures Valid() == true && a < |old(blocks)| == |blocks| && blocks == old(blocks)[a := blocks[a]]
      ensures BytesPut(b0, i0, blocks, inodes, i, off, data) == true && InodeOK(|blocks|, inodes[i])
      ensures ChunkStep(sb, b0, i0, l0, blocks, inodes, logged, i, off / BSIZE, a) == true
      ensures DataBlock(blocks, inodes[i], off / BSIZE) != 0
      ensures Took(sb, b0, i0, o0, blocks, inodes, owner, i, off / BSIZE, a) == true
    {
      hide Took;
      ghost var mid := blocks;
      assert owner[a] == Owner(i, PtrOf(off / BSIZE));
      CopyKeepsOwned(sb, blocks, inodes, owner, a, CopyIn(blocks[a], off % BSIZE, data));
      blocks := blocks[a := CopyIn(blocks[a], off % BSIZE, data)];
      CopyPutsBytes(sb, mid, inodes, owner, i, off, data, a);
      DataWriteGrew(sb, b0, i0, mid, inodes, i, 1, a, blocks[a]);
      TookStays(sb, b0, i0, o0, mid, blocks, inodes, owner, i, off / BSIZE, a);
    }

    /** writei's loop. The user copy can read `avail` bytes of the source; `tot` are
        stored, and `spill` more are in a block that was not logged. `spent` are the
        data and bitmap blocks logged. */
    method WriteLoop(i: nat, off: nat, src: seq<byte>, avail: nat)
      returns (tot: nat, ghost spill: nat, ghost spent: set<nat>, ghost full: bool)
      requires Valid() == true && i < |inodes| && off + |src| <= MAXFILE * BSIZE && InodeOK(|blocks|, inodes[i])
              && Covered(blocks, inodes[i], off) == true
      modifies this`blocks, this`inodes, this`owner, this`logged
      ensures Valid() == true && tot + spill <= |src| && tot <= avail
      ensures Progress(sb, old(blocks), old(inodes), old(logged), blocks, inodes, logged, i, off,
                       src[..tot] + src[tot..tot + spill],
                       Chunks(off, |src|), spent) == true
      ensures spill > 0 ==> avail < |src|
      ensures tot < |src| ==> StopsAt(off, tot, spill) == true
      ensures !full ==>
                && tot + spill == (if avail < |src| then avail else |src|)
                && Charged(old(blocks), old(inodes), old(owner), blocks, inodes, owner, i, BlockOf(off),
                           Chunks(off, Reach(|src|, avail))) == true
      ensures full ==>
                && tot < |src| && spill == 0 && Full(sb, blocks) == true
                && HoleAt(old(blocks), old(inodes), i, off + tot) == true
                && RoomFor(sb, old(blocks), old(inodes), old(owner), i, BlockOf(off), Chunks(off, tot)) == true
      ensures spill == 0 ==> Recorded(base, old(blocks), old(logged)) == true ==> Recorded(base, blocks, logged) == true
    {
      hide *;
      StartLoop(i, off, |src|);
      tot, spill, spent, full := 0, 0, {}, false;
      ghost var c, cs := 0, Chunks(off, |src|);
      while tot < |src|
        invariant tot <= |src| && tot <= avail && spill == 0 && c <= cs && AtChunk(off, |src|, tot, c) == true && !full
        invariant Valid() == true
        invariant Charged(old(blocks), old(inodes), old(owner), blocks, inodes, owner, i, BlockOf(off), c) == true
        invariant Progress(sb, old(blocks), old(inodes), old(logged), blocks, inodes, logged, i, off, src[..tot], c,
                           spent) == true
        invariant Recorded(base, old(blocks), old(logged)) == true ==> Recorded(base, blocks, logged) == true
      {
        var m := ChunkSize(off + tot, |src| - tot);
        ChunkCount(off, tot, m, |src|, c);
        var done;
        AtBlock(off, |src|, tot, c);
        done, spill, spent, full := WriteStep(i, off, src[..tot], src[tot..tot + m],
                                              if tot + m <= avail then m else avail - tot,
                                              old(blocks), old(inodes), old(logged), old(owner), c, spent);
        c := c + 1;
        SliceGrows(src, tot, m, spill);
        SliceAfter(src, tot, m, 0, spill);
        if !done {
          ChunkStops(off, |src|, tot, c - 1, spill);
          if !full { LastReached(off, |src|, tot, c - 1, avail); }
          break;
        }
        tot, spill := tot + m, 0;
      }
      if tot == |src| { AllReached(off, tot, c, avail); }
      SliceEnds(src, tot);
      ProgressWithin(sb, old(blocks), old(inodes), old(logged), blocks, inodes, logged, i, off,
                     src[..tot] + src[tot..tot + spill], c, cs, spent);
    }

    static lemma AllReached(off: nat, n: nat, c: nat, avail: nat)
      requires AtChunk(off, n, n, c) == true && n <= avail
      ensures c == Chunks(off, Reach(n, avail))
    {
    }

    lemma StartLoop(i: nat, off: nat, n: nat)
      requires Valid() == true && i < |inodes| && InodeOK(|blocks|, inodes[i]) && off <= MAXFILE * BSIZE
              && Covered(blocks, inodes[i], off) == true
      ensures Progress(sb, blocks, inodes, logged, blocks, inodes, logged, i, off, [], 0, {}) == true
              && AtChunk(off, n, 0, 0) == true
      ensures Charged(blocks, inodes, owner, blocks, inodes, owner, i, BlockOf(off), 0) == true
    {
      NoProgress(sb, blocks, inodes, logged, i, off);
      NothingCharged(blocks, inodes, owner, i, off / BSIZE);
    }

    method WriteStep(i: nat, off: nat, d: seq<byte>, e: seq<byte>, part: nat,
                     ghost b0: Store, ghost i0: seq<Inode>, ghost l0: set<nat>, ghost o0: map<nat, Owner>, ghost c: nat,
                     ghost spent: set<nat>)
      returns (done: bool, ghost put: nat, ghost spent': set<nat>, ghost full: bool)
      requires Valid() == true && off + |d| < MAXFILE * BSIZE && 0 < |e| && (off + |d|) % BSIZE + |e| <= BSIZE
              && part <= |e|
      requires Progress(sb, b0, i0, l0, blocks, inodes, logged, i, off, d, c, spent) == true && (c == 0 ==> d == [])
      requires Charged(b0, i0, o0, blocks, inodes, owner, i, BlockOf(off), c) == true
              && BlockOf(off) + c == BlockOf(off + |d|)
      modifies this`blocks, this`inodes, this`owner, this`logged
      ensures put <= |e|
      ensures !full ==> put == part && (done <==> part == |e|)
                        && Charged(b0, i0, o0, blocks, inodes, owner, i, BlockOf(off), c + 1) == true
      ensures full ==> !done && put == 0 && Full(sb, blocks) == true && HoleAt(b0, i0, i, off + |d|) == true
                       && RoomFor(sb, b0, i0, o0, i, BlockOf(off), c) == true
      ensures Valid() == true
              && Progress(sb, b0, i0, l0, blocks, inodes, logged, i, off, d + e[..put], c + 1, spent') == true
      ensures done || put == 0 ==>
              Recorded(base, old(blocks), old(logged)) == true ==> Recorded(base, blocks, logged) == true
    {
      hide Recorded, Progress, ChunkStep, HoleAt, Full, BytesPut, SameBytes, DataBlock, ChunkSet, Took, Charged,
          RoomFor,
          FreeBlocks, Valid;
      ghost var b1, i1, l1, o1 := blocks, inodes, logged, owner;
      SomeFree();
      ProgressOK(sb, b0, i0, l0, b1, i1, l1, i, off, d, c, spent);
      var at := off + |d|;
      ghost var addr;
      done, addr, put := WriteChunk(i, at, e, part);
      full := addr == 0;
      ChargedMore(sb, b0, i0, o0, b1, i1, o1, blocks, inodes, owner, i, off / BSIZE, c, addr);
      spent' := spent + ChunkSet(sb, addr, DataBlock(b1, i1[i], at / BSIZE) != 0);
      if put > 0 {
        ProgressMore(sb, b0, i0, l0, b1, i1, l1, blocks, inodes, logged, i, off, d, c, spent, at, addr, e[..put]);
      } else {
        if HoleAt(b1, i1, i, at) == true { HoleBefore(sb, b0, i0, l0, b1, i1, l1, i, off, d, c, spent, at); }
        ProgressFailed(sb, b0, i0, l0, b1, i1, l1, blocks, inodes, logged, i, off, d, c, spent, at, addr);
        assert d + e[..0] == d;
      }
    }

    lemma SomeFree()
      requires Valid() == true
      ensures FreeBlocks(sb, owner) >= 0
    {
      OwnersFit(sb, blocks, inodes, owner);
    }

    /** iupdate: copy the in-memory inode into its place in the inode block. */
    method Iupdate(i: nat)
      requires Valid() && i < |inodes| <= sb.ninodes && SyncedBut(sb, blocks, inodes, i)
      modifies this`blocks, this`logged
      ensures Valid() && SyncedBut(sb, blocks, inodes, -1) && logged == old(logged) + {sb.IBlock(i)}
      ensures SameBytes(old(blocks), inodes, blocks, inodes) && MapGrew(old(blocks), inodes, blocks, inodes)
      ensures SameMap(old(blocks), inodes, blocks, inodes, i)
      ensures Full(sb, old(blocks)) ==> Full(sb, blocks)
      ensures Recorded(base, old(blocks), old(logged)) == true ==> Recorded(base, blocks, logged) == true
    {
      hide Recorded;
      InodeBlockIsMeta(sb, i);
      var ib := sb.IBlock(i);
      var blk := FormatDinode(blocks[ib], i % IPB, inodes[i]);
      InodeBlockKeepsOwned(sb, blocks, inodes, owner, ib, blk);
      InodeBlockKeepsBytes(sb, blocks, inodes, owner, ib, blk);
      SyncedOne(sb, blocks, inodes, i, blk);
      FullKept(sb, blocks, blocks[ib := blk], inodes, owner);
      if Recorded(base, blocks, logged) == true { RecordedPut(base, blocks, logged, ib, blk); }
      blocks := blocks[ib := blk];
      logged := logged + {ib};
    }

    static method FormatDinode(blk: Block, slot: nat, ino: Inode) returns (r: Block)
      requires slot < IPB && InodeOK(UINT_MAX, ino)
      ensures ReadDinode(r, slot) == ino
      ensures forall s :: 0 <= s < IPB && s != slot ==> ReadDinode(r, s) == ReadDinode(blk, s)
    {
      r := PutWord(blk, 16 * slot + 2, ino.size);
      for k := 0 to NDIRECT + 1
        invariant GetWord(r, 16 * slot + 2) == ino.size
        invariant forall q :: 0 <= q < k ==> GetWord(r, 16 * slot + 3 + q) == ino.addrs[q]
        invariant forall w: nat :: w < WORDS && !(16 * slot <= w < 16 * slot + 16) ==> GetWord(r, w) == GetWord(blk, w)
      {
        r := PutWord(r, 16 * slot + 3 + k, ino.addrs[k]);
      }
      assert ReadDinode(r, slot).addrs == ino.addrs;
    }

    /** What holds between file operations: blocks and pointers agree, files have
        no unmapped block below their size, and inodes are as on disk. */
    ghost predicate Ready()
      reads this
    {
      Valid() && |inodes| <= sb.ninodes && Tight(blocks, inodes) && SyncedBut(sb, blocks, inodes, -1)
    }

    /** writei: returns how many bytes of `src` it stored at `off`, or -1. If the user
        copy fails within a block, `spill` more bytes show in the file as far as it
        goes, unlogged: the file is as it should be exactly if that is harmless. */
    method Writei(i: nat, off: nat, src: seq<byte>, avail: nat) returns (r: int, ghost spill: nat)
      requires Ready() == true && i < |inodes| && off < UINT_MAX && |src| < UINT_MAX
      modifies this`blocks, this`inodes, this`owner, this`logged
      ensures Ready() == true
      ensures r == -1 <==> off > old(inodes)[i].size || off + |src| > MAXFILE * BSIZE
      ensures r == -1 ==>
              blocks == old(blocks) && inodes == old(inodes) && owner == old(owner) && logged == old(logged)
      ensures r != -1 ==>
                && 0 <= r && r + spill <= |src|
                && FileBecame(old(blocks), old(inodes), blocks, inodes, i,
                              Spilled(old(Content(blocks, inodes[i])), off, src[..r], src[r..r + spill])) == true
      ensures 0 <= r < |src| ==> StopsAt(off, r, spill) == true
      ensures r != -1 && Enough(sb, old(blocks), old(inodes), old(owner), i, off, Reach(|src|, avail)) == true ==>
                && r == (if avail < |src| then WholeChunks(off, avail) else |src|)
                && r + spill == (if avail < |src| then avail else |src|)
                && Charged(old(blocks), old(inodes), old(owner), blocks, inodes, owner, i, BlockOf(off),
                           Chunks(off, Reach(|src|, avail))) == true
      ensures r != -1 && Enough(sb, old(blocks), old(inodes), old(owner), i, off, Reach(|src|, avail)) == false ==>
                && r < |src| && spill == 0 && Full(sb, blocks) == true && off + r >= old(inodes)[i].size
                && HoleAt(old(blocks), old(inodes), i, off + r) == true
                && RoomFor(sb, old(blocks), old(inodes), old(owner), i, BlockOf(off), Chunks(off, r)) == true
      ensures MapGrew(old(blocks), old(inodes), blocks, inodes) == true
      ensures r != -1 ==>
                (FileBecame(old(blocks), old(inodes), blocks, inodes, i,
                            Overwrite(old(Content(blocks, inodes[i])), off, src[..r])) == true <==>
                 Harmless(old(Content(blocks, inodes[i])), off, src, avail))
      ensures (r == -1 || r == |src| ==> spill == 0) && (spill > 0 ==> avail < |src|) && r <= avail
      ensures spill == 0 ==> Recorded(base, old(blocks), old(logged)) == true ==> Recorded(base, blocks, logged) == true
      ensures |logged - old(logged)| <= ChunkLogs(off, Chunks(off, |src|)) + 3
    {
      hide Recorded, Valid, Ready, Tight, SyncedBut, FileBecame, Spilled, Content, Covered, Progress, Full, Chunks,
          ChunkLogs, Overwrite, HoleAt, StopsAt, Harmless, WholeChunks, MapGrew, Enough, Charged, RoomFor, SameMap,
          BlockOf,
          FreeBlocks;
      var end := (off + |src|) % UINT_MAX;
      ReadyParts(i);
      if off > inodes[i].size || end < off || end > MAXFILE * BSIZE {
        MapsSame(blocks, inodes, i);
        return -1, 0;
      }
      CoveredTo(i, off);
      var tot;
      ghost var spent;
      ghost var full;
      tot, spill, spent, full := WriteLoop(i, off, src, avail);
      AfterLoop(old(blocks), old(inodes), old(logged), logged, i, off, src[..tot] + src[tot..tot + spill],
                Chunks(off, |src|), spent);
      StoppedShort(old(blocks), old(inodes), i, off, src, avail, tot, spill, full);
      FullIff(old(blocks), old(inodes), old(owner), i, off, tot, Reach(|src|, avail), full);
      ghost var b1, i1 := blocks, inodes;
      FinishWrite(i, off, src[..tot], src[tot..tot + spill], old(blocks), old(inodes), old(logged), Chunks(off, |src|),
                  spent);
      BecameIff(old(blocks), old(inodes), blocks, inodes, i,
                Spilled(old(Content(blocks, inodes[i])), off, src[..tot], src[tot..tot + spill]),
                Overwrite(old(Content(blocks, inodes[i])), off, src[..tot]));
      if !full {
        ChargeStays(old(blocks), old(inodes), old(owner), b1, i1, blocks, inodes, owner, i, BlockOf(off),
                    Chunks(off, Reach(|src|, avail)));
      }
      r := tot;
    }

    lemma FullIff(b0: Store, i0: seq<Inode>, o0: map<nat, Owner>, i: nat, off: nat, tot: nat, n: nat, full: bool)
      requires Valid() == true
      requires !full ==> Charged(b0, i0, o0, blocks, inodes, owner, i, BlockOf(off), Chunks(off, n)) == true
      requires full ==> tot < n && StopsAt(off, tot, 0) == true
                        && RoomFor(sb, b0, i0, o0, i, BlockOf(off), Chunks(off, tot)) == true
      ensures full <==> Enough(sb, b0, i0, o0, i, off, n) == false
    {
      hide *;
      if full {
        NotEnough(sb, b0, i0, o0, i, off, tot, n);
      } else {
        SomeFree();
        ChargedIsEnough(sb, b0, i0, o0, blocks, inodes, owner, i, off, n);
      }
    }

    /** What the loop says about where it stopped, in terms of the arguments. */
    static lemma StoppedShort(b0: Store, i0: seq<Inode>, i: nat, off: nat, src: seq<byte>, avail: nat, tot: nat,
                              spill: nat, full: bool)
      requires Tight(b0, i0) == true && i < |i0| && InodeOK(|b0|, i0[i]) && off <= i0[i].size
      requires tot + spill <= |src| && tot <= avail && (spill > 0 ==> avail < |src|)
      requires tot < |src| ==> StopsAt(off, tot, spill) == true
      requires !full ==> tot + spill == if avail < |src| then avail else |src|
      requires full ==> tot < |src| && spill == 0 && HoleAt(b0, i0, i, off + tot) == true
      ensures !full ==> tot == if avail < |src| then WholeChunks(off, avail) else |src|
      ensures full ==> off + tot >= i0[i].size
      ensures Spilled(Content(b0, i0[i]), off, src[..tot], src[tot..tot + spill]) ==
                Overwrite(Content(b0, i0[i]), off, src[..tot]) <==>
              Harmless(Content(b0, i0[i]), off, src, avail)
    {
      hide Spilled, Overwrite, Harmless, WholeChunks, Content;
      assert NoHoles(b0, i0[i]);
      if tot < |src| {
        LastChunk(off, tot, avail);
        if full { HoleIsPastEnd(b0, i0, i, off, tot); }
      }
      HarmlessIff(Content(b0, i0[i]), off, src, avail, tot, spill);
    }

    static lemma BecameIff(b0: Store, i0: seq<Inode>, b: Store, inodes: seq<Inode>, i: nat, s: seq<byte>, t: seq<byte>)
      requires FileBecame(b0, i0, b, inodes, i, s) == true
      ensures FileBecame(b0, i0, b, inodes, i, t) == true <==> s == t
    {
    }

    /** The spill in a run: of two bytes at the start of any file that is not empty only
        the first can be read. writei says that it stored none, and the first byte of
        the file is new. */
    method SpillRun(i: nat, x: byte, y: byte) returns (r: int)
      requires Ready() == true && i < |inodes| && InodeOK(|blocks|, inodes[i]) && inodes[i].size > 0
      modifies this`blocks, this`inodes, this`owner, this`logged
      ensures Ready() == true && i < |inodes| && InodeOK(|blocks|, inodes[i]) && r == 0
      ensures Content(blocks, inodes[i]) == old(Content(blocks, inodes[i]))[0 := x]
    {
      hide *;
      OneByte();
      ghost var s := Content(blocks, inodes[i]);
      ghost var spill;
      r, spill := Writei(i, 0, [x, y], 1);
      OneByteStops(r);
      FileIs(old(blocks), old(inodes), blocks, inodes, i, Spilled(s, 0, [x, y][..r], [x, y][r..r + spill]));
      SpilledFirst(s, x, y);
    }

    static lemma OneByte()
      ensures WholeChunks(0, 1) == 0 && 2 <= MAXFILE * BSIZE && 2 < UINT_MAX
    {
    }

    static lemma OneByteStops(r: int)
      ensures r == 1 ==> StopsAt(0, r, 0) == false
    {
    }

    static lemma FileIs(b0: Store, i0: seq<Inode>, b: Store, inodes: seq<Inode>, i: nat, s: seq<byte>)
      requires FileBecame(b0, i0, b, inodes, i, s) == true
      ensures i < |inodes| && InodeOK(|b|, inodes[i]) && Content(b, inodes[i]) == s
    {
    }

    static lemma SpilledFirst(s: seq<byte>, x: byte, y: byte)
      requires |s| > 0
      ensures Spilled(s, 0, [x, y][..0], [x, y][0..1]) == s[0 := x]
    {
      assert [x, y][..0] + [x, y][0..1] == [x];
    }

    lemma ReadyParts(i: nat)
      requires Ready() == true && i < |inodes|
      ensures Valid() == true && |inodes| <= sb.ninodes && Tight(blocks, inodes) == true
              && SyncedBut(sb, blocks, inodes, -1) == true
      ensures InodeOK(|blocks|, inodes[i])
    {
    }

    lemma MapsSame(b: Store, s: seq<Inode>, i: nat)
      requires Ready() == true && b == blocks && s == inodes
      ensures MapGrew(b, s, blocks, inodes) == true
    {
    }

    lemma CoveredTo(i: nat, off: nat)
      requires Ready() == true && i < |inodes| && off <= inodes[i].size
      ensures InodeOK(|blocks|, inodes[i]) && Covered(blocks, inodes[i], off) == true
    {
      assert NoHoles(blocks, inodes[i]);
    }

    lemma AfterLoop(b0: Store, i0: seq<Inode>, l0: set<nat>, l: set<nat>, i: nat, off: nat, d: seq<byte>, c: nat,
                    spent: set<nat>)
      requires Progress(sb, b0, i0, l0, blocks, inodes, l, i, off, d, c, spent) == true
      ensures |inodes| == |i0| && i < |i0| && InodeOK(|b0|, i0[i])
    {
    }

    /** The end of writei: the new size, and the inode back to disk. */
    method FinishWrite(i: nat, off: nat, d: seq<byte>, ghost p: seq<byte>, ghost b0: Store, ghost i0: seq<Inode>,
                       ghost l0: set<nat>,
                       ghost c: nat, ghost spent: set<nat>)
      requires Valid() == true && Progress(sb, b0, i0, l0, blocks, inodes, logged, i, off, d + p, c, spent) == true
      requires i < |i0| && InodeOK(|b0|, i0[i]) && |inodes| <= sb.ninodes && off <= i0[i].size
              && off + |d| + |p| <= MAXFILE * BSIZE
      requires Tight(b0, i0) == true && SyncedBut(sb, b0, i0, -1) == true
      modifies this`blocks, this`inodes, this`logged
      ensures Ready() == true && FileBecame(b0, i0, blocks, inodes, i, Spilled(Content(b0, i0[i]), off, d, p)) == true
      ensures Full(sb, old(blocks)) == true ==> Full(sb, blocks) == true
      ensures MapGrew(b0, i0, blocks, inodes) == true && SameMap(old(blocks), old(inodes), blocks, inodes, i) == true
      ensures Recorded(base, old(blocks), old(logged)) == true ==> Recorded(base, blocks, logged) == true
      ensures |logged - l0| <= ChunkLogs(off, c) + 3
    {
      hide Recorded;
      ghost var iw := inodes;
      var size := if off + |d| > inodes[i].size then off + |d| else inodes[i].size;
      WrittenContent(b0, i0, blocks, inodes, i, off, d, p, size);
      WrittenTight(b0, i0, blocks, inodes, i, off, d, p, size);
      ResizeKeepsOwned(sb, blocks, inodes, owner, i, size);
      SyncedKept(sb, b0, i0, blocks, WithSize(inodes, i, size), i);
      LogsInAll(sb, l0, logged, spent, inodes[i], sb.IBlock(i), ChunkLogs(off, c));
      if off + |d| > inodes[i].size {
        inodes := inodes[i := inodes[i].(size := off + |d|)];
      }
      ghost var b1 := blocks;
      Iupdate(i);
      FileBecameThenSame(b0, i0, b1, blocks, inodes, i, Spilled(Content(b0, i0[i]), off, d, p));
      SameBytesContent(b1, blocks, inodes);
      ResizedGrew(b0, i0, b1, iw, blocks, inodes, i, size);
    }

    /** readi: the bytes from `off`, clipped to the size; -1 if the user copy fails. */
    method Readi(i: nat, off: nat, n: nat, avail: nat) returns (r: int, out: seq<byte>)
      requires Ready() == true && i < |inodes| && off < UINT_MAX && n < UINT_MAX
      modifies this`blocks, this`inodes, this`owner, this`logged
      ensures blocks == old(blocks) && inodes == old(inodes) && owner == old(owner) && logged == old(logged)
      ensures off > inodes[i].size || off + n >= UINT_MAX ==> r == 0 && out == []
      ensures off <= inodes[i].size && off + n < UINT_MAX ==>
                var m := if off + n > inodes[i].size then inodes[i].size - off else n;
                if m <= avail then r == m && out == Content(blocks, inodes[i])[off..off + m] else r == -1
    {
      hide Ready, Content, Valid, Tight, SyncedBut, InodeOK;
      ReadyParts(i);
      Wraps(off, n);
      var end := (off + n) % UINT_MAX;
      if off > inodes[i].size || end < off {
        return 0, [];
      }
      r, out := ReadLoop(i, off, if end > inodes[i].size then inodes[i].size - off else n, avail);
    }

    /** The 32-bit sum of offset and count is below the offset exactly if it overflows. */
    static lemma Wraps(off: nat, n: nat)
      requires off < UINT_MAX && n < UINT_MAX
      ensures (off + n) % UINT_MAX < off <==> off + n >= UINT_MAX
      ensures off + n < UINT_MAX ==> (off + n) % UINT_MAX == off + n
    {
    }

    method ReadLoop(i: nat, off: nat, want: nat, avail: nat) returns (r: int, out: seq<byte>)
      requires Ready() == true && i < |inodes| && off + want <= inodes[i].size && InodeOK(|blocks|, inodes[i])
      modifies this`blocks, this`inodes, this`owner, this`logged
      ensures blocks == old(blocks) && inodes == old(inodes) && owner == old(owner) && logged == old(logged)
      ensures if want <= avail then r == want && out == Content(blocks, inodes[i])[off..off + want] else r == -1
    {
      hide *;
      ReadyParts(i);
      ghost var s := Content(blocks, inodes[i]);
      var tot := 0;
      out := [];
      JoinSlices(s, off, 0, 0);
      while tot < want
        invariant tot <= want && tot <= avail && out == s[off..off + tot]
        invariant blocks == old(blocks) && inodes == old(inodes) && owner == old(owner) && logged == old(logged)
      {
        var m := ChunkSize(off + tot, want - tot);
        var chunk := ReadChunk(i, off + tot, m, s);
        if tot + m > avail {
          return -1, out;
        }
        JoinSlices(s, off, tot, m);
        out := out + chunk;
        tot := tot + m;
      }
      r := tot;
    }

    static lemma JoinSlices(s: seq<byte>, off: nat, a: nat, b: nat)
      requires off + a + b <= |s|
      ensures s[off..off + a] + s[off + a..off + a + b] == s[off..off + a + b] && s[off..off] == []
    {
    }

    /** One turn of readi's loop: bmap finds the block there already. */
    method ReadChunk(i: nat, at: nat, m: nat, ghost s: seq<byte>) returns (chunk: seq<byte>)
      requires Ready() == true && i < |inodes| && 0 < m && at + m <= inodes[i].size && at % BSIZE + m <= BSIZE
      requires InodeOK(|blocks|, inodes[i]) && s == Content(blocks, inodes[i])
      modifies this`blocks, this`inodes, this`owner, this`logged
      ensures blocks == old(blocks) && inodes == old(inodes) && owner == old(owner) && logged == old(logged)
      ensures chunk == s[at..at + m]
    {
      assert NoHoles(blocks, inodes[i]);
      NoHoleAt(blocks, inodes[i], at);
      var addr, _ := Bmap(i, at / BSIZE);
      assert Ref(blocks, inodes[i], PtrOf(at / BSIZE)) in owner;
      ChunkIsContent(blocks, inodes[i], at, m, addr);
      chunk := blocks[addr][at % BSIZE..at % BSIZE + m];
    }

    /** What writei has stored, readi of the same bytes returns. */
    method WriteThenRead(i: nat, off: nat, src: seq<byte>, avail: nat) returns (r: int, out: seq<byte>)
      requires Ready() == true && i < |inodes| && off < UINT_MAX && |src| < UINT_MAX
      modifies this`blocks, this`inodes, this`owner, this`logged
      ensures Ready() == true && (r >= 0 ==> r <= |src| && out == src[..r])
    {
      hide *;
      ReadyParts(i);
      ghost var spill;
      r, spill := Writei(i, off, src, avail);
      out := [];
      if r >= 0 {
        StoredIsThere(blocks, inodes, old(blocks), old(inodes), i, off, src, r, spill);
        var got;
        got, out := Readi(i, off, r, r);
      }
    }

    /** filewrite on an inode: a sequence of transactions, each of at most three
        blocks of data. The file offset moves by the `written` bytes. */
    method Filewrite(i: nat, off: nat, src: seq<byte>, n: int, avail: nat)
      returns (ret: int, off': nat, ghost written: nat, ghost spill: nat)
      requires Ready() == true && i < |inodes| && off < UINT_MAX && n <= |src| < UINT_MAX
      modifies this`blocks, this`inodes, this`owner, this`base, this`logged, this`txs
      ensures Ready() == true && off' == off + written && ret == if written == n then n else -1
      ensures written + spill <= |src|
              && HasStored(old(blocks), old(inodes), blocks, inodes, i, off, src[..written],
                           src[written..written + spill]) == true
      ensures 0 < n ==>
                (written == n <==> Stores(sb, old(blocks), old(inodes), old(owner), i, off, n, avail) == true)
      ensures 0 <= n && written != n ==>
              Halted(sb, old(blocks), old(inodes), old(owner), blocks, i, off, n, avail, written, spill) == true
      ensures spill > 0 ==> avail < n
      ensures old(txs) <= txs && forall k :: |old(txs)| <= k < |txs| ==> |txs[k]| <= RedoLog.MAXOPBLOCKS
      ensures spill == 0 ==> RecordedIn(old(blocks), blocks, txs[|old(txs)|..]) == true
    {
      hide *;
      ThreeBlocks();
      var max := MaxTransaction();
      StoresNothing(i, off);
      FirstTransaction();
      var k := 0;
      off', written, spill := off, 0, 0;
      ghost var ts: seq<set<nat>> := [];
      while k < n
        invariant 0 <= k && (k <= n || k == 0) && k <= avail && written == k && off' == off + k && spill == 0
        invariant Ready() == true && HasStored(old(blocks), old(inodes), blocks, inodes, i, off, src[..k], []) == true
        invariant txs == old(txs) + ts && RecordedIn(old(blocks), blocks, ts) == true
        invariant forall j :: 0 <= j < |ts| ==> |ts[j]| <= RedoLog.MAXOPBLOCKS
        invariant Charged(old(blocks), old(inodes), old(owner), blocks, inodes, owner, i, BlockOf(off),
                          Chunks(off, k)) == true
        invariant k == n || AtTransaction(k) == true
        invariant k == 0 || (off <= old(inodes)[i].size && !Beyond(off + k))
      {
        var n1 := if n - k > max then max else n - k;
        var r;
        ghost var b1 := blocks;
        EnoughSoFar(old(blocks), old(inodes), old(owner), i, off, k);
        Length(k, n);
        r, spill := WriteTransaction(i, off, src[..k], src[k..k + n1], avail - k, old(blocks), old(inodes),
                                     old(owner));
        if spill == 0 { RecordedInMore(old(blocks), b1, blocks, ts, logged); }
        ts := ts + [logged];
        SliceGrows(src, k, n1, if r < 0 then 0 else r);
        SliceAfter(src, k, n1, if r < 0 then 0 else r, spill);
        if r > 0 {
          off' := off' + r;
          written := written + r;
        }
        if r != n1 {
          WhyHalted(sb, old(blocks), old(inodes), old(owner), blocks, i, off, k, n, avail, r, spill);
          break;
        }
        Further(off, k, n);
        k := k + r;
      }
      if 0 < n == k {
        EnoughSoFar(old(blocks), old(inodes), old(owner), i, off, k);
        AllStored(sb, old(blocks), old(inodes), old(owner), i, off, n, avail);
      }
      ret := if k == n then n else -1;
      assert src[k..k] == [] && src[..written] == src[..written];
      assert txs[|old(txs)|..] == ts;
    }

    /** The bytes one transaction may write: its blocks less the inode, the indirect
        block and slop, one bitmap block for each. */
    static function MaxTransaction(): nat { (RedoLog.MAXOPBLOCKS - 1 - 1 - 2) / 2 * BSIZE }

    lemma EnoughSoFar(b0: Store, i0: seq<Inode>, o0: map<nat, Owner>, i: nat, off: nat, k: nat)
      requires Ready() == true && Charged(b0, i0, o0, blocks, inodes, owner, i, BlockOf(off), Chunks(off, k)) == true
      ensures Enough(sb, b0, i0, o0, i, off, k) == true
    {
      hide Charged, Enough, Chunks;
      SomeFree();
      ChargedIsEnough(sb, b0, i0, o0, blocks, inodes, owner, i, off, k);
    }

    static lemma Length(k: nat, n: nat)
      requires k < n
      ensures TransactionLength(k, n) == if n - k > MaxTransaction() then MaxTransaction() else n - k
    {
    }

    static lemma ThreeBlocks()
      ensures 0 < MaxTransaction() == 3 * BSIZE
    {
    }

    lemma StoresNothing(i: nat, off: nat)
      requires Ready() == true && i < |inodes|
      ensures HasStored(blocks, inodes, blocks, inodes, i, off, [], []) == true
              && RecordedIn(blocks, blocks, []) == true
      ensures Tight(blocks, inodes) == true
      ensures Charged(blocks, inodes, owner, blocks, inodes, owner, i, BlockOf(off), Chunks(off, 0)) == true
    {
      NothingCharged(blocks, inodes, owner, i, BlockOf(off));
      NothingStored(blocks, inodes, i, off);
    }

    static lemma SliceGrows(src: seq<byte>, k: nat, n: nat, m: nat)
      requires m <= n && k + n <= |src|
      ensures src[..k] + src[k..k + n][..m] == src[..k + m] && src[..k] + src[k..k + m] == src[..k + m]
    {
    }

    static lemma SliceEnds(src: seq<byte>, k: nat)
      requires k <= |src|
      ensures src[..k] + src[k..k] == src[..k]
    {
    }

    static lemma SliceAfter(src: seq<byte>, k: nat, n: nat, m: nat, p: nat)
      requires m + p <= n && k + n <= |src|
      ensures src[k..k + n][m..m + p] == src[k + m..k + m + p]
    {
      var l, r := src[k..k + n][m..m + p], src[k + m..k + m + p];
      assert forall q :: 0 <= q < p ==> l[q] == r[q];
    }

    static lemma StoredIsThere(b: Store, inodes: seq<Inode>, b0: Store, i0: seq<Inode>, i: nat, off: nat,
                               src: seq<byte>, r: nat, spill: nat)
      requires MapGrew(b0, i0, b, inodes) == true && i < |i0| && off <= i0[i].size && r + spill <= |src|
              && off + |src| <= MAXFILE * BSIZE && InodeOK(|b0|, i0[i])
      requires FileBecame(b0, i0, b, inodes, i, Spilled(Content(b0, i0[i]), off, src[..r], src[r..r + spill])) == true
      ensures i < |inodes| && off + r <= inodes[i].size && off + r < UINT_MAX && InodeOK(|b|, inodes[i])
      ensures Content(b, inodes[i])[off..off + r] == src[..r]
    {
      var c := Content(b, inodes[i]);
      assert |c| == inodes[i].size && c == Spilled(Content(b0, i0[i]), off, src[..r], src[r..r + spill]);
      hide *;
      assert forall q :: 0 <= q < r ==> c[off + q] == src[q];
    }

    /** begin_op, one writei after `d` has been stored, end_op. */
    method WriteTransaction(i: nat, off: nat, d: seq<byte>, e: seq<byte>, avail: nat, ghost b0: Store,
                            ghost i0: seq<Inode>, ghost o0: map<nat, Owner>)
      returns (r: int, ghost spill: nat)
      requires Ready() == true && HasStored(b0, i0, blocks, inodes, i, off, d, []) == true
              && Charged(b0, i0, o0, blocks, inodes, owner, i, BlockOf(off), Chunks(off, |d|)) == true
      requires off < UINT_MAX && 0 < |e| <= 3 * BSIZE
      modifies this`blocks, this`inodes, this`owner, this`base, this`logged, this`txs
      ensures Ready() == true && -1 <= r && (if r < 0 then 0 else r) + spill <= |e| && r <= avail
      ensures |logged| <= RedoLog.MAXOPBLOCKS && txs == old(txs) + [logged]
      ensures var m := if r < 0 then 0 else r;
              HasStored(b0, i0, blocks, inodes, i, off, d + e[..m], e[m..m + spill]) == true
      ensures r == -1 <==> (d == [] && off > i0[i].size) || Beyond(off + |d| + |e|)
      ensures r == -1 ==> spill == 0
      ensures r != -1 && Enough(sb, b0, i0, o0, i, off, |d| + Reach(|e|, avail)) == true ==>
                && r == (if avail < |e| then WholeChunks(off + |d|, avail) else |e|)
                && r + spill == (if avail < |e| then avail else |e|)
      ensures r == |e| ==> Charged(b0, i0, o0, blocks, inodes, owner, i, BlockOf(off), Chunks(off, |d| + |e|)) == true
      ensures r != -1 && Enough(sb, b0, i0, o0, i, off, |d| + Reach(|e|, avail)) == false ==>
                && r < |e| && spill == 0 && Full(sb, blocks) == true && HoleAt(b0, i0, i, off + |d| + r) == true
                && (|d| + r == 0 || OnBoundary(off + |d| + r))
                && RoomFor(sb, b0, i0, o0, i, BlockOf(off), Chunks(off, |d| + r)) == true
      ensures (r == |e| ==> spill == 0) && (spill > 0 ==> avail < |e|)
      ensures spill == 0 ==> Recorded(old(blocks), blocks, logged) == true
    {
      hide Owned, Tight, SyncedBut, FileBecame, Full, HasStored, ChunkLogs, Chunks, StoredAt, Content, Recorded,
          Spilled, Enough, Charged, RoomFor, HoleAt, WholeChunks, BlockOf;
      base, logged := blocks, {};
      NothingChanged(blocks);
      ghost var b1, i1, o1 := blocks, inodes, owner;
      StoredSize(b0, i0, blocks, inodes, i, off, d);
      r, spill := Writei(i, off + |d|, e, avail);
      EnoughMore(sb, b0, i0, o0, b1, i1, o1, i, off, |d|, Reach(|e|, avail));
      if r == -1 {
      } else if Enough(sb, b1, i1, o1, i, off + |d|, Reach(|e|, avail)) == true {
        ChargedJoin(b0, i0, o0, b1, i1, o1, blocks, inodes, owner, i, off, |d|, Reach(|e|, avail));
      } else {
        if r == 0 && |d| > 0 { HoleAtBoundary(b0, i0, o0, b1, i1, o1, i, off, |d|); }
        RoomForMore(sb, b0, i0, o0, b1, i1, o1, i, off, |d|, r);
        HoleWas(b0, i0, o0, b1, i1, o1, i, BlockOf(off), Chunks(off, |d|), off + |d| + r);
      }
      ThreeBlocksFit(off + |d|, |e|);
      txs := txs + [logged];
      if r >= 0 {
        HasStoredMore(b0, i0, b1, i1, blocks, inodes, i, off, d, e[..r], e[r..r + spill]);
      } else {
        assert d + e[..0] == d && e[0..0] == [];
      }
    }

    static lemma NothingChanged(b: Store)
      ensures Recorded(b, b, {}) == true
    {
    }

    /** itrunc: every block of file `i` is freed, no other; bfree never panics. */
    method Itrunc(i: nat) returns (panicked: bool)
      requires Ready() == true && i < |inodes|
      modifies this`blocks, this`inodes, this`owner, this`logged
      ensures !panicked && Ready() == true && FileBecame(old(blocks), old(inodes), blocks, inodes, i, []) == true
      ensures Shrunk(old(owner), owner, i, REFS) == true
      ensures logged == old(logged) + Bitmaps(sb, old(owner).Keys - owner.Keys) + {sb.IBlock(i)}
      ensures old(logged) == {} ==>
                && |logged| == |Bitmaps(sb, old(owner).Keys - owner.Keys)| + 1 <= (sb.size - 1) / BPB + 2
                && (sb.size <= (RedoLog.MAXOPBLOCKS - 1) * BPB ==> |logged| <= RedoLog.MAXOPBLOCKS)
      ensures Recorded(base, old(blocks), old(logged)) == true ==> Recorded(base, blocks, logged) == true
    {
      hide Owned, Tight, SyncedBut, FileBecame, Truncating, Bitmaps, Recorded, Shrunk, BitmapOnly, BPB;
      Shape(sb, blocks, inodes, owner, i);
      panicked := TruncDirect(i);
      panicked := TruncIndirect(i, old(blocks), old(inodes), old(owner), old(logged));
      TruncatingIs(sb, old(blocks), old(inodes), old(owner), old(logged), blocks, inodes, owner, logged, i, REFS);
      EndTrunc(i, old(blocks), old(inodes), old(owner));
      if old(logged) == {} {
        TruncFits(sb, old(owner), owner, i, logged);
      }
    }

    /** The end of itrunc: size 0, and the inode back to disk. */
    method EndTrunc(i: nat, ghost b0: Store, ghost i0: seq<Inode>, ghost o0: map<nat, Owner>)
      requires Valid() == true && Owned(sb, b0, i0, o0) == true && Tight(b0, i0) == true
              && SyncedBut(sb, b0, i0, -1) == true
      requires BitmapOnly(sb, b0, blocks) == true && i < |i0| == |inodes| <= sb.ninodes && inodes == i0[i := inodes[i]]
      modifies this`blocks, this`inodes, this`logged
      ensures Ready() == true && FileBecame(b0, i0, blocks, inodes, i, []) == true
              && logged == old(logged) + {sb.IBlock(i)}
      ensures Recorded(base, old(blocks), old(logged)) == true ==> Recorded(base, blocks, logged) == true
    {
      ghost var b1, i1 := blocks, inodes;
      ResizeKeepsOwned(sb, blocks, i1, owner, i, 0);
      inodes := inodes[i := inodes[i].(size := 0)];
      TruncContent(sb, b0, i0, o0, blocks, inodes, owner, i);
      SyncedKept(sb, b0, i0, blocks, inodes, i);
      Iupdate(i);
      FileBecameThenSame(b0, i0, b1, blocks, inodes, i, []);
      SameBytesContent(b1, blocks, inodes);
    }

    method TruncDirect(i: nat) returns (panicked: bool)
      requires Valid() == true && i < |inodes|
      modifies this`blocks, this`inodes, this`owner, this`logged
      ensures !panicked && Valid() == true && |inodes| == |old(inodes)|
      ensures Truncating(sb, old(blocks), old(inodes), old(owner), old(logged), blocks, inodes, owner, logged, i,
                         NDIRECT) == true
      ensures Recorded(base, old(blocks), old(logged)) == true ==> Recorded(base, blocks, logged) == true
    {
      hide Valid, Truncating;
      panicked := false;
      StartTruncating(sb, blocks, inodes, owner, logged, i);
      for k := 0 to NDIRECT
        invariant !panicked && Valid() == true && |inodes| == |old(inodes)|
        invariant Truncating(sb, old(blocks), old(inodes), old(owner), old(logged), blocks, inodes, owner, logged, i,
                             k) == true
        invariant Recorded(base, old(blocks), old(logged)) == true ==> Recorded(base, blocks, logged) == true
      {
        panicked := FreeDirect(i, k, old(blocks), old(inodes), old(owner), old(logged));
      }
    }

    /** One turn of itrunc's first loop. */
    method FreeDirect(i: nat, k: nat, ghost b0: Store, ghost i0: seq<Inode>, ghost o0: map<nat, Owner>,
                      ghost l0: set<nat>)
      returns (panicked: bool)
      requires Valid() == true && i < |inodes| && k < NDIRECT
      requires Truncating(sb, b0, i0, o0, l0, blocks, inodes, owner, logged, i, k) == true
      modifies this`blocks, this`inodes, this`owner, this`logged
      ensures !panicked && Valid() == true && |inodes| == |old(inodes)|
      ensures Truncating(sb, b0, i0, o0, l0, blocks, inodes, owner, logged, i, k + 1) == true
      ensures Recorded(base, old(blocks), old(logged)) == true ==> Recorded(base, blocks, logged) == true
    {
      hide Owned, Truncating, Freed, Used;
      Shape(sb, blocks, inodes, owner, i);
      var b := inodes[i].addrs[k];
      if b == 0 {
        DirectNull(sb, b0, i0, o0, l0, blocks, inodes, owner, logged, i, k);
        return false;
      }
      DirectIsUsed(sb, blocks, inodes, owner, i, k);
      panicked := Bfree(b);
      DirectFreed(sb, b0, i0, o0, l0, old(blocks), inodes, owner, old(logged), blocks, i, k, b);
      inodes := inodes[i := WithPtr(inodes[i], k, 0)];
      owner := owner - {b};
    }

    /** itrunc on the indirect block and the blocks it lists. */
    method TruncIndirect(i: nat, ghost b0: Store, ghost i0: seq<Inode>, ghost o0: map<nat, Owner>, ghost l0: set<nat>)
      returns (panicked: bool)
      requires Valid() == true && i < |inodes|
      requires Truncating(sb, b0, i0, o0, l0, blocks, inodes, owner, logged, i, NDIRECT) == true
      requires forall b :: b in o0 ==> o0[b].k < REFS
      modifies this`blocks, this`inodes, this`owner, this`logged
      ensures !panicked && Valid() == true && |inodes| == |old(inodes)|
      ensures Truncating(sb, b0, i0, o0, l0, blocks, inodes, owner, logged, i, REFS) == true
      ensures Recorded(base, old(blocks), old(logged)) == true ==> Recorded(base, blocks, logged) == true
    {
      hide Owned, Truncating, Unlisting, Freed, Used, Entries;
      Shape(sb, blocks, inodes, owner, i);
      var ind := inodes[i].addrs[INDIRECT];
      if ind == 0 {
        NoIndirect(sb, b0, i0, o0, l0, blocks, inodes, owner, logged, i);
        return false;
      }
      var a := blocks[ind];
      ghost var gi := inodes[i := WithPtr(inodes[i], INDIRECT, 0)];
      ghost var go := owner - ({ind} + Entries(a, 0));
      StartUnlisting(sb, blocks, logged, inodes, owner, i, ind);
      panicked := FreeEntries(ind, a, old(blocks), old(logged), gi, go);
      EntryIsUsed(sb, old(blocks), old(logged), blocks, logged, gi, go, ind, a, NINDIRECT);
      ghost var b1, l1 := blocks, logged;
      panicked := Bfree(ind);
      IndirectFreed(sb, old(blocks), old(logged), b1, l1, gi, go, ind, a, blocks);
      Truncated(sb, b0, i0, o0, l0, old(blocks), inodes, owner, old(logged), blocks, logged, i, ind);
      inodes := inodes[i := WithPtr(inodes[i], INDIRECT, 0)];
      owner := go;
    }

    /** itrunc's second loop. */
    method FreeEntries(ind: nat, a: Block, ghost b1: Store, ghost l1: set<nat>, ghost gi: seq<Inode>,
                       ghost go: map<nat, Owner>)
      returns (panicked: bool)
      requires Unlisting(sb, b1, l1, blocks, logged, gi, go, ind, a, 0) == true
      modifies this`blocks, this`logged
      ensures !panicked && Unlisting(sb, b1, l1, blocks, logged, gi, go, ind, a, NINDIRECT) == true
      ensures Recorded(base, old(blocks), old(logged)) == true ==> Recorded(base, blocks, logged) == true
    {
      hide Unlisting, Freed, Used;
      panicked := false;
      for e := 0 to NINDIRECT
        invariant !panicked && Unlisting(sb, b1, l1, blocks, logged, gi, go, ind, a, e) == true
        invariant Recorded(base, old(blocks), old(logged)) == true ==> Recorded(base, blocks, logged) == true
      {
        EntryIsUsed(sb, b1, l1, blocks, logged, gi, go, ind, a, e);
        if GetWord(a, e) != 0 {
          ghost var b, l := blocks, logged;
          panicked := Bfree(GetWord(a, e));
          EntryFreed(sb, b1, l1, b, l, gi, go, ind, a, e, blocks);
        } else {
          EntryNull(sb, b1, l1, blocks, logged, gi, go, ind, a, e);
        }
      }
    }
  }
}
