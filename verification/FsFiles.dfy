/** Files as byte sequences: what writei promises about them (kernel/fs.c). */
module FsFiles {
  import opened Blocks
  import opened FsLayout
  import opened FsMaps
  import opened FsBytes
  import RedoLog

  function Content(blocks: Store, ino: Inode): (s: seq<byte>)
    requires InodeOK(|blocks|, ino)
    ensures |s| == ino.size
  {
    seq(ino.size, p requires 0 <= p < ino.size => ByteOf(blocks, ino, p))
  }

  function Overwrite(s: seq<byte>, off: nat, d: seq<byte>): seq<byte>
    requires off <= |s|
  {
    s[..off] + d + if off + |d| < |s| then s[off + |d|..] else []
  }

  /** No file has an unmapped block below its size. */
  ghost predicate Tight(blocks: Store, inodes: seq<Inode>) {
    AllOK(|blocks|, inodes) && forall j :: 0 <= j < |inodes| ==> NoHoles(blocks, inodes[j])
  }

  ghost predicate DinodeIs(sb: Superblock, blocks: Store, j: nat, ino: Inode) {
    sb.IBlock(j) < |blocks| && ReadDinode(blocks[sb.IBlock(j)], j % IPB) == ino
  }

  /** Every in-memory inode but number `i` is what its inode block holds. */
  ghost predicate SyncedBut(sb: Superblock, blocks: Store, inodes: seq<Inode>, i: int) {
    forall j :: 0 <= j < |inodes| && j != i ==> DinodeIs(sb, blocks, j, inodes[j])
  }

  /** File `i` now holds `s`; the other files are as they were. */
  ghost predicate FileBecame(blocks: Store, inodes: seq<Inode>, blocks': Store, inodes': seq<Inode>, i: nat,
                             s: seq<byte>) {
    && Comparable(blocks, inodes, blocks', inodes') && i < |inodes| && Content(blocks', inodes'[i]) == s
    && forall j :: 0 <= j < |inodes| && j != i ==> Content(blocks', inodes'[j]) == Content(blocks, inodes[j])
  }

  lemma SyncedKept(sb: Superblock, blocks: Store, inodes: seq<Inode>, blocks': Store, inodes': seq<Inode>, i: nat)
    requires sb.WellFormed() && |inodes| == |inodes'| <= sb.ninodes
    requires SyncedBut(sb, blocks, inodes, i) && InodeBlocksKept(sb, blocks, blocks')
    requires forall j :: 0 <= j < |inodes| && j != i ==> inodes'[j] == inodes[j]
    ensures SyncedBut(sb, blocks', inodes', i)
  {
    forall j | 0 <= j < |inodes| && j != i ensures DinodeIs(sb, blocks', j, inodes'[j]) {
      assert DinodeIs(sb, blocks, j, inodes[j]);
      InodeBlockIsMeta(sb, j);
    }
  }

  lemma SyncedOne(sb: Superblock, blocks: Store, inodes: seq<Inode>, i: nat, blk: Block)
    requires i < |inodes| && SyncedBut(sb, blocks, inodes, i) && sb.IBlock(i) < |blocks|
    requires ReadDinode(blk, i % IPB) == inodes[i]
    requires forall s :: 0 <= s < IPB && s != i % IPB ==> ReadDinode(blk, s) == ReadDinode(blocks[sb.IBlock(i)], s)
    ensures SyncedBut(sb, blocks[sb.IBlock(i) := blk], inodes, -1)
  {
    var b' := blocks[sb.IBlock(i) := blk];
    forall j | 0 <= j < |inodes| ensures DinodeIs(sb, b', j, inodes[j]) {
      SlotsApart(i, j);
      if j != i { assert DinodeIs(sb, blocks, j, inodes[j]); }
    }
  }

  lemma FullKept(sb: Superblock, blocks: Store, blocks': Store, inodes: seq<Inode>, owner: map<nat, Owner>)
    requires Owned(sb, blocks, inodes, owner) && Owned(sb, blocks', inodes, owner)
    ensures Full(sb, blocks) ==> Full(sb, blocks')
  {
    assert forall c :: 0 <= c < sb.size ==> Used(sb, blocks', c) == Used(sb, blocks, c);
  }

  lemma SlotsApart(i: nat, j: nat)
    ensures i / IPB == j / IPB && i % IPB == j % IPB ==> i == j
  {
  }

  // ------------------------------------------------------------- the end of writei

  function WithSize(inodes: seq<Inode>, i: nat, size: nat): seq<Inode>
    requires i < |inodes|
  {
    inodes[i := inodes[i].(size := size)]
  }

  lemma ResizeKeepsOwned(sb: Superblock, blocks: Store, inodes: seq<Inode>, owner: map<nat, Owner>, i: nat, size: nat)
    requires Owned(sb, blocks, inodes, owner) && i < |inodes| && size <= MAXFILE * BSIZE
    ensures Owned(sb, blocks, WithSize(inodes, i, size), owner)
  {
    var inodes' := WithSize(inodes, i, size);
    assert InodeOK(sb.size, inodes'[i]);
    assert forall j, k :: 0 <= j < |inodes| && 0 <= k < REFS ==>
            Ref(blocks, inodes'[j], k) == Ref(blocks, inodes[j], k);
  }

  lemma ResizeKeepsBytes(blocks: Store, ino: Inode, size: nat)
    requires InodeOK(|blocks|, ino) && size <= MAXFILE * BSIZE
    ensures InodeOK(|blocks|, ino.(size := size))
    ensures forall p :: 0 <= p < MAXFILE * BSIZE ==> ByteOf(blocks, ino.(size := size), p) == ByteOf(blocks, ino, p)
    ensures forall n :: 0 <= n < MAXFILE ==> DataBlock(blocks, ino.(size := size), n) == DataBlock(blocks, ino, n)
  {
  }

  /** Mappings only grow over the end of writei as well. */
  lemma ResizedGrew(b0: Store, i0: seq<Inode>, b1: Store, i1: seq<Inode>, b2: Store, i2: seq<Inode>, i: nat, size: nat)
    requires MapGrew(b0, i0, b1, i1) && i < |i1| && size <= MAXFILE * BSIZE && i2 == WithSize(i1, i, size)
    requires MapGrew(b1, i2, b2, i2)
    ensures MapGrew(b0, i0, b2, i2) == true
  {
    ResizeKeepsBytes(b1, i1[i], size);
  }

  /** A file after `d` has been written at `off` and counted in its size, and `p`
      behind it without being counted. */
  function Spilled(s: seq<byte>, off: nat, d: seq<byte>, p: seq<byte>): (t: seq<byte>)
    requires off <= |s|
    ensures |t| == if off + |d| > |s| then off + |d| else |s|
  {
    Overwrite(s, off, d + p)[..if off + |d| > |s| then off + |d| else |s|]
  }

  /** The spill is harmless exactly if the file already held those bytes. */
  lemma SpillShows(s: seq<byte>, off: nat, d: seq<byte>, p: seq<byte>)
    requires off <= |s|
    ensures Spilled(s, off, d, p) == Overwrite(s, off, d) <==>
            forall k :: 0 <= k < |p| && off + |d| + k < |s| ==> p[k] == s[off + |d| + k]
  {
    var t, u := Spilled(s, off, d, p), Overwrite(s, off, d);
    assert |t| == |u|;
    forall k | 0 <= k < |p| && off + |d| + k < |s|
      ensures t[off + |d| + k] == p[k] && u[off + |d| + k] == s[off + |d| + k] { }
    if forall k :: 0 <= k < |p| && off + |d| + k < |s| ==> p[k] == s[off + |d| + k] {
      forall q | 0 <= q < |t| ensures t[q] == u[q] {
        if off + |d| <= q < off + |d| + |p| { assert p[q - off - |d|] == s[off + |d| + (q - off - |d|)]; }
      }
    }
  }

  /** Of a source written at `off`, how many bytes lie in the chunks that precede byte
      `avail`, the first that cannot be read. */
  function WholeChunks(off: nat, avail: nat): (m: nat)
    ensures m <= avail
  {
    if off / BSIZE == (off + avail) / BSIZE then 0 else avail - (off + avail) % BSIZE
  }

  /** writei's spill does no harm: all of the source can be read, or what can be read
      of the chunk that fails is in the file already, as far as that goes. */
  predicate Harmless(s: seq<byte>, off: nat, src: seq<byte>, avail: nat) {
    avail >= |src| ||
    forall k :: WholeChunks(off, avail) <= k < avail && off + k < |s| ==> src[k] == s[off + k]
  }

  /** Chunks start at `off` and at the block boundaries above it. */
  lemma LastChunk(off: nat, tot: nat, avail: nat)
    requires tot <= avail && (tot == 0 || (off + tot) % BSIZE == 0)
    ensures tot <= WholeChunks(off, avail)
    ensures (off + tot) % BSIZE + (avail - tot) < BSIZE ==> tot == WholeChunks(off, avail)
  {
    var x, y := off + tot, off + avail;
    assert x / BSIZE <= y / BSIZE;
    if tot > 0 && x / BSIZE == y / BSIZE { assert y % BSIZE == y - x; }
    if x % BSIZE + (avail - tot) < BSIZE { assert x / BSIZE == y / BSIZE; }
  }

  /** Where the loop stopped short, the file is what it should be exactly if the
      spill does no harm. */
  lemma HarmlessIff(s: seq<byte>, off: nat, src: seq<byte>, avail: nat, r: nat, spill: nat)
    requires off <= |s| && r + spill <= |src| && r <= avail && (spill > 0 ==> avail < |src|)
    requires r < |src| ==> StopsAt(off, r, spill) && (r + spill == avail || (spill == 0 && off + r >= |s|))
    ensures Spilled(s, off, src[..r], src[r..r + spill]) == Overwrite(s, off, src[..r]) <==>
            Harmless(s, off, src, avail)
  {
    var p := src[r..r + spill];
    SpillShows(s, off, src[..r], p);
    if r < |src| {
      LastChunk(off, r, avail);
      if r + spill == avail {
        forall k | 0 <= k < spill ensures p[k] == src[r + k] { }
        HarmlessByPart(s, off, src, r, spill, p);
      }
    }
  }

  lemma HarmlessByPart(s: seq<byte>, off: nat, src: seq<byte>, r: nat, spill: nat, p: seq<byte>)
    requires r + spill <= |src| && p == src[r..r + spill]
    ensures (forall k :: 0 <= k < |p| && off + r + k < |s| ==> p[k] == s[off + r + k]) <==>
            (forall k :: r <= k < r + spill && off + k < |s| ==> src[k] == s[off + k])
  {
    if forall k :: 0 <= k < |p| && off + r + k < |s| ==> p[k] == s[off + r + k] {
      forall k | r <= k < r + spill && off + k < |s| ensures src[k] == s[off + k] {
        assert p[k - r] == s[off + r + (k - r)];
      }
    }
  }

  /** At a chunk's start that was unmapped, a file without holes has ended. */
  lemma HoleIsPastEnd(blocks: Store, inodes: seq<Inode>, i: nat, off: nat, tot: nat)
    requires HoleAt(blocks, inodes, i, off + tot) == true && NoHoles(blocks, inodes[i])
    ensures off + tot >= inodes[i].size
  {
    var bn := (off + tot) / BSIZE;
    assert bn * BSIZE >= inodes[i].size;
  }

  lemma SpilledNothing(s: seq<byte>, off: nat, d: seq<byte>)
    requires off <= |s|
    ensures Spilled(s, off, d, []) == Overwrite(s, off, d)
  {
    SpillShows(s, off, d, []);
  }

  lemma WrittenContent(b0: Store, i0: seq<Inode>, b: Store, inodes: seq<Inode>, i: nat, off: nat, d: seq<byte>,
                       p: seq<byte>, size: nat)
    requires Written(b0, i0, b, inodes, i, off, d + p) && off <= i0[i].size && off + |d| + |p| <= MAXFILE * BSIZE
    requires size == if off + |d| > i0[i].size then off + |d| else i0[i].size
    ensures FileBecame(b0, i0, b, WithSize(inodes, i, size), i, Spilled(Content(b0, i0[i]), off, d, p)) == true
  {
    var inodes' := WithSize(inodes, i, size);
    ResizeKeepsBytes(b, inodes[i], size);
    assert Content(b, inodes'[i]) == Spilled(Content(b0, i0[i]), off, d, p);
    forall j | 0 <= j < |inodes| && j != i ensures Content(b, inodes'[j]) == Content(b0, i0[j]) {
      assert inodes'[j] == inodes[j] && inodes[j].size == i0[j].size;
    }
  }

  lemma WrittenTight(b0: Store, i0: seq<Inode>, b: Store, inodes: seq<Inode>, i: nat, off: nat, d: seq<byte>,
                     p: seq<byte>, size: nat)
    requires Written(b0, i0, b, inodes, i, off, d + p) && Tight(b0, i0) && off + |d| + |p| <= MAXFILE * BSIZE
    requires size == if off + |d| > i0[i].size then off + |d| else i0[i].size
    ensures Tight(b, WithSize(inodes, i, size))
  {
    var inodes' := WithSize(inodes, i, size);
    ResizeKeepsBytes(b, inodes[i], size);
    forall j | 0 <= j < |inodes| ensures NoHoles(b, inodes'[j]) {
      assert NoHoles(b0, i0[j]) && i0[j].size == inodes[j].size;
    }
  }

  lemma SameBytesContent(b0: Store, b: Store, inodes: seq<Inode>)
    requires SameBytes(b0, inodes, b, inodes) && MapGrew(b0, inodes, b, inodes)
    ensures forall j :: 0 <= j < |inodes| ==> Content(b, inodes[j]) == Content(b0, inodes[j])
    ensures Tight(b0, inodes) ==> Tight(b, inodes)
  {
    if Tight(b0, inodes) {
      forall j | 0 <= j < |inodes| ensures NoHoles(b, inodes[j]) { assert NoHoles(b0, inodes[j]); }
    }
  }

  lemma LogsInAll(sb: Superblock, l0: set<nat>, l: set<nat>, spent: set<nat>, ino: Inode, ib: nat, k: nat)
    requires |ino.addrs| == NDIRECT + 1 && l <= l0 + spent + IndirectSet(sb, ino) && |spent| <= k
    ensures |l + {ib} - l0| <= k + 3
  {
    var ind := IndirectSet(sb, ino);
    var a, c := ino.addrs[INDIRECT], sb.BBlock(ino.addrs[INDIRECT]);
    UnionSize({a}, {c});
    SubsetSize(ind, {a} + {c});
    UnionSize(spent, ind);
    UnionSize(spent + ind, {ib});
    SubsetSize(l + {ib} - l0, spent + ind + {ib});
  }

  lemma FileBecameThenSame(b0: Store, i0: seq<Inode>, b1: Store, b2: Store, inodes: seq<Inode>, i: nat, s: seq<byte>)
    requires FileBecame(b0, i0, b1, inodes, i, s) && SameBytes(b1, inodes, b2, inodes)
            && MapGrew(b1, inodes, b2, inodes)
    ensures FileBecame(b0, i0, b2, inodes, i, s)
  {
    SameBytesContent(b1, b2, inodes);
  }

  // ------------------------------------------------------- reads, and several writes

  lemma ChunkByte(at: nat, m: nat, q: nat)
    requires at % BSIZE + m <= BSIZE && q < m
    ensures (at + q) / BSIZE == at / BSIZE && (at + q) % BSIZE == at % BSIZE + q
  {
  }

  lemma ChunkIsContent(blocks: Store, ino: Inode, at: nat, m: nat, a: nat)
    requires InodeOK(|blocks|, ino) && at + m <= ino.size && at % BSIZE + m <= BSIZE && at < MAXFILE * BSIZE
    requires 0 < a < |blocks| && DataBlock(blocks, ino, at / BSIZE) == a
    ensures blocks[a][at % BSIZE..at % BSIZE + m] == Content(blocks, ino)[at..at + m]
  {
    var l, r := blocks[a][at % BSIZE..at % BSIZE + m], Content(blocks, ino)[at..at + m];
    forall q | 0 <= q < m ensures l[q] == r[q] {
      ChunkByte(at, m, q);
      assert r[q] == ByteOf(blocks, ino, at + q);
    }
  }

  lemma NoHoleAt(blocks: Store, ino: Inode, at: nat)
    requires InodeOK(|blocks|, ino) && NoHoles(blocks, ino) && at < ino.size
    ensures DataBlock(blocks, ino, at / BSIZE) != 0
  {
  }

  /** `d` stored at `off` and `p` spilled; nothing, wherever `off` is, when there is
      neither. */
  function StoredAt(s: seq<byte>, off: nat, d: seq<byte>, p: seq<byte>): seq<byte>
    requires off <= |s| || d + p == []
  {
    if d + p == [] then s else Spilled(s, off, d, p)
  }

  lemma StoreTwice(s: seq<byte>, off: nat, d: seq<byte>, e: seq<byte>)
    requires off <= |s|
    ensures off + |d| <= |Overwrite(s, off, d)|
            && Overwrite(Overwrite(s, off, d), off + |d|, e) == Overwrite(s, off, d + e)
  {
    var t := Overwrite(s, off, d);
    assert t[..off + |d|] == s[..off] + d;
    if off + |d| + |e| < |s| {
      assert t[off + |d| + |e|..] == s[off + |d| + |e|..];
    }
  }

  /** Since (b0, i0), exactly `d` has been stored at `off` of file `i`, and `p` spilled. */
  ghost predicate HasStored(b0: Store, i0: seq<Inode>, b: Store, inodes: seq<Inode>, i: nat, off: nat, d: seq<byte>,
                            p: seq<byte>) {
    && Comparable(b0, i0, b, inodes) && i < |i0| && (off <= i0[i].size || d + p == [])
    && FileBecame(b0, i0, b, inodes, i, StoredAt(Content(b0, i0[i]), off, d, p))
  }

  lemma StoredSize(b0: Store, i0: seq<Inode>, b: Store, inodes: seq<Inode>, i: nat, off: nat, d: seq<byte>)
    requires HasStored(b0, i0, b, inodes, i, off, d, []) == true
    ensures i < |inodes| && i < |i0| && inodes[i].size <= MAXFILE * BSIZE
    ensures if d == [] then inodes[i].size == i0[i].size else off + |d| <= inodes[i].size
  {
    assert inodes[i].size == |StoredAt(Content(b0, i0[i]), off, d, [])|;
  }

  lemma HasStoredMore(b0: Store, i0: seq<Inode>, b1: Store, i1: seq<Inode>, b2: Store, i2: seq<Inode>, i: nat,
                      off: nat, d: seq<byte>, e: seq<byte>, p: seq<byte>)
    requires HasStored(b0, i0, b1, i1, i, off, d, []) == true && off + |d| <= i1[i].size
    requires FileBecame(b1, i1, b2, i2, i, Spilled(Content(b1, i1[i]), off + |d|, e, p)) == true
    ensures HasStored(b0, i0, b2, i2, i, off, d + e, p) == true
  {
    var s := Content(b0, i0[i]);
    StoredSize(b0, i0, b1, i1, i, off, d);
    StoredThenMore(s, off, d, e, p);
    assert Content(b1, i1[i]) == StoredAt(s, off, d, []);
    assert Content(b2, i2[i]) == StoredAt(s, off, d + e, p);
  }

  lemma StoredThenMore(s: seq<byte>, off: nat, d: seq<byte>, e: seq<byte>, p: seq<byte>)
    requires (off <= |s| || d + [] == []) && off + |d| <= |StoredAt(s, off, d, [])|
    ensures off <= |s| && Spilled(StoredAt(s, off, d, []), off + |d|, e, p) == StoredAt(s, off, d + e, p)
  {
    assert Overwrite(s, off, []) == s && d + (e + p) == d + e + p && d + [] == d;
    StoreTwice(s, off, d, e + p);
    SpilledNothing(s, off, d);
  }

  lemma NothingStored(b: Store, inodes: seq<Inode>, i: nat, off: nat)
    requires AllOK(|b|, inodes) && i < |inodes|
    ensures HasStored(b, inodes, b, inodes, i, off, [], []) == true
  {
  }

  /** What one call of writei may log, and that filewrite's share fits a transaction. */
  lemma ThreeBlocksFit(off: nat, n: nat)
    requires n <= 3 * BSIZE
    ensures ChunkLogs(off, Chunks(off, n)) + 3 <= RedoLog.MAXOPBLOCKS
  {
  }
}
