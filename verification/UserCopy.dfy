/** copyout and copyin: moving bytes through a page table (kernel/vm.c). */
module UserCopy {
  import opened Blocks
  import opened PageTable
  import opened PageTableSteps
  import opened Paging

  /** The byte a user of `root` sees at virtual address `a`. */
  function UserByte(s: Phys, root: nat, a: nat): byte {
    var pte := Maps(s, root, a / PGSIZE);
    if pte.f.v && pte.f.u && pte.ppn in s.mem && s.mem[pte.ppn].Bytes? && |s.mem[pte.ppn].bytes| == PGSIZE
    then s.mem[pte.ppn].bytes[a % PGSIZE] else 0
  }

  function UserBytes(s: Phys, root: nat, a: nat, n: nat): seq<byte> {
    seq<byte>(n, i requires 0 <= i => UserByte(s, root, a + i))
  }

  predicate Readable(s: Phys, root: nat, v: nat) {
    v < MAXVPN && Maps(s, root, v).f.v && Maps(s, root, v).f.u
  }

  predicate Writable(s: Phys, root: nat, v: nat) {
    Readable(s, root, v) && Maps(s, root, v).f.w
  }

  ghost predicate AllReadable(s: Phys, root: nat, a: nat, n: nat) {
    forall x: nat :: a <= x < a + n ==> Readable(s, root, x / PGSIZE)
  }

  ghost predicate AllWritable(s: Phys, root: nat, a: nat, n: nat) {
    forall x: nat :: a <= x < a + n ==> Writable(s, root, x / PGSIZE)
  }

  /** Users of `root` now see `d` at `a`; every other byte of every user is as
      before, and so are all mappings and uses of pages. */
  ghost predicate CopiedOut(s: Phys, t: Phys, root: nat, a: nat, d: seq<byte>) {
    && t.use == s.use && t.at == s.at && SameMaps(s, t)
    && (forall r: nat, x: nat :: UserByte(t, r, x) == if r == root && a <= x < a + |d| then d[x - a] else UserByte(s, r,
            x))
  }

  /** What copyout stores, copyin of the same range gets. */
  lemma RoundTrip(s: Phys, t: Phys, root: nat, a: nat, d: seq<byte>)
    requires CopiedOut(s, t, root, a, d) && AllWritable(s, root, a, |d|)
    ensures UserBytes(t, root, a, |d|) == d && AllReadable(t, root, a, |d|)
  {
    forall x: nat | a <= x < a + |d| ensures Readable(t, root, x / PGSIZE) {
      assert Writable(s, root, x / PGSIZE) && Maps(t, root, x / PGSIZE) == Maps(s, root, x / PGSIZE);
    }
  }

  /** Bytes x.. of one page. */
  lemma InPage(x: nat, n: nat, y: nat)
    requires x % PGSIZE + n <= PGSIZE
    ensures x <= y < x + n <==> y / PGSIZE == x / PGSIZE && x % PGSIZE <= y % PGSIZE < x % PGSIZE + n
    ensures x <= y < x + n ==> y % PGSIZE - x % PGSIZE == y - x
  {
  }

  /** A user mapping's page holds bytes and is no one else's. */
  lemma UserPageAt(s: Phys, root: nat, v: nat)
    requires Good(s) == true && Readable(s, root, v)
    ensures var p := Maps(s, root, v).ppn;
            && p in s.use && s.use[p] == UserPage(root, v) && p in s.mem && s.mem[p].Bytes?
            && |s.mem[p].bytes| == PGSIZE && p != 0
  {
    assert Leaf(s.mem, s.at, root, v).f.v;
  }

  lemma WriteKeepsGood(s: Phys, p: nat, pg: Page)
    requires Good(s) == true && p in s.use && s.use[p].UserPage? && pg.Bytes? && |pg.bytes| == PGSIZE
    ensures Good(s.(mem := s.mem[p := pg])) == true && SameMaps(s, s.(mem := s.mem[p := pg])) == true
  {
    FreeListKept(s.mem, s.head, s.free, s.use, p, pg, s.use[p]);
    assert s.use[p := s.use[p]] == s.use;
    WriteKeepsTables(s.mem, s.use, s.at, p, pg);
    hide FreeList, TablePages, Tree, Leaves, Users, SameLeaves;
    SameLeavesSameMaps(s, s.(mem := s.mem[p := pg]));
  }

  lemma WriteSeesTables(mem: Memory, use: map<nat, Use>, at: Places, p: nat, pg: Page)
    requires TablePages(mem, use, at) == true && p in use && use[p].UserPage?
    ensures forall n, e :: n in at ==> at[n] != p && PteAt(mem[p := pg], at[n], e) == PteAt(mem, at[n], e)
    ensures SameLeaves(mem, at, mem[p := pg], at) == true
  {
    assert forall n :: n in at ==> at[n] != p;
  }

  lemma WriteKeepsTables(mem: Memory, use: map<nat, Use>, at: Places, p: nat, pg: Page)
    requires TablePages(mem, use, at) == true && Tree(mem, at, {}) == true && Leaves(mem, use, at) == true
            && Users(mem, use, at) == true
    requires p in use && use[p].UserPage? && pg.Bytes? && |pg.bytes| == PGSIZE
    ensures TablePages(mem[p := pg], use, at) == true && Tree(mem[p := pg], at, {}) == true
            && Leaves(mem[p := pg], use, at) == true
    ensures Users(mem[p := pg], use, at) == true && SameLeaves(mem, at, mem[p := pg], at) == true
  {
    WriteSeesTables(mem, use, at, p, pg);
  }

  function Spliced(b: seq<byte>, o: nat, d: seq<byte>): (r: seq<byte>)
    requires o + |d| <= |b|
    ensures |r| == |b|
  {
    b[..o] + d + b[o + |d|..]
  }

  /** memmove into one user page. */
  lemma OnePageWritten(s: Phys, t: Phys, root: nat, x: nat, d: seq<byte>, p: nat)
    requires Good(s) == true && Readable(s, root, x / PGSIZE) && p == Maps(s, root, x / PGSIZE).ppn
    requires p in s.use && s.use[p] == UserPage(root, x / PGSIZE) && p in s.mem && s.mem[p].Bytes?
            && |s.mem[p].bytes| == PGSIZE
    requires x % PGSIZE + |d| <= PGSIZE && t == s.(mem := s.mem[p := Bytes(Spliced(s.mem[p].bytes, x % PGSIZE, d))])
    ensures Good(t) == true && CopiedOut(s, t, root, x, d) == true
  {
    hide Inv, UserByte, Maps, Readable, Spliced;
    WriteKeepsGood(s, p, t.mem[p]);
    forall r: nat, y: nat
      ensures UserByte(t, r, y) == if r == root && x <= y < x + |d| then d[y - x] else UserByte(s, r, y)
    {
      OneByteWritten(s, t, root, x, d, p, r, y);
    }
  }

  lemma OneByteWritten(s: Phys, t: Phys, root: nat, x: nat, d: seq<byte>, p: nat, r: nat, y: nat)
    requires Good(s) == true && Readable(s, root, x / PGSIZE) == true && p == Maps(s, root, x / PGSIZE).ppn
    requires p in s.use && s.use[p] == UserPage(root, x / PGSIZE) && p in s.mem && s.mem[p].Bytes?
            && |s.mem[p].bytes| == PGSIZE
    requires x % PGSIZE + |d| <= PGSIZE && t == s.(mem := s.mem[p := Bytes(Spliced(s.mem[p].bytes, x % PGSIZE, d))])
    requires SameMaps(s, t) == true
    ensures UserByte(t, r, y) == if r == root && x <= y < x + |d| then d[y - x] else UserByte(s, r, y)
  {
    hide Inv, Maps;
    InPage(x, |d|, y);
    OwnPage(s, r, y / PGSIZE);
    assert Maps(t, r, y / PGSIZE) == Maps(s, r, y / PGSIZE);
  }

  lemma OwnPage(s: Phys, r: nat, v: nat)
    requires Good(s) == true
    ensures var pte := Maps(s, r, v); pte.f.v && pte.f.u ==> pte.ppn in s.use && s.use[pte.ppn] == UserPage(r, v)
  {
    assert Leaf(s.mem, s.at, r, v) == Maps(s, r, v);
  }

  lemma CopiedMore(s: Phys, t: Phys, u: Phys, root: nat, a: nat, d: seq<byte>, e: seq<byte>, at: nat)
    requires CopiedOut(s, t, root, a, d) == true && CopiedOut(t, u, root, at, e) == true && at == a + |d|
    ensures CopiedOut(s, u, root, a, d + e) == true
  {
    hide UserByte, Maps;
    assert SameMaps(s, u);
    hide SameMaps;
  }

  lemma NothingCopied(s: Phys, root: nat, a: nat)
    ensures CopiedOut(s, s, root, a, []) == true
  {
  }

  function ChunkLen(x: nat, left: nat): (n: nat)
    requires left > 0
    ensures 0 < n <= left && x % PGSIZE + n <= PGSIZE
  {
    if left < PGSIZE - x % PGSIZE then left else PGSIZE - x % PGSIZE
  }

  /** The bytes of a chunk share the page of its first byte. */
  lemma ChunkWritable(s: Phys, root: nat, a: nat, k: nat, n: nat)
    requires (a + k) % PGSIZE + n <= PGSIZE && AllWritable(s, root, a, k) == true && Writable(s, root, (a + k) / PGSIZE)
    ensures AllWritable(s, root, a, k + n) == true
  {
    forall x: nat | a <= x < a + k + n ensures Writable(s, root, x / PGSIZE) {
      if x >= a + k { InPage(a + k, n, x); }
    }
  }

  lemma NotWritable(s: Phys, root: nat, a: nat, x: nat, n: nat)
    requires a <= x < a + n && !Writable(s, root, x / PGSIZE)
    ensures AllWritable(s, root, a, n) == false
  {
  }

  lemma StillWritable(s: Phys, t: Phys, root: nat, a: nat, d: seq<byte>, v: nat)
    requires CopiedOut(s, t, root, a, d) == true
    ensures Writable(t, root, v) == Writable(s, root, v) && Readable(t, root, v) == Readable(s, root, v)
  {
    assert Maps(t, root, v) == Maps(s, root, v);
  }

  /** copyout: stores all of `src` at `dstva`, or fails at the first page a user
      could not write, with the bytes before it stored. */
  method Copyout(vm: Vm, root: nat, dstva: nat, src: seq<byte>) returns (r: int, ghost k: nat)
    requires Good(vm.S()) == true && Node(root, 2, 0) in vm.at
    modifies vm
    ensures Good(vm.S()) == true && (r == 0 || r == -1) && k <= |src| && (r == 0 ==> k == |src|)
    ensures CopiedOut(old(vm.S()), vm.S(), root, dstva, src[..k]) == true
    ensures r == 0 <==> AllWritable(old(vm.S()), root, dstva, |src|) == true
  {
    hide Inv, Maps, Readable, Writable, AllWritable, CopiedOut, UserByte, ChunkLen;
    ghost var s0 := vm.S();
    k := 0;
    var done := 0;
    NothingCopied(s0, root, dstva);
    NoneWritten(s0, root, dstva);
    while done < |src|
      invariant done <= |src| && k == done && Good(vm.S()) == true && Node(root, 2, 0) in vm.at
      invariant CopiedOut(s0, vm.S(), root, dstva, src[..k]) == true && AllWritable(s0, root, dstva, k) == true
    {
      ghost var s := vm.S();
      var x := dstva + done;
      var n := ChunkLen(x, |src| - done);
      StillWritable(s0, s, root, dstva, src[..k], x / PGSIZE);
      var ok := CopyOutPage(vm, root, x, src[done..done + n]);
      if !ok {
        NotWritable(s0, root, dstva, x, |src|);
        return -1, k;
      }
      ChunkWritable(s0, root, dstva, k, n);
      CopiedMore(s0, s, vm.S(), root, dstva, src[..k], src[done..done + n], x);
      CopiedFrame(s, vm.S(), root, x, src[done..done + n]);
      assert src[..k] + src[done..done + n] == src[..k + n];
      done, k := done + n, k + n;
    }
    r := 0;
  }

  lemma NoneWritten(s: Phys, root: nat, a: nat)
    ensures AllWritable(s, root, a, 0) == true && AllReadable(s, root, a, 0) == true
  {
  }

  lemma CopiedFrame(s: Phys, t: Phys, root: nat, a: nat, d: seq<byte>)
    requires CopiedOut(s, t, root, a, d) == true
    ensures t.at == s.at
  {
  }

  /** One turn of copyout's loop. */
  method CopyOutPage(vm: Vm, root: nat, x: nat, d: seq<byte>) returns (ok: bool)
    requires Good(vm.S()) == true && Node(root, 2, 0) in vm.at && x % PGSIZE + |d| <= PGSIZE
    modifies vm
    ensures Good(vm.S()) == true && ok == old(Writable(vm.S(), root, x / PGSIZE))
    ensures ok ==> CopiedOut(old(vm.S()), vm.S(), root, x, d) == true
    ensures !ok ==> vm.S() == old(vm.S())
  {
    hide Inv, Maps, CopiedOut, UserByte, Up, Slot;
    if x / PGSIZE >= MAXVPN {
      return false;
    }
    var w := vm.Walk(root, x / PGSIZE, false);
    LeafOrNot(vm.S(), root, x / PGSIZE);
    if !w.Entry? {
      return false;
    }
    var pte := vm.mem[w.page].ptes[w.index];
    if !pte.f.v || !pte.f.u || !pte.f.w {
      return false;
    }
    ghost var s := vm.S();
    UserPageAt(s, root, x / PGSIZE);
    vm.mem := vm.mem[pte.ppn := Bytes(Spliced(vm.mem[pte.ppn].bytes, x % PGSIZE, d))];
    OnePageWritten(s, vm.S(), root, x, d, pte.ppn);
    return true;
  }

  // -------------------------------------------------------------------------- copyin

  /** walkaddr: the physical page of a user page; 0 if there is none. */
  method Walkaddr(vm: Vm, root: nat, v: nat) returns (p: nat)
    requires Good(vm.S()) == true && Node(root, 2, 0) in vm.at
    modifies vm
    ensures vm.S() == old(vm.S())
    ensures if Readable(vm.S(), root, v) then p == Maps(vm.S(), root, v).ppn && p != 0 else p == 0
  {
    hide Inv, Maps, Up, Slot;
    if v >= MAXVPN {
      return 0;
    }
    var w := vm.Walk(root, v, false);
    LeafOrNot(vm.S(), root, v);
    if !w.Entry? {
      return 0;
    }
    var pte := vm.mem[w.page].ptes[w.index];
    if !pte.f.v || !pte.f.u {
      return 0;
    }
    UserPageAt(vm.S(), root, v);
    return pte.ppn;
  }

  /** copyin: exactly the bytes the user sees, or a failure at the first page the
      user does not have. */
  method Copyin(vm: Vm, root: nat, srcva: nat, len: nat) returns (r: int, dst: seq<byte>)
    requires Good(vm.S()) == true && Node(root, 2, 0) in vm.at
    modifies vm
    ensures vm.S() == old(vm.S()) && (r == 0 || r == -1) && |dst| <= len
    ensures dst == UserBytes(vm.S(), root, srcva, |dst|) && (r == 0 ==> |dst| == len)
    ensures r == 0 <==> AllReadable(vm.S(), root, srcva, len) == true
  {
    hide Inv, Maps, Readable, AllReadable, UserBytes, ChunkLen;
    ghost var s := vm.S();
    dst := [];
    NoneWritten(s, root, srcva);
    NoBytes(s, root, srcva);
    while |dst| < len
      invariant |dst| <= len && vm.S() == s && dst == UserBytes(s, root, srcva, |dst|)
      invariant AllReadable(s, root, srcva, |dst|) == true
      decreases len - |dst|
    {
      var x := srcva + |dst|;
      var n := ChunkLen(x, len - |dst|);
      var p := Walkaddr(vm, root, x / PGSIZE);
      if p == 0 {
        NotReadable(s, root, srcva, x, len);
        return -1, dst;
      }
      UserPageAt(s, root, x / PGSIZE);
      MoreBytes(s, root, srcva, |dst|, x, n, p);
      dst := dst + vm.mem[p].bytes[x % PGSIZE..x % PGSIZE + n];
    }
    r := 0;
  }

  lemma NoBytes(s: Phys, root: nat, a: nat)
    ensures UserBytes(s, root, a, 0) == []
  {
  }

  lemma NotReadable(s: Phys, root: nat, a: nat, x: nat, n: nat)
    requires a <= x < a + n && !Readable(s, root, x / PGSIZE)
    ensures AllReadable(s, root, a, n) == false
  {
  }

  lemma MoreBytes(s: Phys, root: nat, a: nat, k: nat, x: nat, n: nat, p: nat)
    requires x == a + k && x % PGSIZE + n <= PGSIZE && AllReadable(s, root, a, k) == true
            && Readable(s, root, x / PGSIZE)
    requires p == Maps(s, root, x / PGSIZE).ppn && p in s.mem && s.mem[p].Bytes? && |s.mem[p].bytes| == PGSIZE
    ensures AllReadable(s, root, a, k + n) == true
    ensures UserBytes(s, root, a, k) + s.mem[p].bytes[x % PGSIZE..x % PGSIZE + n] == UserBytes(s, root, a, k + n)
  {
    forall y: nat | a <= y < a + k + n ensures Readable(s, root, y / PGSIZE) {
      if y >= x { InPage(x, n, y); }
    }
    var l := UserBytes(s, root, a, k) + s.mem[p].bytes[x % PGSIZE..x % PGSIZE + n];
    forall i | k <= i < k + n ensures l[i] == UserByte(s, root, a + i) {
      InPage(x, n, a + i);
    }
  }
}
