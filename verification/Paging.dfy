/** kernel/kalloc.c and kernel/vm.c over physical memory. */
module Paging {
  import opened Blocks
  import opened PageTable
  import opened PageTableSteps
  import opened PageCount

  datatype WalkResult = Panic | Null | Entry(page: nat, index: nat)

  datatype MapResult = Mapped | NoMemory | Panicked

  function Filled(b: byte): Page { Bytes(seq(PGSIZE, _ => b)) }

  /** va >> PXSHIFT(level), in pages. */
  function Shift(vpn: nat, level: nat): nat {
    if level == 0 then vpn else if level == 1 then Up(vpn) else Up(Up(vpn))
  }

  class Vm {
    var mem: Memory
    var freelist: nat
    ghost var free: seq<nat>
    ghost var use: map<nat, Use>
    ghost var at: Places

    ghost function S(): Phys
      reads this
    {
      Phys(mem, freelist, free, use, at)
    }

    /** kalloc: the first free page, filled with junk; 0 when there is none. */
    method Kalloc() returns (p: nat)
      requires Good(S()) == true
      modifies this`mem, this`freelist, this`free, this`use
      ensures Good(S()) == true && SameMaps(old(S()), S()) == true
      ensures p == 0 <==> old(free) == []
      ensures p == 0 ==> S() == old(S())
      ensures p != 0 ==>
                && p in old(use) && p in old(mem) && old(use)[p] == Free && use == old(use)[p := Other]
                && mem == old(mem)[p := Filled(5)] && free == old(free)[1..]
    {
      HeadIsFree(S());
      p := freelist;
      if p != 0 {
        TakePage(mem, freelist, free, use, at, {}, Filled(5));
        freelist := mem[p].next;
        mem := mem[p := Filled(5)];
        free := free[1..];
        use := use[p := Other];
      }
    }

    /** kfree: `p` goes to the front of the free list; panics on an address outside
        the allocator's range. */
    method Kfree(p: nat) returns (panicked: bool)
      requires FreeList(mem, freelist, free, use) == true && (p in use ==> use[p] != Free)
      modifies this`mem, this`freelist, this`free, this`use
      ensures panicked <==> p !in old(mem)
      ensures panicked ==> S() == old(S())
      ensures !panicked ==>
                && mem == old(mem)[p := Run(old(freelist))] && freelist == p && free == [p] + old(free)
                && use == old(use)[p := Free] && FreeList(mem, freelist, free, use) == true
    {
      if p !in mem {
        return true;
      }
      PushFree(mem, freelist, free, use, p);
      mem := mem[p := Run(freelist)];
      freelist := p;
      free := [p] + free;
      use := use[p := Free];
      return false;
    }

    /** kinit: freerange hands every page of lo..hi, whatever it holds, to kfree. */
    constructor (memory: Memory, lo: nat, hi: nat)
      requires 0 < lo <= hi && forall p :: p in memory <==> lo <= p < hi
      ensures Good(S()) == true && at == map[] && mem.Keys == memory.Keys
      ensures forall p :: p in use ==> use[p] == Free
    {
      mem, freelist := memory, 0;
      free, use, at := [], map p | p in memory :: Other, map[];
      new;
      Freerange(lo, hi);
      NothingMapped(S());
    }

    method Freerange(lo: nat, hi: nat)
      requires lo <= hi && FreeList(mem, freelist, free, use) == true && forall p :: lo <= p < hi ==>
              p in use && p in mem && use[p] == Other
      modifies this`mem, this`freelist, this`free, this`use
      ensures FreeList(mem, freelist, free, use) == true && mem.Keys == old(mem).Keys && use.Keys == old(use).Keys
      ensures forall p :: p in use ==> use[p] == if lo <= p < hi then Free else old(use)[p]
    {
      hide FreeList;
      for p := lo to hi
        invariant FreeList(mem, freelist, free, use) == true && mem.Keys == old(mem).Keys && use.Keys == old(use).Keys
        invariant forall q :: q in use ==> use[q] == if lo <= q < p then Free else old(use)[q]
      {
        var _ := Kfree(p);
      }
    }

    /** walk: the address of the leaf entry for `vpn`, as a table page and an index.
        With `alloc`, missing tables are added. */
    method Walk(root: nat, vpn: nat, alloc: bool) returns (r: WalkResult)
      requires Good(S()) == true && Node(root, 2, 0) in at
      modifies this
      ensures Good(S()) == true && SameMaps(old(S()), S()) == true && Grown(old(S()), S(), root, 0, 0) == true
      ensures r.Panic? <==> vpn >= MAXVPN
      ensures r.Panic? || !alloc ==> S() == old(S())
      ensures r.Entry? ==> Node(root, 0, Up(vpn)) in at && r.page == at[Node(root, 0, Up(vpn))] && r.index == Slot(vpn)
      ensures r.Null? ==> if alloc then free == [] else Node(root, 0, Up(vpn)) !in at
      ensures alloc && r.Entry? ==> Spent(old(S()), S(), Path(root, vpn, 0), 0) == true
      ensures alloc && r.Null? ==> |old(free)| < MissingAbove(old(at), Path(root, vpn, 0))
    {
      hide Good, SameMaps, Inv, SameLeaves, Grown, Up, Slot, Spent, Path, MissingAbove;
      GrownSelf(S(), root, 0);
      if vpn >= MAXVPN {
        return Panic;
      }
      ThreeLevels(vpn);
      RootPlace(S(), root);
      NothingSpent(S());
      PathStep(root, vpn);
      PathTop(root, vpn);
      var pagetable, level := root, 2;
      while level > 0
        invariant 0 <= level <= 2 && (alloc ==> Spent(old(S()), S(), Path(root, vpn, level), 0) == true)
        invariant Good(S()) == true && SameMaps(old(S()), S()) == true && Grown(old(S()), S(), root, 0, 0) == true
        invariant !alloc ==> S() == old(S())
        invariant Node(root, level, Up(Shift(vpn, level))) in at
                && at[Node(root, level, Up(Shift(vpn, level)))] == pagetable
      {
        ghost var s1, n := S(), Node(root, level - 1, Shift(vpn, level));
        var q := WalkDown(root, level, Shift(vpn, level), pagetable, alloc, old(S()));
        if q == 0 {
          NoTableBelow(S(), root, vpn, level - 1);
          if alloc { TooFewTables(old(S()), S(), Path(root, vpn, level), n, Path(root, vpn, 0)); }
          return Null;
        }
        if alloc { SpentTable(old(S()), s1, S(), Path(root, vpn, level), n); }
        pagetable, level := q, level - 1;
      }
      return Entry(pagetable, Slot(vpn));
    }

    /** One turn of walk's loop: from the table at `level` to the one below. */
    method WalkDown(root: nat, level: nat, s: nat, p: nat, alloc: bool, ghost s0: Phys) returns (q: nat)
      requires Good(S()) == true && SameMaps(s0, S()) == true && Grown(s0, S(), root, 0, 0) == true
      requires 0 < level <= 2 && Node(root, level, Up(s)) in at && at[Node(root, level, Up(s))] == p
      modifies this
      ensures Good(S()) == true && SameMaps(s0, S()) == true && Grown(s0, S(), root, 0, 0) == true
      ensures !alloc ==> S() == old(S())
      ensures q != 0 ==> Node(root, level - 1, s) in at && at[Node(root, level - 1, s)] == q
      ensures q == 0 ==> Node(root, level - 1, s) !in at && S() == old(S()) && (alloc ==> free == [])
      ensures q != 0 && alloc ==>
                && at.Keys == old(at).Keys + {Node(root, level - 1, s)}
                && |free| + (if Node(root, level - 1, s) in old(at) then 0 else 1) == |old(free)|
    {
      hide Inv, Good, SameMaps, Grown, Up, Slot;
      ghost var n, c := Node(root, level, Up(s)), Node(root, level - 1, s);
      TableEntry(S(), n, c, s);
      var pte := mem[p].ptes[Slot(s)];
      if pte.f.v {
        return pte.ppn;
      }
      if !alloc {
        return 0;
      }
      q := AddTable(n, c, p, Slot(s), s0);
    }

    /** A page for place `c`, zeroed and linked to from entry `e` of table `n`. */
    method AddTable(ghost n: Node, ghost c: Node, p: nat, e: nat, ghost s0: Phys) returns (q: nat)
      requires Good(S()) == true && SameMaps(s0, S()) == true && Grown(s0, S(), n.root, 0, 0) == true
      requires n in at && at[n] == p && n.level > 0 && e < NPTE && c == Child(n, e) && c !in at
      requires p in mem && mem[p].Table? && |mem[p].ptes| == NPTE && p in use && use[p] == TablePage(n)
      modifies this
      ensures Good(S()) == true && SameMaps(s0, S()) == true && Grown(s0, S(), n.root, 0, 0) == true
      ensures if q != 0 then at == old(at)[c := q] && |free| + 1 == |old(free)| else free == [] && S() == old(S())
    {
      hide Inv, SameLeaves, Grown, Up, Slot, Child;
      q := Kalloc();
      if q == 0 {
        return;
      }
      ghost var s1 := S();
      FillPage(mem, freelist, free, use, at, {}, q, EMPTY_TABLE);
      mem := mem[q := EMPTY_TABLE];
      ghost var s2 := S();
      SameLeavesSameMaps(s1, s2);
      LinkTable(mem, freelist, free, use, at, n, e, q);
      mem := mem[p := Table(mem[p].ptes[e := Pte(q, TO_TABLE)])];
      use := use[q := TablePage(c)];
      at := at[c := q];
      SameLeavesSameMaps(s2, S());
      TableGrown(s0, old(S()), s1, s2, S(), n.root, n, c, q);
    }

    /** mappages: maps the pages of va..va+size to physical pages pa.. with `perm`.
        `k` pages are mapped when it returns; if `own`, they pass to the mapping. */
    method Mappages(root: nat, va: nat, size: nat, pa: nat, perm: Flags, ghost own: bool)
      returns (r: MapResult, ghost k: nat)
      requires Good(S()) == true && Node(root, 2, 0) in at && RWX(perm) && (perm.u ==> own)
      requires own ==> Loose(S(), pa, size / PGSIZE) == true
      modifies this
      ensures Good(S()) == true && Node(root, 2, 0) in at && k <= size / PGSIZE
      ensures RangeMapped(old(S()), S(), root, va / PGSIZE, k, pa, perm.(v := true)) == true
      ensures HandedOver(old(S()), S(), root, va / PGSIZE, k, pa, own) == true
              && Vacant(old(S()), root, va / PGSIZE, k) == true
      ensures va % PGSIZE != 0 || size % PGSIZE != 0 || size == 0 ==> r == Panicked && k == 0
      ensures r == Mapped ==> k == size / PGSIZE
      ensures r == NoMemory ==> k < size / PGSIZE && free == []
      ensures r == Mapped ==> Spent(old(S()), S(), Paths(root, va / PGSIZE, k), 0) == true
      ensures r == NoMemory ==>
              va / PGSIZE + k < MAXVPN && |old(free)| < MissingAbove(old(at), Paths(root, va / PGSIZE, k + 1))
      ensures r == Panicked && va % PGSIZE == 0 && size % PGSIZE == 0 && size > 0 ==>
                k < size / PGSIZE && (va / PGSIZE + k >= MAXVPN || old(Maps(S(), root, va / PGSIZE + k)).f.v)
    {
      hide Inv, RangeMapped, HandedOver, Vacant, Leaf, Loose, Spent, Paths, MissingAbove;
      k := 0;
      ghost var lo, f := va / PGSIZE, perm.(v := true);
      NothingYet(S(), root, lo, pa, own, f);
      if va % PGSIZE != 0 || size % PGSIZE != 0 || size == 0 {
        return Panicked, 0;
      }
      NothingSpent(S());
      NoPaths(root, lo);
      var a, p, last := va / PGSIZE, pa, va / PGSIZE + size / PGSIZE - 1;
      while true
        invariant a == lo + k && p == pa + k && a <= last && Node(root, 2, 0) in at
        invariant Spent(old(S()), S(), Paths(root, lo, k), 0) == true
        invariant Good(S()) == true && RangeMapped(old(S()), S(), root, lo, k, pa, f) == true
        invariant HandedOver(old(S()), S(), root, lo, k, pa, own) == true && Vacant(old(S()), root, lo, k) == true
        decreases last - a
      {
        r := MapNext(root, a, p, perm, own, old(S()), lo, pa, k, size / PGSIZE);
        if r != Mapped {
          return;
        }
        k := k + 1;
        if a == last {
          break;
        }
        a, p := a + 1, p + 1;
      }
      return Mapped, k;
    }

    /** One turn of mappages's loop. */
    method MapNext(root: nat, v: nat, p: nat, perm: Flags, ghost own: bool, ghost s0: Phys, ghost lo: nat,
                   ghost pa: nat, ghost k: nat, ghost n: nat)
      returns (r: MapResult)
      requires Good(S()) == true && Node(root, 2, 0) in at && RWX(perm) && (perm.u ==> own)
      requires RangeMapped(s0, S(), root, lo, k, pa, perm.(v := true)) == true
              && HandedOver(s0, S(), root, lo, k, pa, own) == true
      requires Vacant(s0, root, lo, k) == true && (own ==> Loose(s0, pa, n) == true) && v == lo + k && p == pa + k
              && k < n
      requires Spent(s0, S(), Paths(root, lo, k), 0) == true
      modifies this
      ensures Good(S()) == true && Node(root, 2, 0) in at
      ensures var k' := if r == Mapped then k + 1 else k;
              && RangeMapped(s0, S(), root, lo, k', pa, perm.(v := true)) == true
              && HandedOver(s0, S(), root, lo, k', pa, own) == true
              && Vacant(s0, root, lo, k') == true
      ensures r == NoMemory ==>
              free == [] && v < MAXVPN && |s0.free| < MissingAbove(s0.at, Paths(root, lo, k + 1))
      ensures r == Mapped ==> Spent(s0, S(), Paths(root, lo, k + 1), 0) == true
      ensures r == Panicked ==> v >= MAXVPN || Maps(s0, root, v).f.v
    {
      hide Inv, Leaf, RangeMapped, HandedOver, Grown, SameMaps, Loose, Vacant, Spent, Paths, Path, MissingAbove;
      ghost var s1, f := S(), perm.(v := true);
      MapsSoFar(s0, s1, root, lo, k, pa, f);
      if own { StillLoose(s0, s1, root, lo, k, pa, n); }
      r := MapOne(root, v, p, perm, own);
      if r == Mapped {
        MappedMore(s0, s1, S(), root, lo, k, pa, own, f);
        SpentNext(s0, s1, S(), root, lo, k, 0, 0);
      } else {
        if r == NoMemory { TooFewNext(s0, s1, root, lo, k); }
        HandedOverThenGrown(s0, s1, S(), root, lo, k, pa, own, f);
      }
    }

    /** The entry for `v`, found or made; then set, unless it is set already. */
    method MapOne(root: nat, v: nat, p: nat, perm: Flags, ghost own: bool) returns (r: MapResult)
      requires Good(S()) == true && Node(root, 2, 0) in at && RWX(perm) && (perm.u ==> own)
      requires own ==> Loose(S(), p, 1) == true
      modifies this
      ensures Good(S()) == true && Node(root, 2, 0) in at
      ensures r == Mapped ==>
                && RangeMapped(old(S()), S(), root, v, 1, p, perm.(v := true)) == true
                && HandedOver(old(S()), S(), root, v, 1, p, own) == true
                && v < MAXVPN && !old(Maps(S(), root, v)).f.v
      ensures r != Mapped ==> SameMaps(old(S()), S()) == true && Grown(old(S()), S(), root, 0, 0) == true
      ensures r == NoMemory ==>
              free == [] && v < MAXVPN && |old(free)| < MissingAbove(old(at), Path(root, v, 0))
      ensures r == Mapped ==> Spent(old(S()), S(), Path(root, v, 0), 0) == true
      ensures r == Panicked ==> v >= MAXVPN || old(Maps(S(), root, v)).f.v
    {
      hide Inv, Leaf, RangeMapped, HandedOver, Grown, SameMaps, Loose, LeafSet, Up, Slot, MissingAbove, Path;
      var w := Walk(root, v, true);
      ghost var s1 := S();
      RootStays(old(S()), s1, root);
      if w.Panic? {
        return Panicked;
      }
      if w.Null? {
        return NoMemory;
      }
      LeafTable(s1, root, v);
      if mem[w.page].ptes[w.index].f.v {
        return Panicked;
      }
      var pte := Pte(p, perm.(v := true));
      ghost var n := Node(root, 0, Up(v));
      if own { LooseGrown(old(S()), s1, root, p); }
      ghost var use' := if own then use[p := UserPage(root, v)] else use;
      PutLeaf(mem, freelist, free, use, at, root, v, pte, own, n,
              mem[w.page := Table(mem[w.page].ptes[w.index := pte])], use');
      mem := mem[w.page := Table(mem[w.page].ptes[w.index := pte])];
      use := use';
      MappedOne(old(S()), s1, S(), root, v, p, perm.(v := true), own, n);
      return Mapped;
    }

    /** uvmunmap: removes `npages` mappings from `va` on, freeing their pages if
        `doFree`; panics at the first page that is not mapped. */
    method Uvmunmap(root: nat, va: nat, npages: nat, doFree: bool) returns (panicked: bool, ghost k: nat)
      requires Good(S()) == true && Node(root, 2, 0) in at && Giveable(S(), root, va / PGSIZE, npages, doFree) == true
      modifies this
      ensures Good(S()) == true && at == old(at) && k <= npages
      ensures RangeUnmapped(old(S()), S(), root, va / PGSIZE, k) == true
              && TakenBack(old(S()), S(), root, va / PGSIZE, k, doFree) == true
      ensures va % PGSIZE != 0 ==> panicked && k == 0
      ensures AllMapped(old(S()), root, va / PGSIZE, k) == true
      ensures !panicked ==> k == npages
      ensures panicked && va % PGSIZE == 0 ==>
                k < npages && (va / PGSIZE + k >= MAXVPN || !old(Maps(S(), root, va / PGSIZE + k)).f.v)
    {
      hide Inv, Maps, RangeUnmapped, TakenBack, Giveable, AllMapped;
      k := 0;
      ghost var lo := va / PGSIZE;
      NothingUnmapped(S(), root, lo, doFree);
      NoneMapped(S(), root, lo);
      if va % PGSIZE != 0 {
        return true, 0;
      }
      var a := va / PGSIZE;
      while a < va / PGSIZE + npages
        invariant a == lo + k && k <= npages && at == old(at) && Good(S()) == true
        invariant RangeUnmapped(old(S()), S(), root, lo, k) == true
                && TakenBack(old(S()), S(), root, lo, k, doFree) == true
        invariant AllMapped(old(S()), root, lo, k) == true
      {
        StillGiveable(old(S()), S(), root, lo, k, npages, doFree);
        ghost var s1 := S();
        panicked := UnmapOne(root, a, doFree);
        if panicked {
          return;
        }
        UnmappedMore(old(S()), s1, S(), root, lo, k, doFree);
        AllMappedMore(old(S()), root, lo, k, a);
        a, k := a + 1, k + 1;
      }
      return false, k;
    }

    /** One turn of uvmunmap's loop. */
    method UnmapOne(root: nat, v: nat, doFree: bool) returns (panicked: bool)
      requires Good(S()) == true && Node(root, 2, 0) in at && Giveable(S(), root, v, 1, doFree) == true
      modifies this
      ensures Good(S()) == true && at == old(at)
      ensures panicked <==> v >= MAXVPN || !old(Maps(S(), root, v)).f.v
      ensures panicked ==> S() == old(S())
      ensures !panicked ==>
              RangeUnmapped(old(S()), S(), root, v, 1) == true && TakenBack(old(S()), S(), root, v, 1, doFree) == true
    {
      hide Inv, Maps, RangeUnmapped, TakenBack, Giveable, LeafSet, SameLeaves, Grown, SameMaps, FreeList, Up, Slot;
      var w := Walk(root, v, false);
      LeafOrNot(S(), root, v);
      if !w.Entry? {
        return true;
      }
      var pte := mem[w.page].ptes[w.index];
      if !pte.f.v || pte.f == TO_TABLE {
        return true;
      }
      ghost var s0, n, p := S(), Node(root, 0, Up(v)), pte.ppn;
      LeafPage(s0, root, v, doFree);
      ghost var mem1 := mem[w.page := PutPte(mem[w.page], w.index, NULL_PTE)];
      ghost var use1 := if doFree then use[p := Other] else use;
      DropLeaf(mem, freelist, free, use, at, root, v, p, doFree, n, mem1, use1);
      if doFree {
        GivePage(mem1, freelist, free, use1, at, {}, p);
        var _ := Kfree(pte.ppn);
        assert use == use1[p := Free];
      }
      mem := mem[w.page := Table(mem[w.page].ptes[w.index := NULL_PTE])];
      assert mem == if doFree then mem1[p := Run(s0.head)] else mem1;
      UnmappedOne(s0, mem1, use1, S(), root, v, p, doFree, n);
      return false;
    }
  }

  /** Where the leaf table is missing nothing is mapped; where it is not, its entry says. */
  lemma LeafOrNot(s: Phys, root: nat, v: nat)
    requires Good(s) == true
    ensures var n := Node(root, 0, Up(v));
            if n in s.at then
              && s.at[n] in s.mem && s.mem[s.at[n]].Table? && |s.mem[s.at[n]].ptes| == NPTE
              && s.mem[s.at[n]].ptes[Slot(v)] == Maps(s, root, v)
              && (Maps(s, root, v).f.v ==> Maps(s, root, v).f != TO_TABLE)
            else !Maps(s, root, v).f.v
    ensures FreeList(s.mem, s.head, s.free, s.use) == true
  {
  }

  lemma LeafPage(s: Phys, root: nat, v: nat, give: bool)
    requires Good(s) == true && Giveable(s, root, v, 1, give) == true && Maps(s, root, v).f.v
            && Node(root, 0, Up(v)) in s.at
    ensures var p := Maps(s, root, v).ppn;
            && (give <==> p in s.use && s.use[p] == UserPage(root, v)) && Leaf(s.mem, s.at, root, v) == Maps(s, root, v)
            && (give ==> p in s.mem && p != s.at[Node(root, 0, Up(v))])
  {
  }

  lemma UnmappedOne(s: Phys, mem1: Memory, use1: map<nat, Use>, t: Phys, root: nat, v: nat, p: nat, give: bool, n: Node)
    requires LeafSet(s.mem, s.at, mem1, s.at, root, v, NULL_PTE) == true && t.at == s.at
    requires Good(s) == true && n == Node(root, 0, Up(v)) && n in s.at && s.at[n] in s.mem
    requires mem1 == s.mem[s.at[n] := PutPte(s.mem[s.at[n]], Slot(v), NULL_PTE)]
    requires give <==> p in s.use && s.use[p] == UserPage(root, v)
    requires Leaf(s.mem, s.at, root, v).f.v && Leaf(s.mem, s.at, root, v).ppn == p
    requires use1 == if give then s.use[p := Other] else s.use
    requires give ==>
               && SameLeaves(mem1, s.at, mem1[p := Run(s.head)], s.at) == true
               && t.mem == mem1[p := Run(s.head)] && t.use == use1[p := Free] && t.free == [p] + s.free
    requires !give ==> t.mem == mem1 && t.use == use1 && t.free == s.free
    ensures RangeUnmapped(s, t, root, v, 1) == true && TakenBack(s, t, root, v, 1, give) == true
  {
    OnlyThatPage(s, root, v, p);
    UnmappedMaps(s, mem1, t, root, v, p, give);
    assert s.use.Keys == s.mem.Keys && s.at[n] in s.use && s.use[s.at[n]] == TablePage(n);
    UnmappedUse(s, mem1, use1, t, root, v, p, give, n);
  }

  lemma UnmappedMaps(s: Phys, mem1: Memory, t: Phys, root: nat, v: nat, p: nat, give: bool)
    requires LeafSet(s.mem, s.at, mem1, s.at, root, v, NULL_PTE) == true && t.at == s.at
    requires if give then SameLeaves(mem1, s.at, t.mem, s.at) == true else t.mem == mem1
    ensures RangeUnmapped(s, t, root, v, 1) == true
  {
  }

  lemma UnmappedUse(s: Phys, mem1: Memory, use1: map<nat, Use>, t: Phys, root: nat, v: nat, p: nat, give: bool, n: Node)
    requires s.use.Keys == s.mem.Keys && n in s.at && s.at[n] in s.use && s.use[s.at[n]] == TablePage(n)
            && s.at[n] in mem1
    requires mem1 == s.mem[s.at[n] := mem1[s.at[n]]] && t.at == s.at
    requires give <==> p in s.use && s.use[p] == UserPage(root, v)
    requires forall q :: q in s.use && IsPageOf(s.use[q], root, v, 1) ==> q == p
    requires use1 == if give then s.use[p := Other] else s.use
    requires if give then t.mem == mem1[p := Run(s.head)] && t.use == use1[p := Free] && t.free == [p] + s.free
             else t.mem == mem1 && t.use == use1 && t.free == s.free
    ensures TakenBack(s, t, root, v, 1, give) == true
  {
  }

  /** Two pages are never the page of one mapping. */
  lemma OnlyThatPage(s: Phys, root: nat, v: nat, p: nat)
    requires Good(s) == true && Leaf(s.mem, s.at, root, v).ppn == p
    ensures forall q :: q in s.use && IsPageOf(s.use[q], root, v, 1) ==> q == p
  {
    hide Leaf, FreeList, TablePages, Tree, Leaves;
  }

  lemma NothingYet(s: Phys, root: nat, lo: nat, pa: nat, own: bool, f: Flags)
    requires Good(s) == true
    ensures RangeMapped(s, s, root, lo, 0, pa, f) == true && HandedOver(s, s, root, lo, 0, pa, own) == true
            && Vacant(s, root, lo, 0) == true
  {
    GrownSelf(s, root, 0);
    NothingHandedOver(s, s, root, lo, pa, own, f);
  }

  lemma RootStays(s: Phys, t: Phys, root: nat)
    requires Grown(s, t, root, 0, 0) == true && SameMaps(s, t) == true && Node(root, 2, 0) in s.at
    ensures Node(root, 2, 0) in t.at && forall v :: Maps(t, root, v) == Maps(s, root, v)
  {
  }

  /** The leaf table's entry is the flat map's. */
  lemma LeafTable(s: Phys, root: nat, v: nat)
    requires Good(s) == true && Node(root, 0, Up(v)) in s.at
    ensures var p := s.at[Node(root, 0, Up(v))];
            && p in s.mem && s.mem[p].Table? && |s.mem[p].ptes| == NPTE && s.mem[p].ptes[Slot(v)] == Maps(s, root, v)
            && p in s.use && s.use[p] == TablePage(Node(root, 0, Up(v)))
  {
  }

  lemma LooseGrown(s: Phys, t: Phys, root: nat, p: nat)
    requires Loose(s, p, 1) == true && Grown(s, t, root, 0, 0) == true
    ensures p in t.use && t.use[p] == Other && p in t.mem && t.mem[p].Bytes? && |t.mem[p].bytes| == PGSIZE
    ensures p in s.use && s.use[p] == Other
  {
    assert p in s.use;
  }

  lemma MappedOne(s: Phys, s1: Phys, t: Phys, root: nat, v: nat, p: nat, f: Flags, own: bool, n: Node)
    requires Grown(s, s1, root, 0, 0) == true && SameMaps(s, s1) == true
            && LeafSet(s1.mem, s1.at, t.mem, t.at, root, v, Pte(p, f)) == true
    requires n in s1.at && s1.at[n] in s1.use && s1.use[s1.at[n]] == TablePage(n) && s1.at[n] in s1.mem
            && s1.at[n] in t.mem
    requires t.mem == s1.mem[s1.at[n] := t.mem[s1.at[n]]] && t.at == s1.at
    requires own ==> p in s1.use && s1.use[p] == Other && t.use == s1.use[p := UserPage(root, v)]
    requires !own ==> t.use == s1.use
    requires own ==> p in s.use && s.use[p] == Other
    ensures RangeMapped(s, t, root, v, 1, p, f) == true && HandedOver(s, t, root, v, 1, p, own) == true
  {
    MappedOneUse(s, s1, t, root, v, p, own, n);
    hide Leaf;
  }

  lemma MappedOneUse(s: Phys, s1: Phys, t: Phys, root: nat, v: nat, p: nat, own: bool, n: Node)
    requires Grown(s, s1, root, 0, 0) == true
    requires n in s1.at && s1.at[n] in s1.use && s1.use[s1.at[n]] == TablePage(n) && s1.at[n] in s1.mem
            && s1.at[n] in t.mem
    requires t.mem == s1.mem[s1.at[n] := t.mem[s1.at[n]]] && t.at == s1.at
    requires own ==> p in s1.use && s1.use[p] == Other && t.use == s1.use[p := UserPage(root, v)]
    requires !own ==> t.use == s1.use
    requires own ==> p in s.use && s.use[p] == Other
    ensures HandedOver(s, t, root, v, 1, p, own) == true
  {
  }

  lemma MapsSoFar(s: Phys, t: Phys, root: nat, lo: nat, k: nat, pa: nat, f: Flags)
    requires RangeMapped(s, t, root, lo, k, pa, f) == true
    ensures Maps(t, root, lo + k) == Maps(s, root, lo + k)
  {
  }

  lemma StillLoose(s: Phys, t: Phys, root: nat, lo: nat, k: nat, pa: nat, n: nat)
    requires Loose(s, pa, n) == true && HandedOver(s, t, root, lo, k, pa, true) == true && k < n
    ensures Loose(t, pa + k, 1) == true && pa + k in s.use && s.use[pa + k] == Other
  {
    assert pa + k in s.use;
  }

  lemma MappedMore(s: Phys, t: Phys, u: Phys, root: nat, lo: nat, k: nat, pa: nat, own: bool, f: Flags)
    requires RangeMapped(s, t, root, lo, k, pa, f) == true && HandedOver(s, t, root, lo, k, pa, own) == true
            && Vacant(s, root, lo, k) == true
    requires RangeMapped(t, u, root, lo + k, 1, pa + k, f) == true
            && HandedOver(t, u, root, lo + k, 1, pa + k, own) == true
    requires lo + k < MAXVPN && !Maps(t, root, lo + k).f.v && (own ==> pa + k in s.use && s.use[pa + k] == Other)
    ensures RangeMapped(s, u, root, lo, k + 1, pa, f) == true && HandedOver(s, u, root, lo, k + 1, pa, own) == true
    ensures Vacant(s, root, lo, k + 1) == true
  {
    RangeMappedMore(s, t, u, root, lo, k, pa, f);
    HandedOverMore(s, t, u, root, lo, k, pa, own);
  }

  lemma RootPlace(s: Phys, root: nat)
    requires Good(s) == true && Node(root, 2, 0) in s.at
    ensures s.at[Node(root, 2, 0)] == root
  {
  }

  /** What walk sees in the entry that leads to place `c`. */
  lemma TableEntry(s: Phys, n: Node, c: Node, x: nat)
    requires Good(s) == true && n in s.at && 0 < n.level && n.prefix == Up(x) && c == Node(n.root, n.level - 1, x)
    ensures var p := s.at[n];
            && c == Child(n, Slot(x)) && p != 0 && p in s.mem && s.mem[p].Table? && |s.mem[p].ptes| == NPTE
            && p in s.use && s.use[p] == TablePage(n)
            && var pte := s.mem[p].ptes[Slot(x)];
               if pte.f.v then c in s.at && s.at[c] == pte.ppn && pte.ppn != 0 else c !in s.at
  {
    JoinParts(x);
    assert PteAt(s.mem, s.at[n], Slot(x)) == s.mem[s.at[n]].ptes[Slot(x)];
  }

  /** No table on the way down means no leaf table either. */
  lemma NoTableBelow(s: Phys, root: nat, vpn: nat, level: nat)
    requires Good(s) == true && level <= 1
    ensures Node(root, level, Shift(vpn, level + 1)) !in s.at ==> Node(root, 0, Up(vpn)) !in s.at
  {
    if Node(root, 0, Up(vpn)) in s.at {
      assert Parent(Node(root, 0, Up(vpn))) == Node(root, 1, Up(Up(vpn)));
    }
  }

  lemma TableGrown(s0: Phys, s: Phys, s1: Phys, s2: Phys, t: Phys, root: nat, n: Node, c: Node, q: nat)
    requires Grown(s0, s, root, 0, 0) == true && SameMaps(s0, s) == true
    requires SameMaps(s, s1) == true && SameMaps(s1, s2) == true && SameMaps(s2, t) == true
    requires q in s.use && s.use[q] == Free && s1.use == s.use[q := Other] && s1.mem.Keys == s.mem.Keys && s1.at == s.at
    requires forall p :: p in s.mem && p != q ==> s1.mem[p] == s.mem[p]
    requires s2 == s1.(mem := s1.mem[q := EMPTY_TABLE])
    requires n in s.at && s.at[n] in s.use && s.use[s.at[n]].TablePage? && c !in s.at
    requires t.use == s2.use[q := TablePage(c)] && t.at == s2.at[c := q]
    requires s.at[n] in t.mem && t.mem == s2.mem[s.at[n] := t.mem[s.at[n]]]
    ensures SameMaps(s0, t) == true && Grown(s0, t, root, 0, 0) == true
  {
    assert Grown(s, t, root, 0, 0);
    GrownTwice(s0, s, t, root, 0, 0, 0);
  }

  lemma NothingMapped(s: Phys)
    requires FreeList(s.mem, s.head, s.free, s.use) == true && s.at == map[] && forall p :: p in s.use ==>
            s.use[p] == Free
    ensures Good(s) == true
  {
    hide FreeList;
    forall root, vpn ensures Leaf(s.mem, s.at, root, vpn) == NULL_PTE { }
    assert Leaves(s.mem, s.use, s.at) && Users(s.mem, s.use, s.at);
    hide Leaves, Users;
  }

  lemma HeadIsFree(s: Phys)
    requires Good(s) == true
    ensures s.head == 0 <==> s.free == []
    ensures s.free != [] ==>
            s.head == s.free[0] && s.head in s.mem && s.mem[s.head].Run? && s.head in s.use && s.use[s.head] == Free
    ensures SameMaps(s, s) == true
  {
  }
}
