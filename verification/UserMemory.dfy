/** Pages installed one by one and taken back: uvmalloc, uvmdealloc, uvmcopy (kernel/vm.c). */
module UserMemory {
  import opened PageTable
  import opened PageTableSteps
  import opened Paging
  import opened PageCount

  /** What a virtual page should show: its flags and its contents. */
  datatype Image = Image(f: Flags, pg: Page)

  function ImageOf(img: seq<Image>, lo: nat, v: nat): Image {
    if lo <= v < lo + |img| then img[v - lo] else Image(TO_TABLE, Run(0))
  }

  ghost predicate Shows(t: Phys, root: nat, v: nat, im: Image) {
    var pte := Maps(t, root, v);
    && pte.f == im.f && pte.ppn in t.use && t.use[pte.ppn] == UserPage(root, v)
    && pte.ppn in t.mem && t.mem[pte.ppn] == im.pg
  }

  /** Since `s`, pages lo..lo+|img| of `root`, unmapped then, have been mapped to
      show `img`; no other translation changed. */
  ghost predicate Installed(s: Phys, t: Phys, root: nat, lo: nat, img: seq<Image>) {
    && Grown(s, t, root, lo, lo + |img|) && Vacant(s, root, lo, |img|)
    && (forall r: nat, v: nat :: !(r == root && lo <= v < lo + |img|) ==> Maps(t, r, v) == Maps(s, r, v))
    && (forall v: nat :: lo <= v < lo + |img| ==> Shows(t, root, v, ImageOf(img, lo, v)))
  }

  lemma NothingInstalled(s: Phys, root: nat, lo: nat)
    requires Good(s) == true
    ensures Installed(s, s, root, lo, []) == true
  {
    GrownSelf(s, root, lo);
  }

  /** A failed attempt at the next page leaves only new tables. */
  lemma InstalledStill(s: Phys, t: Phys, u: Phys, root: nat, lo: nat, img: seq<Image>)
    requires Installed(s, t, root, lo, img) == true && Grown(t, u, root, 0, 0) == true && SameMaps(t, u) == true
    ensures Installed(s, u, root, lo, img) == true
  {
    GrownStill(s, t, u, root, lo, lo + |img|);
    forall v: nat | lo <= v < lo + |img| ensures Shows(u, root, v, ImageOf(img, lo, v)) {
      assert Shows(t, root, v, ImageOf(img, lo, v));
    }
    hide Grown, Maps;
  }

  lemma GrownStill(s: Phys, t: Phys, u: Phys, root: nat, lo: nat, hi: nat)
    requires Grown(s, t, root, lo, hi) && Grown(t, u, root, 0, 0)
    ensures Grown(s, u, root, lo, hi)
  {
  }

  lemma InstalledMore(s: Phys, t: Phys, u: Phys, root: nat, lo: nat, img: seq<Image>, im: Image, v: nat)
    requires Installed(s, t, root, lo, img) == true && Installed(t, u, root, v, [im]) == true && v == lo + |img|
    ensures Installed(s, u, root, lo, img + [im]) == true
  {
    GrownTwice(s, t, u, root, lo, v, v + 1);
    forall w: nat | lo <= w < v + 1 ensures Shows(u, root, w, ImageOf(img + [im], lo, w)) {
      if w < v {
        assert Shows(t, root, w, ImageOf(img, lo, w));
      } else {
        assert Shows(u, root, w, ImageOf([im], v, w));
      }
    }
    assert Maps(t, root, v) == Maps(s, root, v);
    VacantMore(s, t, root, lo, |img|);
    hide Grown, Maps, Vacant;
  }

  lemma VacantMore(s: Phys, t: Phys, root: nat, lo: nat, k: nat)
    requires Vacant(s, root, lo, k) && Vacant(t, root, lo + k, 1) && Maps(t, root, lo + k) == Maps(s, root, lo + k)
    ensures Vacant(s, root, lo, k + 1)
  {
    assert CanMap(t, root, lo + k);
  }

  lemma VacantBefore(s: Phys, s1: Phys, s2: Phys, root: nat, v: nat)
    requires Vacant(s2, root, v, 1) == true && SameMaps(s, s1) == true && SameMaps(s1, s2) == true
    ensures Vacant(s, root, v, 1) == true
  {
    assert CanMap(s2, root, v) && Maps(s2, root, v) == Maps(s1, root, v) == Maps(s, root, v);
  }

  /** Pages installed and then taken back leave the mappings as they were. */
  lemma RolledBack(s: Phys, t: Phys, u: Phys, root: nat, lo: nat, img: seq<Image>)
    requires Good(s) == true && Installed(s, t, root, lo, img) == true
    requires RangeUnmapped(t, u, root, lo, |img|) == true && TakenBack(t, u, root, lo, |img|, true) == true
    ensures SameMaps(s, u) == true && Grown(s, u, root, 0, 0) == true && |u.free| == |t.free| + |img|
  {
    hide Inv, Maps, Vacant, Grown, RangeUnmapped, TakenBack, SameMaps;
    VacantIsNull(s, root, lo, |img|);
    RolledBackMaps(s, t, u, root, lo, img);
    NobodysPages(s, root, lo, |img|);
    RolledBackUse(s, t, u, root, lo, |img|);
  }

  lemma RolledBackMaps(s: Phys, t: Phys, u: Phys, root: nat, lo: nat, img: seq<Image>)
    requires Installed(s, t, root, lo, img) && RangeUnmapped(t, u, root, lo, |img|)
    requires forall v: nat :: lo <= v < lo + |img| ==> Maps(s, root, v) == NULL_PTE
    ensures SameMaps(s, u) == true
  {
    hide Maps, Grown, Shows, Vacant;
  }

  lemma RolledBackUse(s: Phys, t: Phys, u: Phys, root: nat, lo: nat, k: nat)
    requires Grown(s, t, root, lo, lo + k) && TakenBack(t, u, root, lo, k, true)
    requires forall p :: p in s.use ==> !IsPageOf(s.use[p], root, lo, k)
    ensures Grown(s, u, root, 0, 0) == true && |u.free| == |t.free| + k
  {
    forall p | p in s.use && s.use[p] != Free ensures !IsPageOf(t.use[p], root, lo, k) { }
  }

  lemma VacantIsNull(s: Phys, root: nat, lo: nat, k: nat)
    requires Good(s) == true && Vacant(s, root, lo, k)
    ensures forall v: nat :: lo <= v < lo + k ==> Maps(s, root, v) == NULL_PTE
  {
    forall v: nat | lo <= v < lo + k ensures Maps(s, root, v) == NULL_PTE { assert CanMap(s, root, v); }
  }

  lemma NobodysPages(s: Phys, root: nat, lo: nat, k: nat)
    requires Good(s) == true && Vacant(s, root, lo, k)
    ensures forall p :: p in s.use ==> !IsPageOf(s.use[p], root, lo, k)
  {
    forall p | p in s.use && s.use[p].UserPage? ensures !CanMap(s, s.use[p].root, s.use[p].vpn) { }
  }

  lemma InstalledIsGiveable(s: Phys, t: Phys, root: nat, lo: nat, img: seq<Image>)
    requires Installed(s, t, root, lo, img) == true
    ensures Giveable(t, root, lo, |img|, true) == true
  {
    forall v: nat | lo <= v < lo + |img|
      ensures Maps(t, root, v).ppn in t.use && t.use[Maps(t, root, v).ppn] == UserPage(root, v)
    {
      assert Shows(t, root, v, ImageOf(img, lo, v));
    }
  }

  lemma InstalledOne(s: Phys, s1: Phys, s2: Phys, t: Phys, root: nat, v: nat, p: nat, f: Flags, pg: Page)
    requires p in s.use && s.use[p] == Free && p in s.mem && SameMaps(s, s1) == true && SameMaps(s1, s2) == true
    requires s.use.Keys == s.mem.Keys && s2.use == s.use[p := Other] && s2.mem == s.mem[p := pg] && s2.at == s.at
    requires RangeMapped(s2, t, root, v, 1, p, f) == true && HandedOver(s2, t, root, v, 1, p, true) == true
    requires Vacant(s2, root, v, 1) == true
    ensures Installed(s, t, root, v, [Image(f, pg)]) == true
  {
    InstalledOneMaps(s, s1, s2, t, root, v, p, f);
    InstalledOneUse(s, s2, t, root, v, p, pg);
    VacantBefore(s, s1, s2, root, v);
    hide Grown, Vacant, RangeMapped, HandedOver, SameMaps, Leaf;
    assert Shows(t, root, v, ImageOf([Image(f, pg)], v, v));
  }

  lemma InstalledOneMaps(s: Phys, s1: Phys, s2: Phys, t: Phys, root: nat, v: nat, p: nat, f: Flags)
    requires SameMaps(s, s1) == true && SameMaps(s1, s2) == true && RangeMapped(s2, t, root, v, 1, p, f) == true
    ensures Maps(t, root, v) == Pte(p, f)
    ensures forall r: nat, w: nat :: !(r == root && v <= w < v + 1) ==> Maps(t, r, w) == Maps(s, r, w)
  {
    forall r: nat, w: nat | !(r == root && v <= w < v + 1) ensures Maps(t, r, w) == Maps(s, r, w) {
      assert Maps(s2, r, w) == Maps(s1, r, w) == Maps(s, r, w);
    }
  }

  lemma InstalledOneUse(s: Phys, s2: Phys, t: Phys, root: nat, v: nat, p: nat, pg: Page)
    requires p in s.use && s.use[p] == Free && p in s.mem
    requires s.use.Keys == s.mem.Keys && s2.use == s.use[p := Other] && s2.mem == s.mem[p := pg] && s2.at == s.at
    requires HandedOver(s2, t, root, v, 1, p, true) == true
    ensures Grown(s, t, root, v, v + 1) && p in t.use && t.use[p] == UserPage(root, v) && p in t.mem && t.mem[p] == pg
  {
  }

  /** The page allocated for a mapping that failed goes back. */
  lemma PageReturned(s: Phys, s1: Phys, s2: Phys, s3: Phys, t: Phys, root: nat, v: nat, p: nat, f: Flags)
    requires p in s.use && s.use[p] == Free && p in s.mem && SameMaps(s, s1) == true && SameMaps(s1, s2) == true
            && SameMaps(s3, t) == true
    requires s.use.Keys == s.mem.Keys && s2.use == s.use[p := Other] && s2.mem.Keys == s.mem.Keys && s2.at == s.at
    requires forall q :: q in s.mem && q != p ==> s2.mem[q] == s.mem[q]
    requires RangeMapped(s2, s3, root, v, 0, p, f) == true && HandedOver(s2, s3, root, v, 0, p, true) == true
    requires t.use == s3.use[p := Free] && t.mem == s3.mem[p := Run(s3.head)] && t.at == s3.at
    ensures SameMaps(s, t) == true && Grown(s, t, root, 0, 0) == true
  {
    hide Maps, RangeMapped, Grown;
    PageReturnedMaps(s, s1, s2, s3, t, root, v, p, f);
    PageReturnedUse(s, s2, s3, t, root, v, p);
  }

  lemma PageReturnedMaps(s: Phys, s1: Phys, s2: Phys, s3: Phys, t: Phys, root: nat, v: nat, p: nat, f: Flags)
    requires SameMaps(s, s1) == true && SameMaps(s1, s2) == true && SameMaps(s3, t) == true
    requires RangeMapped(s2, s3, root, v, 0, p, f) == true
    ensures SameMaps(s, t) == true
  {
    hide Maps;
    forall r: nat, w: nat ensures Maps(t, r, w) == Maps(s, r, w) {
      assert Maps(s3, r, w) == Maps(s2, r, w) == Maps(s1, r, w);
    }
  }

  lemma PageReturnedUse(s: Phys, s2: Phys, s3: Phys, t: Phys, root: nat, v: nat, p: nat)
    requires p in s.use && s.use[p] == Free && p in s.mem
    requires s.use.Keys == s.mem.Keys && s2.use == s.use[p := Other] && s2.mem.Keys == s.mem.Keys && s2.at == s.at
    requires forall q :: q in s.mem && q != p ==> s2.mem[q] == s.mem[q]
    requires HandedOver(s2, s3, root, v, 0, p, true) == true
    requires t.use == s3.use[p := Free] && t.mem == s3.mem[p := Run(s3.head)] && t.at == s3.at
    ensures Grown(s, t, root, 0, 0) == true
  {
  }

  lemma KeysAgree(s: Phys)
    requires Good(s) == true
    ensures s.use.Keys == s.mem.Keys && FreeList(s.mem, s.head, s.free, s.use) == true
  {
  }

  /** kalloc, fill, mappages of one page; kfree if the mapping cannot be made. */
  method InstallPage(vm: Vm, root: nat, v: nat, perm: Flags, pg: Page) returns (r: MapResult)
    requires Good(vm.S()) == true && Node(root, 2, 0) in vm.at && RWX(perm) && pg.Bytes? && |pg.bytes| == PGSIZE
    modifies vm
    ensures r != Panicked ==> Good(vm.S()) == true && Node(root, 2, 0) in vm.at
    ensures r == Mapped ==> Installed(old(vm.S()), vm.S(), root, v, [Image(perm.(v := true), pg)]) == true
    ensures r == NoMemory ==>
              && SameMaps(old(vm.S()), vm.S()) == true && Grown(old(vm.S()), vm.S(), root, 0, 0) == true
              && |vm.free| <= 1
    ensures r == Mapped ==> Spent(old(vm.S()), vm.S(), Path(root, v, 0), 1) == true
    ensures r == NoMemory ==>
            || old(vm.free) == []
            || (v < MAXVPN && |old(vm.free)| < 1 + MissingAbove(old(vm.at), Path(root, v, 0)))
    ensures r == Panicked ==> old(vm.free) != [] && (v >= MAXVPN || old(Maps(vm.S(), root, v)).f.v)
  {
    hide Inv, Maps, SameMaps, SameLeaves, RangeMapped, HandedOver, Vacant, Installed, Grown, FreeList, Path, Paths,
        MissingAbove;
    ghost var s := vm.S();
    GrownSelf2(s, root);
    KeysAgree(s);
    var p := vm.Kalloc();
    if p == 0 {
      return NoMemory;
    }
    ghost var s1 := vm.S();
    FillPage(vm.mem, vm.freelist, vm.free, vm.use, vm.at, {}, p, pg);
    vm.mem := vm.mem[p := pg];
    ghost var s2 := vm.S();
    SameLeavesSameMaps(s1, s2);
    SameAt(s, s1, s2, root, v);
    OneLoose(s2, p);
    WholePage(v);
    OnePath(root, v);
    ghost var k;
    r, k := vm.Mappages(root, v * PGSIZE, PGSIZE, p, perm, true);
    ghost var s3 := vm.S();
    if r == Mapped {
      InstalledOne(s, s1, s2, s3, root, v, p, perm.(v := true), pg);
    } else if r == NoMemory {
      StillOther(s2, s3, root, v, p);
      KeysAgree(s3);
      GivePage(vm.mem, vm.freelist, vm.free, vm.use, vm.at, {}, p);
      var _ := vm.Kfree(p);
      SameLeavesSameMaps(s3, vm.S());
      PageReturned(s, s1, s2, s3, vm.S(), root, v, p, perm.(v := true));
    }
  }

  lemma GrownSelf2(s: Phys, root: nat)
    requires Good(s) == true
    ensures SameMaps(s, s) == true && Grown(s, s, root, 0, 0) == true
  {
    GrownSelf(s, root, 0);
  }

  lemma SameAt(s: Phys, s1: Phys, s2: Phys, root: nat, v: nat)
    requires SameMaps(s, s1) == true && SameMaps(s1, s2) == true
    ensures Maps(s2, root, v) == Maps(s, root, v)
  {
    assert Maps(s2, root, v) == Maps(s1, root, v);
  }

  lemma OneLoose(s: Phys, p: nat)
    requires p in s.use && s.use[p] == Other && p in s.mem && s.mem[p].Bytes? && |s.mem[p].bytes| == PGSIZE
    ensures Loose(s, p, PGSIZE / PGSIZE) == true
  {
    assert PGSIZE / PGSIZE == 1;
  }

  lemma WholePage(v: nat)
    ensures v * PGSIZE % PGSIZE == 0 && v * PGSIZE / PGSIZE == v && PGSIZE % PGSIZE == 0 && PGSIZE / PGSIZE == 1
  {
  }

  lemma StillOther(s: Phys, t: Phys, root: nat, v: nat, p: nat)
    requires HandedOver(s, t, root, v, 0, p, true) == true && p in s.use && s.use[p] == Other
    ensures p in t.use && t.use[p] == Other
  {
  }

  // ------------------------------------------------------- uvmalloc and uvmdealloc

  /** PGROUNDUP(sz) / PGSIZE */
  function Pages(sz: nat): nat { (sz + PGSIZE - 1) / PGSIZE }

  lemma PagesGrow(a: nat, b: nat)
    requires a <= b
    ensures Pages(a) <= Pages(b)
  {
  }

  lemma PageOf(n: nat)
    ensures Pages(n * PGSIZE) == n && n * PGSIZE / PGSIZE == n && n * PGSIZE % PGSIZE == 0
  {
  }

  lemma BelowSize(a: nat, sz: nat)
    ensures a * PGSIZE < sz <==> a < Pages(sz)
  {
  }

  lemma NotAllMapped(s: Phys, root: nat, lo: nat, v: nat, n: nat)
    requires lo <= v < lo + n && (v >= MAXVPN || !Maps(s, root, v).f.v)
    ensures AllMapped(s, root, lo, n) == false
  {
    assert !IsMapped(s, root, v);
  }

  /** k pages of zeros. */
  function Zeros(k: nat, f: Flags): (img: seq<Image>)
    ensures |img| == k
  {
    seq(k, _ => Image(f, Filled(0)))
  }

  method Uvmdealloc(vm: Vm, root: nat, oldsz: nat, newsz: nat) returns (r: nat, panicked: bool)
    requires Good(vm.S()) == true && Node(root, 2, 0) in vm.at
    requires newsz < oldsz ==>
            Pages(newsz) <= Pages(oldsz)
                    && Giveable(vm.S(), root, Pages(newsz), Pages(oldsz) - Pages(newsz), true) == true
    modifies vm
    ensures newsz >= oldsz ==> r == oldsz && !panicked && vm.S() == old(vm.S())
    ensures newsz < oldsz && !panicked ==>
              var n := Pages(oldsz) - Pages(newsz);
              && r == newsz && Good(vm.S()) == true && vm.at == old(vm.at)
              && RangeUnmapped(old(vm.S()), vm.S(), root, Pages(newsz), n) == true
              && TakenBack(old(vm.S()), vm.S(), root, Pages(newsz), n, true) == true
    ensures panicked <==>
            newsz < oldsz && Pages(newsz) <= Pages(oldsz)
                    && AllMapped(old(vm.S()), root, Pages(newsz), Pages(oldsz) - Pages(newsz)) == false
  {
    hide Inv, Maps, RangeUnmapped, TakenBack, Giveable, AllMapped, Pages;
    if newsz >= oldsz {
      return oldsz, false;
    }
    PageOf(Pages(newsz));
    NothingUnmapped(vm.S(), root, Pages(newsz), true);
    NoneMapped(vm.S(), root, Pages(newsz));
    panicked := false;
    if Pages(newsz) < Pages(oldsz) {
      ghost var k;
      panicked, k := vm.Uvmunmap(root, Pages(newsz) * PGSIZE, Pages(oldsz) - Pages(newsz), true);
      if panicked { NotAllMapped(old(vm.S()), root, Pages(newsz), Pages(newsz) + k, Pages(oldsz) - Pages(newsz)); }
    }
    r := newsz;
  }

  /** uvmalloc: `ok` when the process grew, which takes room that is all vacant and a
      free page for each page and each table missing above them; it panics exactly
      where a page that cannot be mapped is reached. Otherwise nothing is left mapped,
      and there are no more free pages than were asked for. */
  method Uvmalloc(vm: Vm, root: nat, oldsz: nat, newsz: nat, xw: bool, xx: bool)
    returns (r: nat, panicked: bool, ghost ok: bool)
    requires Good(vm.S()) == true && Node(root, 2, 0) in vm.at
    modifies vm
    ensures !panicked ==> Good(vm.S()) == true && Node(root, 2, 0) in vm.at
    ensures newsz < oldsz ==> r == oldsz && !panicked && !ok && vm.S() == old(vm.S())
    ensures newsz >= oldsz && !panicked ==>
              && r == (if ok then newsz else 0) && Pages(oldsz) <= Pages(newsz)
              && (ok ==> Installed(old(vm.S()), vm.S(), root, Pages(oldsz),
                                   Zeros(Pages(newsz) - Pages(oldsz), Flags(true, true, xw, xx, true))) == true)
              && (ok ==> Vacant(old(vm.S()), root, Pages(oldsz), Pages(newsz) - Pages(oldsz)) == true)
              && (!ok ==> SameMaps(old(vm.S()), vm.S()) == true && Grown(old(vm.S()), vm.S(), root, 0, 0) == true)
              && (!ok ==> |vm.free| <= Pages(newsz) - Pages(oldsz))
              && (ok <==> Vacant(old(vm.S()), root, Pages(oldsz), Pages(newsz) - Pages(oldsz)) == true
                          && PagesNeeded(old(vm.S()), root, Pages(oldsz), Pages(newsz) - Pages(oldsz))
                             <= |old(vm.free)|)
    ensures panicked <==>
            newsz >= oldsz && Pages(oldsz) <= Pages(newsz)
                    && SomeBlocked(old(vm.S()), root, Pages(oldsz), Pages(newsz) - Pages(oldsz)) == true
    ensures panicked ==>
            Pages(oldsz) <= Pages(newsz)
                    && Vacant(old(vm.S()), root, Pages(oldsz), Pages(newsz) - Pages(oldsz)) == false
  {
    hide Inv, Maps, SameMaps, RangeUnmapped, TakenBack, Giveable, Pages, Installed, Grown, Zeros, AllMapped, Vacant,
        Spent, Paths, Path, MissingAbove, PagesNeeded, SomeBlocked, Short, Blocked;
    if newsz < oldsz {
      return oldsz, false, false;
    }
    PagesGrow(oldsz, newsz);
    ghost var s0, f := vm.S(), Flags(true, true, xw, xx, true);
    var lo := Pages(oldsz);
    var a := lo;
    ZerosStep(0, f);
    NothingInstalled(s0, root, lo);
    NothingSpent(s0);
    NoPaths(root, lo);
    BelowSize(a, newsz);
    while a * PGSIZE < newsz
      invariant lo <= a <= Pages(newsz) && Good(vm.S()) == true && Node(root, 2, 0) in vm.at
      invariant Installed(s0, vm.S(), root, lo, Zeros(a - lo, f)) == true
      invariant Spent(s0, vm.S(), Paths(root, lo, a - lo), a - lo) == true
      invariant a * PGSIZE < newsz <==> a < Pages(newsz)
      decreases Pages(newsz) - a
    {
      ghost var s1 := vm.S();
      var res := InstallPage(vm, root, a, Flags(false, true, xw, xx, true), Filled(0));
      if res == Panicked {
        WasBlocked(s0, s1, root, lo, Zeros(a - lo, f));
        EndsBlocked(s0, root, lo, Pages(newsz) - lo, a - lo);
        return 0, true, false;
      }
      if res == NoMemory {
        WasShort(s0, s1, root, lo, Zeros(a - lo, f));
        EndsShort(s0, root, lo, Pages(newsz) - lo, a - lo);
        InstalledStill(s0, s1, vm.S(), root, lo, Zeros(a - lo, f));
        panicked := Retreat(vm, root, lo, a, s0, Zeros(a - lo, f));
        return 0, panicked, false;
      }
      InstalledMore(s0, s1, vm.S(), root, lo, Zeros(a - lo, f), Image(f, Filled(0)), a);
      SpentNext(s0, s1, vm.S(), root, lo, a - lo, a - lo, 1);
      ZerosStep(a - lo, f);
      a := a + 1;
      BelowSize(a, newsz);
    }
    InstalledWasVacant(s0, vm.S(), root, lo, Zeros(a - lo, f));
    EndsWell(s0, root, lo, a - lo);
    NeededNext(s0, vm.S(), root, lo, a - lo);
    return newsz, false, true;
  }

  /** The failure path: uvmdealloc(pagetable, a, oldsz). */
  method Retreat(vm: Vm, root: nat, lo: nat, a: nat, ghost s0: Phys, ghost img: seq<Image>) returns (panicked: bool)
    requires Good(vm.S()) == true && Node(root, 2, 0) in vm.at && lo <= a && |img| == a - lo
    requires Good(s0) == true && Installed(s0, vm.S(), root, lo, img) == true
    modifies vm
    ensures !panicked && Good(vm.S()) == true && Node(root, 2, 0) in vm.at
    ensures SameMaps(s0, vm.S()) == true && Grown(s0, vm.S(), root, 0, 0) == true
            && |vm.free| == |old(vm.free)| + a - lo
  {
    hide Inv, Maps, SameMaps, RangeUnmapped, TakenBack, Giveable, Pages, Installed, Grown, AllMapped;
    ghost var t := vm.S();
    PageOf(a);
    PageOf(lo);
    InstalledIsGiveable(s0, t, root, lo, img);
    InstalledAllMapped(s0, t, root, lo, img);
    NothingUnmapped(t, root, lo, true);
    var sz;
    sz, panicked := Uvmdealloc(vm, root, a * PGSIZE, lo * PGSIZE);
    RolledBack(s0, t, vm.S(), root, lo, img);
  }

  lemma InstalledWasVacant(s: Phys, t: Phys, root: nat, lo: nat, img: seq<Image>)
    requires Installed(s, t, root, lo, img) == true
    ensures Vacant(s, root, lo, |img|) == true
  {
  }

  lemma ZerosStep(k: nat, f: Flags)
    ensures Zeros(0, f) == [] && Zeros(k + 1, f) == Zeros(k, f) + [Image(f, Filled(0))]
  {
  }

  /** What a page that cannot be mapped says of the state before. */
  lemma WasBlocked(s: Phys, t: Phys, root: nat, lo: nat, img: seq<Image>)
    requires Installed(s, t, root, lo, img) == true && Spent(s, t, Paths(root, lo, |img|), |img|) == true
    requires t.free != [] && (lo + |img| >= MAXVPN || Maps(t, root, lo + |img|).f.v)
    ensures Blocked(s, root, lo, |img|) == true
  {
    hide Spent, Paths, Path, MissingAbove, PagesNeeded, Vacant, Grown, Leaf;
    NeededNext(s, t, root, lo, |img|);
    SameBehind(s, t, root, lo, img);
  }

  lemma SameBehind(s: Phys, t: Phys, root: nat, lo: nat, img: seq<Image>)
    requires Installed(s, t, root, lo, img) == true
    ensures Maps(t, root, lo + |img|) == Maps(s, root, lo + |img|)
  {
  }

  /** What memory running out at a page says of the state before. */
  lemma WasShort(s: Phys, t: Phys, root: nat, lo: nat, img: seq<Image>)
    requires Good(t) == true
    requires Installed(s, t, root, lo, img) == true && Spent(s, t, Paths(root, lo, |img|), |img|) == true
    requires t.free == []
            || (lo + |img| < MAXVPN && |t.free| < 1 + MissingAbove(t.at, Path(root, lo + |img|, 0)))
    ensures Short(s, root, lo, |img|) == true
  {
    hide Spent, Paths, Path, MissingAbove, PagesNeeded, Vacant, Grown, Leaf, Inv;
    var v := lo + |img|;
    NeededNext(s, t, root, lo, |img|);
    SameBehind(s, t, root, lo, img);
    if Maps(t, root, v).f.v { MappedHasTables(t, root, v); }
  }

  lemma InstalledAllMapped(s: Phys, t: Phys, root: nat, lo: nat, img: seq<Image>)
    requires Good(t) == true && Installed(s, t, root, lo, img) == true
    ensures AllMapped(t, root, lo, |img|) == true
  {
    hide Inv, Grown;
    forall v: nat | lo <= v < lo + |img| ensures IsMapped(t, root, v) {
      assert Shows(t, root, v, ImageOf(img, lo, v)) && CanMap(s, root, v);
      UserPageIsMapped(t, Maps(t, root, v).ppn);
    }
  }

  lemma UserPageIsMapped(s: Phys, p: nat)
    requires Good(s) == true && p in s.use && s.use[p].UserPage?
    ensures Maps(s, s.use[p].root, s.use[p].vpn).f.v && Maps(s, s.use[p].root, s.use[p].vpn).ppn == p
  {
  }

  // ------------------------------------------------------------------------- uvmcopy

  /** Virtual pages 0..n of `root`, where mapped, are pages of their own. */
  ghost predicate OwnsPages(s: Phys, root: nat, n: nat) { Giveable(s, root, 0, n, true) }

  /** What the first k pages of `root` show. */
  function Pictures(s: Phys, root: nat, k: nat): (img: seq<Image>)
    ensures |img| == k
  {
    seq(k, v requires 0 <= v => Image(Maps(s, root, v).f,
                                      if Maps(s, root, v).ppn in s.mem then s.mem[Maps(s, root, v).ppn] else Run(0)))
  }

  /** uvmcopy: `new` shows what `old` shows in 0..sz, on pages of its own, which
      takes all of `old` mapped, `new` vacant there, and a free page for each page and
      each table missing above them; it panics exactly where a page is reached that is
      not so. Or it fails, nothing is left mapped, and there are no more free pages
      than it copies. */
  method Uvmcopy(vm: Vm, old_: nat, new_: nat, sz: nat) returns (r: int, panicked: bool)
    requires Good(vm.S()) == true && Node(old_, 2, 0) in vm.at && Node(new_, 2, 0) in vm.at && old_ != new_
    requires OwnsPages(vm.S(), old_, Pages(sz)) == true
    modifies vm
    ensures !panicked ==> Good(vm.S()) == true && (r == 0 || r == -1)
    ensures !panicked && r == 0 ==>
            Installed(old(vm.S()), vm.S(), new_, 0, Pictures(old(vm.S()), old_, Pages(sz))) == true
    ensures !panicked && r == 0 ==>
              AllMapped(old(vm.S()), old_, 0, Pages(sz)) == true && Vacant(old(vm.S()), new_, 0, Pages(sz)) == true
    ensures !panicked && r == -1 ==>
              && SameMaps(old(vm.S()), vm.S()) == true && Grown(old(vm.S()), vm.S(), new_, 0, 0) == true
              && |vm.free| <= Pages(sz)
    ensures !panicked ==>
              (r == 0 <==> AllMapped(old(vm.S()), old_, 0, Pages(sz)) == true
                           && Vacant(old(vm.S()), new_, 0, Pages(sz)) == true
                           && PagesNeeded(old(vm.S()), new_, 0, Pages(sz)) <= |old(vm.free)|)
    ensures panicked <==> SomeStuck(old(vm.S()), old_, new_, Pages(sz)) == true
    ensures panicked ==>
            AllMapped(old(vm.S()), old_, 0, Pages(sz)) == false || Vacant(old(vm.S()), new_, 0, Pages(sz)) == false
  {
    hide Inv, Maps, SameMaps, RangeUnmapped, TakenBack, Giveable, OwnsPages, Pages, Installed, Grown, Pictures,
        AllMapped, Vacant, Spent, Paths, Path, MissingAbove, PagesNeeded, SomeStuck, Stuck, Short;
    ghost var s0 := vm.S();
    var i := 0;
    PicturesStep(s0, old_, 0);
    NothingInstalled(s0, new_, 0);
    NothingSpent(s0);
    NoPaths(new_, 0);
    NoneMapped(s0, old_, 0);
    BelowSize(i, sz);
    while i * PGSIZE < sz
      invariant i <= Pages(sz) && Good(vm.S()) == true && Node(old_, 2, 0) in vm.at && Node(new_, 2, 0) in vm.at
      invariant Installed(s0, vm.S(), new_, 0, Pictures(s0, old_, i)) == true
      invariant AllMapped(s0, old_, 0, i) == true && Spent(s0, vm.S(), Paths(new_, 0, i), i) == true
      invariant i * PGSIZE < sz <==> i < Pages(sz)
      decreases Pages(sz) - i
    {
      ghost var s1 := vm.S();
      var res := CopyPage(vm, old_, new_, i, s0, Pages(sz));
      if res == Panicked {
        StuckAt(s0, old_, new_, Pages(sz), i);
        return -1, true;
      }
      if res == NoMemory {
        ShortAt(s0, old_, new_, Pages(sz), i);
        InstalledStill(s0, s1, vm.S(), new_, 0, Pictures(s0, old_, i));
        panicked := Retreat(vm, new_, 0, i, s0, Pictures(s0, old_, i));
        return -1, panicked;
      }
      i := i + 1;
      BelowSize(i, sz);
    }
    InstalledWasVacant(s0, vm.S(), new_, 0, Pictures(s0, old_, i));
    NotStuck(s0, old_, new_, i);
    NeededNext(s0, vm.S(), new_, 0, i);
    return 0, false;
  }

  /** uvmcopy meets, at page j, a page of `old` that is not mapped, or one of `new` that
      cannot be, and memory lasts until then. */
  ghost predicate Stuck(s: Phys, old_: nat, new_: nat, j: nat) {
    && AllMapped(s, old_, 0, j) && Vacant(s, new_, 0, j)
    && (if !IsMapped(s, old_, j) then |s.free| >= PagesNeeded(s, new_, 0, j)
        else !CanMap(s, new_, j) && |s.free| > PagesNeeded(s, new_, 0, j))
  }

  ghost predicate SomeStuck(s: Phys, old_: nat, new_: nat, n: nat) { exists j: nat :: j < n && Stuck(s, old_, new_, j) }

  lemma StuckAt(s: Phys, old_: nat, new_: nat, n: nat, j: nat)
    requires Stuck(s, old_, new_, j) == true && j < n
    ensures SomeStuck(s, old_, new_, n) == true
    ensures AllMapped(s, old_, 0, n) == false || Vacant(s, new_, 0, n) == false
  {
    hide PagesNeeded, Maps;
    if Vacant(s, new_, 0, n) { VacantAt(s, new_, 0, n, j); }
  }

  lemma ShortAt(s: Phys, old_: nat, new_: nat, n: nat, a: nat)
    requires AllMapped(s, old_, 0, a + 1) == true && Short(s, new_, 0, a) == true && a < n
    ensures SomeStuck(s, old_, new_, n) == false
    ensures Vacant(s, new_, 0, n) == false || |s.free| < PagesNeeded(s, new_, 0, n)
  {
    hide Short, Stuck, PagesNeeded, Vacant, AllMapped;
    forall j: nat ensures Stuck(s, old_, new_, j) == false { ShortOrStuck(s, old_, new_, a, j); }
    ShortIsTooFew(s, new_, 0, a, n);
  }

  lemma ShortOrStuck(s: Phys, old_: nat, new_: nat, a: nat, j: nat)
    requires AllMapped(s, old_, 0, a + 1) == true && Short(s, new_, 0, a) == true
    ensures Stuck(s, old_, new_, j) == false
  {
    hide PagesNeeded, Vacant, Maps;
    if Stuck(s, old_, new_, j) {
      if a < j {
        NeededGrows(s, new_, 0, a + 1, j);
        NeededGrows(s, new_, 0, a, j);
      } else {
        assert IsMapped(s, old_, j);
        if j < a { VacantAt(s, new_, 0, a, j); }
      }
    }
  }

  lemma NotStuck(s: Phys, old_: nat, new_: nat, n: nat)
    requires AllMapped(s, old_, 0, n) == true && Vacant(s, new_, 0, n) == true
    ensures SomeStuck(s, old_, new_, n) == false
  {
    hide PagesNeeded, Maps;
    forall j: nat | j < n ensures Stuck(s, old_, new_, j) == false {
      assert IsMapped(s, old_, j);
      VacantAt(s, new_, 0, n, j);
    }
  }

  /** One turn of uvmcopy's loop. */
  method CopyPage(vm: Vm, old_: nat, new_: nat, i: nat, ghost s0: Phys, ghost n: nat) returns (res: MapResult)
    requires Good(vm.S()) == true && Node(old_, 2, 0) in vm.at && Node(new_, 2, 0) in vm.at && old_ != new_ && i < n
    requires Good(s0) == true && OwnsPages(s0, old_, n) == true
            && Installed(s0, vm.S(), new_, 0, Pictures(s0, old_, i)) == true
    requires AllMapped(s0, old_, 0, i) == true && Spent(s0, vm.S(), Paths(new_, 0, i), i) == true
    modifies vm
    ensures res != Panicked ==> Good(vm.S()) == true && Node(old_, 2, 0) in vm.at && Node(new_, 2, 0) in vm.at
    ensures res == Mapped ==> Installed(s0, vm.S(), new_, 0, Pictures(s0, old_, i + 1)) == true
    ensures res == Mapped ==>
              AllMapped(s0, old_, 0, i + 1) == true && Spent(s0, vm.S(), Paths(new_, 0, i + 1), i + 1) == true
    ensures res == NoMemory ==>
              && SameMaps(old(vm.S()), vm.S()) == true && Grown(old(vm.S()), vm.S(), new_, 0, 0) == true
              && |vm.free| <= 1 && AllMapped(s0, old_, 0, i + 1) == true && Short(s0, new_, 0, i) == true
    ensures res == Panicked ==> Stuck(s0, old_, new_, i) == true
  {
    hide Inv, Maps, SameMaps, Giveable, OwnsPages, Installed, Grown, Pictures, AllMapped, Vacant, Up, Slot, Spent,
        Paths,
        Path, MissingAbove, Short, Stuck, Blocked, PagesNeeded, Good;
    ghost var s1 := vm.S();
    OldUnchanged(s0, s1, old_, new_, i, n);
    var w := vm.Walk(old_, i, false);
    LeafOrNot(vm.S(), old_, i);
    if !w.Entry? {
      StuckOnOld(s0, s1, old_, new_, i);
      return Panicked;
    }
    var pte := vm.mem[w.page].ptes[w.index];
    if !pte.f.v {
      StuckOnOld(s0, s1, old_, new_, i);
      return Panicked;
    }
    OldPage(s0, s1, old_, new_, i, n);
    OneMoreMapped(s0, old_, i);
    res := InstallPage(vm, new_, i, pte.f, vm.mem[pte.ppn]);
    if res == Panicked {
      StuckOnNew(s0, s1, old_, new_, i);
    } else {
      if res == NoMemory { ShortOnNew(s0, s1, old_, new_, i); }
      if res == Mapped {
        OneMoreSpent(s0, s1, vm.S(), new_, i);
        InstalledMore(s0, s1, vm.S(), new_, 0, Pictures(s0, old_, i), Image(pte.f, s1.mem[pte.ppn]), i);
        PicturesStep(s0, old_, i);
      }
      RootsStay(s1, vm.S(), old_, new_, i, res == Mapped, Image(pte.f, s1.mem[pte.ppn]));
    }
  }

  lemma StuckOnOld(s: Phys, t: Phys, old_: nat, new_: nat, i: nat)
    requires AllMapped(s, old_, 0, i) == true && Installed(s, t, new_, 0, Pictures(s, old_, i)) == true
    requires Spent(s, t, Paths(new_, 0, i), i) == true && (i >= MAXVPN || !Maps(s, old_, i).f.v)
    ensures Stuck(s, old_, new_, i) == true
  {
    hide Spent, Paths, PagesNeeded, Leaf, Grown;
    NeededNext(s, t, new_, 0, i);
    InstalledWasVacant(s, t, new_, 0, Pictures(s, old_, i));
  }

  lemma StuckOnNew(s: Phys, t: Phys, old_: nat, new_: nat, i: nat)
    requires AllMapped(s, old_, 0, i + 1) == true && Installed(s, t, new_, 0, Pictures(s, old_, i)) == true
    requires Spent(s, t, Paths(new_, 0, i), i) == true && t.free != [] && (i >= MAXVPN || Maps(t, new_, i).f.v)
    ensures Stuck(s, old_, new_, i) == true
  {
    hide Spent, Paths, PagesNeeded, Maps, Vacant, CanMap, Installed, Pictures;
    WasBlocked(s, t, new_, 0, Pictures(s, old_, i));
    assert IsMapped(s, old_, i);
  }

  lemma ShortOnNew(s: Phys, t: Phys, old_: nat, new_: nat, i: nat)
    requires Good(t) == true && Installed(s, t, new_, 0, Pictures(s, old_, i)) == true
    requires Spent(s, t, Paths(new_, 0, i), i) == true
    requires t.free == [] || (i < MAXVPN && |t.free| < 1 + MissingAbove(t.at, Path(new_, i, 0)))
    ensures Short(s, new_, 0, i) == true
  {
    hide Spent, Paths, Installed, Pictures, Short, Good, Path, MissingAbove;
    WasShort(s, t, new_, 0, Pictures(s, old_, i));
  }

  lemma OneMoreSpent(s: Phys, t: Phys, u: Phys, root: nat, i: nat)
    requires Spent(s, t, Paths(root, 0, i), i) == true && Spent(t, u, Path(root, i, 0), 1) == true
    ensures Spent(s, u, Paths(root, 0, i + 1), i + 1) == true
  {
    hide Spent, Paths, Path;
    SpentNext(s, t, u, root, 0, i, i, 1);
  }

  lemma OneMoreMapped(s: Phys, root: nat, i: nat)
    requires AllMapped(s, root, 0, i) == true && i < MAXVPN && Maps(s, root, i).f.v
    ensures AllMapped(s, root, 0, i + 1) == true
  {
  }

  lemma PicturesStep(s: Phys, root: nat, k: nat)
    ensures Pictures(s, root, 0) == []
    ensures var pte := Maps(s, root, k);
            var pg := if pte.ppn in s.mem then s.mem[pte.ppn] else Run(0);
            Pictures(s, root, k + 1) == Pictures(s, root, k) + [Image(pte.f, pg)]
  {
  }

  lemma OldUnchanged(s: Phys, t: Phys, old_: nat, new_: nat, i: nat, n: nat)
    requires Installed(s, t, new_, 0, Pictures(s, old_, i)) == true && old_ != new_
    ensures Maps(t, old_, i) == Maps(s, old_, i)
  {
  }

  /** The page about to be copied still holds what it held at the start. */
  lemma OldPage(s: Phys, t: Phys, old_: nat, new_: nat, i: nat, n: nat)
    requires Good(s) == true && OwnsPages(s, old_, n) == true && i < n && Maps(s, old_, i).f.v
    requires Installed(s, t, new_, 0, Pictures(s, old_, i)) == true
    ensures var p := Maps(s, old_, i).ppn;
            && p in s.mem && p in t.mem && t.mem[p] == s.mem[p] && s.mem[p].Bytes? && |s.mem[p].bytes| == PGSIZE
            && RWX(Maps(s, old_, i).f)
  {
    var p := Maps(s, old_, i).ppn;
    assert p in s.use && s.use[p] == UserPage(old_, i);
    assert Leaf(s.mem, s.at, old_, i).f.v;
    hide Maps;
  }

  lemma RootsStay(s: Phys, t: Phys, old_: nat, new_: nat, i: nat, ok: bool, im: Image)
    requires Node(old_, 2, 0) in s.at && Node(new_, 2, 0) in s.at
    requires if ok then Installed(s, t, new_, i, [im]) == true else Grown(s, t, new_, 0, 0) == true
    ensures Node(old_, 2, 0) in t.at && Node(new_, 2, 0) in t.at
  {
  }
}
