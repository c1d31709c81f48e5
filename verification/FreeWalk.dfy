/** Tearing a page table down: freewalk and uvmfree (kernel/vm.c). */
module FreeWalk {
  import opened PageTable
  import opened PageTableSteps
  import opened Paging
  import opened UserMemory

  // ------------------------------------------------------------------ subtrees

  function Ups(x: nat, d: nat): nat
    decreases d
  { if d == 0 then x else Ups(Up(x), d - 1) }

  lemma {:induction false} UpsLast(x: nat, d: nat)
    ensures Ups(x, d + 1) == Up(Ups(x, d))
    decreases d
  {
    if d > 0 { UpsLast(Up(x), d - 1); }
  }

  /** Place `m` is in the subtree of place `n`. */
  ghost predicate Under(n: Node, m: Node) {
    m.root == n.root && m.level <= n.level && Ups(m.prefix, n.level - m.level) == n.prefix
  }

  /** Which entry of `n` leads to `m`. */
  function Branch(n: Node, m: Node): nat
    requires m.level < n.level
  {
    Slot(Ups(m.prefix, n.level - 1 - m.level))
  }

  lemma ChildBranch(n: Node, e: nat, m: Node)
    requires n.level > 0 && e < NPTE && m.level <= n.level
    ensures Under(Child(n, e), m) <==> Under(n, m) && m.level < n.level && Branch(n, m) == e
  {
    if m.level < n.level {
      UpsLast(m.prefix, n.level - 1 - m.level);
      var x := Ups(m.prefix, n.level - 1 - m.level);
      JoinParts(x);
      PartsOfJoin(n.prefix, e);
    }
  }

  ghost function Below(at: Places, n: Node): set<Node> { set m | m in at && Under(n, m) }

  /** What has gone when entries 0..i of `n` have been dealt with. */
  ghost function Done(at: Places, n: Node, i: nat): set<Node> {
    set m | m in at && Under(n, m) && m.level < n.level && Branch(n, m) < i
  }

  lemma DoneStep(at: Places, n: Node, i: nat)
    requires n.level > 0 && i < NPTE
    ensures Done(at, n, i + 1) == Done(at, n, i) + Below(at, Child(n, i)) && Done(at, n, i) !! Below(at, Child(n, i))
  {
    forall m | m in at && m.level <= n.level ensures Under(Child(n, i), m) <==>
            Under(n, m) && m.level < n.level && Branch(n, m) == i {
      ChildBranch(n, i, m);
    }
  }

  lemma DoneAll(at: Places, n: Node)
    requires n in at
    ensures Done(at, n, NPTE) + {n} == Below(at, n) && n !in Done(at, n, NPTE) && Done(at, n, 0) == {}
  {
  }

  /** Children dealt with are gone, children to come are not. */
  lemma ChildDone(at: Places, n: Node, i: nat, e: nat)
    requires n.level > 0 && e < NPTE
    ensures Child(n, e) in Done(at, n, i) <==> Child(n, e) in at && e < i
  {
    ChildBranch(n, e, Child(n, e));
  }

  // ------------------------------------------------------------- taking places away

  /** The pages of the places `gone` are free; nothing else changed hands. */
  ghost predicate Pruned(s: Phys, t: Phys, gone: set<Node>) {
    && s.use.Keys == t.use.Keys == s.mem.Keys == t.mem.Keys && t.at == s.at - gone
    && (forall p :: p in s.use && s.use[p].TablePage? && s.use[p].node in gone ==> t.use[p] == Free)
    && (forall p :: p in s.use && !(s.use[p].TablePage? && s.use[p].node in gone) ==> t.use[p] == s.use[p])
    && (forall p :: p in s.use && (s.use[p].UserPage? || s.use[p] == Other) ==> t.mem[p] == s.mem[p])
  }

  lemma PrunedTwice(s: Phys, t: Phys, u: Phys, a: set<Node>, b: set<Node>)
    requires Pruned(s, t, a) == true && Pruned(t, u, b) == true
    ensures Pruned(s, u, a + b) == true
  {
  }

  /** kfree of a table page with nothing left below it. */
  lemma FreeTable(mem: Memory, head: nat, free: seq<nat>, use: map<nat, Use>, at: Places, n: Node, p: nat)
    requires Inv(mem, head, free, use, at, {}) == true && n in at && p == at[n]
    requires n.level > 0 ==> forall e :: 0 <= e < NPTE ==> Child(n, e) !in at
    requires n.level == 0 ==> forall e :: 0 <= e < NPTE ==> !PteAt(mem, p, e).f.v
    ensures p in use && use[p] == TablePage(n) && p in mem
    ensures Inv(mem[p := Run(head)], p, [p] + free, use[p := Free], at - {n}, {n}) == true
    ensures SameLeaves(mem, at, mem[p := Run(head)], at - {n}) == true
  {
    assert p in use && use[p] == TablePage(n) && p in mem;
    PushFree(mem, head, free, use, p);
    FreeTablePages(mem, use, at, n, p, mem[p := Run(head)]);
    FreeTableTree(mem, use, at, n, p, mem[p := Run(head)]);
    FreeTableLeaves(mem, use, at, n, p, mem[p := Run(head)]);
    hide FreeList, TablePages, Tree, Leaves, Users, SameLeaves;
  }

  lemma FreeTablePages(mem: Memory, use: map<nat, Use>, at: Places, n: Node, p: nat, mem': Memory)
    requires TablePages(mem, use, at) == true && n in at && p == at[n] && p in mem' && mem' == mem[p := mem'[p]]
    ensures TablePages(mem', use[p := Free], at - {n}) == true
  {
  }

  lemma FreeTableTree(mem: Memory, use: map<nat, Use>, at: Places, n: Node, p: nat, mem': Memory)
    requires TablePages(mem, use, at) == true && Tree(mem, at, {}) == true && n in at && p == at[n] && p in mem'
            && mem' == mem[p := mem'[p]]
    requires n.level > 0 ==> forall e :: 0 <= e < NPTE ==> Child(n, e) !in at
    ensures Tree(mem', at - {n}, {n}) == true
  {
    var at' := at - {n};
    forall m | m in at' && m.level < 2 ensures Parent(m) in at' {
      JoinParts(m.prefix);
      assert Child(Parent(m), Slot(m.prefix)) == m;
    }
    forall m, e | m in at' && m.level > 0 && 0 <= e < NPTE && Child(m, e) != n
      ensures PteAt(mem', at'[m], e) == if Child(m, e) in at' then Pte(at'[Child(m, e)], TO_TABLE) else NULL_PTE
    {
      assert use[at[m]] == TablePage(m) && at[m] != p;
      assert PteAt(mem, at[m], e) == if Child(m, e) in at then Pte(at[Child(m, e)], TO_TABLE) else NULL_PTE;
    }
  }

  lemma FreeTableLeaves(mem: Memory, use: map<nat, Use>, at: Places, n: Node, p: nat, mem': Memory)
    requires TablePages(mem, use, at) == true && Leaves(mem, use, at) == true && Users(mem, use, at) == true && n in at
            && p == at[n]
    requires p in mem' && mem' == mem[p := mem'[p]]
    requires n.level == 0 ==> forall e :: 0 <= e < NPTE ==> !PteAt(mem, p, e).f.v
    ensures Leaves(mem', use[p := Free], at - {n}) == true && Users(mem', use[p := Free], at - {n}) == true
            && SameLeaves(mem, at, mem', at - {n}) == true
  {
    forall root, vpn ensures Leaf(mem', at - {n}, root, vpn) == Leaf(mem, at, root, vpn) {
      var m := Node(root, 0, Up(vpn));
      if m == n {
        assert !PteAt(mem, p, Slot(vpn)).f.v && Leaf(mem, at, root, vpn) == NULL_PTE;
      } else if m in at {
        assert use[at[m]] == TablePage(m) && at[m] != p;
      }
    }
  }

  /** pagetable[i] = 0 once the table below is gone. */
  lemma CloseHole(mem: Memory, head: nat, free: seq<nat>, use: map<nat, Use>, at: Places, n: Node, e: nat, c: Node,
                  mem': Memory)
    requires n.level > 0 && e < NPTE && c == Child(n, e) && Inv(mem, head, free, use, at, {c}) == true && n in at
            && c !in at
    requires at[n] in mem && mem' == mem[at[n] := PutPte(mem[at[n]], e, NULL_PTE)]
    ensures Inv(mem', head, free, use, at, {}) == true && SameLeaves(mem, at, mem', at) == true
  {
    hide FreeList, TablePages, Tree, Leaves, Users, SameLeaves, Child;
    PutPteKeepsFree(mem, head, free, use, at, n, e, NULL_PTE);
    PutPteKeepsPages(mem, use, at, n, e, NULL_PTE);
    CloseTree(mem, use, at, n, e, c, mem');
    CloseLeaves(mem, use, at, n, e, mem');
  }

  lemma CloseTree(mem: Memory, use: map<nat, Use>, at: Places, n: Node, e: nat, c: Node, mem': Memory)
    requires TablePages(mem, use, at) == true && n.level > 0 && e < NPTE && c == Child(n, e)
            && Tree(mem, at, {c}) == true && n in at
            && c !in at
    requires mem' == mem[at[n] := PutPte(mem[at[n]], e, NULL_PTE)]
    ensures Tree(mem', at, {}) == true
  {
    forall m, f | m in at && m.level > 0 && 0 <= f < NPTE
      ensures PteAt(mem', at[m], f) == if Child(m, f) in at then Pte(at[Child(m, f)], TO_TABLE) else NULL_PTE
    {
      PartsOfJoin(m.prefix, f);
      PartsOfJoin(n.prefix, e);
      assert use[at[m]] == TablePage(m);
      if Child(m, f) == c {
        assert m == n && f == e;
      }
    }
  }

  lemma CloseLeaves(mem: Memory, use: map<nat, Use>, at: Places, n: Node, e: nat, mem': Memory)
    requires TablePages(mem, use, at) == true && Leaves(mem, use, at) == true && Users(mem, use, at) == true && n in at
            && n.level > 0
    requires mem' == mem[at[n] := PutPte(mem[at[n]], e, NULL_PTE)]
    ensures Leaves(mem', use, at) == true && Users(mem', use, at) == true && SameLeaves(mem, at, mem', at) == true
  {
    forall root, vpn ensures Leaf(mem', at, root, vpn) == Leaf(mem, at, root, vpn) {
      var m := Node(root, 0, Up(vpn));
      if m in at { assert use[at[m]] == TablePage(m) && at[m] != at[n]; }
    }
  }

  // ------------------------------------------------------------------------ freewalk

  /** No page is mapped through the subtree of `n`. */
  ghost predicate NoLeaves(s: Phys, n: Node) {
    forall v: nat :: Under(n, Node(n.root, 0, Up(v))) ==> !Maps(s, n.root, v).f.v
  }

  /** Where freewalk of `n` stands at entry `i`. */
  ghost predicate Walking(s0: Phys, s: Phys, n: Node, i: nat, page: nat) {
    && Good(s) && Pruned(s0, s, Done(s0.at, n, i)) && SameMaps(s0, s)
    && n in s.at && s.at[n] == page && n in s0.at
    && (n.level == 0 ==> forall e :: 0 <= e < i && e < NPTE ==> !PteAt(s.mem, page, e).f.v)
  }

  lemma StartWalking(s: Phys, n: Node)
    requires Good(s) == true && n in s.at
    ensures Walking(s, s, n, 0, s.at[n]) == true
  {
    DoneAll(s.at, n);
    assert s.at - {} == s.at;
  }

  /** What freewalk can meet at entry `i`. */
  lemma EntryKind(s0: Phys, s: Phys, n: Node, i: nat, page: nat)
    requires Walking(s0, s, n, i, page) == true && i < NPTE
    ensures page in s.mem && s.mem[page].Table? && |s.mem[page].ptes| == NPTE && page in s.use && n.level <= 2
    ensures var pte := s.mem[page].ptes[i];
            && (pte.f.v && !RWX(pte.f) ==> n.level > 0 && Child(n, i) in s.at && s.at[Child(n, i)] == pte.ppn)
            && (!pte.f.v && n.level > 0 ==> Child(n, i) !in s.at)
            && (pte.f.v && RWX(pte.f) ==> n.level == 0 && Maps(s, n.root, Join(n.prefix, i)) == pte)
  {
    PartsOfJoin(n.prefix, i);
    assert PteAt(s.mem, page, i) == s.mem[page].ptes[i];
    if n.level == 0 { assert Maps(s, n.root, Join(n.prefix, i)) == PteAt(s.mem, page, i); }
  }

  /** A leaf met below `n` was there at the start. */
  lemma LeafMet(s0: Phys, s: Phys, n: Node, i: nat, page: nat)
    requires Walking(s0, s, n, i, page) == true && i < NPTE && n.level == 0 && Maps(s, n.root, Join(n.prefix, i)).f.v
    ensures NoLeaves(s0, n) == false
  {
    PartsOfJoin(n.prefix, i);
    var v := Join(n.prefix, i);
    assert Under(n, Node(n.root, 0, Up(v))) && Maps(s0, n.root, v) == Maps(s, n.root, v);
  }

  lemma NoLeavesBelow(s0: Phys, s: Phys, n: Node, i: nat)
    requires SameMaps(s0, s) == true && NoLeaves(s0, n) == true && n.level > 0 && i < NPTE
    ensures NoLeaves(s, Child(n, i)) == true
  {
    forall v: nat | Under(Child(n, i), Node(n.root, 0, Up(v))) ensures !Maps(s, n.root, v).f.v {
      ChildBranch(n, i, Node(n.root, 0, Up(v)));
      assert Maps(s, n.root, v) == Maps(s0, n.root, v);
    }
  }

  /** Nothing hangs from an invalid entry. */
  lemma WalkingPast(s0: Phys, s: Phys, n: Node, i: nat, page: nat)
    requires Walking(s0, s, n, i, page) == true && i < NPTE && n.level <= 2 && page in s.mem && s.mem[page].Table?
            && |s.mem[page].ptes| == NPTE
    requires !s.mem[page].ptes[i].f.v && (n.level > 0 ==> Child(n, i) !in s.at)
    ensures Walking(s0, s, n, i + 1, page) == true
  {
    hide Inv, Pruned, SameMaps, Done, Below, Maps, Child;
    if n.level > 0 {
      DoneStep(s0.at, n, i);
      ParentsIn(s);
      PrunedAt(s0, s, Done(s0.at, n, i));
      GoneBelow(s0.at, s.at, n, i, Child(n, i));
      assert Done(s0.at, n, i) + {} == Done(s0.at, n, i);
    } else {
      LeafTableDone(s0.at, n, i);
    }
  }

  lemma LeafTableDone(at: Places, n: Node, i: nat)
    requires n.level == 0
    ensures Done(at, n, i) == {} && Done(at, n, i + 1) == {}
  {
  }

  lemma ParentsIn(s: Phys)
    requires Good(s) == true
    ensures forall m :: m in s.at && m.level < 2 ==> Parent(m) in s.at
  {
  }

  lemma PrunedAt(s: Phys, t: Phys, gone: set<Node>)
    requires Pruned(s, t, gone) == true
    ensures t.at == s.at - gone
  {
  }

  /** A missing child has an empty subtree. */
  lemma GoneBelow(at0: Places, at: Places, n: Node, i: nat, c: Node)
    requires at == at0 - Done(at0, n, i) && n.level > 0 && i < NPTE && c == Child(n, i) && c !in at && n.level <= 2
    requires forall m :: m in at && m.level < 2 ==> Parent(m) in at
    ensures Below(at0, c) == {}
  {
    DoneStep(at0, n, i);
    forall m | m in at0 ensures !Under(c, m) {
      if Under(c, m) {
        assert m in Below(at0, c);
        Ancestor(at, c, m);
        assert false;
      }
    }
  }

  lemma {:induction false} Ancestor(at: Places, c: Node, m: Node)
    requires m in at && Under(c, m) && c.level <= 2 && forall m :: m in at && m.level < 2 ==> Parent(m) in at
    ensures c in at
    decreases c.level - m.level
  {
    if m.level < c.level {
      Ancestor(at, c, Parent(m));
    }
  }

  /** One turn with a table below: it is gone, and the entry with it. */
  lemma WalkingOn(s0: Phys, s: Phys, s1: Phys, t: Phys, n: Node, i: nat, page: nat, c: Node)
    requires Walking(s0, s, n, i, page) == true && i < NPTE && n.level > 0 && c == Child(n, i)
    requires Pruned(s, s1, Below(s.at, c)) == true && SameMaps(s, s1) == true && Good(t) == true
    requires page in s1.mem && page in t.mem && t == s1.(mem := s1.mem[page := t.mem[page]]) && SameMaps(s1, t) == true
    ensures Walking(s0, t, n, i + 1, page) == true
  {
    DoneStep(s0.at, n, i);
    BelowRest(s0, s, n, i, c);
    assert n !in Below(s.at, c) by { ChildBranch(n, i, n); }
    assert page in s.use && s.use[page] == TablePage(n);
    PageChanged(s, s1, t, Below(s.at, c), n, page);
    PrunedTwice(s0, s, t, Done(s0.at, n, i), Below(s.at, c));
    SameMapsThrice(s0, s, s1, t);
    hide Inv, Pruned, SameMaps, Done, Below;
  }

  lemma BelowRest(s0: Phys, s: Phys, n: Node, i: nat, c: Node)
    requires n.level > 0 && i < NPTE && c == Child(n, i) && s.at == s0.at - Done(s0.at, n, i)
    ensures Below(s.at, c) == Below(s0.at, c)
  {
    DoneStep(s0.at, n, i);
  }

  lemma PageChanged(s: Phys, s1: Phys, t: Phys, gone: set<Node>, n: Node, page: nat)
    requires Pruned(s, s1, gone) == true && page in s.use && s.use[page] == TablePage(n)
    requires page in s1.mem && page in t.mem && t == s1.(mem := s1.mem[page := t.mem[page]])
    ensures Pruned(s, t, gone) == true
  {
  }

  lemma SameMapsThrice(s0: Phys, s: Phys, s1: Phys, t: Phys)
    requires SameMaps(s0, s) == true && SameMaps(s, s1) == true && SameMaps(s1, t) == true
    ensures SameMaps(s0, t) == true
  {
    forall r: nat, v: nat ensures Maps(t, r, v) == Maps(s0, r, v) {
      assert Maps(s, r, v) == Maps(s1, r, v) == Maps(t, r, v);
    }
  }

  /** Every entry dealt with: the table itself can go. */
  lemma WalkedAll(s0: Phys, s: Phys, n: Node, page: nat)
    requires Walking(s0, s, n, NPTE, page) == true
    ensures var mem', use', at' := s.mem[page := Run(s.head)], s.use[page := Free], s.at - {n};
            && page in s.use && s.use[page] == TablePage(n) && page in s.mem
            && FreeList(s.mem, s.head, s.free, s.use) == true
            && Inv(mem', page, [page] + s.free, use', at', {n}) == true
            && Pruned(s0, Phys(mem', page, [page] + s.free, use', at'), Below(s0.at, n)) == true
            && SameMaps(s0, Phys(mem', page, [page] + s.free, use', at')) == true
  {
    hide Inv, Pruned, SameMaps, SameLeaves, Done, Below, Maps, Child, FreeList;
    KeysAgree(s);
    if n.level > 0 { ChildrenGone(s0, s, n); }
    FreeTable(s.mem, s.head, s.free, s.use, s.at, n, page);
    DoneAll(s0.at, n);
    var t := Phys(s.mem[page := Run(s.head)], page, [page] + s.free, s.use[page := Free], s.at - {n});
    SameLeavesSameMaps(s, t);
    SameMapsSelf(s);
    SameMapsThrice(s0, s, s, t);
    OnePruned(s, t, n, page);
    PrunedTwice(s0, s, t, Done(s0.at, n, NPTE), {n});
  }

  lemma ChildrenGone(s0: Phys, s: Phys, n: Node)
    requires Pruned(s0, s, Done(s0.at, n, NPTE)) == true && n.level > 0
    ensures forall e :: 0 <= e < NPTE ==> Child(n, e) !in s.at
  {
    forall e | 0 <= e < NPTE ensures Child(n, e) !in s.at { ChildDone(s0.at, n, NPTE, e); }
  }

  lemma SameMapsSelf(s: Phys)
    ensures SameMaps(s, s) == true
  {
  }

  lemma OnlyPageOf(mem: Memory, head: nat, free: seq<nat>, use: map<nat, Use>, at: Places, n: Node)
    requires Inv(mem, head, free, use, at, {}) == true && n in at
    ensures forall p :: p in use && use[p] == TablePage(n) ==> p == at[n]
  {
    hide FreeList, Tree, Leaves, Users;
  }

  lemma OnePruned(s: Phys, t: Phys, n: Node, page: nat)
    requires n in s.at && page in s.use && s.use[page] == TablePage(n) && s.use.Keys == s.mem.Keys
    requires Good(s) == true && s.at[n] == page
    requires t == Phys(s.mem[page := Run(s.head)], page, [page] + s.free, s.use[page := Free], s.at - {n})
    ensures Pruned(s, t, {n}) == true
  {
    hide Inv, FreeList, TablePages, Tree, Leaves, Users;
    OnlyPageOf(s.mem, s.head, s.free, s.use, s.at, n);
  }

  /** freewalk: the table pages of the subtree of `n` all become free pages, and no
      other page does; panics on a leaf. */
  method Freewalk(vm: Vm, page: nat, ghost n: Node) returns (panicked: bool)
    requires Good(vm.S()) == true && n in vm.at && vm.at[n] == page
    modifies vm
    ensures !panicked ==>
              && Inv(vm.mem, vm.freelist, vm.free, vm.use, vm.at, {n}) == true
              && Pruned(old(vm.S()), vm.S(), Below(old(vm.at), n)) == true && SameMaps(old(vm.S()), vm.S()) == true
    ensures panicked <==> NoLeaves(old(vm.S()), n) == false
    decreases n.level
  {
    hide Inv, Maps, SameMaps, SameLeaves, Pruned, Below, Done, NoLeaves, Walking, FreeList;
    ghost var s0 := vm.S();
    StartWalking(s0, n);
    for i := 0 to NPTE
      invariant Walking(s0, vm.S(), n, i, page) == true
    {
      ghost var s := vm.S();
      EntryKind(s0, s, n, i, page);
      var pte := vm.mem[page].ptes[i];
      if pte.f.v && !RWX(pte.f) {
        ghost var c := Child(n, i);
        WalkingFacts(s0, s, n, i, page);
        panicked := Freewalk(vm, pte.ppn, c);
        if panicked {
          if NoLeaves(s0, n) { NoLeavesBelow(s0, s, n, i); }
          return;
        }
        ghost var s1 := vm.S();
        AfterChild(s, s1, n, i, c, page);
        CloseHole(vm.mem, vm.freelist, vm.free, vm.use, vm.at, n, i, c,
                  vm.mem[page := PutPte(vm.mem[page], i, NULL_PTE)]);
        vm.mem := vm.mem[page := Table(vm.mem[page].ptes[i := NULL_PTE])];
        SameLeavesSameMaps(s1, vm.S());
        WalkingOn(s0, s, s1, vm.S(), n, i, page, c);
      } else if pte.f.v {
        LeafMet(s0, s, n, i, page);
        return true;
      } else {
        WalkingPast(s0, s, n, i, page);
      }
    }
    WalkedAll(s0, vm.S(), n, page);
    ghost var s := vm.S();
    panicked := vm.Kfree(page);
    vm.at := vm.at - {n};
    assert vm.S() == Phys(s.mem[page := Run(s.head)], page, [page] + s.free, s.use[page := Free], s.at - {n});
    NothingBelow(s0, vm.S(), n);
  }

  /** With its tables gone and no mapping lost, nothing was mapped below `n`. */
  lemma NothingBelow(s: Phys, t: Phys, n: Node)
    requires Pruned(s, t, Below(s.at, n)) == true && SameMaps(s, t) == true
    ensures NoLeaves(s, n) == true
  {
    forall v: nat | Under(n, Node(n.root, 0, Up(v))) ensures !Maps(s, n.root, v).f.v {
      assert Node(n.root, 0, Up(v)) !in t.at;
      assert Maps(s, n.root, v) == Maps(t, n.root, v);
    }
  }

  /** What is mapped under a root is mapped through its subtree. */
  lemma OnlyThese(s: Phys, t: Phys, root: nat, n: nat, top: Node)
    requires Good(t) == true && top == Node(root, 2, 0) && AllMapped(s, root, 0, n) == true
    requires RangeUnmapped(s, t, root, 0, n) == true && NoLeaves(t, top) == true
    ensures OnlyLeaves(s, root, n) == true
  {
    forall v: nat ensures Maps(s, root, v).f.v <==> v < n {
      assert v < n ==> IsMapped(s, root, v);
      var m := Node(root, 0, Up(v));
      if m in t.at { UnderRoot(t, m); }
      assert !Maps(t, root, v).f.v;
    }
    assert n > 0 ==> IsMapped(s, root, n - 1);
  }

  lemma WalkingFacts(s0: Phys, s: Phys, n: Node, i: nat, page: nat)
    requires Walking(s0, s, n, i, page) == true
    ensures Good(s) == true && SameMaps(s0, s) == true && n in s.at && s.at[n] == page
  {
  }

  lemma AfterChild(s: Phys, s1: Phys, n: Node, i: nat, c: Node, page: nat)
    requires n.level > 0 && i < NPTE && c == Child(n, i) && Good(s) == true && n in s.at && s.at[n] == page
    requires Pruned(s, s1, Below(s.at, c)) == true && Inv(s1.mem, s1.head, s1.free, s1.use, s1.at, {c}) == true
    ensures n in s1.at && s1.at[n] == page && c !in s1.at && page in s1.mem && s1.mem[page].Table?
            && |s1.mem[page].ptes| == NPTE
  {
    ChildBranch(n, i, n);
    ChildBranch(n, i, c);
    assert Under(c, c);
  }

  // ------------------------------------------------------------ uvmcreate, uvmfree

  /** uvmcreate: an empty table; 0 when out of memory. */
  method Uvmcreate(vm: Vm) returns (root: nat)
    requires Good(vm.S()) == true
    modifies vm
    ensures Good(vm.S()) == true && SameMaps(old(vm.S()), vm.S()) == true
    ensures root == 0 <==> old(vm.free) == []
    ensures root == 0 ==> vm.S() == old(vm.S())
    ensures root != 0 ==>
              && Node(root, 2, 0) in vm.at && vm.at == old(vm.at)[Node(root, 2, 0) := root]
              && root in old(vm.use) && old(vm.use)[root] == Free
              && vm.use == old(vm.use)[root := TablePage(Node(root, 2, 0))]
  {
    hide Inv, Maps, SameMaps, SameLeaves;
    ghost var s0 := vm.S();
    root := vm.Kalloc();
    if root == 0 {
      return;
    }
    ghost var s1 := vm.S();
    FillPage(vm.mem, vm.freelist, vm.free, vm.use, vm.at, {}, root, EMPTY_TABLE);
    vm.mem := vm.mem[root := EMPTY_TABLE];
    ghost var s2 := vm.S();
    SameLeavesSameMaps(s1, s2);
    NewRoot(vm.mem, vm.freelist, vm.free, vm.use, vm.at, root);
    vm.use := vm.use[root := TablePage(Node(root, 2, 0))];
    vm.at := vm.at[Node(root, 2, 0) := root];
    SameLeavesSameMaps(s2, vm.S());
    SameMapsThrice(s0, s1, s2, vm.S());
  }

  /** The pages 0..n of `root` are mapped, and no others. */
  ghost predicate OnlyLeaves(s: Phys, root: nat, n: nat) {
    n <= MAXVPN && forall v: nat :: Maps(s, root, v).f.v <==> v < n
  }

  ghost predicate BelongsTo(u: Use, root: nat) {
    (u.TablePage? && u.node.root == root) || (u.UserPage? && u.root == root)
  }

  /** Every page of `root`, data or table, is free again, and no other page changed hands. */
  ghost predicate AllReturned(s: Phys, t: Phys, root: nat) {
    && s.use.Keys == t.use.Keys == s.mem.Keys == t.mem.Keys
    && (forall p :: p in s.use && BelongsTo(s.use[p], root) ==> t.use[p] == Free)
    && (forall p :: p in s.use && !BelongsTo(s.use[p], root) ==> t.use[p] == s.use[p])
    && (forall p :: p in s.use && !BelongsTo(s.use[p], root) && (s.use[p].UserPage? || s.use[p] == Other) ==>
            t.mem[p] == s.mem[p])
  }

  /** uvmfree: returns every page of a table whose leaves are exactly those of 0..sz,
      and panics on any other. */
  method Uvmfree(vm: Vm, root: nat, sz: nat) returns (panicked: bool)
    requires Good(vm.S()) == true && Node(root, 2, 0) in vm.at && Giveable(vm.S(), root, 0, Pages(sz), true) == true
    modifies vm
    ensures panicked <==> OnlyLeaves(old(vm.S()), root, Pages(sz)) == false
    ensures !panicked ==> Good(vm.S()) == true && AllReturned(old(vm.S()), vm.S(), root) == true
  {
    hide Inv, Maps, SameMaps, RangeUnmapped, TakenBack, Giveable, Pages, OnlyLeaves, NoLeaves, AllReturned, Pruned,
        Below, Under, AllMapped;
    ghost var s0, n := vm.S(), Node(root, 2, 0);
    NothingUnmapped(s0, root, 0, true);
    NoneMapped(s0, root, 0);
    PageOf(0);
    if OnlyLeaves(s0, root, Pages(sz)) { OnlyAreMapped(s0, root, Pages(sz)); }
    panicked := false;
    NoPages(sz);
    if sz > 0 {
      ghost var k;
      panicked, k := vm.Uvmunmap(root, 0, Pages(sz), true);
      if panicked {
        NotAllMapped(s0, root, 0, k, Pages(sz));
        return;
      }
    }
    ghost var s1 := vm.S();
    if OnlyLeaves(s0, root, Pages(sz)) { NoLeavesLeft(s0, s1, root, Pages(sz), n); }
    RootPlace(s1, root);
    panicked := Freewalk(vm, root, n);
    if !panicked {
      OnlyThese(s0, s1, root, Pages(sz), n);
      RootHole(vm.S(), n);
      EverythingReturned(s0, s1, vm.S(), root, Pages(sz), n);
    }
  }

  lemma NoPages(sz: nat)
    ensures sz == 0 <==> Pages(sz) == 0
  {
  }

  lemma OnlyAreMapped(s: Phys, root: nat, n: nat)
    requires OnlyLeaves(s, root, n) == true
    ensures AllMapped(s, root, 0, n) == true
  {
    forall v: nat | v < n ensures IsMapped(s, root, v) { assert Maps(s, root, v).f.v; }
  }

  lemma NoLeavesLeft(s: Phys, t: Phys, root: nat, n: nat, top: Node)
    requires OnlyLeaves(s, root, n) == true && RangeUnmapped(s, t, root, 0, n) == true && top.root == root
    ensures NoLeaves(t, top) == true
  {
    forall v: nat ensures !Maps(t, root, v).f.v { assert Maps(s, root, v).f.v <==> v < n; }
  }

  /** Nothing points to a root, so its absence leaves no dangling entry. */
  lemma RootHole(s: Phys, n: Node)
    requires Inv(s.mem, s.head, s.free, s.use, s.at, {n}) == true && n.level == 2
    ensures Good(s) == true
  {
    assert Tree(s.mem, s.at, {}) by {
      forall m, e | m in s.at && m.level > 0 && 0 <= e < NPTE ensures Child(m, e) != n { }
    }
    hide FreeList, TablePages, Tree, Leaves, Users;
  }

  lemma {:induction false} UnderRoot(s: Phys, m: Node)
    requires Good(s) == true && m in s.at
    ensures m.level <= 2 && Under(Node(m.root, 2, 0), m)
    decreases 2 - m.level
  {
    hide *;
    PlaceInTree(s, m);
    if m.level < 2 {
      UnderRoot(s, Parent(m));
      UnderParent(Node(m.root, 2, 0), m);
    } else {
      UnderSelf(m);
    }
  }

  lemma UnderParent(top: Node, m: Node)
    requires m.level < top.level && Under(top, Parent(m))
    ensures Under(top, m)
  {
  }

  lemma UnderSelf(m: Node)
    ensures Under(Node(m.root, m.level, m.prefix), m)
  {
  }

  lemma PlaceInTree(s: Phys, m: Node)
    requires Good(s) == true && m in s.at
    ensures m.level <= 2 && (m.level == 2 ==> m == Node(m.root, 2, 0))
    ensures m.level < 2 ==> Parent(m) in s.at && Parent(m).level == m.level + 1 && Parent(m).root == m.root
  {
    hide FreeList, TablePages, Leaves, Users;
  }

  lemma EverythingReturned(s: Phys, s1: Phys, t: Phys, root: nat, n: nat, top: Node)
    requires Good(s) == true && OnlyLeaves(s, root, n) == true && top == Node(root, 2, 0)
    requires TakenBack(s, s1, root, 0, n, true) == true && Pruned(s1, t, Below(s.at, top)) == true
    ensures AllReturned(s, t, root) == true
  {
    hide Good, OnlyLeaves, Inv, Maps, Under, Below;
    TreeOf(s, root, top);
    PagesOf(s, root, n);
  }

  lemma TreeOf(s: Phys, root: nat, top: Node)
    requires Good(s) == true && top == Node(root, 2, 0)
    ensures forall p :: p in s.use && s.use[p].TablePage? ==>
            (s.use[p].node in Below(s.at, top) <==> s.use[p].node.root == root)
  {
    forall p | p in s.use && s.use[p].TablePage? ensures s.use[p].node in s.at
            && (Under(top, s.use[p].node) <==> s.use[p].node.root == root) {
      assert s.use[p].node in s.at;
      UnderRoot(s, s.use[p].node);
    }
  }

  lemma PagesOf(s: Phys, root: nat, n: nat)
    requires Good(s) == true && OnlyLeaves(s, root, n) == true
    ensures forall p :: p in s.use && s.use[p].UserPage? && s.use[p].root == root ==> IsPageOf(s.use[p], root, 0, n)
  {
    forall p | p in s.use && s.use[p].UserPage? && s.use[p].root == root ensures s.use[p].vpn < n {
      UserPageIsMapped(s, p);
    }
  }
}
