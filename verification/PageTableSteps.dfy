/** What each change to memory does to the invariant and to the flat map. */
module PageTableSteps {
  import opened PageTable

  const EMPTY_TABLE: Page := Table(seq(NPTE, _ => NULL_PTE))

  function PutPte(pg: Page, e: nat, pte: Pte): Page {
    if pg.Table? && e < |pg.ptes| then Table(pg.ptes[e := pte]) else pg
  }

  // -------------------------------------------------------------- the free list

  lemma PopChain(mem: Memory, head: nat, free: seq<nat>, pg: Page)
    requires Chain(mem, head, free) == true && free != []
    ensures head in mem && mem[head].Run? && Chain(mem[head := pg], mem[head].next, free[1..]) == true
  {
    var rest, mem' := free[1..], mem[head := pg];
    assert free[0] == head;
    forall i | 0 <= i < |rest| ensures rest[i] in mem' && mem'[rest[i]] == Run(After(rest, i)) {
      assert rest[i] == free[i + 1] != free[0] && After(rest, i) == After(free, i + 1);
    }
  }

  lemma RestOf(free: seq<nat>, p: nat)
    requires free != [] && forall i, j :: 0 <= i < j < |free| ==> free[i] != free[j]
    ensures p in free[1..] <==> p in free && p != free[0]
  {
    if p in free && p != free[0] {
      var i :| 0 <= i < |free| && free[i] == p;
      assert free[1..][i - 1] == p;
    }
  }

  /** kalloc took the first free page, which now holds `pg`. */
  lemma PopFree(mem: Memory, head: nat, free: seq<nat>, use: map<nat, Use>, pg: Page)
    requires FreeList(mem, head, free, use) == true && free != []
    ensures head == free[0] && head in mem && mem[head].Run?
    ensures FreeList(mem[head := pg], mem[head].next, free[1..], use[head := Other]) == true
  {
    PopChain(mem, head, free, pg);
    DistinctRest(mem, head, free);
    hide Chain;
  }

  lemma DistinctRest(mem: Memory, head: nat, free: seq<nat>)
    requires Chain(mem, head, free) == true && free != []
    ensures head == free[0] && forall p :: p in free[1..] <==> p in free && p != head
  {
    forall p ensures p in free[1..] <==> p in free && p != head { RestOf(free, p); }
  }

  lemma PushChain(mem: Memory, head: nat, free: seq<nat>, p: nat)
    requires Chain(mem, head, free) == true && p !in free && p != 0
    ensures Chain(mem[p := Run(head)], p, [p] + free) == true
  {
    var free', mem' := [p] + free, mem[p := Run(head)];
    forall i | 0 <= i < |free'| ensures free'[i] in mem' && mem'[free'[i]] == Run(After(free', i)) {
      if i > 0 { assert free'[i] == free[i - 1] != p && After(free', i) == After(free, i - 1); }
    }
    forall i, j | 0 <= i < j < |free'| ensures free'[i] != free'[j] {
      assert free'[j] == free[j - 1];
    }
  }

  /** kfree put page `p` in front. */
  lemma PushFree(mem: Memory, head: nat, free: seq<nat>, use: map<nat, Use>, p: nat)
    requires FreeList(mem, head, free, use) == true && p in use && use[p] != Free
    ensures FreeList(mem[p := Run(head)], p, [p] + free, use[p := Free]) == true
  {
    assert p !in free;
    PushChain(mem, head, free, p);
  }

  lemma FreeListKept(mem: Memory, head: nat, free: seq<nat>, use: map<nat, Use>, p: nat, pg: Page, u: Use)
    requires FreeList(mem, head, free, use) == true && p in use && use[p] != Free && u != Free
    ensures FreeList(mem[p := pg], head, free, use[p := u]) == true
  {
    assert p !in free;
  }

  lemma TablePageOf(mem: Memory, use: map<nat, Use>, at: Places, n: Node)
    requires TablePages(mem, use, at) == true && n in at
    ensures at[n] in mem && mem[at[n]].Table? && |mem[at[n]].ptes| == NPTE
    ensures at[n] in use && use[at[n]] == TablePage(n)
  {
  }

  lemma PutPteKeepsPages(mem: Memory, use: map<nat, Use>, at: Places, n: Node, e: nat, pte: Pte)
    requires TablePages(mem, use, at) == true && n in at
    ensures at[n] in mem && TablePages(mem[at[n] := PutPte(mem[at[n]], e, pte)], use, at) == true
  {
  }

  lemma PutPteKeepsFree(mem: Memory, head: nat, free: seq<nat>, use: map<nat, Use>, at: Places, n: Node, e: nat,
                        pte: Pte)
    requires FreeList(mem, head, free, use) == true && TablePages(mem, use, at) == true && n in at
    ensures at[n] in mem && FreeList(mem[at[n] := PutPte(mem[at[n]], e, pte)], head, free, use) == true
  {
    hide FreeList, TablePages;
    TablePageOf(mem, use, at, n);
    FreeListKept(mem, head, free, use, at[n], PutPte(mem[at[n]], e, pte), use[at[n]]);
    assert use[at[n] := use[at[n]]] == use;
  }

  /** A page that is no table changes hands. */
  lemma OtherUseKeepsPages(mem: Memory, use: map<nat, Use>, at: Places, p: nat, u: Use)
    requires TablePages(mem, use, at) == true && p in use && !use[p].TablePage? && !u.TablePage?
    ensures TablePages(mem, use[p := u], at) == true
  {
  }

  lemma OtherUseKeepsFree(mem: Memory, head: nat, free: seq<nat>, use: map<nat, Use>, p: nat, u: Use)
    requires FreeList(mem, head, free, use) == true && p in use && use[p] != Free && u != Free
    ensures FreeList(mem, head, free, use[p := u]) == true
  {
    assert p in mem;
    FreeListKept(mem, head, free, use, p, mem[p], u);
    assert mem[p := mem[p]] == mem;
  }

  // ----------------------------------------------------- pages outside any tree

  /** Page `p`, neither table nor user page before and after, changes hands or contents. */
  ghost predicate Outside(use: map<nat, Use>, use': map<nat, Use>, mem: Memory, mem': Memory, p: nat) {
    && p in use && (use[p] == Free || use[p] == Other) && p in use' && (use'[p] == Free || use'[p] == Other)
    && use' == use[p := use'[p]] && p in mem' && mem' == mem[p := mem'[p]]
  }

  lemma OutsideKeeps(mem: Memory, use: map<nat, Use>, at: Places, hole: set<Node>, mem': Memory, use': map<nat, Use>,
                     p: nat)
    requires Outside(use, use', mem, mem', p)
    requires TablePages(mem, use, at) == true && Tree(mem, at, hole) == true && Leaves(mem, use, at) == true
            && Users(mem, use, at) == true
    ensures TablePages(mem', use', at) == true && Tree(mem', at, hole) == true && Leaves(mem', use', at) == true
            && Users(mem', use', at) == true
    ensures SameLeaves(mem, at, mem', at) == true
  {
    OutsideKeepsTables(mem, use, at, hole, mem', use', p);
    OutsideKeepsLeaves(mem, use, at, mem', use', p);
  }

  lemma OutsideKeepsTables(mem: Memory, use: map<nat, Use>, at: Places, hole: set<Node>, mem': Memory,
                           use': map<nat, Use>, p: nat)
    requires Outside(use, use', mem, mem', p) && TablePages(mem, use, at) == true && Tree(mem, at, hole) == true
    ensures TablePages(mem', use', at) == true && Tree(mem', at, hole) == true && SameLeaves(mem, at, mem', at) == true
  {
    OutsideTables(mem, use, at, mem', use', p);
    hide Outside, TablePages;
  }

  lemma OutsideTables(mem: Memory, use: map<nat, Use>, at: Places, mem': Memory, use': map<nat, Use>, p: nat)
    requires Outside(use, use', mem, mem', p) && TablePages(mem, use, at) == true
    ensures TablePages(mem', use', at) == true
    ensures forall n, e :: n in at ==> PteAt(mem', at[n], e) == PteAt(mem, at[n], e)
    ensures SameLeaves(mem, at, mem', at) == true
  {
    assert forall n :: n in at ==> at[n] != p;
  }

  lemma OutsideKeepsLeaves(mem: Memory, use: map<nat, Use>, at: Places, mem': Memory, use': map<nat, Use>, p: nat)
    requires Outside(use, use', mem, mem', p) && SameLeaves(mem, at, mem', at) == true
    requires Leaves(mem, use, at) == true && Users(mem, use, at) == true
    ensures Leaves(mem', use', at) == true && Users(mem', use', at) == true
  {
  }

  // -------------------------------------------------------------- table pages

  /** A zeroed page becomes the table below entry `e` of table `n`. */
  lemma LinkTable(mem: Memory, head: nat, free: seq<nat>, use: map<nat, Use>, at: Places, n: Node, e: nat, p: nat)
    requires Inv(mem, head, free, use, at, {}) == true && n in at && n.level > 0 && e < NPTE && Child(n, e) !in at
            && at[n] in mem
    requires p in use && use[p] == Other && p in mem && mem[p] == EMPTY_TABLE
    ensures var mem', use', at' := mem[at[n] := PutPte(mem[at[n]], e, Pte(p, TO_TABLE))],
        use[p := TablePage(Child(n, e))], at[Child(n, e) := p];
            Inv(mem', head, free, use', at', {}) == true && SameLeaves(mem, at, mem', at') == true
  {
    hide FreeList, TablePages, Tree, Leaves, Users, SameLeaves, Child;
    var c := Child(n, e);
    LinkPlace(n, e);
    TablePageOf(mem, use, at, n);
    PutPteKeepsFree(mem, head, free, use, at, n, e, Pte(p, TO_TABLE));
    OtherUseKeepsFree(mem[at[n] := PutPte(mem[at[n]], e, Pte(p, TO_TABLE))], head, free, use, p, TablePage(c));
    LinkPages(mem, use, at, n, e, p, c);
    LinkTree(mem, use, at, n, e, p, c);
    LinkLeaves(mem, use, at, n, e, p, c);
  }

  lemma LinkPlace(n: Node, e: nat)
    requires n.level > 0 && e < NPTE
    ensures var c := Child(n, e); c.level == n.level - 1 && Up(c.prefix) == n.prefix && Slot(c.prefix) == e
  {
    PartsOfJoin(n.prefix, e);
  }

  lemma LinkPages(mem: Memory, use: map<nat, Use>, at: Places, n: Node, e: nat, p: nat, c: Node)
    requires TablePages(mem, use, at) == true && n in at && c !in at && at[n] != p && e < NPTE
    requires p in use && use[p] == Other && p in mem && mem[p] == EMPTY_TABLE
    ensures TablePages(mem[at[n] := PutPte(mem[at[n]], e, Pte(p, TO_TABLE))], use[p := TablePage(c)],
                       at[c := p]) == true
  {
  }

  lemma LinkTree(mem: Memory, use: map<nat, Use>, at: Places, n: Node, e: nat, p: nat, c: Node)
    requires TablePages(mem, use, at) == true && Tree(mem, at, {}) == true && n in at && n.level > 0 && e < NPTE
            && c == Child(n, e)
            && c !in at
    requires p in use && use[p] == Other && p in mem && mem[p] == EMPTY_TABLE
    requires Up(c.prefix) == n.prefix && Slot(c.prefix) == e
    ensures Tree(mem[at[n] := PutPte(mem[at[n]], e, Pte(p, TO_TABLE))], at[c := p], {}) == true
  {
    var mem', at' := mem[at[n] := PutPte(mem[at[n]], e, Pte(p, TO_TABLE))], at[c := p];
    forall m, f | m in at' && m.level > 0 && 0 <= f < NPTE
      ensures PteAt(mem', at'[m], f) == if Child(m, f) in at' then Pte(at'[Child(m, f)], TO_TABLE) else NULL_PTE
    {
      PartsOfJoin(m.prefix, f);
      if m == c {
        ChildOfNew(at, c, f);
      } else if at[m] == at[n] {
        assert m == n;
      }
    }
  }

  /** A place that was not in the tree has nothing below it. */
  lemma ChildOfNew(at: Places, c: Node, f: nat)
    requires c !in at && c.level > 0 && f < NPTE && forall n :: n in at && n.level < 2 ==> Parent(n) in at
    requires c.level < 2
    ensures Child(c, f) !in at
  {
    PartsOfJoin(c.prefix, f);
    assert Parent(Child(c, f)) == c;
  }

  lemma LinkLeaves(mem: Memory, use: map<nat, Use>, at: Places, n: Node, e: nat, p: nat, c: Node)
    requires TablePages(mem, use, at) == true && n in at && n.level > 0 && c.level == n.level - 1 && c !in at
            && e < NPTE
    requires p in use && use[p] == Other && p in mem && mem[p] == EMPTY_TABLE && at[n] != p
    requires Leaves(mem, use, at) == true && Users(mem, use, at) == true
    ensures var mem', use', at' := mem[at[n] := PutPte(mem[at[n]], e, Pte(p, TO_TABLE))], use[p := TablePage(c)],
        at[c := p];
            Leaves(mem', use', at') && Users(mem', use', at') && SameLeaves(mem, at, mem', at')
  {
    var mem', use', at' := mem[at[n] := PutPte(mem[at[n]], e, Pte(p, TO_TABLE))], use[p := TablePage(c)], at[c := p];
    forall root, vpn ensures Leaf(mem', at', root, vpn) == Leaf(mem, at, root, vpn) {
      var low := Node(root, 0, Up(vpn));
      if low in at { assert use[at[low]] == TablePage(low) && at[low] != at[n]; }
    }
  }

  /** A zeroed page becomes the root of an empty tree. */
  lemma NewRoot(mem: Memory, head: nat, free: seq<nat>, use: map<nat, Use>, at: Places, p: nat)
    requires Inv(mem, head, free, use, at, {}) == true && p in use && use[p] == Other && p in mem
            && mem[p] == EMPTY_TABLE
    ensures var use', at' := use[p := TablePage(Node(p, 2, 0))], at[Node(p, 2, 0) := p];
            Inv(mem, head, free, use', at', {}) == true && SameLeaves(mem, at, mem, at') == true
  {
    hide FreeList, TablePages, Tree, SameLeaves, Leaves, Users;
    var n := Node(p, 2, 0);
    OtherUseKeepsFree(mem, head, free, use, p, TablePage(n));
    NewRootTree(mem, use, at, p, n);
    NewRootPages(mem, use, at, p, n);
    NewRootLeaves(mem, use, at, p, n);
  }

  lemma NewRootLeaves(mem: Memory, use: map<nat, Use>, at: Places, p: nat, n: Node)
    requires p in use && use[p] == Other && n == Node(p, 2, 0) && n !in at && Leaves(mem, use, at) == true
            && Users(mem, use, at) == true
    ensures Leaves(mem, use[p := TablePage(n)], at[n := p]) == true
            && Users(mem, use[p := TablePage(n)], at[n := p]) == true
    ensures SameLeaves(mem, at, mem, at[n := p]) == true
  {
    assert SameLeaves(mem, at, mem, at[n := p]);
  }

  lemma NewRootTree(mem: Memory, use: map<nat, Use>, at: Places, p: nat, n: Node)
    requires TablePages(mem, use, at) == true && Tree(mem, at, {}) == true && p in use && use[p] == Other
    requires p in mem && mem[p] == EMPTY_TABLE && n == Node(p, 2, 0)
    ensures n !in at && Tree(mem, at[n := p], {}) == true
  {
    assert n !in at;
    NoChildren(at, n);
  }

  lemma NewRootPages(mem: Memory, use: map<nat, Use>, at: Places, p: nat, n: Node)
    requires TablePages(mem, use, at) == true && n !in at && p in use && use[p] == Other && p in mem
            && mem[p] == EMPTY_TABLE
    ensures TablePages(mem, use[p := TablePage(n)], at[n := p]) == true
  {
  }

  lemma NoChildren(at: Places, n: Node)
    requires n !in at && 0 < n.level <= 2 && forall m :: m in at && m.level < 2 ==> Parent(m) in at
    ensures forall e :: 0 <= e < NPTE ==> Child(n, e) !in at
  {
    forall e | 0 <= e < NPTE ensures Child(n, e) !in at {
      PartsOfJoin(n.prefix, e);
      assert Parent(Child(n, e)) == n;
    }
  }

  // -------------------------------------------------------------- leaf entries

  /** Page tables share no page, so one entry is one virtual page's. */
  lemma EntrySet(mem: Memory, use: map<nat, Use>, at: Places, root: nat, vpn: nat, pte: Pte, n: Node, mem': Memory)
    requires TablePages(mem, use, at) == true && n == Node(root, 0, Up(vpn)) && n in at
    requires mem' == mem[at[n] := PutPte(mem[at[n]], Slot(vpn), pte)]
    ensures LeafSet(mem, at, mem', at, root, vpn, pte) == true
  {
    forall r, v ensures Leaf(mem', at, r, v) == if r == root && v == vpn then pte else Leaf(mem, at, r, v) {
      var m := Node(r, 0, Up(v));
      if m in at && at[m] == at[n] { assert m == n; }
      JoinParts(v);
      JoinParts(vpn);
    }
  }

  lemma EntryKeepsTables(mem: Memory, head: nat, free: seq<nat>, use: map<nat, Use>, at: Places, hole: set<Node>,
                         n: Node, e: nat, pte: Pte, mem': Memory)
    requires FreeList(mem, head, free, use) == true && TablePages(mem, use, at) == true && Tree(mem, at, hole) == true
    requires n in at && n.level == 0 && e < NPTE && mem' == mem[at[n] := PutPte(mem[at[n]], e, pte)]
    ensures FreeList(mem', head, free, use) == true && TablePages(mem', use, at) == true && Tree(mem', at, hole) == true
  {
    hide FreeList;
    PutPteKeepsFree(mem, head, free, use, at, n, e, pte);
    PutPteKeepsPages(mem, use, at, n, e, pte);
    forall m, f | m in at && m.level > 0 ensures PteAt(mem', at[m], f) == PteAt(mem, at[m], f) {
      assert use[at[m]] == TablePage(m) && use[at[n]] == TablePage(n);
    }
  }

  /** A leaf goes in: `own` pages become that mapping's own. */
  lemma PutLeaf(mem: Memory, head: nat, free: seq<nat>, use: map<nat, Use>, at: Places,
                root: nat, vpn: nat, pte: Pte, own: bool, n: Node, mem': Memory, use': map<nat, Use>)
    requires Inv(mem, head, free, use, at, {}) == true && n == Node(root, 0, Up(vpn)) && n in at
    requires !Leaf(mem, at, root, vpn).f.v && pte.f.v && RWX(pte.f) && (pte.f.u ==> own)
    requires own ==>
            pte.ppn in use && use[pte.ppn] == Other && pte.ppn in mem && mem[pte.ppn].Bytes?
                    && |mem[pte.ppn].bytes| == PGSIZE
    requires at[n] in mem && mem' == mem[at[n] := PutPte(mem[at[n]], Slot(vpn), pte)]
    requires use' == if own then use[pte.ppn := UserPage(root, vpn)] else use
    ensures Inv(mem', head, free, use', at, {}) == true && LeafSet(mem, at, mem', at, root, vpn, pte) == true
  {
    hide FreeList, TablePages, Tree, Leaves, Users, LeafSet, Leaf, Slot, Up;
    SlotInTable(vpn);
    TablePageOf(mem, use, at, n);
    EntryKeepsTables(mem, head, free, use, at, {}, n, Slot(vpn), pte, mem');
    EntrySet(mem, use, at, root, vpn, pte, n, mem');
    if own {
      OtherUseKeepsFree(mem', head, free, use, pte.ppn, UserPage(root, vpn));
      OtherUseKeepsPages(mem', use, at, pte.ppn, UserPage(root, vpn));
    }
    PutLeafUsers(mem, use, at, root, vpn, pte, own, mem', use');
  }

  lemma SlotInTable(v: nat)
    ensures Slot(v) < NPTE
  {
  }

  lemma PutLeafUsers(mem: Memory, use: map<nat, Use>, at: Places, root: nat, vpn: nat, pte: Pte, own: bool,
                     mem': Memory, use': map<nat, Use>)
    requires Leaves(mem, use, at) == true && Users(mem, use, at) == true
            && LeafSet(mem, at, mem', at, root, vpn, pte) == true
    requires !Leaf(mem, at, root, vpn).f.v && pte.f.v && RWX(pte.f) && (pte.f.u ==> own)
    requires own ==>
            pte.ppn in use && use[pte.ppn] == Other && pte.ppn in mem && mem[pte.ppn].Bytes?
                    && |mem[pte.ppn].bytes| == PGSIZE
    requires use' == if own then use[pte.ppn := UserPage(root, vpn)] else use
    requires forall q :: q in mem && mem[q].Bytes? ==> q in mem' && mem'[q] == mem[q]
    ensures Leaves(mem', use', at) == true && Users(mem', use', at) == true
  {
  }

  /** A leaf is removed; a page that was its own belongs to nobody now. */
  lemma DropLeaf(mem: Memory, head: nat, free: seq<nat>, use: map<nat, Use>, at: Places,
                 root: nat, vpn: nat, p: nat, own: bool, n: Node, mem': Memory, use': map<nat, Use>)
    requires Inv(mem, head, free, use, at, {}) == true && n == Node(root, 0, Up(vpn)) && n in at
    requires Leaf(mem, at, root, vpn).f.v && p == Leaf(mem, at, root, vpn).ppn
    requires own <==> p in use && use[p] == UserPage(root, vpn)
    requires at[n] in mem && mem' == mem[at[n] := PutPte(mem[at[n]], Slot(vpn), NULL_PTE)]
    requires use' == if own then use[p := Other] else use
    ensures Inv(mem', head, free, use', at, {}) == true && LeafSet(mem, at, mem', at, root, vpn, NULL_PTE) == true
  {
    hide FreeList, TablePages, Tree, Leaves, Users, LeafSet, Leaf, Slot, Up;
    SlotInTable(vpn);
    TablePageOf(mem, use, at, n);
    EntryKeepsTables(mem, head, free, use, at, {}, n, Slot(vpn), NULL_PTE, mem');
    EntrySet(mem, use, at, root, vpn, NULL_PTE, n, mem');
    if own {
      OtherUseKeepsFree(mem', head, free, use, p, Other);
      OtherUseKeepsPages(mem', use, at, p, Other);
    }
    DropLeafUsers(mem, use, at, root, vpn, p, own, mem', use');
  }

  lemma DropLeafUsers(mem: Memory, use: map<nat, Use>, at: Places, root: nat, vpn: nat, p: nat, own: bool, mem': Memory,
                      use': map<nat, Use>)
    requires Leaves(mem, use, at) == true && Users(mem, use, at) == true
            && LeafSet(mem, at, mem', at, root, vpn, NULL_PTE) == true
    requires p == Leaf(mem, at, root, vpn).ppn && (own <==> p in use && use[p] == UserPage(root, vpn))
    requires use' == if own then use[p := Other] else use
    requires forall q :: q in mem && mem[q].Bytes? ==> q in mem' && mem'[q] == mem[q]
    ensures Leaves(mem', use', at) == true && Users(mem', use', at) == true
  {
  }

  // ------------------------------------------------------ kalloc, kfree, memset

  lemma TakePage(mem: Memory, head: nat, free: seq<nat>, use: map<nat, Use>, at: Places, hole: set<Node>, pg: Page)
    requires Inv(mem, head, free, use, at, hole) == true && free != []
    ensures head in mem && mem[head].Run?
    ensures Inv(mem[head := pg], mem[head].next, free[1..], use[head := Other], at, hole) == true
    ensures SameLeaves(mem, at, mem[head := pg], at) == true
  {
    PopFree(mem, head, free, use, pg);
    hide FreeList, TablePages, Tree, Leaves, Users, SameLeaves;
    OutsideKeeps(mem, use, at, hole, mem[head := pg], use[head := Other], head);
  }

  lemma GivePage(mem: Memory, head: nat, free: seq<nat>, use: map<nat, Use>, at: Places, hole: set<Node>, p: nat)
    requires Inv(mem, head, free, use, at, hole) == true && p in use && use[p] == Other
    ensures Inv(mem[p := Run(head)], p, [p] + free, use[p := Free], at, hole) == true
    ensures SameLeaves(mem, at, mem[p := Run(head)], at) == true
  {
    PushFree(mem, head, free, use, p);
    hide FreeList, TablePages, Tree, Leaves, Users, SameLeaves;
    OutsideKeeps(mem, use, at, hole, mem[p := Run(head)], use[p := Free], p);
  }

  lemma FillPage(mem: Memory, head: nat, free: seq<nat>, use: map<nat, Use>, at: Places, hole: set<Node>, p: nat,
                 pg: Page)
    requires Inv(mem, head, free, use, at, hole) == true && p in use && use[p] == Other
    ensures Inv(mem[p := pg], head, free, use, at, hole) == true && SameLeaves(mem, at, mem[p := pg], at) == true
  {
    FreeListKept(mem, head, free, use, p, pg, Other);
    assert use[p := Other] == use;
    hide FreeList, TablePages, Tree, Leaves, Users, SameLeaves;
    OutsideKeeps(mem, use, at, hole, mem[p := pg], use, p);
  }
}
