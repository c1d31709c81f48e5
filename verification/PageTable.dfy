/** Sv39 page tables in physical memory (kernel/vm.c, kernel/kalloc.c): what a
    page is used for, the tree its table pages form, and the flat map it stands for. */
module PageTable {
  import opened Blocks

  const PGSIZE: nat := 4096
  const NPTE: nat := 512
  const MAXVPN: nat := 0x400_0000          // MAXVA / PGSIZE

  datatype Flags = Flags(v: bool, r: bool, w: bool, x: bool, u: bool)
  datatype Pte = Pte(ppn: nat, f: Flags)

  const NULL_PTE: Pte := Pte(0, Flags(false, false, false, false, false))
  const TO_TABLE: Flags := Flags(true, false, false, false, false)

  function RWX(f: Flags): bool { f.r || f.w || f.x }

  /** A physical page, as its user sees it: a page table, bytes, or a free page
      whose first word links to the next free one. */
  datatype Page = Table(ptes: seq<Pte>) | Bytes(bytes: seq<byte>) | Run(next: nat)
  type Memory = map<nat, Page>

  /** A table page's place: the root it hangs from, its level, and the leading
      part of the virtual page numbers it serves. */
  datatype Node = Node(root: nat, level: nat, prefix: nat)

  datatype Use = Free | TablePage(node: Node) | UserPage(root: nat, vpn: nat) | Other

  function Up(x: nat): nat { x / NPTE }
  function Slot(x: nat): (e: nat)
    ensures e < NPTE
  { x % NPTE }
  function Join(prefix: nat, e: nat): nat { prefix * NPTE + e }

  lemma JoinParts(x: nat)
    ensures Join(Up(x), Slot(x)) == x
  {
  }

  lemma PartsOfJoin(p: nat, e: nat)
    requires e < NPTE
    ensures Up(Join(p, e)) == p && Slot(Join(p, e)) == e
  {
  }

  lemma ThreeLevels(vpn: nat)
    requires vpn < MAXVPN
    ensures Up(Up(Up(vpn))) == 0
  {
  }

  function Child(n: Node, e: nat): Node
    requires n.level > 0
  {
    Node(n.root, n.level - 1, Join(n.prefix, e))
  }

  function Parent(n: Node): Node { Node(n.root, n.level + 1, Up(n.prefix)) }

  function PteAt(mem: Memory, p: nat, e: nat): Pte {
    if p in mem && mem[p].Table? && e < |mem[p].ptes| then mem[p].ptes[e] else NULL_PTE
  }

  // ------------------------------------------------------------------ the hardware's view

  /** What the processor finds by going down from table page `p`. */
  function Descend(mem: Memory, p: nat, vpn: nat, level: nat): Pte
    requires level <= 2
    decreases level
  {
    if level == 0 then PteAt(mem, p, Slot(vpn))
    else
      var pte := PteAt(mem, p, Slot(if level == 1 then Up(vpn) else Up(Up(vpn))));
      if pte.f.v then Descend(mem, pte.ppn, vpn, level - 1) else NULL_PTE
  }

  function Translate(mem: Memory, root: nat, vpn: nat): Pte { Descend(mem, root, vpn, 2) }

  // -------------------------------------------------------------------- the flat view

  type Places = map<Node, nat>

  /** The leaf entry of virtual page `vpn`; invalid where there is no table for it. */
  function Leaf(mem: Memory, at: Places, root: nat, vpn: nat): Pte {
    var n := Node(root, 0, Up(vpn));
    if n in at then PteAt(mem, at[n], Slot(vpn)) else NULL_PTE
  }

  ghost predicate SameLeaves(mem: Memory, at: Places, mem': Memory, at': Places) {
    forall root, vpn :: Leaf(mem', at', root, vpn) == Leaf(mem, at, root, vpn)
  }

  /** Virtual page `vpn` of `root` now has entry `pte`; no other page of any table changed. */
  ghost predicate LeafSet(mem: Memory, at: Places, mem': Memory, at': Places, root: nat, vpn: nat, pte: Pte) {
    forall r, v :: Leaf(mem', at', r, v) == if r == root && v == vpn then pte else Leaf(mem, at, r, v)
  }

  // ------------------------------------------------------------------------ invariants

  function After(free: seq<nat>, i: nat): nat { if i + 1 < |free| then free[i + 1] else 0 }

  /** The free list links the pages `free`, each once. */
  ghost predicate Chain(mem: Memory, head: nat, free: seq<nat>) {
    && head == (if free == [] then 0 else free[0])
    && (forall i :: 0 <= i < |free| ==> free[i] in mem && mem[free[i]] == Run(After(free, i)))
    && (forall i, j :: 0 <= i < j < |free| ==> free[i] != free[j])
  }

  /** The pages on the free list are exactly those in no other use. */
  ghost predicate FreeList(mem: Memory, head: nat, free: seq<nat>, use: map<nat, Use>) {
    && Chain(mem, head, free)
    && (forall p :: p in free <==> p in use && use[p] == Free)
    && use.Keys == mem.Keys && 0 !in mem
  }

  /** Each place in a tree is a page of its own, used for nothing else. */
  ghost predicate TablePages(mem: Memory, use: map<nat, Use>, at: Places) {
    && (forall n :: n in at ==>
          && at[n] in mem && mem[at[n]].Table? && |mem[at[n]].ptes| == NPTE
          && at[n] in use && use[at[n]] == TablePage(n))
    && (forall p :: p in use && use[p].TablePage? ==> use[p].node in at && at[use[p].node] == p)
  }

  /** Tables point down to the tables below them, and every table but a root is
      pointed to; entries leading to places in `hole` are not spoken for. */
  ghost predicate Tree(mem: Memory, at: Places, hole: set<Node>) {
    && (forall n :: n in at ==> n.level <= 2 && (n.level == 2 ==> n.prefix == 0 && at[n] == n.root))
    && (forall n :: n in at && n.level < 2 ==> Parent(n) in at)
    && (forall n, e :: n in at && n.level > 0 && 0 <= e < NPTE && Child(n, e) !in hole ==>
          PteAt(mem, at[n], e) == if Child(n, e) in at then Pte(at[Child(n, e)], TO_TABLE) else NULL_PTE)
  }

  /** A user mapping leads to a page that is that mapping's own. */
  ghost predicate Leaves(mem: Memory, use: map<nat, Use>, at: Places) {
    forall root, vpn ::
      var pte := Leaf(mem, at, root, vpn);
      if pte.f.v then RWX(pte.f) && (pte.f.u ==> pte.ppn in use && use[pte.ppn] == UserPage(root, vpn))
      else pte == NULL_PTE
  }

  ghost predicate Users(mem: Memory, use: map<nat, Use>, at: Places) {
    forall p :: p in use && use[p].UserPage? ==>
      && Leaf(mem, at, use[p].root, use[p].vpn).f.v && Leaf(mem, at, use[p].root, use[p].vpn).ppn == p
      && p in mem && mem[p].Bytes? && |mem[p].bytes| == PGSIZE
  }

  ghost predicate Inv(mem: Memory, head: nat, free: seq<nat>, use: map<nat, Use>, at: Places, hole: set<Node>) {
    && FreeList(mem, head, free, use) && TablePages(mem, use, at) && Tree(mem, at, hole)
    && Leaves(mem, use, at) && Users(mem, use, at)
  }

  /** The processor finds exactly the flat map. */
  lemma TranslateIsLeaf(mem: Memory, head: nat, free: seq<nat>, use: map<nat, Use>, at: Places, root: nat, vpn: nat)
    requires Inv(mem, head, free, use, at, {}) && Node(root, 2, 0) in at && vpn < MAXVPN
    ensures Translate(mem, root, vpn) == Leaf(mem, at, root, vpn)
  {
    var top := Node(root, 2, 0);
    ThreeLevels(vpn);
    JoinParts(Up(Up(vpn)));
    JoinParts(Up(vpn));
    var mid := Child(top, Slot(Up(Up(vpn))));
    assert mid == Node(root, 1, Up(Up(vpn)));
    if mid in at {
      var low := Child(mid, Slot(Up(vpn)));
      assert low == Node(root, 0, Up(vpn));
      assert Descend(mem, root, vpn, 2) == Descend(mem, at[mid], vpn, 1);
      if low in at { assert Descend(mem, at[mid], vpn, 1) == Descend(mem, at[low], vpn, 0); }
    } else {
      assert Node(root, 0, Up(vpn)) !in at by {
        assert Parent(Node(root, 0, Up(vpn))) == mid;
      }
    }
  }

  // --------------------------------------------------------------------- whole states

  datatype Phys = Phys(mem: Memory, head: nat, free: seq<nat>, use: map<nat, Use>, at: Places)

  ghost predicate Good(s: Phys) { Inv(s.mem, s.head, s.free, s.use, s.at, {}) }

  function Maps(s: Phys, root: nat, vpn: nat): Pte { Leaf(s.mem, s.at, root, vpn) }

  /** Pages in use stay as they are (tables may get entries); free pages may have
      become tables, or pages of `root` in lo..hi. */
  ghost predicate Grown(s: Phys, t: Phys, root: nat, lo: nat, hi: nat) {
    && s.use.Keys == t.use.Keys == s.mem.Keys == t.mem.Keys
    && (forall p :: p in s.use && s.use[p] != Free ==>
          t.use[p] == s.use[p] && (!s.use[p].TablePage? ==> t.mem[p] == s.mem[p]))
    && (forall p :: p in s.use && s.use[p] == Free ==>
          || t.use[p] == Free || t.use[p].TablePage?
          || (t.use[p].UserPage? && t.use[p].root == root && lo <= t.use[p].vpn < hi))
    && (forall n :: n in s.at ==> n in t.at && t.at[n] == s.at[n])
  }

  ghost predicate SameMaps(s: Phys, t: Phys) { forall r: nat, v: nat :: Maps(t, r, v) == Maps(s, r, v) }

  lemma SameLeavesSameMaps(s: Phys, t: Phys)
    requires SameLeaves(s.mem, s.at, t.mem, t.at) == true
    ensures SameMaps(s, t) == true
  {
  }

  lemma GrownTwice(s: Phys, t: Phys, u: Phys, root: nat, lo: nat, mid: nat, hi: nat)
    requires Grown(s, t, root, lo, mid) && Grown(t, u, root, mid, hi) && lo <= mid <= hi
    ensures Grown(s, u, root, lo, hi)
  {
  }

  lemma GrownSelf(s: Phys, root: nat, lo: nat)
    requires Good(s) == true
    ensures Grown(s, s, root, lo, lo) && SameMaps(s, s)
  {
  }

  /** Virtual pages lo..lo+k of `root` now lead to physical pages pa..pa+k with
      flags `f`; no other translation changed. */
  ghost predicate RangeMapped(s: Phys, t: Phys, root: nat, lo: nat, k: nat, pa: nat, f: Flags) {
    forall r: nat, v: nat :: Maps(t, r, v) == if r == root && lo <= v < lo + k then Pte(pa + v - lo, f) else Maps(s, r,
            v)
  }

  /** Pages pa..pa+k are now those of lo..lo+k of `root` (if `own`); free pages may
      have become tables; nothing else changed hands. */
  ghost predicate HandedOver(s: Phys, t: Phys, root: nat, lo: nat, k: nat, pa: nat, own: bool) {
    && s.use.Keys == t.use.Keys == s.mem.Keys == t.mem.Keys
    && (forall p :: p in s.use && own && pa <= p < pa + k ==>
            t.use[p] == UserPage(root, lo + p - pa) && t.mem[p] == s.mem[p])
    && (forall p :: p in s.use && !(own && pa <= p < pa + k) && s.use[p] != Free ==>
          t.use[p] == s.use[p] && (!s.use[p].TablePage? ==> t.mem[p] == s.mem[p]))
    && (forall p :: p in s.use && !(own && pa <= p < pa + k) && s.use[p] == Free ==>
            t.use[p] == Free || t.use[p].TablePage?)
    && (forall n :: n in s.at ==> n in t.at && t.at[n] == s.at[n])
  }

  lemma RangeMappedMore(s: Phys, t: Phys, u: Phys, root: nat, lo: nat, k: nat, pa: nat, f: Flags)
    requires RangeMapped(s, t, root, lo, k, pa, f) && RangeMapped(t, u, root, lo + k, 1, pa + k, f)
    ensures RangeMapped(s, u, root, lo, k + 1, pa, f)
  {
  }

  lemma HandedOverMore(s: Phys, t: Phys, u: Phys, root: nat, lo: nat, k: nat, pa: nat, own: bool)
    requires HandedOver(s, t, root, lo, k, pa, own) && HandedOver(t, u, root, lo + k, 1, pa + k, own)
    requires own ==> pa + k in s.use && s.use[pa + k] == Other
    ensures HandedOver(s, u, root, lo, k + 1, pa, own)
  {
    if own { OwnedMore(s, t, u, root, lo, k, pa); }
  }

  /** What HandedOver says of page `p`, where pages are handed over. */
  ghost predicate PageHanded(s: Phys, t: Phys, root: nat, lo: nat, k: nat, pa: nat, p: nat) {
    && p in s.use && p in t.use && p in s.mem && p in t.mem
    && (if pa <= p < pa + k then t.use[p] == UserPage(root, lo + p - pa) && t.mem[p] == s.mem[p]
        else if s.use[p] != Free then t.use[p] == s.use[p] && (!s.use[p].TablePage? ==> t.mem[p] == s.mem[p])
        else t.use[p] == Free || t.use[p].TablePage?)
  }

  lemma HandedOverAt(s: Phys, t: Phys, root: nat, lo: nat, k: nat, pa: nat, p: nat)
    requires HandedOver(s, t, root, lo, k, pa, true) == true && p in s.use
    ensures PageHanded(s, t, root, lo, k, pa, p) == true && p in t.use
  {
  }

  lemma PageHandedMore(s: Phys, t: Phys, u: Phys, root: nat, lo: nat, k: nat, pa: nat, p: nat)
    requires PageHanded(s, t, root, lo, k, pa, p) && PageHanded(t, u, root, lo + k, 1, pa + k, p)
    requires p == pa + k ==> s.use[p] == Other
    ensures PageHanded(s, u, root, lo, k + 1, pa, p) == true
  {
  }

  lemma HandedOverFrom(s: Phys, t: Phys, u: Phys, root: nat, lo: nat, k: nat, pa: nat)
    requires HandedOver(s, t, root, lo, k, pa, true) && HandedOver(t, u, root, lo + k, 1, pa + k, true)
    requires forall p :: p in s.use ==> PageHanded(s, u, root, lo, k + 1, pa, p)
    ensures HandedOver(s, u, root, lo, k + 1, pa, true) == true
  {
    assert s.use.Keys == u.use.Keys == s.mem.Keys == u.mem.Keys;
    assert forall n :: n in s.at ==> n in u.at && u.at[n] == s.at[n];
    assert forall p :: p in s.use ==> p in u.use;
  }

  lemma OwnedMore(s: Phys, t: Phys, u: Phys, root: nat, lo: nat, k: nat, pa: nat)
    requires HandedOver(s, t, root, lo, k, pa, true) && HandedOver(t, u, root, lo + k, 1, pa + k, true)
    requires pa + k in s.use && s.use[pa + k] == Other
    ensures HandedOver(s, u, root, lo, k + 1, pa, true) == true
  {
    hide HandedOver, PageHanded;
    forall p | p in s.use ensures PageHanded(s, u, root, lo, k + 1, pa, p) {
      HandedOverAt(s, t, root, lo, k, pa, p);
      HandedOverAt(t, u, root, lo + k, 1, pa + k, p);
      PageHandedMore(s, t, u, root, lo, k, pa, p);
    }
    HandedOverFrom(s, t, u, root, lo, k, pa);
  }

  lemma NothingHandedOver(s: Phys, t: Phys, root: nat, lo: nat, pa: nat, own: bool, f: Flags)
    requires Grown(s, t, root, 0, 0) && SameMaps(s, t)
    ensures HandedOver(s, t, root, lo, 0, pa, own) && RangeMapped(s, t, root, lo, 0, pa, f)
  {
  }

  lemma HandedOverThenGrown(s: Phys, t: Phys, u: Phys, root: nat, lo: nat, k: nat, pa: nat, own: bool, f: Flags)
    requires HandedOver(s, t, root, lo, k, pa, own) == true && Grown(t, u, root, 0, 0) == true
    requires RangeMapped(s, t, root, lo, k, pa, f) == true && SameMaps(t, u) == true
    ensures HandedOver(s, u, root, lo, k, pa, own) == true && RangeMapped(s, u, root, lo, k, pa, f) == true
  {
  }

  predicate CanMap(s: Phys, root: nat, v: nat) { v < MAXVPN && !Maps(s, root, v).f.v }

  /** None of the virtual pages lo..lo+k of `root` is mapped, and all can be. */
  ghost predicate Vacant(s: Phys, root: nat, lo: nat, k: nat) {
    forall v: nat :: lo <= v < lo + k ==> CanMap(s, root, v)
  }

  predicate IsMapped(s: Phys, root: nat, v: nat) { v < MAXVPN && Maps(s, root, v).f.v }

  ghost predicate AllMapped(s: Phys, root: nat, lo: nat, k: nat) {
    forall v: nat :: lo <= v < lo + k ==> IsMapped(s, root, v)
  }

  lemma AllMappedMore(s: Phys, root: nat, lo: nat, k: nat, v: nat)
    requires AllMapped(s, root, lo, k) == true && v == lo + k && v < MAXVPN && Maps(s, root, v).f.v
    ensures AllMapped(s, root, lo, k + 1) == true
  {
  }

  lemma NoneMapped(s: Phys, root: nat, lo: nat)
    ensures AllMapped(s, root, lo, 0) == true
  {
  }

  /** Pages pa..pa+n have been allocated, hold bytes, and are nobody's yet. */
  ghost predicate Loose(s: Phys, pa: nat, n: nat) {
    forall p :: pa <= p < pa + n ==>
            p in s.use && s.use[p] == Other && p in s.mem && s.mem[p].Bytes? && |s.mem[p].bytes| == PGSIZE
  }

  // ------------------------------------------------------------------------- unmapping

  ghost predicate RangeUnmapped(s: Phys, t: Phys, root: nat, lo: nat, k: nat) {
    forall r: nat, v: nat :: Maps(t, r, v) == if r == root && lo <= v < lo + k then NULL_PTE else Maps(s, r, v)
  }

  ghost predicate IsPageOf(u: Use, root: nat, lo: nat, k: nat) {
    u.UserPage? && u.root == root && lo <= u.vpn < lo + k
  }

  /** The pages of lo..lo+k of `root` are free again (if `give`); no other page changed. */
  ghost predicate TakenBack(s: Phys, t: Phys, root: nat, lo: nat, k: nat, give: bool) {
    && s.use.Keys == t.use.Keys == s.mem.Keys == t.mem.Keys && t.at == s.at
    && (forall p :: p in s.use && give && IsPageOf(s.use[p], root, lo, k) ==> t.use[p] == Free)
    && (forall p :: p in s.use && !(give && IsPageOf(s.use[p], root, lo, k)) ==>
          t.use[p] == s.use[p] && (s.use[p] != Free && !s.use[p].TablePage? ==> t.mem[p] == s.mem[p]))
    && |t.free| == |s.free| + if give then k else 0
  }

  /** What uvmunmap is given: with do_free, pages that are the mappings' own;
      without, pages that are not. */
  ghost predicate Giveable(s: Phys, root: nat, lo: nat, k: nat, give: bool) {
    forall v: nat :: lo <= v < lo + k && Maps(s, root, v).f.v ==>
      (give <==> Maps(s, root, v).ppn in s.use && s.use[Maps(s, root, v).ppn] == UserPage(root, v))
  }

  lemma UnmappedMore(s: Phys, t: Phys, u: Phys, root: nat, lo: nat, k: nat, give: bool)
    requires RangeUnmapped(s, t, root, lo, k) == true && TakenBack(s, t, root, lo, k, give) == true
    requires RangeUnmapped(t, u, root, lo + k, 1) == true && TakenBack(t, u, root, lo + k, 1, give) == true
    ensures RangeUnmapped(s, u, root, lo, k + 1) == true && TakenBack(s, u, root, lo, k + 1, give) == true
  {
    RangeUnmappedMore(s, t, u, root, lo, k);
    hide RangeUnmapped, Maps;
  }

  lemma RangeUnmappedMore(s: Phys, t: Phys, u: Phys, root: nat, lo: nat, k: nat)
    requires RangeUnmapped(s, t, root, lo, k) && RangeUnmapped(t, u, root, lo + k, 1)
    ensures RangeUnmapped(s, u, root, lo, k + 1)
  {
  }

  lemma StillGiveable(s: Phys, t: Phys, root: nat, lo: nat, k: nat, n: nat, give: bool)
    requires Giveable(s, root, lo, n, give) == true && RangeUnmapped(s, t, root, lo, k) == true
            && TakenBack(s, t, root, lo, k, give) == true && k < n
    ensures Giveable(t, root, lo + k, 1, give) == true && Maps(t, root, lo + k) == Maps(s, root, lo + k)
  {
  }

  lemma NothingUnmapped(s: Phys, root: nat, lo: nat, give: bool)
    requires Good(s) == true
    ensures RangeUnmapped(s, s, root, lo, 0) == true && TakenBack(s, s, root, lo, 0, give) == true
  {
  }
}
