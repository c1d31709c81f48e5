/** user/umalloc.c: the Kernighan and Ritchie allocator on its circular free list. */
module Umalloc {
  import opened HeapBlocks

  // --------------------------------------------------------------------- free's search

  /** Steps from node `i` to node `t` of a ring of n + 1 nodes. */
  function Dist(i: nat, t: nat, n: nat): nat
    requires i <= n && t <= n
  {
    if i <= t then t - i else t + n + 1 - i
  }

  function Succ(i: nat, n: nat): nat { if i >= n then 0 else i + 1 }

  lemma Closer(i: nat, t: nat, n: nat)
    requires i <= n && t <= n && i != t
    ensures Dist(Succ(i, n), t, n) < Dist(i, t, n)
  {
  }

  /** free's stopping test holds at the block's place and nowhere else. */
  lemma StopsAtPlace(base: nat, fl: seq<nat>, sz: Sizes, bp: nat, t: nat, i: nat)
    requires Sorted(fl, sz) && Place(fl, bp, t) && i <= |fl| && base < bp
            && (forall k :: 0 <= k < |fl| ==> base < fl[k])
    ensures var p, q := Node(base, fl, i), Next(base, fl, i);
            (bp > p && bp < q) || (p >= q && (bp > p || bp < q)) <==> i == t
  {
  }

  // -------------------------------------------------------- what free does to the blocks

  ghost predicate RingBut(hdr: Headers, base: nat, fl: seq<nat>, sz: Sizes, t: nat) {
    && base in hdr && hdr[base].size == 0
    && (forall i :: 0 <= i <= |fl| && i != t ==>
            Node(base, fl, i) in hdr && hdr[Node(base, fl, i)].ptr == Next(base, fl, i))
    && (forall a :: a in sz ==> a in hdr && hdr[a].size == sz[a])
  }

  /** Half way through free: `bp` has taken in the block above, if adjacent, and
      points to the next free block; node `t` does not point to it yet. */
  ghost predicate Half(hdr: Headers, base: nat, fl: seq<nat>, sz: Sizes, home: Homes, live: set<nat>, brk: nat, bp: nat,
                       t: nat) {
    && Homed(sz, home) && Sorted(fl, sz) && RingBut(hdr, base, fl, sz, t) && Divided(base, fl, sz, home, live, brk)
    && Place(fl, bp, t) && bp in live && bp in sz && bp in hdr && hdr[bp].ptr == Next(base, fl, t)
    && (t < |fl| ==> bp + sz[bp] < fl[t])
  }

  function Without(fl: seq<nat>, t: nat): seq<nat>
    requires t < |fl|
  {
    fl[..t] + fl[t + 1..]
  }

  function With(fl: seq<nat>, t: nat, a: nat): seq<nat>
    requires t <= |fl|
  {
    fl[..t] + [a] + fl[t..]
  }

  lemma InWithout(fl: seq<nat>, t: nat, a: nat)
    requires t < |fl| && forall i, j :: 0 <= i < j < |fl| ==> fl[i] != fl[j]
    ensures a in Without(fl, t) <==> a in fl && a != fl[t]
  {
    var g := Without(fl, t);
    if a in fl && a != fl[t] {
      var i :| 0 <= i < |fl| && fl[i] == a;
      assert g[if i < t then i else i - 1] == a;
    }
    if a in g {
      var i :| 0 <= i < |g| && g[i] == a;
      assert g[i] == fl[if i < t then i else i + 1];
    }
  }

  /** bp does not touch the block above. */
  lemma NotUp(hdr: Headers, base: nat, fl: seq<nat>, sz: Sizes, home: Homes, live: set<nat>, brk: nat, bp: nat, t: nat)
    requires Inv(hdr, base, fl, sz, home, live, brk) == true && bp in live && bp in sz && Place(fl, bp, t) == true
            && t <= |fl| && bp + sz[bp] != Next(base, fl, t)
    ensures Half(hdr[bp := Header(Next(base, fl, t), sz[bp])], base, fl, sz, home, live, brk, bp, t) == true
  {
    if t < |fl| { Apart(sz, home, bp, fl[t]); }
    var hdr' := hdr[bp := Header(Next(base, fl, t), sz[bp])];
    assert base != bp by { assert Holds(sz, bp, bp); }
    forall i | 0 <= i <= |fl| ensures Node(base, fl, i) != bp { }
  }

  /** bp takes in free block fl[t], which begins where it ends. */
  lemma Up(hdr: Headers, base: nat, fl: seq<nat>, sz: Sizes, home: Homes, live: set<nat>, brk: nat, bp: nat, t: nat,
           x: nat)
    requires Inv(hdr, base, fl, sz, home, live, brk) == true && bp in live && bp in sz && x in sz && x in hdr
    requires Place(fl, bp, t) == true && t < |fl| && x == fl[t] && bp + sz[bp] == x
    ensures var fl', sz', home' := Without(fl, t), (sz - {x})[bp := sz[bp] + sz[x]], Rehomed(home, x, bp);
            Half(hdr[bp := Header(hdr[x].ptr, sz[bp] + sz[x])], base, fl', sz', home', live, brk, bp, t) == true
  {
    Absorb(sz, home, bp, x);
    var fl', sz', home' := Without(fl, t), (sz - {x})[bp := sz[bp] + sz[x]], Rehomed(home, x, bp);
    var hdr' := hdr[bp := Header(hdr[x].ptr, sz[bp] + sz[x])];
    UpSorted(fl, sz, bp, t, x);
    UpRing(hdr, base, fl, sz, home, live, brk, bp, t, x);
    forall a ensures a in fl' <==> a in fl && a != x { InWithout(fl, t, a); }
    hide Homed, Sorted, Ring, RingBut;
  }

  lemma UpSorted(fl: seq<nat>, sz: Sizes, bp: nat, t: nat, x: nat)
    requires Sorted(fl, sz) && Place(fl, bp, t) && bp !in fl && bp in sz && t < |fl| && x == fl[t] && bp + sz[bp] == x
    ensures var fl', sz' := Without(fl, t), (sz - {x})[bp := sz[bp] + sz[x]];
            Sorted(fl', sz') && Place(fl', bp, t) && (t < |fl'| ==> bp + sz'[bp] < fl'[t])
  {
    var fl' := Without(fl, t);
    forall i | 0 <= i < |fl'| ensures fl'[i] == fl[if i < t then i else i + 1] { }
  }

  lemma UpRing(hdr: Headers, base: nat, fl: seq<nat>, sz: Sizes, home: Homes, live: set<nat>, brk: nat, bp: nat, t: nat,
               x: nat)
    requires Inv(hdr, base, fl, sz, home, live, brk) && bp in live && Place(fl, bp, t) && t < |fl| && x == fl[t]
            && bp + sz[bp] == x
    ensures var fl', sz' := Without(fl, t), (sz - {x})[bp := sz[bp] + sz[x]];
            var hdr' := hdr[bp := Header(hdr[x].ptr, sz[bp] + sz[x])];
            RingBut(hdr', base, fl', sz', t) && hdr'[bp].ptr == Next(base, fl', t)
  {
    var fl' := Without(fl, t);
    assert base != bp by { assert Holds(sz, bp, bp); }
    assert hdr[Node(base, fl, t + 1)].ptr == Next(base, fl, t + 1);
    forall i | 0 <= i <= |fl'| && i != t
      ensures Node(base, fl', i) == Node(base, fl, if i < t then i else i + 1) != bp
              && Next(base, fl', i) == Next(base, fl, if i < t then i else i + 1)
    {
    }
  }

  /** The block below does not touch bp: bp goes in after it. */
  lemma NotDown(hdr: Headers, base: nat, fl: seq<nat>, sz: Sizes, home: Homes, live: set<nat>, brk: nat, bp: nat,
                t: nat, p: nat)
    requires Half(hdr, base, fl, sz, home, live, brk, bp, t) == true && t <= |fl| && p == Node(base, fl, t) && p in hdr
            && p + hdr[p].size != bp
    ensures Inv(hdr[p := Header(bp, hdr[p].size)], base, With(fl, t, bp), sz, home, live - {bp}, brk) == true
  {
    Above(sz, home, base, fl, live, brk, bp);
    Spaced(fl, sz);
    if t > 0 { Apart(sz, home, fl[t - 1], bp); }
    hide Homed, Divided;
    WithSorted(fl, sz, home, bp, t);
    hide Sorted;
    WithRing(hdr, base, fl, sz, bp, t, p);
    WithDivided(base, fl, sz, home, live, brk, bp, t);
    hide Ring, RingBut;
  }

  lemma Spaced(fl: seq<nat>, sz: Sizes)
    requires Sorted(fl, sz)
    ensures forall i, j :: 0 <= i < j < |fl| ==> fl[i] < fl[j]
  {
    assert forall i, j :: 0 <= i < j < |fl| ==> fl[i] + sz[fl[i]] < fl[j];
  }

  lemma WithDivided(base: nat, fl: seq<nat>, sz: Sizes, home: Homes, live: set<nat>, brk: nat, bp: nat, t: nat)
    requires Divided(base, fl, sz, home, live, brk) && bp in live && t <= |fl|
    ensures Divided(base, With(fl, t, bp), sz, home, live - {bp}, brk)
  {
    forall a ensures a in With(fl, t, bp) <==> a in fl || a == bp { }
    hide With;
  }

  lemma WithRing(hdr: Headers, base: nat, fl: seq<nat>, sz: Sizes, bp: nat, t: nat, p: nat)
    requires RingBut(hdr, base, fl, sz, t) && Place(fl, bp, t) && bp in hdr && hdr[bp].ptr == Next(base, fl, t)
            && base < bp
    requires p == Node(base, fl, t) && p in hdr
    requires forall i :: 0 <= i < |fl| ==> base < fl[i]
    requires forall i, j :: 0 <= i < j < |fl| ==> fl[i] < fl[j]
    ensures Ring(hdr[p := Header(bp, hdr[p].size)], base, With(fl, t, bp), sz)
  {
    var fl', hdr' := With(fl, t, bp), hdr[p := Header(bp, hdr[p].size)];
    forall i | 0 <= i <= |fl'| ensures Node(base, fl', i) in hdr'
            && hdr'[Node(base, fl', i)].ptr == Next(base, fl', i) {
      WithNodes(base, fl, t, bp, i);
      var k := if i <= t then i else i - 1;
      if i != t && i != t + 1 {
        assert Node(base, fl, k) != p && hdr[Node(base, fl, k)].ptr == Next(base, fl, k);
      }
    }
  }

  lemma WithNodes(base: nat, fl: seq<nat>, t: nat, bp: nat, i: nat)
    requires t <= |fl| && i <= |fl| + 1
    ensures Node(base, With(fl, t, bp),
                 i) == (if i <= t then Node(base, fl, i) else if i == t + 1 then bp else Node(base, fl, i - 1))
    ensures Next(base, With(fl, t, bp),
                 i) == (if i < t then Next(base, fl, i) else if i == t then bp else Next(base, fl, i - 1))
  {
  }

  lemma WithSorted(fl: seq<nat>, sz: Sizes, home: Homes, bp: nat, t: nat)
    requires Homed(sz, home) && Sorted(fl, sz) && Place(fl, bp, t) && bp in sz
    requires t < |fl| ==> bp + sz[bp] < fl[t]
    requires t > 0 ==> fl[t - 1] + sz[fl[t - 1]] < bp
    ensures Sorted(With(fl, t, bp), sz)
  {
    var fl' := With(fl, t, bp);
    forall i, j | 0 <= i < j < |fl'| ensures fl'[i] + sz[fl'[i]] < fl'[j] {
      if i < t - 1 && j == t { assert fl[i] + sz[fl[i]] < fl[t - 1]; }
    }
  }

  /** The block below takes bp in. */
  lemma Down(hdr: Headers, base: nat, fl: seq<nat>, sz: Sizes, home: Homes, live: set<nat>, brk: nat, bp: nat, t: nat,
             p: nat)
    requires Half(hdr, base, fl, sz, home, live, brk, bp, t) == true && t <= |fl| && p == Node(base, fl, t) && p in hdr
            && p + hdr[p].size == bp
    requires bp in hdr && bp in sz
    ensures p in sz && t > 0 && p == fl[t - 1]
    ensures Inv(hdr[p := Header(hdr[bp].ptr, hdr[p].size + hdr[bp].size)], base, fl,
                (sz - {bp})[p := sz[p] + sz[bp]], Rehomed(home, bp, p), live - {bp}, brk) == true
  {
    assert base < bp by { assert Holds(sz, bp, bp); }
    assert t > 0 && p == fl[t - 1];
    Absorb(sz, home, p, bp);
    var sz' := (sz - {bp})[p := sz[p] + sz[bp]];
    DownSorted(fl, sz, bp, t, p);
    forall i | 0 <= i <= |fl| && i != t ensures Node(base, fl, i) != p { }
    hide Homed, Sorted;
  }

  lemma DownSorted(fl: seq<nat>, sz: Sizes, bp: nat, t: nat, p: nat)
    requires Sorted(fl, sz) && Place(fl, bp, t) && bp in sz && bp !in fl && 0 < t && p == fl[t - 1] && p + sz[p] == bp
    requires t < |fl| ==> bp + sz[bp] < fl[t]
    ensures Sorted(fl, (sz - {bp})[p := sz[p] + sz[bp]])
  {
    var sz' := (sz - {bp})[p := sz[p] + sz[bp]];
    forall i, j | 0 <= i < j < |fl| ensures fl[i] + sz'[fl[i]] < fl[j] {
      if i == t - 1 && t < j { assert fl[t] + sz[fl[t]] < fl[j]; }
    }
  }

  // --------------------------------------------------------------- the units accounted for

  lemma UpUnits(fl: seq<nat>, sz: Sizes, home: Homes, bp: nat, t: nat, x: nat)
    requires t < |fl| && x == fl[t] && bp !in fl && bp != x && forall i, j :: 0 <= i < j < |fl| ==> fl[i] != fl[j]
    ensures FreeUnits(Without(fl, t), Rehomed(home, x, bp)) + UnitsOf(Rehomed(home, x, bp), bp) == FreeUnits(fl,
            home) + UnitsOf(home, bp)
  {
    forall a ensures a in Without(fl, t) <==> a in fl && a != x { InWithout(fl, t, a); }
    hide Without;
  }

  lemma WithUnits(fl: seq<nat>, home: Homes, bp: nat, t: nat)
    requires t <= |fl|
    ensures FreeUnits(With(fl, t, bp), home) == FreeUnits(fl, home) + UnitsOf(home, bp)
  {
    forall a ensures a in With(fl, t, bp) <==> a in fl || a == bp { }
    hide With;
  }

  lemma DownUnits(fl: seq<nat>, home: Homes, bp: nat, p: nat)
    requires p in fl && bp !in fl
    ensures FreeUnits(fl, Rehomed(home, bp, p)) == FreeUnits(fl, home) + UnitsOf(home, bp)
  {
  }

  class Heap {
    const base: nat              // address of the static header
    var hdr: Headers
    var freep: nat               // 0 before the first malloc
    var brk: nat                 // end of memory obtained from sbrk
    ghost var fl: seq<nat>
    ghost var sz: Sizes
    ghost var home: Homes
    ghost var live: set<nat>     // blocks handed out

    /** A process as exec leaves it: freep is null, nothing obtained from sbrk. */
    constructor (base: nat, brk: nat)
      requires 0 < base < brk
      ensures Valid() && this.base == base && this.brk == brk && live == {} && home == map[]
    {
      this.base, this.brk, hdr, freep := base, brk, map[], 0;
      fl, sz, home, live := [], map[], map[], {};
    }

    ghost predicate Ready()
      reads this
    {
      Inv(hdr, base, fl, sz, home, live, brk) && (freep == base || freep in fl)
    }

    /** free, given the block's header address. */
    method Free(bp: nat)
      requires Ready() && bp in live
      modifies this
      ensures Ready() == true && live == old(live) - {bp} && brk == old(brk) && home.Keys == old(home).Keys
      ensures FreeUnits(fl, home) == old(FreeUnits(fl, home)) + old(UnitsOf(home, bp))
      ensures forall a :: a in live ==> a in sz && sz[a] == old(sz)[a]
      ensures bp in home && home[bp] in fl && home[bp] in sz && sz[home[bp]] >= old(sz)[bp]
    {
      Above(sz, home, base, fl, live, brk, bp);
      ghost var t := FindPlace(fl, sz, bp);
      var p := FindSpot(bp, t);
      hide Inv, Half, FreeUnits, UnitsOf, Place, Node;
      MergeUp(bp, p, t);
      MergeDown(bp, p, t);
      freep := p;
    }

    /** free's search loop: round the ring until the block's place is found. */
    method FindSpot(bp: nat, ghost t: nat) returns (p: nat)
      requires Sorted(fl, sz) && Ring(hdr, base, fl, sz) && Place(fl, bp, t) && (freep == base || freep in fl)
      requires base < bp && forall k :: 0 <= k < |fl| ==> base < fl[k]
      ensures t <= |fl| && p == Node(base, fl, t)
    {
      ghost var i: nat := IndexOf(base, fl, freep);
      p := freep;
      while !(bp > p && bp < hdr[p].ptr)
        invariant i <= |fl| && p == Node(base, fl, i) && p in hdr && hdr[p].ptr == Next(base, fl, i)
        decreases Dist(i, t, |fl|)
      {
        StopsAtPlace(base, fl, sz, bp, t, i);
        if p >= hdr[p].ptr && (bp > p || bp < hdr[p].ptr) {
          break;
        }
        Closer(i, t, |fl|);
        i := Succ(i, |fl|);
        p := hdr[p].ptr;
        assert p == Node(base, fl, i);
      }
      StopsAtPlace(base, fl, sz, bp, t, i);
    }

    /** The first `if` of free: the block above, if adjacent, joins bp. */
    method MergeUp(bp: nat, p: nat, ghost t: nat)
      requires Inv(hdr, base, fl, sz, home, live, brk) == true && bp in live && Place(fl, bp, t) == true && t <= |fl|
              && p == Node(base, fl, t)
      modifies this`hdr, this`fl, this`sz, this`home
      ensures Half(hdr, base, fl, sz, home, live, brk, bp, t) == true && t <= |fl| && p == Node(base, fl, t) && p in hdr
      ensures home.Keys == old(home).Keys
              && FreeUnits(fl, home) + UnitsOf(home, bp) == old(FreeUnits(fl, home) + UnitsOf(home, bp))
      ensures bp in sz && sz[bp] >= old(sz)[bp] && forall a :: a in live && a != bp ==> a in sz && sz[a] == old(sz)[a]
    {
      hide Inv, Half, Place, Without, Rehomed, FreeUnits, UnitsOf, Node, Next;
      PlaceFacts(hdr, base, fl, sz, home, live, brk, bp, t);
      var q := hdr[p].ptr;
      if bp + hdr[bp].size == q {
        Up(hdr, base, fl, sz, home, live, brk, bp, t, q);
        UpUnits(fl, sz, home, bp, t, q);
        UpNode(base, fl, t, home, q, bp);
        hdr := hdr[bp := Header(hdr[q].ptr, hdr[bp].size + hdr[q].size)];
        fl, sz, home := Without(fl, t), (sz - {q})[bp := sz[bp] + sz[q]], Rehomed(home, q, bp);
      } else {
        NotUp(hdr, base, fl, sz, home, live, brk, bp, t);
        hdr := hdr[bp := Header(q, hdr[bp].size)];
      }
    }

    /** The second `if` of free: bp joins the block below, if adjacent, or follows it. */
    method MergeDown(bp: nat, p: nat, ghost t: nat)
      requires Half(hdr, base, fl, sz, home, live, brk, bp, t) == true && t <= |fl| && p == Node(base, fl, t)
              && p in hdr
      modifies this`hdr, this`fl, this`sz, this`home, this`live
      ensures Inv(hdr, base, fl, sz, home, live, brk) == true && (p == base || p in fl) && live == old(live) - {bp}
      ensures home.Keys == old(home).Keys && FreeUnits(fl, home) == old(FreeUnits(fl, home) + UnitsOf(home, bp))
      ensures forall a :: a in live ==> a in sz && a in old(sz) && sz[a] == old(sz)[a]
      ensures bp in old(sz) && bp in home && home[bp] in fl && home[bp] in sz && sz[home[bp]] >= old(sz)[bp]
    {
      hide Inv, Half, Rehomed, FreeUnits, UnitsOf, With, Node;
      HalfFacts(hdr, base, fl, sz, home, live, brk, bp, t);
      if p + hdr[p].size == bp {
        Down(hdr, base, fl, sz, home, live, brk, bp, t, p);
        DownUnits(fl, home, bp, p);
        RehomedAt(home, bp, p);
        hdr := hdr[p := Header(hdr[bp].ptr, hdr[p].size + hdr[bp].size)];
        sz, home := (sz - {bp})[p := sz[p] + sz[bp]], Rehomed(home, bp, p);
      } else {
        NotDown(hdr, base, fl, sz, home, live, brk, bp, t, p);
        WithUnits(fl, home, bp, t);
        WithNode(base, fl, t, bp, p);
        hdr := hdr[p := Header(bp, hdr[p].size)];
        fl := With(fl, t, bp);
      }
      live := live - {bp};
    }

    /** morecore: asks sbrk for at least 4096 units and frees them. `grant` is what
        sbrk answers: the first unit of the new memory, or -1. If it was asked for
        something else, `lost`: the header morecore is about to store, of a block as
        large as it meant, is not in memory it was given, and the story ends here. */
    method Morecore(nunits: nat, grant: int) returns (p: nat, lost: bool)
      requires Ready() == true && 0 < nunits && (grant == -1 || (grant >= brk && grant > base))
      modifies this
      ensures lost <==> grant != -1 && !Meant(nunits)
      ensures p == 0 <==> grant == -1 || lost
      ensures Ready() == true
      ensures p == 0 ==>
              hdr == old(hdr) && freep == old(freep) && brk == old(brk) && fl == old(fl) && sz == old(sz)
                      && home == old(home) && live == old(live)
      ensures p != 0 ==>
                && p == freep && live == old(live) && HasBlock(fl, sz, nunits) == true
                && Obtained(old(fl), old(home), fl, home, Region(grant, Request(nunits)).Keys) == true
                && SameLive(live, old(sz), sz) == true
    {
      hide Inv, FreeUnits, UnitsOf;
      var nu := Request(nunits);
      lost := grant != -1 && ToInt(nu * 16) != nu * 16;
      if grant == -1 || lost {
        return 0, lost;
      }
      var r: nat := grant;
      ReadyFacts(0);
      ghost var h := if r in hdr then hdr[r].ptr else 0;
      Grown(hdr, base, fl, sz, home, live, brk, r, nu, h);
      hdr := hdr[r := Header(if r in hdr then hdr[r].ptr else 0, nu)];
      sz, home, live, brk := sz[r := nu], home + Region(r, nu), live + {r}, r + nu;
      Free(r);
      FreepPositive();
      assert SizeAt(fl, sz, FreeIndex(fl, home[r])) == sz[home[r]];
      BlockFound(fl, sz, FreeIndex(fl, home[r]), nunits);
      return freep, false;
    }

    /** malloc: a block of enough units, from the first free block that has them;
        0 when there is none and sbrk refuses. morecore is called at most once, and
        all is lost exactly if it is, sbrk agrees, and the request is above MAX_BYTES. */
    method Malloc(nbytes: nat, grant: int) returns (r: nat, lost: bool, ghost calls: nat)
      requires Valid() && nbytes < 0x1_0000_0000 && (grant == -1 || (grant >= brk && grant > base))
      modifies this
      ensures Ready() == true && freep != 0 && calls <= 1
      ensures Answered(old(fl), old(sz), old(home), old(live), fl, sz, home, live, r, Units(nbytes),
                       if calls == 1 && grant != -1 && !lost then Region(grant, Request(Units(nbytes))).Keys
                       else {}) == true
      ensures r == 0 <==> HasBlock(old(fl), old(sz), Units(nbytes)) == false && (grant == -1 || nbytes > MAX_BYTES)
      ensures lost <==> HasBlock(old(fl), old(sz), Units(nbytes)) == false && grant != -1 && nbytes > MAX_BYTES
    {
      SbrkGetsWhatIsMeant(nbytes);
      hide ToInt;
      calls := 0;
      if freep == 0 {
        freep := base;
        hdr := hdr[base := Header(base, 0)];
        EmptyHeap(hdr, base, brk);
      }
      r, lost, calls := Search(Units(nbytes), grant);
    }

    /** malloc's loop. */
    method Search(nunits: nat, grant: int) returns (r: nat, lost: bool, ghost calls: nat)
      requires Ready() == true && 0 < nunits && (grant == -1 || (grant >= brk && grant > base))
      modifies this
      ensures Ready() == true && freep != 0 && calls <= 1
      ensures Answered(old(fl), old(sz), old(home), old(live), fl, sz, home, live, r, nunits,
                       if calls == 1 && grant != -1 && !lost then Region(grant, Request(nunits)).Keys else {}) == true
      ensures r == 0 <==> HasBlock(old(fl), old(sz), nunits) == false && (grant == -1 || !Meant(nunits))
      ensures lost <==> HasBlock(old(fl), old(sz), nunits) == false && grant != -1 && !Meant(nunits)
    {
      calls, lost := 0, false;
      ghost var f: nat, j: nat := StartLooking(nunits);
      var prevp, p := freep, hdr[freep].ptr;
      NotYet(fl, sz, home, live, brk, nunits, grant);
      hide *;
      while true
        invariant Looking(prevp, p, f, j, nunits) == true && calls <= 1 && f <= |fl| && j <= |fl| && !lost
        invariant calls == 1 ==> Meant(nunits)
        invariant Story(old(fl), old(sz), old(home), old(live), old(brk), fl, sz, home, live, brk, nunits, grant,
                        calls) == true
        decreases 1 - calls, |fl| - Dist(Succ(f, |fl|), j, |fl|)
      {
        LookingAt(prevp, p, f, j, nunits);
        if hdr[p].size >= nunits {
          ghost var fl1, sz1, home1, live1, brk1 := fl, sz, home, live, brk;
          r := Carve(prevp, p, nunits, j);
          StoryEnds(old(fl), old(sz), old(home), old(live), old(brk), fl1, sz1, home1, live1, brk1, j, fl, sz, home,
                    live, r, nunits, grant, calls);
          return;
        }
        if p == freep {
          SearchedInVain(prevp, p, f, j, nunits);
          ghost var fl1, sz1, home1, live1 := fl, sz, home, live;
          StoryFirst(old(fl), old(sz), old(home), old(live), old(brk), fl, sz, home, live, brk, nunits, grant, calls);
          calls := calls + 1;
          p, lost := Morecore(nunits, grant);
          if p == 0 {
            Refused(fl, sz, home, live, nunits);
            return 0, lost, calls;
          }
          StorySecond(fl1, sz1, home1, live1, old(brk), fl, sz, home, live, brk, nunits, grant);
          f, j := StartLooking(nunits);
          prevp, p := p, hdr[p].ptr;
        } else {
          LookOn(prevp, p, f, j, nunits);
          prevp, p, j := p, hdr[p].ptr, Succ(j, |fl|);
        }
      }
    }

    /** The search stands at node `j`; `f` is freep's; what lies between is too small. */
    ghost predicate Looking(prevp: nat, p: nat, f: nat, j: nat, n: nat)
      reads this
    {
      && Ready() && freep != 0 && f <= |fl| && j <= |fl| && freep == Node(base, fl, f) && p == Node(base, fl, j)
      && IsBefore(base, fl, prevp, j) && SmallBefore(fl, sz, f, j, n)
    }

    ghost method StartLooking(n: nat) returns (f: nat, j: nat)
      requires Ready() == true
      ensures f <= |fl| && j == Succ(f, |fl|) && freep in hdr && Looking(freep, hdr[freep].ptr, f, j, n) == true
    {
      f := FreepIndex();
      j := Succ(f, |fl|);
      StartSearch(fl, sz, f, n);
      FreepPositive();
      ReadyFacts(f);
      NextNode(base, fl, f);
    }

    lemma LookingAt(prevp: nat, p: nat, f: nat, j: nat, n: nat)
      requires Looking(prevp, p, f, j, n) == true && n > 0
      ensures p in hdr && hdr[p].size == SizeAt(fl, sz, j) && Ready() == true && freep != 0
      ensures j <= |fl| && p == Node(base, fl, j) && IsBefore(base, fl, prevp, j) && (SizeAt(fl, sz, j) >= n ==> 0 < j)
    {
      ReadyFacts(j);
    }

    lemma SearchedInVain(prevp: nat, p: nat, f: nat, j: nat, n: nat)
      requires Looking(prevp, p, f, j, n) == true && p == freep && SizeAt(fl, sz, j) < n
      ensures HasBlock(fl, sz, n) == false && LiveSized(live, sz)
    {
      SameNodeHere(j, f);
      SearchedAll(base, fl, sz, f, j, n);
      ReadyFacts(j);
    }

    lemma LookOn(prevp: nat, p: nat, f: nat, j: nat, n: nat)
      requires Looking(prevp, p, f, j, n) == true && p != freep && SizeAt(fl, sz, j) < n && j <= |fl| && f <= |fl|
              && p in hdr
      ensures Looking(p, hdr[p].ptr, f, Succ(j, |fl|), n) == true && Succ(j, |fl|) <= |fl|
      ensures |fl| - Dist(Succ(f, |fl|), Succ(j, |fl|), |fl|) < |fl| - Dist(Succ(f, |fl|), j, |fl|)
      ensures 0 <= |fl| - Dist(Succ(f, |fl|), j, |fl|)
    {
      ReadyFacts(j);
      NextNode(base, fl, j);
      SearchOn(base, fl, sz, f, j, n);
    }

    ghost predicate Valid()
      reads this
    {
      if freep == 0 then 0 < base < brk && fl == [] && sz == map[] && home == map[] && live == {} else Ready()
    }

    lemma ReadyFacts(j: nat)
      requires Ready() == true && j <= |fl|
      ensures base > 0 && Node(base, fl, j) in hdr && hdr[Node(base, fl, j)].ptr == Next(base, fl, j)
              && hdr[Node(base, fl, j)].size == SizeAt(fl, sz, j)
      ensures forall a :: a in live ==> a in sz
    {
    }

    lemma SameNodeHere(j: nat, f: nat)
      requires Ready() == true && j <= |fl| && f <= |fl| && Node(base, fl, j) == Node(base, fl, f)
      ensures j == f
    {
      forall k | 0 <= k < |fl| ensures base < fl[k] { assert Holds(sz, fl[k], fl[k]); }
      SameNode(base, fl, sz, j, f);
    }

    lemma FreepPositive()
      requires Ready() == true
      ensures freep != 0 && base > 0
    {
      if freep in fl { assert Holds(sz, freep, freep); }
    }

    ghost method FreepIndex() returns (f: nat)
      requires Ready() == true
      ensures f <= |fl| && freep == Node(base, fl, f)
    {
      f := IndexOf(base, fl, freep);
    }

    /** malloc's block, once found: all of free block p, or its last nunits units. */
    method Carve(prevp: nat, p: nat, nunits: nat, ghost j: nat) returns (r: nat)
      requires Ready() == true && 0 < j <= |fl| && p == Node(base, fl, j) && IsBefore(base, fl, prevp, j) == true
              && 0 < nunits <= SizeAt(fl, sz, j)
      modifies this
      ensures Ready() == true && freep != 0 && brk == old(brk) && r > 0
      ensures live == old(live) + {r - 1} && r - 1 !in old(live) && r - 1 in sz && sz[r - 1] == nunits
      ensures home.Keys == old(home).Keys && FreeUnits(fl, home) + UnitsOf(home, r - 1) == old(FreeUnits(fl, home))
      ensures SameLive(old(live), old(sz), sz) == true
    {
      hide *;
      CarvePre(prevp, p, j);
      if hdr[p].size == nunits {
        CarveWhole(prevp, p, nunits, j);
        r := p + 1;
      } else {
        r := p + hdr[p].size - nunits + 1;
        CarveTail(p, p + hdr[p].size - nunits, nunits, j);
      }
      freep := prevp;
      StillReady();
    }

    /** What the search leaves malloc with. */
    lemma CarvePre(prevp: nat, p: nat, j: nat)
      requires Ready() == true && 0 < j <= |fl| && p == Node(base, fl, j) && IsBefore(base, fl, prevp, j) == true
              && 0 < SizeAt(fl, sz, j)
      ensures Inv(hdr, base, fl, sz, home, live, brk) == true && prevp > 0 && (prevp == base || prevp in fl)
              && prevp == Node(base, fl, j - 1)
      ensures p == fl[j - 1] && p in sz && p in hdr && prevp in hdr && hdr[p].size == sz[p] == SizeAt(fl, sz, j)
              && p !in live && LiveSized(live, sz) == true
    {
      ReadyFacts(j);
      ReadyFacts(j - 1);
      PrevPositive(prevp, j);
      CarveFacts(fl, sz, j);
      LiveIsNotFree(fl[j - 1]);
    }

    lemma StillReady()
      requires Inv(hdr, base, fl, sz, home, live, brk) == true && (freep == base || freep in fl)
      ensures Ready() == true
    {
    }

    method CarveWhole(prevp: nat, p: nat, nunits: nat, ghost j: nat)
      requires Inv(hdr, base, fl, sz, home, live, brk) == true && 0 < j <= |fl| && p == fl[j - 1]
              && prevp == Node(base, fl, j - 1)
      requires p in hdr && p in sz && prevp in hdr && nunits == sz[p] && LiveSized(live, sz) == true
      modifies this`hdr, this`fl, this`live
      ensures Inv(hdr, base, fl, sz, home, live, brk) == true && live == old(live) + {p} && p !in old(live)
              && (prevp == base || prevp in fl)
      ensures FreeUnits(fl, home) + UnitsOf(home, p) == old(FreeUnits(fl, home))
              && SameLive(old(live), old(sz), sz) == true
    {
      hide *;
      LiveSame(live, sz);
      TakeWhole(hdr, base, fl, sz, home, live, brk, j - 1, p, prevp);
      hdr := hdr[prevp := Header(hdr[p].ptr, hdr[prevp].size)];
      fl, live := Without(fl, j - 1), live + {p};
    }

    method CarveTail(p: nat, q: nat, nunits: nat, ghost j: nat)
      requires Inv(hdr, base, fl, sz, home, live, brk) == true && 0 < j <= |fl| && p == fl[j - 1] && p in hdr && p in sz
              && hdr[p].size == sz[p]
      requires 0 < nunits < sz[p] && q == p + sz[p] - nunits && p !in live && LiveSized(live, sz) == true
      modifies this`hdr, this`sz, this`home, this`live
      ensures Inv(hdr, base, fl, sz, home, live, brk) == true && live == old(live) + {q} && q !in old(live) && q in sz
              && sz[q] == nunits
      ensures home.Keys == old(home).Keys && FreeUnits(fl, home) + UnitsOf(home, q) == old(FreeUnits(fl, home))
              && SameLive(old(live), old(sz), sz) == true
    {
      hide Inv, FreeUnits, UnitsOf, Cut;
      ghost var h := if q in hdr then hdr[q].ptr else 0;
      TakeTail(hdr, base, fl, sz, home, live, brk, j - 1, p, nunits, q, h);
      CutKeys(home, q, nunits);
      hdr := hdr[p := Header(hdr[p].ptr, hdr[p].size - nunits)];
      hdr := hdr[q := Header(if q in hdr then hdr[q].ptr else 0, nunits)];
      sz, home, live := sz[p := sz[p] - nunits][q := nunits], Cut(home, q, nunits), live + {q};
    }

    lemma PrevPositive(prevp: nat, j: nat)
      requires Ready() == true && IsBefore(base, fl, prevp, j)
      ensures prevp > 0 && (prevp == base || prevp in fl)
    {
      BeforeIsNode(base, fl, prevp, j);
      if prevp in fl { assert Holds(sz, prevp, prevp); }
    }

    lemma LiveIsNotFree(a: nat)
      requires Ready() == true && a in fl
      ensures a !in live
    {
    }
  }

  function SizeAt(fl: seq<nat>, sz: Sizes, k: nat): nat {
    if 0 < k <= |fl| && fl[k - 1] in sz then sz[fl[k - 1]] else 0
  }

  ghost predicate HasBlock(fl: seq<nat>, sz: Sizes, n: nat) {
    exists k: nat :: k <= |fl| && SizeAt(fl, sz, k) >= n
  }

  /** `prev` is the node before node `j` of the ring. */
  predicate IsBefore(base: nat, fl: seq<nat>, prev: nat, j: nat) {
    j <= |fl| && prev == Node(base, fl, if j == 0 then |fl| else j - 1)
  }

  /** Every node passed since freep is too small. */
  ghost predicate SmallBefore(fl: seq<nat>, sz: Sizes, f: nat, j: nat, n: nat) {
    && f <= |fl| && j <= |fl|
    && forall k: nat :: k <= |fl| && Dist(Succ(f, |fl|), k, |fl|) < Dist(Succ(f, |fl|), j, |fl|) ==>
            SizeAt(fl, sz, k) < n
  }

  ghost predicate SameLive(live: set<nat>, sz: Sizes, sz': Sizes) {
    forall a :: a in live ==> a in sz && a in sz' && sz'[a] == sz[a]
  }

  /** malloc's answer: a new block of n units in use, taken from the free units and
      the units `got` from sbrk; or 0. Blocks in use are as they were. */
  ghost predicate Answered(fl: seq<nat>, sz: Sizes, home: Homes, live: set<nat>,
                           fl': seq<nat>, sz': Sizes, home': Homes, live': set<nat>, r: nat, n: nat, got: set<nat>) {
    && home'.Keys == home.Keys + got && SameLive(live, sz, sz')
    && if r == 0 then live' == live && FreeUnits(fl', home') == FreeUnits(fl, home) + got
       else && live' == live + {r - 1} && r - 1 !in live && r - 1 in sz' && sz'[r - 1] == n
            && FreeUnits(fl', home') + UnitsOf(home', r - 1) == FreeUnits(fl, home) + got
  }

  ghost predicate LiveSized(live: set<nat>, sz: Sizes) { forall a :: a in live ==> a in sz }

  /** What has happened since malloc began: nothing; or, no block having been large
      enough, morecore has added one that is. */
  ghost predicate Story(fl: seq<nat>, sz: Sizes, home: Homes, live: set<nat>, brk: nat,
                        fl': seq<nat>, sz': Sizes, home': Homes, live': set<nat>, brk': nat, n: nat, grant: int,
                            calls: nat) {
    if calls == 0 then fl' == fl && sz' == sz && home' == home && live' == live && brk' == brk && LiveSized(live, sz)
    else
      && grant >= 0 && HasBlock(fl', sz', n) && !HasBlock(fl, sz, n) && live' == live
      && Obtained(fl, home, fl', home', Region(grant, Request(n)).Keys) && SameLive(live, sz, sz')
  }

  lemma NotYet(fl: seq<nat>, sz: Sizes, home: Homes, live: set<nat>, brk: nat, n: nat, grant: int)
    requires LiveSized(live, sz)
    ensures Story(fl, sz, home, live, brk, fl, sz, home, live, brk, n, grant, 0) == true
  {
  }

  /** A search that fails is the first. */
  lemma StoryFirst(fl: seq<nat>, sz: Sizes, home: Homes, live: set<nat>, brk: nat,
                   fl': seq<nat>, sz': Sizes, home': Homes, live': set<nat>, brk': nat, n: nat, grant: int, calls: nat)
    requires Story(fl, sz, home, live, brk, fl', sz', home', live', brk', n, grant, calls) == true
            && HasBlock(fl', sz', n) == false
    ensures calls == 0 && fl' == fl && sz' == sz && home' == home && live' == live && brk' == brk
            && SameLive(live, sz, sz) == true
  {
  }

  lemma StorySecond(fl: seq<nat>, sz: Sizes, home: Homes, live: set<nat>, brk: nat,
                    fl': seq<nat>, sz': Sizes, home': Homes, live': set<nat>, brk': nat, n: nat, grant: int)
    requires HasBlock(fl, sz, n) == false && HasBlock(fl', sz', n) == true && live' == live && grant >= 0
    requires Obtained(fl, home, fl', home', Region(grant, Request(n)).Keys) == true && SameLive(live, sz, sz') == true
    ensures Story(fl, sz, home, live, brk, fl', sz', home', live', brk', n, grant, 1) == true
  {
  }

  lemma StoryEnds(fl: seq<nat>, sz: Sizes, home: Homes, live: set<nat>, brk: nat,
                  fl1: seq<nat>, sz1: Sizes, home1: Homes, live1: set<nat>, brk1: nat, j: nat,
                  fl': seq<nat>, sz': Sizes, home': Homes, live': set<nat>, r: nat, n: nat, grant: int, calls: nat)
    requires Story(fl, sz, home, live, brk, fl1, sz1, home1, live1, brk1, n, grant, calls) == true && calls <= 1
    requires j <= |fl1| && SizeAt(fl1, sz1, j) >= n
    requires home'.Keys == home1.Keys && SameLive(live1, sz1, sz') == true && r > 0 && live' == live1 + {r - 1}
            && r - 1 !in live1 && r - 1 in sz' && sz'[r - 1] == n
    requires FreeUnits(fl', home') + UnitsOf(home', r - 1) == FreeUnits(fl1, home1)
    ensures Answered(fl, sz, home, live, fl', sz', home', live', r, n,
                     if calls == 1 && grant != -1 then Region(grant, Request(n)).Keys else {}) == true
    ensures !(grant == -1 && HasBlock(fl, sz, n) == false)
  {
    if calls == 0 {
      AnsweredAtOnce(fl, sz, home, live, fl', sz', home', live', r, n);
      BlockAt(fl, sz, j, n);
    } else {
      AnsweredAfter(fl, sz, home, live, fl1, sz1, home1, fl', sz', home', live', r, n, Region(grant, Request(n)).Keys);
    }
  }

  lemma BlockAt(fl: seq<nat>, sz: Sizes, j: nat, n: nat)
    requires j <= |fl| && SizeAt(fl, sz, j) >= n
    ensures HasBlock(fl, sz, n) == true
  {
  }

  lemma AnsweredAtOnce(fl: seq<nat>, sz: Sizes, home: Homes, live: set<nat>, fl': seq<nat>, sz': Sizes, home': Homes,
                       live': set<nat>, r: nat, n: nat)
    requires home'.Keys == home.Keys && SameLive(live, sz, sz') && r > 0 && live' == live + {r - 1} && r - 1 !in live
            && r - 1 in sz' && sz'[r - 1] == n
    requires FreeUnits(fl', home') + UnitsOf(home', r - 1) == FreeUnits(fl, home)
    ensures Answered(fl, sz, home, live, fl', sz', home', live', r, n, {}) == true
  {
    assert home.Keys + {} == home.Keys && FreeUnits(fl, home) + {} == FreeUnits(fl, home);
  }

  lemma AnsweredAfter(fl: seq<nat>, sz: Sizes, home: Homes, live: set<nat>, fl1: seq<nat>, sz1: Sizes, home1: Homes,
                      fl': seq<nat>, sz': Sizes, home': Homes, live': set<nat>, r: nat, n: nat, got: set<nat>)
    requires Obtained(fl, home, fl1, home1, got) == true && SameLive(live, sz, sz1) == true
    requires home'.Keys == home1.Keys && SameLive(live, sz1, sz') && r > 0 && live' == live + {r - 1} && r - 1 !in live
            && r - 1 in sz' && sz'[r - 1] == n
    requires FreeUnits(fl', home') + UnitsOf(home', r - 1) == FreeUnits(fl1, home1)
    ensures Answered(fl, sz, home, live, fl', sz', home', live', r, n, got) == true
  {
  }

  lemma Refused(fl: seq<nat>, sz: Sizes, home: Homes, live: set<nat>, n: nat)
    requires SameLive(live, sz, sz) == true
    ensures Answered(fl, sz, home, live, fl, sz, home, live, 0, n, {}) == true
  {
    assert home.Keys + {} == home.Keys && FreeUnits(fl, home) + {} == FreeUnits(fl, home);
  }

  lemma LiveSame(live: set<nat>, sz: Sizes)
    requires LiveSized(live, sz) == true
    ensures SameLive(live, sz, sz) == true
  {
  }

  /** The free units are those there were and `got`. */
  ghost predicate Obtained(fl: seq<nat>, home: Homes, fl': seq<nat>, home': Homes, got: set<nat>) {
    home'.Keys == home.Keys + got && FreeUnits(fl', home') == FreeUnits(fl, home) + got
  }

  lemma EmptyHeap(hdr: Headers, base: nat, brk: nat)
    requires 0 < base < brk && base in hdr && hdr[base] == Header(base, 0)
    ensures Inv(hdr, base, [], map[], map[], {}, brk)
  {
  }

  lemma StartSearch(fl: seq<nat>, sz: Sizes, f: nat, n: nat)
    requires f <= |fl|
    ensures SmallBefore(fl, sz, f, Succ(f, |fl|), n) == true
  {
  }

  /** The next node is one further from freep. */
  lemma SearchOn(base: nat, fl: seq<nat>, sz: Sizes, f: nat, j: nat, n: nat)
    requires SmallBefore(fl, sz, f, j, n) == true && f <= |fl| && j <= |fl| && SizeAt(fl, sz, j) < n
            && Node(base, fl, j) != Node(base, fl, f)
    ensures j != f && SmallBefore(fl, sz, f, Succ(j, |fl|), n) == true
    ensures Dist(Succ(f, |fl|), Succ(j, |fl|), |fl|) > Dist(Succ(f, |fl|), j, |fl|)
  {
    forall k: nat | k <= |fl| && Dist(Succ(f, |fl|), k, |fl|) < Dist(Succ(f, |fl|), Succ(j, |fl|), |fl|)
      ensures SizeAt(fl, sz, k) < n {
      assert k == j || Dist(Succ(f, |fl|), k, |fl|) < Dist(Succ(f, |fl|), j, |fl|);
    }
  }

  /** Back at freep: no block is large enough. */
  lemma SearchedAll(base: nat, fl: seq<nat>, sz: Sizes, f: nat, j: nat, n: nat)
    requires SmallBefore(fl, sz, f, j, n) == true && f <= |fl| && j <= |fl| && SizeAt(fl, sz, j) < n && j == f
    ensures HasBlock(fl, sz, n) == false
  {
    forall k: nat | k <= |fl| ensures SizeAt(fl, sz, k) < n { }
  }

  lemma SameNode(base: nat, fl: seq<nat>, sz: Sizes, j: nat, f: nat)
    requires Sorted(fl, sz) && j <= |fl| && f <= |fl| && Node(base, fl, j) == Node(base, fl, f)
            && forall k :: 0 <= k < |fl| ==> base < fl[k]
    ensures j == f
  {
    Spaced(fl, sz);
  }

  lemma NextNode(base: nat, fl: seq<nat>, j: nat)
    requires j <= |fl|
    ensures Next(base, fl, j) == Node(base, fl, Succ(j, |fl|)) && IsBefore(base, fl, Node(base, fl, j), Succ(j, |fl|))
  {
  }

  lemma BlockFound(fl: seq<nat>, sz: Sizes, j: nat, n: nat)
    requires j <= |fl| && SizeAt(fl, sz, j) >= n > 0
    ensures 0 < j && HasBlock(fl, sz, n) == true
  {
  }

  lemma CarveFacts(fl: seq<nat>, sz: Sizes, j: nat)
    requires 0 < j <= |fl| && SizeAt(fl, sz, j) > 0
    ensures fl[j - 1] in sz && sz[fl[j - 1]] == SizeAt(fl, sz, j)
  {
  }

  lemma CutKeys(home: Homes, q: nat, n: nat)
    ensures Cut(home, q, n).Keys == home.Keys
  {
  }

  lemma BeforeIsNode(base: nat, fl: seq<nat>, prev: nat, j: nat)
    requires IsBefore(base, fl, prev, j)
    ensures prev == base || prev in fl
  {
  }

  const MAX_BYTES: nat := 0x7FFF_FFE0

  /** Units for nbytes and a header. */
  function Units(nbytes: nat): (n: nat)
    ensures n > 0 && (n - 1) * 16 >= nbytes
  {
    (nbytes + 16 - 1) / 16 + 1
  }

  function Request(nunits: nat): nat { if nunits < 4096 then 4096 else nunits }

  /** morecore's argument reaches sbrk as it is meant. */
  predicate Meant(nunits: nat) { ToInt(Request(nunits) * 16) == Request(nunits) * 16 }

  /** What the kernel takes a byte count passed as int to be. */
  function ToInt(x: nat): int {
    if x % 0x1_0000_0000 >= 0x8000_0000 then x % 0x1_0000_0000 - 0x1_0000_0000 else x % 0x1_0000_0000
  }

  lemma PlaceFacts(hdr: Headers, base: nat, fl: seq<nat>, sz: Sizes, home: Homes, live: set<nat>, brk: nat, bp: nat,
                   t: nat)
    requires Inv(hdr, base, fl, sz, home, live, brk) == true && bp in live && Place(fl, bp, t) == true && t <= |fl|
    ensures var p := Node(base, fl, t);
            && p in hdr && hdr[p].ptr == Next(base, fl, t) && bp in sz && bp in hdr && hdr[bp].size == sz[bp] > 0
            && bp !in fl && base < bp
            && var q := hdr[p].ptr;
               q == bp + sz[bp] ==> t < |fl| && q == fl[t] && q in sz && q in hdr && hdr[q].size == sz[q] && q !in live
    ensures (forall i, j :: 0 <= i < j < |fl| ==> fl[i] != fl[j]) && (forall a :: a in live ==> a in sz)
  {
    Above(sz, home, base, fl, live, brk, bp);
    assert hdr[Node(base, fl, t)].ptr == Next(base, fl, t);
    assert forall i, j :: 0 <= i < j < |fl| ==> fl[i] + sz[fl[i]] < fl[j];
  }

  lemma UpNode(base: nat, fl: seq<nat>, t: nat, home: Homes, x: nat, bp: nat)
    requires t < |fl|
    ensures |Without(fl, t)| >= t && Node(base, Without(fl, t), t) == Node(base, fl, t)
            && Rehomed(home, x, bp).Keys == home.Keys
  {
  }

  lemma WithNode(base: nat, fl: seq<nat>, t: nat, bp: nat, p: nat)
    requires t <= |fl| && p == Node(base, fl, t)
    ensures (p == base || p in With(fl, t, bp)) && bp in With(fl, t, bp)
  {
    assert With(fl, t, bp)[t] == bp;
    if t > 0 { assert With(fl, t, bp)[t - 1] == p; }
  }

  lemma RehomedAt(home: Homes, b: nat, a: nat)
    ensures Rehomed(home, b, a).Keys == home.Keys
    ensures b in home && home[b] == b ==> Rehomed(home, b, a)[b] == a
  {
  }

  lemma HalfFacts(hdr: Headers, base: nat, fl: seq<nat>, sz: Sizes, home: Homes, live: set<nat>, brk: nat, bp: nat,
                  t: nat)
    requires Half(hdr, base, fl, sz, home, live, brk, bp, t) == true
    ensures bp in sz && bp in hdr && hdr[bp].size == sz[bp] && bp in live && bp !in fl && LiesIn(home, bp, bp)
    ensures forall a :: a in sz ==> a in hdr && hdr[a].size == sz[a]
    ensures forall a :: a in live ==> a in sz && a !in fl
  {
    assert Holds(sz, bp, bp);
  }

  ghost function FreeIndex(fl: seq<nat>, a: nat): (k: nat)
    requires a in fl
    ensures 0 < k <= |fl| && fl[k - 1] == a
  {
    var i :| 0 <= i < |fl| && fl[i] == a; i + 1
  }

  ghost function IndexOf(base: nat, fl: seq<nat>, p: nat): (i: nat)
    requires p == base || p in fl
    ensures i <= |fl| && Node(base, fl, i) == p
  {
    if p == base then 0 else var k :| 0 <= k < |fl| && fl[k] == p; k + 1
  }

  lemma Above(sz: Sizes, home: Homes, base: nat, fl: seq<nat>, live: set<nat>, brk: nat, bp: nat)
    requires Homed(sz, home) && Divided(base, fl, sz, home, live, brk) && bp in live
    ensures base < bp && forall k :: 0 <= k < |fl| ==> base < fl[k]
  {
    assert Holds(sz, bp, bp);
    forall k | 0 <= k < |fl| ensures base < fl[k] { assert Holds(sz, fl[k], fl[k]); }
  }

  // ----------------------------------------------------- what malloc does to the blocks

  /** The whole of free block p = fl[j] is handed out; its predecessor is relinked. */
  lemma TakeWhole(hdr: Headers, base: nat, fl: seq<nat>, sz: Sizes, home: Homes, live: set<nat>, brk: nat, j: nat,
                  p: nat, prev: nat)
    requires Inv(hdr, base, fl, sz, home, live, brk) == true && j < |fl| && p == fl[j] && prev == Node(base, fl, j)
            && prev in hdr && p in hdr
    ensures Inv(hdr[prev := Header(hdr[p].ptr, hdr[prev].size)], base, Without(fl, j), sz, home, live + {p},
                brk) == true
    ensures prev == base || prev in Without(fl, j)
    ensures FreeUnits(fl, home) == FreeUnits(Without(fl, j), home) + UnitsOf(home, p) && p !in live
  {
    Spaced(fl, sz);
    WholeRing(hdr, base, fl, sz, home, live, brk, j, p, prev);
    WholeSorted(fl, sz, j);
    WholeDivided(base, fl, sz, home, live, brk, j);
    WholeUnits(fl, home, j);
    if j > 0 { assert Without(fl, j)[j - 1] == prev; }
    hide Homed, Sorted, Ring, Divided, Without;
  }

  lemma WholeSorted(fl: seq<nat>, sz: Sizes, j: nat)
    requires Sorted(fl, sz) && j < |fl|
    ensures Sorted(Without(fl, j), sz)
  {
    var g := Without(fl, j);
    forall i | 0 <= i < |g| ensures g[i] == fl[if i < j then i else i + 1] { }
  }

  lemma WholeRing(hdr: Headers, base: nat, fl: seq<nat>, sz: Sizes, home: Homes, live: set<nat>, brk: nat, j: nat,
                  p: nat, prev: nat)
    requires Ring(hdr, base, fl, sz) && Homed(sz, home) && Divided(base, fl, sz, home, live, brk)
    requires j < |fl| && p == fl[j] && prev == Node(base, fl, j) && forall i, k :: 0 <= i < k < |fl| ==> fl[i] < fl[k]
    ensures Ring(hdr[prev := Header(hdr[p].ptr, hdr[prev].size)], base, Without(fl, j), sz)
  {
    var g, hdr' := Without(fl, j), hdr[prev := Header(hdr[p].ptr, hdr[prev].size)];
    assert p == Node(base, fl, j + 1) && hdr[p].ptr == Next(base, fl, j + 1);
    forall k | 0 <= k < |fl| ensures base < fl[k] { assert Holds(sz, fl[k], fl[k]); }
    forall i | 0 <= i <= |g| ensures Node(base, g, i) in hdr' && hdr'[Node(base, g, i)].ptr == Next(base, g, i) {
      WithoutNodes(base, fl, j, i);
      var k := if i <= j then i else i + 1;
      if i != j { assert Node(base, fl, k) != prev && hdr[Node(base, fl, k)].ptr == Next(base, fl, k); }
    }
  }

  lemma WithoutNodes(base: nat, fl: seq<nat>, j: nat, i: nat)
    requires j < |fl| && i < |fl|
    ensures Node(base, Without(fl, j), i) == Node(base, fl, if i <= j then i else i + 1)
    ensures Next(base, Without(fl, j), i) == Next(base, fl, if i < j then i else i + 1)
  {
  }

  lemma WholeDivided(base: nat, fl: seq<nat>, sz: Sizes, home: Homes, live: set<nat>, brk: nat, j: nat)
    requires Divided(base, fl, sz, home, live, brk) && j < |fl| && fl[j] in sz && forall i, k :: 0 <= i < k < |fl| ==>
            fl[i] < fl[k]
    ensures Divided(base, Without(fl, j), sz, home, live + {fl[j]}, brk) && fl[j] !in live
  {
    forall a ensures a in Without(fl, j) <==> a in fl && a != fl[j] { InWithout(fl, j, a); }
    hide Without;
  }

  lemma WholeUnits(fl: seq<nat>, home: Homes, j: nat)
    requires j < |fl| && forall i, k :: 0 <= i < k < |fl| ==> fl[i] < fl[k]
    ensures FreeUnits(fl, home) == FreeUnits(Without(fl, j), home) + UnitsOf(home, fl[j])
  {
    forall a ensures a in Without(fl, j) <==> a in fl && a != fl[j] { InWithout(fl, j, a); }
    hide Without;
  }

  /** The last n units of free block p are handed out as block q. */
  lemma TakeTail(hdr: Headers, base: nat, fl: seq<nat>, sz: Sizes, home: Homes, live: set<nat>, brk: nat, j: nat,
                 p: nat, n: nat, q: nat, h: nat)
    requires Inv(hdr, base, fl, sz, home, live, brk) == true && j < |fl| && p == fl[j] && p in sz && p in hdr
            && 0 < n < sz[p] && q == p + sz[p] - n
    ensures q !in sz && q !in live
    ensures Inv(hdr[p := Header(hdr[p].ptr, sz[p] - n)][q := Header(h, n)], base, fl, sz[p := sz[p] - n][q := n],
                Cut(home, q, n), live + {q}, brk) == true
    ensures FreeUnits(fl, home) == FreeUnits(fl, Cut(home, q, n)) + UnitsOf(Cut(home, q, n), q)
  {
    Split(sz, home, p, n, q);
    TailRing(hdr, base, fl, sz, home, live, brk, p, n, q, h);
    TailUnits(fl, sz, home, p, n, q);
    Spaced(fl, sz);
    assert Holds(sz, p, q);
    var sz' := sz[p := sz[p] - n][q := n];
    assert Sorted(fl, sz') by { hide Homed, Ring, Divided; }
    hide Homed, Sorted, Ring;
  }

  lemma TailRing(hdr: Headers, base: nat, fl: seq<nat>, sz: Sizes, home: Homes, live: set<nat>, brk: nat, p: nat,
                 n: nat, q: nat, h: nat)
    requires Ring(hdr, base, fl, sz) && Homed(sz, home) && Divided(base, fl, sz, home, live, brk)
    requires p in fl && p in sz && 0 < n < sz[p] && q == p + sz[p] - n && q !in sz
    ensures Ring(hdr[p := Header(hdr[p].ptr, sz[p] - n)][q := Header(h, n)], base, fl, sz[p := sz[p] - n][q := n])
  {
    assert Holds(sz, p, p) && Holds(sz, p, q);
    assert forall i :: 0 <= i <= |fl| ==> Node(base, fl, i) != q;
  }

  lemma TailUnits(fl: seq<nat>, sz: Sizes, home: Homes, p: nat, n: nat, q: nat)
    requires Homed(sz, home) && p in sz && p in fl && 0 < n < sz[p] && q == p + sz[p] - n && q !in sz
    requires forall i :: 0 <= i < |fl| ==> fl[i] in sz
    ensures FreeUnits(fl, home) == FreeUnits(fl, Cut(home, q, n)) + UnitsOf(Cut(home, q, n), q)
  {
    forall u | u in home ensures home[u] != q && (q <= u < q + n ==> home[u] == p) {
      assert LiesIn(home, u, home[u]);
      assert q <= u < q + n ==> Holds(sz, p, u);
    }
  }

  /** sbrk gave n units from r on: as a block in use, they can be freed. */
  lemma Grown(hdr: Headers, base: nat, fl: seq<nat>, sz: Sizes, home: Homes, live: set<nat>, brk: nat, r: nat, n: nat,
              h: nat)
    requires Inv(hdr, base, fl, sz, home, live, brk) == true && brk <= r && base < r && 0 < n
    ensures r !in sz && r !in live && r !in fl
    ensures Inv(hdr[r := Header(h, n)], base, fl, sz[r := n], home + Region(r, n), live + {r}, r + n) == true
    ensures UnitsOf(home + Region(r, n), r) == Region(r, n).Keys
            && FreeUnits(fl, home + Region(r, n)) == FreeUnits(fl, home)
  {
    Grow(sz, home, r, n);
    forall u | u in home ensures u < r && home[u] in sz { assert LiesIn(home, u, home[u]); }
    forall i | 0 <= i <= |fl| ensures Node(base, fl, i) != r { }
    assert Sorted(fl, sz[r := n]) && Ring(hdr[r := Header(h, n)], base, fl, sz[r := n]);
    hide Homed, Sorted, Ring;
  }

  // ------------------------------------------------------------------------ the laws

  /** sbrk receives the size morecore means exactly for requests up to MAX_BYTES; for
      any larger one it is asked to shrink the process, or for one unit at most. */
  lemma SbrkGetsWhatIsMeant(nbytes: nat)
    requires nbytes < 0x1_0000_0000
    ensures Meant(Units(nbytes)) <==> nbytes <= MAX_BYTES
    ensures nbytes > MAX_BYTES ==> ToInt(Request(Units(nbytes)) * 16) <= 16
    ensures MAX_BYTES < nbytes <= 0xFFFF_FFE0 ==> ToInt(Request(Units(nbytes)) * 16) < 0
  {
  }

  /** Every unit obtained is in one block, free or in use, and blocks never overlap. */
  lemma EveryUnitOnce(hdr: Headers, base: nat, fl: seq<nat>, sz: Sizes, home: Homes, live: set<nat>, brk: nat)
    requires Inv(hdr, base, fl, sz, home, live, brk)
    ensures forall u :: u in home ==> (u in FreeUnits(fl, home) <==> home[u] !in live)
    ensures forall a, b :: a in sz && b in sz && a < b ==> a + sz[a] <= b
  {
    forall u | u in home ensures u in FreeUnits(fl, home) <==> home[u] !in live {
      assert LiesIn(home, u, home[u]);
    }
    forall a, b | a in sz && b in sz && a < b ensures a + sz[a] <= b { Apart(sz, home, a, b); }
  }

  /** The free list is one cycle, its addresses increasing but for the single step
      back to base, and no two free blocks touch. */
  lemma OneWrap(hdr: Headers, base: nat, fl: seq<nat>, sz: Sizes, home: Homes, live: set<nat>, brk: nat)
    requires Inv(hdr, base, fl, sz, home, live, brk)
    ensures forall i :: 0 <= i < |fl| - 1 ==>
            fl[i] in hdr && hdr[fl[i]].ptr == fl[i + 1] && fl[i] + hdr[fl[i]].size < fl[i + 1]
    ensures fl == [] ==> hdr[base].ptr == base
    ensures fl != [] ==> base < hdr[base].ptr == fl[0] && fl[|fl| - 1] in hdr && hdr[fl[|fl| - 1]].ptr == base
  {
    assert Node(base, fl, 0) == base;
    if fl != [] { assert Holds(sz, fl[0], fl[0]); }
    hide Homed;
    forall i | 0 <= i < |fl| ensures fl[i] in hdr && hdr[fl[i]].ptr == Next(base, fl, i + 1)
            && hdr[fl[i]].size == sz[fl[i]] {
      assert Node(base, fl, i + 1) == fl[i];
    }
  }
}
