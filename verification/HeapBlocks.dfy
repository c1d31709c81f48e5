/** The blocks of user/umalloc.c as intervals of units (one unit is the size of a
    header), and how merging, splitting and growing change them. */
module HeapBlocks {
  datatype Header = Header(ptr: nat, size: nat)
  type Headers = map<nat, Header>
  type Sizes = map<nat, nat>     // block address -> size in units, header included
  type Homes = map<nat, nat>     // unit -> address of the block it lies in

  predicate Holds(sz: Sizes, a: nat, u: nat) { a in sz && a <= u < a + sz[a] }

  predicate LiesIn(home: Homes, u: nat, a: nat) { u in home && home[u] == a }

  /** Every unit of memory obtained lies in exactly one block. */
  ghost predicate Homed(sz: Sizes, home: Homes) {
    && (forall a :: a in sz ==> sz[a] > 0)
    && (forall a: nat, u: nat :: Holds(sz, a, u) ==> LiesIn(home, u, a))
    && (forall a: nat, u: nat :: LiesIn(home, u, a) ==> Holds(sz, a, u))
  }

  function Rehomed(home: Homes, b: nat, a: nat): Homes {
    map u | u in home :: if home[u] == b then a else home[u]
  }

  /** Two blocks never overlap. */
  lemma Apart(sz: Sizes, home: Homes, a: nat, b: nat)
    requires Homed(sz, home) && a in sz && b in sz && a < b
    ensures a + sz[a] <= b
  {
    assert Holds(sz, b, b) && (a + sz[a] > b ==> Holds(sz, a, b));
  }

  /** Block `a` absorbs block `b`, which begins where it ends. */
  lemma Absorb(sz: Sizes, home: Homes, a: nat, b: nat)
    requires Homed(sz, home) && a in sz && b in sz && a + sz[a] == b
    ensures Homed((sz - {b})[a := sz[a] + sz[b]], Rehomed(home, b, a))
  {
    var sz', home' := (sz - {b})[a := sz[a] + sz[b]], Rehomed(home, b, a);
    forall c: nat, u: nat | Holds(sz', c, u) ensures LiesIn(home', u, c) {
      assert Holds(sz, c, u) || (c == a && Holds(sz, b, u));
    }
    forall c: nat, u: nat | LiesIn(home', u, c) ensures Holds(sz', c, u) {
      assert LiesIn(home, u, c) || (c == a && LiesIn(home, u, b));
    }
  }

  /** The last `n` units of block `a` become block `q`. */
  function Cut(home: Homes, q: nat, n: nat): Homes {
    map u | u in home :: if q <= u < q + n then q else home[u]
  }

  lemma Split(sz: Sizes, home: Homes, a: nat, n: nat, q: nat)
    requires Homed(sz, home) && a in sz && 0 < n < sz[a] && q == a + sz[a] - n
    ensures q !in sz && Homed(sz[a := sz[a] - n][q := n], Cut(home, q, n))
  {
    assert Holds(sz, a, q);
    assert q in sz ==> Holds(sz, q, q);
    var sz', home' := sz[a := sz[a] - n][q := n], Cut(home, q, n);
    forall c: nat, u: nat | Holds(sz', c, u) ensures LiesIn(home', u, c) {
      assert if c == a || c == q then Holds(sz, a, u) else Holds(sz, c, u);
      assert q <= u < q + n ==> Holds(sz, a, u);
    }
    forall c: nat, u: nat | LiesIn(home', u, c) ensures Holds(sz', c, u) {
      assert LiesIn(home, u, home[u]);
      assert q <= u < q + n ==> Holds(sz, a, u);
    }
  }

  /** `n` new units from `r` on. */
  function Region(r: nat, n: nat): (m: Homes)
    ensures forall u :: u in m <==> r <= u < r + n
    ensures forall u :: u in m ==> m[u] == r
  {
    if n == 0 then map[] else Region(r, n - 1)[r + n - 1 := r]
  }

  lemma Grow(sz: Sizes, home: Homes, r: nat, n: nat)
    requires Homed(sz, home) && 0 < n && forall u :: u in home ==> u < r
    ensures r !in sz && Homed(sz[r := n], home + Region(r, n))
  {
    assert r in sz ==> Holds(sz, r, r);
    var sz', home' := sz[r := n], home + Region(r, n);
    forall c: nat, u: nat | Holds(sz', c, u) ensures LiesIn(home', u, c) {
      assert c == r || Holds(sz, c, u);
    }
    forall c: nat, u: nat | LiesIn(home', u, c) ensures Holds(sz', c, u) {
      assert u in Region(r, n) || LiesIn(home, u, c);
    }
  }

  // ------------------------------------------------------------------ the free list

  /** Free blocks in address order, no two of them adjacent. */
  ghost predicate Sorted(fl: seq<nat>, sz: Sizes) {
    && (forall i :: 0 <= i < |fl| ==> fl[i] in sz)
    && (forall i, j :: 0 <= i < j < |fl| ==> fl[i] + sz[fl[i]] < fl[j])
  }

  /** Node `i` of the circular list: the static header `base`, then the free blocks. */
  function Node(base: nat, fl: seq<nat>, i: nat): nat
    requires i <= |fl|
  {
    if i == 0 then base else fl[i - 1]
  }

  function Next(base: nat, fl: seq<nat>, i: nat): nat
    requires i <= |fl|
  {
    if i == |fl| then base else fl[i]
  }

  /** One cycle: base, the free blocks in order, and back. */
  ghost predicate Ring(hdr: Headers, base: nat, fl: seq<nat>, sz: Sizes) {
    && base in hdr && hdr[base].size == 0
    && (forall i :: 0 <= i <= |fl| ==> Node(base, fl, i) in hdr && hdr[Node(base, fl, i)].ptr == Next(base, fl, i))
    && (forall a :: a in sz ==> a in hdr && hdr[a].size == sz[a])
  }

  /** Every block is free or in use, not both; all lie above `base` and below the break. */
  ghost predicate Divided(base: nat, fl: seq<nat>, sz: Sizes, home: Homes, live: set<nat>, brk: nat) {
    && 0 < base && (forall u :: u in home ==> base < u < brk)
    && (forall a :: a in sz <==> a in fl || a in live)
    && (forall a :: a in live ==> a !in fl)
  }

  ghost predicate Inv(hdr: Headers, base: nat, fl: seq<nat>, sz: Sizes, home: Homes, live: set<nat>, brk: nat) {
    Homed(sz, home) && Sorted(fl, sz) && Ring(hdr, base, fl, sz) && Divided(base, fl, sz, home, live, brk)
  }

  /** The units in free blocks. */
  ghost function FreeUnits(fl: seq<nat>, home: Homes): set<nat> {
    set u | u in home && home[u] in fl
  }

  ghost function UnitsOf(home: Homes, a: nat): set<nat> {
    set u | u in home && home[u] == a
  }

  /** Where block `bp` belongs: after `t` free blocks. */
  ghost predicate Place(fl: seq<nat>, bp: nat, t: nat) {
    && t <= |fl|
    && (forall i :: 0 <= i < t ==> fl[i] < bp)
    && (forall i :: t <= i < |fl| ==> bp < fl[i])
  }

  lemma {:induction false} FindPlace(fl: seq<nat>, sz: Sizes, bp: nat) returns (t: nat)
    requires Sorted(fl, sz) && bp !in fl
    ensures Place(fl, bp, t)
    decreases |fl|
  {
    if fl == [] || fl[|fl| - 1] < bp {
      t := |fl|;
    } else {
      t := FindPlace(fl[..|fl| - 1], sz, bp);
      assert forall i :: 0 <= i < |fl| - 1 ==> fl[..|fl| - 1][i] == fl[i];
    }
  }
}
