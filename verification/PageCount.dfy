/** How many free pages it takes to map a range: one for each page, and one for each
    table above them that is missing. */
module PageCount {
  import opened PageTable

  /** The places of the tables on the way from `root` to the entry of `vpn`, down to
      `level`. */
  function Path(root: nat, vpn: nat, level: nat): set<Node> {
    if level >= 2 then {}
    else if level == 1 then {Node(root, 1, Up(Up(vpn)))}
    else {Node(root, 1, Up(Up(vpn))), Node(root, 0, Up(vpn))}
  }

  /** The tables above the virtual pages lo..lo+k. */
  function Paths(root: nat, lo: nat, k: nat): set<Node> {
    if k == 0 then {} else Paths(root, lo, k - 1) + Path(root, lo + k - 1, 0)
  }

  function MissingAbove(at: Places, tables: set<Node>): nat { |tables - at.Keys| }

  /** What mapping the virtual pages lo..lo+k takes. */
  function PagesNeeded(s: Phys, root: nat, lo: nat, k: nat): nat { k + MissingAbove(s.at, Paths(root, lo, k)) }

  /** Since `s`, the tables at `tables` are there, and `k` more pages have been taken. */
  ghost predicate Spent(s: Phys, t: Phys, tables: set<Node>, k: nat) {
    t.at.Keys == s.at.Keys + tables && |t.free| + k + MissingAbove(s.at, tables) == |s.free|
  }

  lemma NothingSpent(s: Phys)
    ensures Spent(s, s, {}, 0) == true
  {
    assert {} - s.at.Keys == {};
  }

  lemma SplitSize(a: set<Node>, b: set<Node>, c: set<Node>)
    ensures |a + b - c| == |a - c| + |b - (c + a)|
  {
    assert a + b - c == (a - c) + (b - (c + a));
    assert (a - c) !! (b - (c + a));
  }

  lemma SpentMore(s: Phys, t: Phys, u: Phys, a: set<Node>, b: set<Node>, j: nat, k: nat)
    requires Spent(s, t, a, j) == true && Spent(t, u, b, k) == true
    ensures Spent(s, u, a + b, j + k) == true
  {
    SplitSize(a, b, s.at.Keys);
    assert s.at.Keys + (a + b) == s.at.Keys + a + b;
  }

  /** One table more. */
  lemma SpentTable(s: Phys, t: Phys, u: Phys, a: set<Node>, n: Node)
    requires Spent(s, t, a, 0) == true && u.at.Keys == t.at.Keys + {n}
    requires |u.free| + (if n in t.at then 0 else 1) == |t.free|
    ensures Spent(s, u, a + {n}, 0) == true
  {
    assert {n} - t.at.Keys == if n in t.at then {} else {n};
    SpentMore(s, t, u, a, {n}, 0, 0);
  }

  lemma PathStep(root: nat, vpn: nat)
    ensures Path(root, vpn, 1) == Path(root, vpn, 2) + {Node(root, 1, Up(Up(vpn)))}
    ensures Path(root, vpn, 0) == Path(root, vpn, 1) + {Node(root, 0, Up(vpn))}
  {
  }

  lemma PathTop(root: nat, vpn: nat)
    ensures Path(root, vpn, 2) == {}
  {
  }

  lemma NoPaths(root: nat, lo: nat)
    ensures Paths(root, lo, 0) == {}
  {
  }

  lemma OnePath(root: nat, v: nat)
    ensures Paths(root, v, 1) == Path(root, v, 0)
  {
    assert Paths(root, v, 0) == {} && Paths(root, v, 1) == {} + Path(root, v + 1 - 1, 0);
  }

  lemma MissingGrows(at: Places, a: set<Node>, b: set<Node>)
    requires a <= b
    ensures MissingAbove(at, a) <= MissingAbove(at, b)
  {
    SplitSize(a, b, at.Keys);
    assert a + b == b;
  }

  lemma {:induction false} PathsGrow(root: nat, lo: nat, j: nat, k: nat)
    requires j <= k
    ensures Paths(root, lo, j) <= Paths(root, lo, k)
    decreases k
  {
    hide Path;
    if j < k { PathsGrow(root, lo, j, k - 1); }
  }

  lemma NeededGrows(s: Phys, root: nat, lo: nat, j: nat, k: nat)
    requires j <= k
    ensures PagesNeeded(s, root, lo, j) + (k - j) <= PagesNeeded(s, root, lo, k)
  {
    PathsGrow(root, lo, j, k);
    hide Paths, MissingAbove;
    MissingGrows(s.at, Paths(root, lo, j), Paths(root, lo, k));
  }

  /** Where the free pages end while a table is missing, there were too few. */
  lemma TooFewTables(s: Phys, t: Phys, a: set<Node>, n: Node, all: set<Node>)
    requires Spent(s, t, a, 0) == true && t.free == [] && n !in t.at && a + {n} <= all
    ensures |s.free| < MissingAbove(s.at, all)
  {
    SplitSize(a, {n}, s.at.Keys);
    assert {n} - (s.at.Keys + a) == {n};
    MissingGrows(s.at, a + {n}, all);
  }

  lemma TooFewNext(s: Phys, t: Phys, root: nat, lo: nat, k: nat)
    requires Spent(s, t, Paths(root, lo, k), 0) == true && |t.free| < MissingAbove(t.at, Path(root, lo + k, 0))
    ensures |s.free| < MissingAbove(s.at, Paths(root, lo, k + 1))
  {
    SplitSize(Paths(root, lo, k), Path(root, lo + k, 0), s.at.Keys);
  }

  lemma SpentNext(s: Phys, t: Phys, u: Phys, root: nat, lo: nat, k: nat, j: nat, p: nat)
    requires Spent(s, t, Paths(root, lo, k), j) == true && Spent(t, u, Path(root, lo + k, 0), p) == true
    ensures Spent(s, u, Paths(root, lo, k + 1), j + p) == true
  {
    SpentMore(s, t, u, Paths(root, lo, k), Path(root, lo + k, 0), j, p);
  }

  /** After lo..lo+k, the next page takes what the range with it takes more. */
  lemma NeededNext(s: Phys, t: Phys, root: nat, lo: nat, k: nat)
    requires Spent(s, t, Paths(root, lo, k), k) == true
    ensures |t.free| + PagesNeeded(s, root, lo, k) == |s.free|
    ensures PagesNeeded(s, root, lo, k + 1)
         == PagesNeeded(s, root, lo, k) + 1 + MissingAbove(t.at, Path(root, lo + k, 0))
  {
    SplitSize(Paths(root, lo, k), Path(root, lo + k, 0), s.at.Keys);
  }

  /** A mapped page has its tables. */
  lemma MappedHasTables(s: Phys, root: nat, v: nat)
    requires Good(s) && Maps(s, root, v).f.v
    ensures MissingAbove(s.at, Path(root, v, 0)) == 0
  {
    var n := Node(root, 0, Up(v));
    assert n in s.at && Parent(n) == Node(root, 1, Up(Up(v))) && Parent(n) in s.at;
    assert Path(root, v, 0) - s.at.Keys == {};
  }

  // ------------------------------------------------------------------ how a range can fail

  /** Page lo+j is the first that cannot be mapped, and memory lasts until it is tried. */
  ghost predicate Blocked(s: Phys, root: nat, lo: nat, j: nat) {
    Vacant(s, root, lo, j) && !CanMap(s, root, lo + j) && |s.free| > PagesNeeded(s, root, lo, j)
  }

  /** Memory ends at page lo+a, nothing before it being in the way. */
  ghost predicate Short(s: Phys, root: nat, lo: nat, a: nat) {
    && Vacant(s, root, lo, a) && |s.free| >= PagesNeeded(s, root, lo, a)
    && (|s.free| == PagesNeeded(s, root, lo, a)
        || (CanMap(s, root, lo + a) && |s.free| < PagesNeeded(s, root, lo, a + 1)))
  }

  lemma VacantAt(s: Phys, root: nat, lo: nat, k: nat, j: nat)
    requires Vacant(s, root, lo, k) && j < k
    ensures CanMap(s, root, lo + j)
  {
  }

  /** A range fails in one way only. */
  lemma ShortOrBlocked(s: Phys, root: nat, lo: nat, a: nat, j: nat)
    requires Short(s, root, lo, a) == true
    ensures Blocked(s, root, lo, j) == false
  {
    hide PagesNeeded, Vacant, CanMap;
    if Blocked(s, root, lo, j) {
      if a < j {
        NeededGrows(s, root, lo, a + 1, j);
        NeededGrows(s, root, lo, a, j);
      } else if j < a {
        VacantAt(s, root, lo, a, j);
      }
    }
  }

  lemma ShortIsTooFew(s: Phys, root: nat, lo: nat, a: nat, n: nat)
    requires Short(s, root, lo, a) == true && a < n
    ensures Vacant(s, root, lo, n) == false || |s.free| < PagesNeeded(s, root, lo, n)
  {
    hide PagesNeeded, Vacant, CanMap;
    NeededGrows(s, root, lo, a + 1, n);
    NeededGrows(s, root, lo, a, n);
  }

  lemma NotBlocked(s: Phys, root: nat, lo: nat, n: nat, j: nat)
    requires Vacant(s, root, lo, n) == true && j < n
    ensures Blocked(s, root, lo, j) == false
  {
    VacantAt(s, root, lo, n, j);
  }

  ghost predicate SomeBlocked(s: Phys, root: nat, lo: nat, n: nat) { exists j: nat :: j < n && Blocked(s, root, lo, j) }

  /** Mapping lo..lo+n of `root` page by page ends in one of three ways. */
  lemma EndsBlocked(s: Phys, root: nat, lo: nat, n: nat, j: nat)
    requires Blocked(s, root, lo, j) == true && j < n
    ensures SomeBlocked(s, root, lo, n) == true && Vacant(s, root, lo, n) == false
  {
    if Vacant(s, root, lo, n) { VacantAt(s, root, lo, n, j); }
  }

  lemma EndsShort(s: Phys, root: nat, lo: nat, n: nat, a: nat)
    requires Short(s, root, lo, a) == true && a < n
    ensures SomeBlocked(s, root, lo, n) == false
    ensures Vacant(s, root, lo, n) == false || |s.free| < PagesNeeded(s, root, lo, n)
  {
    hide Short, Blocked;
    forall j: nat ensures Blocked(s, root, lo, j) == false { ShortOrBlocked(s, root, lo, a, j); }
    ShortIsTooFew(s, root, lo, a, n);
  }

  lemma EndsWell(s: Phys, root: nat, lo: nat, n: nat)
    requires Vacant(s, root, lo, n) == true
    ensures SomeBlocked(s, root, lo, n) == false
  {
    hide Blocked;
    forall j: nat | j < n ensures Blocked(s, root, lo, j) == false { NotBlocked(s, root, lo, n, j); }
  }
}
