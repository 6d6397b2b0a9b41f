/**
 The ordered table of mapped regions.  A region is keyed by its LAST address;
 its first address follows from its size.  `Cut` is the reference meaning of
 unmapping: the maximal runs of each block that survive the removal of a set of
 addresses.
 */
module IntervalTable {
  import opened Words
  import opened Collections

  type Addr = int
  type CallStack = seq<int>

  datatype Allocation = Allocation(size: size_t, callstack: CallStack)

  type Table = map<Addr, Allocation>

  function First(t: Table, k: Addr): Addr
    requires k in t
  {
    k - t[k].size + 1
  }

  ghost predicate Covers(t: Table, k: Addr, a: Addr) {
    k in t && First(t, k) <= a <= k
  }

  /** Blocks are non-empty and pairwise disjoint. */
  ghost predicate Valid(t: Table) {
    && (forall k :: k in t ==> t[k].size > 0)
    && (forall j, k :: j in t && k in t && j < k ==> j < First(t, k))
  }

  predicate Between(lo: Addr, a: Addr, hi: Addr) {
    lo <= a < hi
  }

  ghost function Range(lo: Addr, hi: Addr): set<Addr> {
    set a | lo <= a < hi && Between(lo, a, hi)
  }

  /** Every address some block of the table owns. */
  ghost function Tracked(t: Table): set<Addr> {
    set k, a | k in t && First(t, k) <= a < k + 1 && Covers(t, k, a) :: a
  }

  /** The block that owns a tracked address. */
  ghost function Owner(t: Table, a: Addr): Addr
    requires a in Tracked(t)
    ensures Covers(t, Owner(t, a), a)
  {
    var k :| Covers(t, k, a);
    k
  }

  lemma OwnerUnique(t: Table, k: Addr, a: Addr)
    requires Valid(t) && Covers(t, k, a)
    ensures a in Tracked(t) && Owner(t, a) == k
  {
  }

  /** First address of the run that ends at `k` and avoids `gone`, not below `f`. */
  ghost function RunStart(f: Addr, k: Addr, gone: set<Addr>): (r: Addr)
    requires f <= k && k !in gone
    ensures f <= r <= k
    ensures forall a :: r <= a <= k ==> a !in gone
    ensures r == f || r - 1 in gone
    decreases k - f
  {
    if k == f || k - 1 in gone then k else RunStart(f, k - 1, gone)
  }

  /** Last address of the run that starts at `a` and avoids `gone`, not above `l`. */
  ghost function RunEnd(a: Addr, l: Addr, gone: set<Addr>): (r: Addr)
    requires a <= l && a !in gone
    ensures a <= r <= l
    ensures forall b :: a <= b <= r ==> b !in gone
    ensures r == l || r + 1 in gone
    decreases l - a
  {
    if a == l || a + 1 in gone then a else RunEnd(a + 1, l, gone)
  }

  /** `[f..k]` is a maximal run of block `o` that avoids `gone`. */
  ghost predicate Piece(t: Table, gone: set<Addr>, o: Addr, f: Addr, k: Addr) {
    && o in t
    && First(t, o) <= f <= k <= o
    && (forall a :: f <= a <= k ==> a !in gone)
    && (f == First(t, o) || f - 1 in gone)
    && (k == o || k + 1 in gone)
  }

  /** Block `x` keyed by `k` is a maximal surviving run of some block of `t`. */
  ghost predicate IsRun(t: Table, gone: set<Addr>, k: Addr, x: Allocation) {
    exists o :: Piece(t, gone, o, k - x.size + 1, k) && x.callstack == t[o].callstack
  }

  /** The table `r` holds the maximal surviving runs of `t`, each with its block's call stack, and nothing else. */
  ghost predicate IsCut(t: Table, gone: set<Addr>, r: Table) {
    && (forall k :: k in r ==> IsRun(t, gone, k, r[k]))
    && (forall o, f, k :: Piece(t, gone, o, f, k) ==> k in r && r[k] == Allocation(k - f + 1, t[o].callstack))
  }

  /** The table after the addresses `gone` are taken away from every block. */
  ghost function Cut(t: Table, gone: set<Addr>): Table {
    map k | k in Tracked(t) && k !in gone && (k == Owner(t, k) || k + 1 in gone) ::
      Allocation(k - RunStart(First(t, Owner(t, k)), k, gone) + 1, t[Owner(t, k)].callstack)
  }

  lemma CutIsCut(t: Table, gone: set<Addr>)
    requires Valid(t)
    ensures IsCut(t, gone, Cut(t, gone))
  {
    hide Valid, Cut, IsRun;
    forall k | k in Cut(t, gone) ensures IsRun(t, gone, k, Cut(t, gone)[k]) { CutHasRun(t, gone, k); }
    forall o, f, k | Piece(t, gone, o, f, k)
      ensures k in Cut(t, gone) && Cut(t, gone)[k] == Allocation(k - f + 1, t[o].callstack)
    {
      CutHasPiece(t, gone, o, f, k);
    }
  }

  lemma CutHasRun(t: Table, gone: set<Addr>, k: Addr)
    requires Valid(t) && k in Cut(t, gone)
    ensures IsRun(t, gone, k, Cut(t, gone)[k])
  {
    var o, x := Owner(t, k), Cut(t, gone)[k];
    hide Valid;
    assert Covers(t, o, k);
    assert Piece(t, gone, o, k - x.size + 1, k);
  }

  lemma CutHasPiece(t: Table, gone: set<Addr>, o: Addr, f: Addr, k: Addr)
    requires Valid(t) && Piece(t, gone, o, f, k)
    ensures k in Cut(t, gone) && Cut(t, gone)[k] == Allocation(k - f + 1, t[o].callstack)
  {
    OwnerUnique(t, o, k);
    PieceStart(t, gone, o, f, k);
    hide Valid;
  }

  lemma PieceStart(t: Table, gone: set<Addr>, o: Addr, f: Addr, k: Addr)
    requires Piece(t, gone, o, f, k)
    ensures RunStart(First(t, o), k, gone) == f
  {
    var r := RunStart(First(t, o), k, gone);
    assert r < f ==> f - 1 !in gone;
    assert f < r ==> r - 1 !in gone;
  }

  /** There is only one such table. */
  lemma CutUnique(t: Table, gone: set<Addr>, r: Table)
    requires Valid(t) && IsCut(t, gone, r)
    ensures r == Cut(t, gone)
  {
    CutIsCut(t, gone);
    SameCut(t, gone, r, Cut(t, gone));
  }

  lemma SameCut(t: Table, gone: set<Addr>, r: Table, c: Table)
    requires IsCut(t, gone, r) && IsCut(t, gone, c)
    ensures r == c
  {
    forall k | k in r ensures k in c && c[k] == r[k] { RunInBoth(t, gone, r, c, k); }
    forall k | k in c ensures k in r { RunInBoth(t, gone, c, r, k); }
  }

  lemma RunInBoth(t: Table, gone: set<Addr>, r: Table, c: Table, k: Addr)
    requires IsCut(t, gone, r) && IsCut(t, gone, c) && k in r
    ensures k in c && c[k] == r[k]
  {
    var o :| Piece(t, gone, o, k - r[k].size + 1, k) && r[k].callstack == t[o].callstack;
  }

  /** A surviving address of block `o` lies in the run that starts and ends around it. */
  lemma SurvivorCovered(t: Table, gone: set<Addr>, r: Table, o: Addr, a: Addr) returns (f: Addr, k: Addr)
    requires IsCut(t, gone, r) && Covers(t, o, a) && a !in gone
    ensures f <= a <= k && Piece(t, gone, o, f, k)
    ensures k in r && r[k] == Allocation(k - f + 1, t[o].callstack) && First(r, k) == f
    ensures Covers(r, k, a)
  {
    f, k := RunStart(First(t, o), a, gone), RunEnd(a, o, gone);
    assert Piece(t, gone, o, f, k);
  }

  /** A key of a cut names a piece of one block. */
  lemma RunBlock(t: Table, gone: set<Addr>, r: Table, k: Addr) returns (o: Addr)
    requires IsCut(t, gone, r) && k in r
    ensures Piece(t, gone, o, First(r, k), k) && r[k].callstack == t[o].callstack
  {
    o :| Piece(t, gone, o, k - r[k].size + 1, k) && r[k].callstack == t[o].callstack;
  }

  lemma CutValid(t: Table, gone: set<Addr>, r: Table)
    requires Valid(t) && IsCut(t, gone, r)
    ensures Valid(r)
  {
    forall k | k in r ensures r[k].size > 0 { var o := RunBlock(t, gone, r, k); }
    forall j, k | j in r && k in r && j < k ensures j < First(r, k) {
      var o := RunBlock(t, gone, r, k);
      var p := RunBlock(t, gone, r, j);
      assert First(r, k) <= j ==> Covers(t, o, j) && j + 1 !in gone;
    }
  }

  /** Cutting is map subtraction: exactly the addresses in `gone` lose their owner. */
  lemma CutTracked(t: Table, gone: set<Addr>, r: Table)
    requires Valid(t) && IsCut(t, gone, r)
    ensures Tracked(r) == Tracked(t) - gone
  {
    forall a | a in Tracked(r) ensures a in Tracked(t) && a !in gone {
      var k := Owner(r, a);
      var o := RunBlock(t, gone, r, k);
      assert Covers(t, o, a);
    }
    forall a | a in Tracked(t) && a !in gone ensures a in Tracked(r) {
      var f, k := SurvivorCovered(t, gone, r, Owner(t, a), a);
    }
  }

  /** Every surviving address keeps the call stack of the allocation that owned it. */
  lemma CutKeepsOwner(t: Table, gone: set<Addr>, a: Addr)
    requires Valid(t) && a in Tracked(t) && a !in gone
    ensures a in Tracked(Cut(t, gone))
    ensures Cut(t, gone)[Owner(Cut(t, gone), a)].callstack == t[Owner(t, a)].callstack
  {
    var r := Cut(t, gone);
    CutIsCut(t, gone);
    var f, k := SurvivorCovered(t, gone, r, Owner(t, a), a);
    CutValid(t, gone, r);
    OwnerUnique(r, k, a);
  }

  /** A block that loses no address is its own only run. */
  lemma WholeBlock(t: Table, gone: set<Addr>, k: Addr)
    requires k in t && t[k].size > 0 && forall a :: First(t, k) <= a <= k ==> a !in gone
    ensures IsRun(t, gone, k, t[k])
    ensures forall f, j :: Piece(t, gone, k, f, j) ==> f == First(t, k) && j == k
  {
    assert Piece(t, gone, k, k - t[k].size + 1, k);
    forall f, j | Piece(t, gone, k, f, j) ensures f == First(t, k) && j == k {
      assert j < k ==> j + 1 !in gone;
      assert First(t, k) < f ==> f - 1 !in gone;
    }
  }

  /** Removing nothing changes nothing. */
  lemma CutNothing(t: Table)
    requires Valid(t)
    ensures IsCut(t, {}, t)
  {
    forall k | k in t
      ensures IsRun(t, {}, k, t[k])
      ensures forall f, j :: Piece(t, {}, k, f, j) ==> f == First(t, k) && j == k
    {
      WholeBlock(t, {}, k);
    }
  }

  /** Two cuts are one cut by the union: neither order nor splitting matters. */
  lemma CutCompose(t: Table, s: set<Addr>, c: Table, u: set<Addr>, d: Table)
    requires Valid(t) && IsCut(t, s, c) && IsCut(c, u, d)
    ensures IsCut(t, s + u, d)
  {
    forall k | k in d ensures IsRun(t, s + u, k, d[k]) {
      hide Valid, IsCut, Piece, IsRun;
      var j := RunBlock(c, u, d, k);
      var o := RunBlock(t, s, c, j);
      PieceOfPiece(t, c, s, u, o, j, k, d[k]);
    }
    forall o, f, k | Piece(t, s + u, o, f, k)
      ensures k in d && d[k] == Allocation(k - f + 1, t[o].callstack)
    {
      CutTwicePiece(t, s, c, u, d, o, f, k);
    }
  }

  lemma CutTwicePiece(t: Table, s: set<Addr>, c: Table, u: set<Addr>, d: Table, o: Addr, f: Addr, k: Addr)
    requires IsCut(t, s, c) && IsCut(c, u, d) && Piece(t, s + u, o, f, k)
    ensures k in d && d[k] == Allocation(k - f + 1, t[o].callstack)
  {
    var g, j := SurvivorCovered(t, s, c, o, k);
    NestPiece(t, s, u, o, f, k, g, j);
    assert Piece(c, u, j, f, k);
  }

  /** A run of a run is a run of the block they both come from. */
  lemma PieceOfPiece(t: Table, c: Table, s: set<Addr>, u: set<Addr>, o: Addr, j: Addr, k: Addr, x: Allocation)
    requires j in c && Piece(t, s, o, First(c, j), j) && c[j].callstack == t[o].callstack
    requires Piece(c, u, j, k - x.size + 1, k) && x.callstack == c[j].callstack
    ensures IsRun(t, s + u, k, x)
  {
    assert Piece(t, s + u, o, k - x.size + 1, k);
  }

  /** A run of the cut by the union is maximal inside the run of the first cut around it. */
  lemma NestPiece(t: Table, s: set<Addr>, u: set<Addr>, o: Addr, f: Addr, k: Addr, g: Addr, j: Addr)
    requires Piece(t, s + u, o, f, k) && Piece(t, s, o, g, j) && g <= k <= j
    ensures g <= f && (f == g || f - 1 in u) && (k == j || k + 1 in u)
    ensures forall a :: f <= a <= k ==> a !in u
  {
    assert f < g ==> g - 1 in s;
    assert g < f ==> f - 1 !in s;
    assert k < j ==> k + 1 !in s;
  }

  // ------------------------------------------------ one block, one subrange

  /** `std::map::insert`: an existing key is left alone. */
  function Insert(t: Table, k: Addr, x: Allocation): Table {
    if k in t then t else t[k := x]
  }

  /** Take `[lo..hi)` out of block `o`, leaving what is below and what is above. */
  ghost function Carve(t: Table, o: Addr, lo: Addr, hi: Addr): Table
    requires Covers(t, o, lo) && lo < hi <= o + 1
  {
    var x, rest := t[o], t - {o};
    var low := if First(t, o) < lo then Insert(rest, lo - 1, Allocation(lo - First(t, o), x.callstack)) else rest;
    if hi <= o then Insert(low, o, Allocation(o - hi + 1, x.callstack)) else low
  }

  lemma CarveIsCut(t: Table, o: Addr, lo: Addr, hi: Addr)
    requires Valid(t) && Covers(t, o, lo) && lo < hi <= o + 1
    ensures IsCut(t, Range(lo, hi), Carve(t, o, lo, hi))
    ensures Range(lo, hi) <= Tracked(t)
  {
    var r, gone := Carve(t, o, lo, hi), Range(lo, hi);
    forall a | a in gone ensures a in Tracked(t) { assert Covers(t, o, a); }
    forall k | k in r ensures IsRun(t, gone, k, r[k]) { CarveRun(t, o, lo, hi, k); }
    forall b, f, k | Piece(t, gone, b, f, k)
      ensures k in r && r[k] == Allocation(k - f + 1, t[b].callstack)
    {
      CarvePiece(t, o, lo, hi, b, f, k);
    }
  }

  lemma CarveRun(t: Table, o: Addr, lo: Addr, hi: Addr, k: Addr)
    requires Valid(t) && Covers(t, o, lo) && lo < hi <= o + 1
    requires k in Carve(t, o, lo, hi)
    ensures IsRun(t, Range(lo, hi), k, Carve(t, o, lo, hi)[k])
  {
    var gone, p := Range(lo, hi), First(t, o);
    assert lo in gone && hi - 1 in gone;
    if k == o {
      assert Piece(t, gone, o, hi, o);
    } else if k == lo - 1 && p < lo {
      assert Piece(t, gone, o, p, lo - 1);
    } else {
      WholeBlock(t, gone, k);
    }
  }

  lemma CarvePiece(t: Table, o: Addr, lo: Addr, hi: Addr, b: Addr, f: Addr, k: Addr)
    requires Valid(t) && Covers(t, o, lo) && lo < hi <= o + 1
    requires Piece(t, Range(lo, hi), b, f, k)
    ensures k in Carve(t, o, lo, hi)
    ensures Carve(t, o, lo, hi)[k] == Allocation(k - f + 1, t[b].callstack)
  {
    if b == o {
      CarvedPieces(t, o, lo, hi, f, k);
    } else {
      WholeBlock(t, Range(lo, hi), b);
    }
  }

  /** What is left of the carved block is the part below and the part above. */
  lemma CarvedPieces(t: Table, o: Addr, lo: Addr, hi: Addr, f: Addr, k: Addr)
    requires Covers(t, o, lo) && lo < hi <= o + 1
    requires Piece(t, Range(lo, hi), o, f, k)
    ensures (f == First(t, o) && k == lo - 1) || (f == hi && k == o)
  {
    var gone := Range(lo, hi);
    assert lo in gone && hi - 1 in gone;
    assert f < lo ==> k < lo;
    assert k + 1 in gone ==> k + 1 == lo || k in gone;
    assert f - 1 in gone ==> f == hi || f in gone;
  }

  // ---------------------------------------------------------------- sizes

  /** Total size of all blocks, as a loop over the table adds it up. */
  ghost function Bytes(t: Table): nat {
    if t.Keys == {} then 0
    else
      var k := Pick(t.Keys);
      t[k].size + Bytes(t - {k})
  }

  lemma BytesRemove(t: Table, k: Addr)
    requires k in t
    ensures Bytes(t) == t[k].size + Bytes(t - {k})
    decreases |t|
  {
    var j := Pick(t.Keys);
    if j != k {
      BytesRemove(t - {j}, k);
      BytesRemove(t - {k}, j);
      assert (t - {j}) - {k} == (t - {k}) - {j};
    }
  }

  lemma BytesInsert(t: Table, k: Addr, x: Allocation)
    requires k !in t
    ensures Bytes(t[k := x]) == Bytes(t) + x.size
  {
    BytesRemove(t[k := x], k);
    assert t[k := x] - {k} == t;
  }

  lemma RangeSize(lo: Addr, hi: Addr)
    requires lo <= hi
    ensures |Range(lo, hi)| == hi - lo
    decreases hi - lo
  {
    if lo < hi {
      RangeSize(lo, hi - 1);
      assert Range(lo, hi) == Range(lo, hi - 1) + {hi - 1};
    }
  }

  /** Taking one block out of a valid table takes out exactly its own addresses. */
  lemma TrackedSplit(t: Table, k: Addr)
    requires Valid(t) && k in t
    ensures Tracked(t) == Tracked(t - {k}) + Range(First(t, k), k + 1)
    ensures Tracked(t - {k}) !! Range(First(t, k), k + 1)
  {
    var r, own := t - {k}, Range(First(t, k), k + 1);
    forall a | a in Tracked(t) ensures a in Tracked(r) + own {
      var j := Owner(t, a);
      assert j == k || Covers(r, j, a);
    }
    forall a | a in Tracked(r) ensures a in Tracked(t) && a !in own {
      var j := Owner(r, a);
      assert Covers(t, j, a);
    }
    forall a | a in own ensures a in Tracked(t) { assert Covers(t, k, a); }
  }

  /** On a valid table the total of the sizes is the number of owned addresses. */
  lemma BytesIsTracked(t: Table)
    requires Valid(t)
    ensures Bytes(t) == |Tracked(t)|
    decreases |t|
  {
    if t.Keys == {} {
      assert Tracked(t) == {};
    } else {
      var k := Pick(t.Keys);
      var r := t - {k};
      BytesRemove(t, k);
      BytesIsTracked(r);
      TrackedSplit(t, k);
      RangeSize(First(t, k), k + 1);
    }
  }
}
