/** What every sequence of tracker calls keeps, and what it does not depend on. */
module MemoryRuns {
  import opened Words
  import opened Collections
  import opened IntervalTable
  import opened MemoryTracker

  /** One public call made while the tracker is active, with the addresses libc handed out. */
  datatype Call =
    | TrackCall(ptr: Addr, size: size_t, stack: CallStack)
    | TrackMappedCall(ptr: Addr, size: size_t, stack: CallStack)
    | RetrackCall(oldPtr: Addr, newPtr: Addr, size: size_t)
    | RemoveCall(ptr: Addr)
    | UnmapCall(ptr: Addr, size: size_t)
    | RemapCall(oldPtr: Addr, oldSize: size_t, newPtr: Addr, size: size_t, stack: CallStack, canAlloc: bool)
    | ClearCall

  ghost function Step(s: State, c: Call): State {
    match c
    case TrackCall(p, n, k) => Track(s, p, n, k)
    case TrackMappedCall(p, n, k) => TrackMapped(s, p, n, k)
    case RetrackCall(o, p, n) => Retrack(s, o, p, n)
    case RemoveCall(p) => Remove(s, p)
    case UnmapCall(p, n) => Unmap(s, p, n)
    case RemapCall(o, m, p, n, k, can) => Remap(s, o, m, p, n, k, can)
    case ClearCall => Clear(s)
  }

  ghost function Run(s: State, cs: seq<Call>): State
    decreases |cs|
  {
    if cs == [] then s else Run(Step(s, cs[0]), cs[1..])
  }

  /** Nobody owns any of the addresses; an empty region does no harm only where an entry stands in its place. */
  ghost predicate FreshRegion(t: Table, ptr: Addr, size: size_t) {
    if size == 0 then ptr - 1 in t else Tracked(t) !! Range(ptr, ptr + size)
  }

  /** What libc promises: it never hands out an address that is still tracked. */
  ghost predicate Fresh(s: State, c: Call) {
    match c
    case TrackCall(p, _, _) => p !in s.blocks
    case TrackMappedCall(p, n, _) => FreshRegion(s.mapped, p, n)
    case RetrackCall(o, p, _) => o !in s.blocks || p == o || p !in s.blocks
    case RemapCall(o, m, p, n, _, can) => FullyTracked(s, o, m) && can ==> FreshRegion(Unmap(s, o, m).mapped, p, n)
    case _ => true
  }

  ghost predicate AllFresh(s: State, cs: seq<Call>)
    decreases |cs|
  {
    cs == [] || (Fresh(s, cs[0]) && AllFresh(Step(s, cs[0]), cs[1..]))
  }

  // --------------------------------------------------------- conservation

  /** Bytes in every live block of both tables. */
  ghost function Live(s: State): nat {
    Bytes(s.blocks) + Bytes(s.mapped)
  }

  /** Bytes and blocks charged but not released, as the counters say. */
  function LiveWord(s: State): size_t { Sub(s.allocateSize, s.freeSize) }

  function CountWord(s: State): size_t { Sub(s.allocateCount, s.freeCount) }

  ghost predicate Balanced(s: State) {
    && Valid(s.mapped)
    && LiveWord(s) == Wrap(Live(s))
    && CountWord(s) == Wrap(|s.blocks|)
  }

  /** Growing both sides by `n`, or shrinking both by `n`, keeps a balance. */
  lemma Charge(alloc: size_t, free: size_t, live: int, n: size_t)
    requires Sub(alloc, free) == Wrap(live)
    ensures Sub(Add(alloc, n), free) == Wrap(live + n)
    ensures Sub(alloc, Add(free, n)) == Wrap(live - n)
  {
    WrapAdd(live, n);
    WrapSub(live, n);
    WrapSmall(n);
    hide Wrap;
  }

  /** `_allocateSize += newSize - oldSize` with an unsigned difference is the true integer update. */
  lemma ChargeDifference(alloc: size_t, free: size_t, live: int, newSize: size_t, oldSize: size_t)
    requires Sub(alloc, free) == Wrap(live)
    ensures Sub(Add(alloc, Sub(newSize, oldSize)), free) == Wrap(live + newSize - oldSize)
  {
    Charge(alloc, free, live, Sub(newSize, oldSize));
    WrapAdd(live, newSize - oldSize);
    WrapAdd(live, Sub(newSize, oldSize));
    WrapSub(newSize, oldSize);
    WrapSmall(newSize);
    WrapSmall(oldSize);
    WrapSmall(Sub(newSize, oldSize));
    hide Wrap, Add;
  }

  lemma TrackBalanced(s: State, ptr: Addr, size: size_t, stack: CallStack)
    requires Balanced(s)
    ensures Balanced(Track(s, ptr, size, stack)) <==> ptr !in s.blocks
  {
    hide Valid, Wrap, Bytes, Add, Sub;
    Charge(s.allocateSize, s.freeSize, Live(s), size);
    Charge(s.allocateCount, s.freeCount, |s.blocks|, 1);
    if ptr in s.blocks {
      WrapDiffers(|s.blocks|, 1);
    } else {
      BytesInsert(s.blocks, ptr, Allocation(size, stack));
    }
  }

  lemma RemoveBalanced(s: State, ptr: Addr)
    requires Balanced(s)
    ensures Balanced(Remove(s, ptr))
  {
    hide Valid, Wrap, Bytes, Add, Sub;
    if ptr in s.blocks {
      DropBlock(s.blocks, ptr);
      Charge(s.allocateSize, s.freeSize, Live(s), s.blocks[ptr].size);
      Charge(s.allocateCount, s.freeCount, |s.blocks|, 1);
    }
  }

  lemma DropBlock(t: Table, k: Addr)
    requires k in t
    ensures Bytes(t - {k}) == Bytes(t) - t[k].size && |t - {k}| == |t| - 1
  {
    BytesRemove(t, k);
    SizeRemove(t, k);
  }

  /** Moving a block to a free address changes the total by the change of its size. */
  lemma MoveBlock(t: Table, o: Addr, p: Addr, x: Allocation)
    requires o in t && (p == o || p !in t)
    ensures Bytes(Insert(t - {o}, p, x)) == Bytes(t) + x.size - t[o].size
    ensures |Insert(t - {o}, p, x)| == |t|
  {
    DropBlock(t, o);
    hide Bytes;
    BytesInsert(t - {o}, p, x);
  }

  /** Moving a block onto another one loses it, while the counts stay. */
  lemma LostBlock(s: State, o: Addr, p: Addr, size: size_t)
    requires o in s.blocks && p in s.blocks && p != o
    ensures |Retrack(s, o, p, size).blocks| == |s.blocks| - 1
    ensures CountWord(Retrack(s, o, p, size)) == CountWord(s)
  {
    SizeRemove(s.blocks, o);
  }

  lemma RetrackBalanced(s: State, oldPtr: Addr, newPtr: Addr, size: size_t)
    requires Balanced(s)
    ensures Balanced(Retrack(s, oldPtr, newPtr, size)) <==>
              oldPtr !in s.blocks || newPtr == oldPtr || newPtr !in s.blocks
  {
    hide Valid, Wrap, Bytes, Add, Sub, Insert;
    if oldPtr in s.blocks && newPtr in s.blocks && newPtr != oldPtr {
      LostBlock(s, oldPtr, newPtr, size);
      WrapDiffers(|s.blocks|, 1);
    } else if oldPtr in s.blocks {
      var x := s.blocks[oldPtr];
      MoveBlock(s.blocks, oldPtr, newPtr, Allocation(size, x.callstack));
      ChargeDifference(s.allocateSize, s.freeSize, Live(s), size, x.size);
    }
  }

  /** A block at addresses nobody owns keeps the others apart. */
  lemma FreshApart(t: Table, ptr: Addr, size: size_t)
    requires Valid(t) && FreshRegion(t, ptr, size) && size > 0
    ensures ptr + size - 1 !in t
    ensures forall j :: j in t ==> ptr + size - 1 < First(t, j) || j < ptr
  {
    var k := ptr + size - 1;
    forall j | j in t ensures j != k && (k < First(t, j) || j < ptr) {
      assert Covers(t, j, j) && Covers(t, j, First(t, j));
      assert j !in Range(ptr, ptr + size) && First(t, j) !in Range(ptr, ptr + size);
      assert ptr in Range(ptr, ptr + size);
      assert First(t, j) <= ptr <= j ==> Covers(t, j, ptr);
    }
  }

  lemma InsertApart(t: Table, k: Addr, x: Allocation)
    requires k !in t
    ensures Valid(Insert(t, k, x)) <==>
              Valid(t) && x.size > 0 && forall j :: j in t ==> k < First(t, j) || j < k - x.size + 1
  {
    var r := Insert(t, k, x);
    assert r[k] == x && First(r, k) == k - x.size + 1;
    assert forall j :: j in t ==> j in r && r[j] == t[j] && First(r, j) == First(t, j) && j != k;
    if Valid(r) {
      forall j | j in t ensures k < First(t, j) || j < First(r, k) { assert j < k || k < j; }
    }
  }

  /** A region at addresses nobody owns keeps the table valid, and adds its size. */
  lemma InsertFresh(t: Table, ptr: Addr, size: size_t, stack: CallStack)
    requires Valid(t) && FreshRegion(t, ptr, size)
    ensures Valid(Insert(t, ptr + size - 1, Allocation(size, stack)))
    ensures Bytes(Insert(t, ptr + size - 1, Allocation(size, stack))) == Bytes(t) + size
  {
    if size > 0 {
      FreshApart(t, ptr, size);
      hide Valid, Bytes, FreshRegion;
      InsertApart(t, ptr + size - 1, Allocation(size, stack));
      BytesInsert(t, ptr + size - 1, Allocation(size, stack));
    }
  }

  /** A new entry in a table that stays valid owns addresses nobody owned. */
  lemma InsertedWasFresh(t: Table, ptr: Addr, size: size_t, stack: CallStack)
    requires Valid(t) && Valid(Insert(t, ptr + size - 1, Allocation(size, stack))) && ptr + size - 1 !in t
    ensures FreshRegion(t, ptr, size)
  {
    InsertApart(t, ptr + size - 1, Allocation(size, stack));
    hide Valid, Insert;
    forall a | a in Tracked(t) ensures a !in Range(ptr, ptr + size) {
      assert Covers(t, Owner(t, a), a);
    }
  }

  lemma TrackMappedBalanced(s: State, ptr: Addr, size: size_t, stack: CallStack)
    requires Balanced(s)
    ensures Balanced(TrackMapped(s, ptr, size, stack)) <==> FreshRegion(s.mapped, ptr, size)
  {
    hide Valid, Wrap, Bytes, Add, Sub, Insert, FreshRegion;
    Charge(s.allocateSize, s.freeSize, Live(s), size);
    if FreshRegion(s.mapped, ptr, size) {
      InsertFresh(s.mapped, ptr, size, stack);
    } else if ptr + size - 1 in s.mapped {
      StaleRegion(s.mapped, ptr, size, stack);
      WrapDiffers(Live(s), size);
    } else if Balanced(TrackMapped(s, ptr, size, stack)) {
      InsertedWasFresh(s.mapped, ptr, size, stack);
    }
  }

  lemma StaleRegion(t: Table, ptr: Addr, size: size_t, stack: CallStack)
    requires ptr + size - 1 in t && !FreshRegion(t, ptr, size)
    ensures size > 0 && Insert(t, ptr + size - 1, Allocation(size, stack)) == t
  {
  }

  /** The addresses of a new region belong to a block with its call stack, and all others keep their owner's. */
  lemma MappedOwners(s: State, ptr: Addr, size: size_t, stack: CallStack)
    requires Valid(s.mapped) && size > 0 && FreshRegion(s.mapped, ptr, size)
    ensures var t := TrackMapped(s, ptr, size, stack).mapped;
            && Valid(t) && Tracked(t) == Tracked(s.mapped) + Range(ptr, ptr + size)
            && (forall a :: a in Range(ptr, ptr + size) ==>
                  Owner(t, a) == ptr + size - 1 && t[Owner(t, a)] == Allocation(size, stack))
            && (forall a :: a in Tracked(s.mapped) ==>
                  Owner(t, a) == Owner(s.mapped, a) && t[Owner(t, a)] == s.mapped[Owner(s.mapped, a)])
  {
    var t, k := TrackMapped(s, ptr, size, stack).mapped, ptr + size - 1;
    FreshApart(s.mapped, ptr, size);
    InsertFresh(s.mapped, ptr, size, stack);
    assert t == s.mapped[k := Allocation(size, stack)];
    hide TrackMapped, FreshRegion;
    forall a | a in Range(ptr, ptr + size) ensures a in Tracked(t) && Owner(t, a) == k { OwnerUnique(t, k, a); }
    forall a | a in Tracked(s.mapped) ensures a in Tracked(t) && Owner(t, a) == Owner(s.mapped, a) && a != k {
      var o := Owner(s.mapped, a);
      assert o != k && Covers(t, o, a);
      OwnerUnique(t, o, a);
    }
    forall a | a in Tracked(t) ensures a in Tracked(s.mapped) || a in Range(ptr, ptr + size) {
      var o := Owner(t, a);
      assert if o == k then Between(ptr, a, ptr + size) else Covers(s.mapped, o, a);
    }
  }

  /** A word keeps two integers apart when they are less than 2^64 apart. */
  lemma WrapDiffers(x: int, n: size_t)
    requires n > 0
    ensures Wrap(x + n) != Wrap(x) && Wrap(x - n) != Wrap(x)
  {
  }

  /** Releasing tracked addresses takes exactly their number off the live bytes. */
  lemma ReleaseBytes(t: Table, lo: Addr, hi: Addr)
    requires Valid(t) && lo <= hi && Range(lo, hi) <= Tracked(t)
    ensures Valid(Cut(t, Range(lo, hi)))
    ensures Bytes(Cut(t, Range(lo, hi))) == Bytes(t) - (hi - lo)
  {
    hide Valid, Tracked, Cut, IsCut, Bytes, Range;
    var c := Cut(t, Range(lo, hi));
    CutIsCut(t, Range(lo, hi));
    CutValid(t, Range(lo, hi), c);
    CutTracked(t, Range(lo, hi), c);
    BytesIsTracked(t);
    BytesIsTracked(c);
    RangeSize(lo, hi);
  }

  lemma UnmapBalanced(s: State, ptr: Addr, size: size_t)
    requires Balanced(s)
    ensures Balanced(Unmap(s, ptr, size))
  {
    hide Valid, Wrap, Bytes, Add, Sub, Cut, Tracked, Range, FirstGap;
    var stop := FirstGap(s.mapped, ptr, ptr + size);
    ReleaseBytes(s.mapped, ptr, stop);
    Charge(s.allocateSize, s.freeSize, Live(s), stop - ptr);
  }

  lemma ClearedTables(s: State)
    ensures Valid(Clear(s).mapped) && Live(Clear(s)) == 0 && |Clear(s).blocks| == 0
  {
  }

  lemma ClearBalanced(s: State)
    requires Balanced(s)
    ensures Balanced(Clear(s))
  {
    hide Wrap, Bytes, Valid;
    ClearedTables(s);
    var b, m := Bytes(s.blocks), Bytes(s.mapped);
    ClearCharge(s.allocateSize, s.freeSize, b, m);
    ClearCharge(s.allocateCount, s.freeCount, |s.blocks|, 0);
    WrapSmall(0);
  }

  lemma SettleAll(alloc: size_t, free: size_t, x: size_t, y: size_t)
    requires Sub(alloc, free) == Add(x, y)
    ensures Sub(alloc, Add(Add(free, x), y)) == 0
  {
  }

  lemma ClearCharge(alloc: size_t, free: size_t, b: nat, m: nat)
    requires Sub(alloc, free) == Wrap(b + m)
    ensures Sub(alloc, Add(Add(free, Wrap(b)), Wrap(m))) == 0
  {
    WrapAdd(b, m);
    hide Wrap;
    SettleAll(alloc, free, Wrap(b), Wrap(m));
  }

  /**
   A call keeps the balance exactly when it meets only fresh addresses: `insert` leaves a
   stale entry alone, yet the counters are charged.
   */
  lemma StepBalancedIff(s: State, c: Call)
    requires Balanced(s)
    ensures Balanced(Step(s, c)) <==> Fresh(s, c)
  {
    hide Balanced, Track, TrackMapped, Retrack, Remove, Unmap, Clear, FreshRegion, FullyTracked;
    match c
    case TrackCall(p, n, k) => TrackBalanced(s, p, n, k);
    case TrackMappedCall(p, n, k) => TrackMappedBalanced(s, p, n, k);
    case RetrackCall(o, p, n) => RetrackBalanced(s, o, p, n);
    case RemoveCall(p) => RemoveBalanced(s, p);
    case UnmapCall(p, n) => UnmapBalanced(s, p, n);
    case RemapCall(o, m, p, n, k, can) =>
      UnmapBalanced(s, o, m);
      if FullyTracked(s, o, m) && can { TrackMappedBalanced(Unmap(s, o, m), p, n, k); }
    case ClearCall => ClearBalanced(s);
  }

  /** In every run from an empty tracker the counters tell the live bytes and the live heap blocks. */
  lemma {:induction false} RunBalanced(s: State, cs: seq<Call>)
    requires Balanced(s) && AllFresh(s, cs)
    ensures Balanced(Run(s, cs))
    decreases |cs|
  {
    hide Balanced, Step, Fresh;
    if cs != [] {
      StepBalancedIff(s, cs[0]);
      RunBalanced(Step(s, cs[0]), cs[1..]);
    }
  }

  lemma InitialBalanced()
    ensures Balanced(INITIAL)
  {
    assert Bytes(INITIAL.blocks) == 0;
    WrapSmall(0);
  }

  // ------------------------------------------------- counters that never wrap

  /** The most bytes a call may add to the allocation counter. */
  function Claims(c: Call): nat {
    match c
    case TrackCall(_, n, _) => n
    case TrackMappedCall(_, n, _) => n
    case RetrackCall(_, _, n) => n
    case RemapCall(_, _, _, n, _, _) => n
    case _ => 0
  }

  function TotalClaims(cs: seq<Call>): nat {
    if cs == [] then 0 else Claims(cs[0]) + TotalClaims(cs[1..])
  }

  /** The counters are the true integers. */
  ghost predicate Exact(s: State) {
    Valid(s.mapped) && s.allocateSize == s.freeSize + Live(s)
  }

  lemma MappedExact(s: State, ptr: Addr, size: size_t, stack: CallStack)
    requires Exact(s) && FreshRegion(s.mapped, ptr, size) && s.allocateSize + size < W64
    ensures var r := TrackMapped(s, ptr, size, stack);
            Exact(r) && r.freeSize == s.freeSize && r.allocateSize == s.allocateSize + size
  {
    hide Valid, Bytes, FreshRegion, Insert;
    InsertFresh(s.mapped, ptr, size, stack);
  }

  lemma UnmapExact(s: State, ptr: Addr, size: size_t)
    requires Exact(s)
    ensures var r := Unmap(s, ptr, size); Exact(r) && s.freeSize <= r.freeSize && r.allocateSize == s.allocateSize
  {
    hide Valid, Bytes, Cut, Tracked, Range;
    ReleaseBytes(s.mapped, ptr, FirstGap(s.mapped, ptr, ptr + size));
  }

  lemma ClearExact(s: State)
    requires Exact(s)
    ensures var r := Clear(s); Exact(r) && s.freeSize <= r.freeSize && r.allocateSize == s.allocateSize
  {
    WrapSmall(Bytes(s.blocks));
    WrapSmall(Bytes(s.mapped));
    hide Wrap;
  }

  lemma TrackExact(s: State, ptr: Addr, size: size_t, stack: CallStack)
    requires Exact(s) && ptr !in s.blocks && s.allocateSize + size < W64
    ensures var r := Track(s, ptr, size, stack);
            Exact(r) && r.freeSize == s.freeSize && r.allocateSize == s.allocateSize + size
  {
    hide Valid, Bytes, Insert;
    InsertHeap(s.blocks, ptr, Allocation(size, stack));
  }

  lemma RetrackExact(s: State, o: Addr, p: Addr, size: size_t)
    requires Exact(s) && (o !in s.blocks || p == o || p !in s.blocks) && s.allocateSize + size < W64
    ensures var r := Retrack(s, o, p, size);
            Exact(r) && r.freeSize == s.freeSize && r.allocateSize <= s.allocateSize + size
  {
    hide Valid, Bytes, Insert;
    if o in s.blocks {
      DropBlock(s.blocks, o);
      MoveBlock(s.blocks, o, p, Allocation(size, s.blocks[o].callstack));
    }
  }

  lemma RemoveExact(s: State, ptr: Addr)
    requires Exact(s)
    ensures var r := Remove(s, ptr); Exact(r) && s.freeSize <= r.freeSize && r.allocateSize == s.allocateSize
  {
    hide Valid, Bytes;
    if ptr in s.blocks { DropBlock(s.blocks, ptr); }
  }

  lemma StepExact(s: State, c: Call)
    requires Exact(s) && Fresh(s, c) && s.allocateSize + Claims(c) < W64
    ensures var r := Step(s, c); Exact(r) && s.freeSize <= r.freeSize && r.allocateSize <= s.allocateSize + Claims(c)
  {
    hide Exact, Track, Retrack, Remove, Unmap, Clear, TrackMapped, FreshRegion, FullyTracked;
    match c
    case TrackCall(p, n, k) => TrackExact(s, p, n, k);
    case TrackMappedCall(p, n, k) => MappedExact(s, p, n, k);
    case RetrackCall(o, p, n) => RetrackExact(s, o, p, n);
    case RemoveCall(p) => RemoveExact(s, p);
    case UnmapCall(p, n) => UnmapExact(s, p, n);
    case RemapCall(o, m, p, n, k, can) =>
      UnmapExact(s, o, m);
      if FullyTracked(s, o, m) && can { MappedExact(Unmap(s, o, m), p, n, k); }
    case ClearCall => ClearExact(s);
  }

  lemma InsertHeap(t: Table, p: Addr, x: Allocation)
    requires p !in t
    ensures Bytes(Insert(t, p, x)) == Bytes(t) + x.size
  {
    BytesInsert(t, p, x);
  }

  /** While fewer than 2^64 bytes are claimed in all, no counter wraps and the free counter only grows. */
  lemma {:induction false} RunExact(s: State, cs: seq<Call>)
    requires Exact(s) && AllFresh(s, cs) && s.allocateSize + TotalClaims(cs) < W64
    ensures var r := Run(s, cs); Exact(r) && s.freeSize <= r.freeSize
    decreases |cs|
  {
    hide Exact, Step, Fresh;
    if cs != [] {
      StepExact(s, cs[0]);
      RunExact(Step(s, cs[0]), cs[1..]);
    }
  }

  /** The block counters are the true integers. */
  ghost predicate ExactCounts(s: State) {
    s.allocateCount == s.freeCount + |s.blocks|
  }

  /** Heap blocks a call takes off the table. */
  ghost function Freed(s: State, c: Call): nat {
    match c
    case RemoveCall(p) => One(p in s.blocks)
    case ClearCall => |s.blocks|
    case _ => 0
  }

  ghost function AllFreed(s: State, cs: seq<Call>): nat
    decreases |cs|
  {
    if cs == [] then 0 else Freed(s, cs[0]) + AllFreed(Step(s, cs[0]), cs[1..])
  }

  /** Calls that add a heap block. */
  function Additions(cs: seq<Call>): nat {
    if cs == [] then 0 else One(cs[0].TrackCall?) + Additions(cs[1..])
  }

  /** Mapped regions are not counted. */
  lemma MappedCounts(s: State, c: Call)
    requires c.TrackMappedCall? || c.UnmapCall? || c.RemapCall?
    ensures var r := Step(s, c);
            r.blocks == s.blocks && r.allocateCount == s.allocateCount && r.freeCount == s.freeCount
  {
    hide Bytes, Cut, FreshRegion, FullyTracked, FirstGap, Valid, Tracked, Insert;
  }

  lemma SameCounts(s: State, r: State)
    requires ExactCounts(s) && r.blocks == s.blocks && r.allocateCount == s.allocateCount && r.freeCount == s.freeCount
    ensures ExactCounts(r)
  {
  }

  lemma TrackCounts(s: State, ptr: Addr, size: size_t, stack: CallStack)
    requires ExactCounts(s) && ptr !in s.blocks && s.allocateCount + 1 < W64
    ensures var r := Track(s, ptr, size, stack);
            ExactCounts(r) && r.allocateCount == s.allocateCount + 1 && r.freeCount == s.freeCount
  {
    assert Insert(s.blocks, ptr, Allocation(size, stack)) - {ptr} == s.blocks;
    SizeRemove(Insert(s.blocks, ptr, Allocation(size, stack)), ptr);
  }

  lemma RetrackCounts(s: State, o: Addr, p: Addr, size: size_t)
    requires ExactCounts(s) && (o !in s.blocks || p == o || p !in s.blocks)
    ensures var r := Retrack(s, o, p, size);
            ExactCounts(r) && r.allocateCount == s.allocateCount && r.freeCount == s.freeCount
  {
    hide Bytes, Insert;
    if o in s.blocks { MoveBlock(s.blocks, o, p, Allocation(size, s.blocks[o].callstack)); }
  }

  lemma RemoveCounts(s: State, ptr: Addr)
    requires ExactCounts(s)
    ensures var r := Remove(s, ptr);
            ExactCounts(r) && r.allocateCount == s.allocateCount && r.freeCount == s.freeCount + One(ptr in s.blocks)
  {
    if ptr in s.blocks { SizeRemove(s.blocks, ptr); }
  }

  lemma ClearCounts(s: State)
    requires ExactCounts(s)
    ensures var r := Clear(s);
            ExactCounts(r) && r.allocateCount == s.allocateCount && r.freeCount == s.freeCount + |s.blocks|
  {
    WrapSmall(|s.blocks|);
    hide Wrap, Bytes;
  }

  lemma StepCounts(s: State, c: Call)
    requires ExactCounts(s) && Fresh(s, c) && s.allocateCount + 1 < W64
    ensures var r := Step(s, c);
            && ExactCounts(r)
            && r.allocateCount == s.allocateCount + One(c.TrackCall?) && r.freeCount == s.freeCount + Freed(s, c)
  {
    hide ExactCounts, Track, Retrack, Remove, Clear, TrackMapped, Unmap, Remap, FreshRegion, FullyTracked;
    match c
    case TrackCall(p, n, k) => TrackCounts(s, p, n, k);
    case RetrackCall(o, p, n) => RetrackCounts(s, o, p, n);
    case RemoveCall(p) => RemoveCounts(s, p);
    case ClearCall => ClearCounts(s);
    case _ => MappedCounts(s, c); SameCounts(s, Step(s, c));
  }

  /**
   In a run of fewer than 2^64 calls no block counter wraps: one counts the blocks added, the
   other the blocks released, and their difference is the blocks there are.
   */
  lemma {:induction false} RunCountsExact(s: State, cs: seq<Call>)
    requires ExactCounts(s) && AllFresh(s, cs) && s.allocateCount + |cs| < W64
    ensures var r := Run(s, cs);
            && ExactCounts(r)
            && r.allocateCount == s.allocateCount + Additions(cs) && r.freeCount == s.freeCount + AllFreed(s, cs)
            && s.freeCount <= r.freeCount
    ensures Additions(cs) <= |cs|
    decreases |cs|
  {
    hide ExactCounts, Step, Fresh, Freed;
    if cs != [] {
      StepCounts(s, cs[0]);
      RunCountsExact(Step(s, cs[0]), cs[1..]);
    }
  }

  // --------------------------------------------------- order of unmapping

  datatype Span = Span(ptr: Addr, size: size_t)

  ghost function SpanRange(x: Span): set<Addr> { Range(x.ptr, x.ptr + x.size) }

  ghost function Addresses(xs: seq<Span>): set<Addr> {
    if xs == [] then {} else SpanRange(xs[0]) + Addresses(xs[1..])
  }

  ghost predicate Apart(xs: seq<Span>) {
    xs == [] || (SpanRange(xs[0]) !! Addresses(xs[1..]) && Apart(xs[1..]))
  }

  ghost function UnmapAll(s: State, xs: seq<Span>): State
    decreases |xs|
  {
    if xs == [] then s else UnmapAll(Unmap(s, xs[0].ptr, xs[0].size), xs[1..])
  }

  /** Every call of the series finds all of its range tracked. */
  ghost predicate AllSucceed(s: State, xs: seq<Span>)
    decreases |xs|
  {
    xs == [] || (FullyTracked(s, xs[0].ptr, xs[0].size) && AllSucceed(Unmap(s, xs[0].ptr, xs[0].size), xs[1..]))
  }

  /** The state after a set of tracked addresses is released. */
  ghost function ReleaseSet(s: State, gone: set<Addr>): State {
    s.(mapped := Cut(s.mapped, gone), freeSize := Add(s.freeSize, Wrap(|gone|)))
  }

  lemma UnmapTracked(s: State, x: Span)
    requires Valid(s.mapped) && FullyTracked(s, x.ptr, x.size)
    ensures Unmap(s, x.ptr, x.size) == ReleaseSet(s, SpanRange(x))
    ensures Valid(Unmap(s, x.ptr, x.size).mapped)
    ensures Tracked(Unmap(s, x.ptr, x.size).mapped) == Tracked(s.mapped) - SpanRange(x)
  {
    hide Valid, Cut, IsCut, Tracked, FirstGap, Range;
    GapIffNotFullyTracked(s, x.ptr, x.size);
    RangeSize(x.ptr, x.ptr + x.size);
    WrapSmall(x.size);
    CutIsCut(s.mapped, SpanRange(x));
    CutValid(s.mapped, SpanRange(x), Cut(s.mapped, SpanRange(x)));
    CutTracked(s.mapped, SpanRange(x), Cut(s.mapped, SpanRange(x)));
  }

  /** Releasing two disjoint sets one after the other is releasing their union. */
  lemma ReleaseUnion(s: State, a: set<Addr>, b: set<Addr>)
    requires Valid(s.mapped) && a !! b
    ensures ReleaseSet(ReleaseSet(s, a), b) == ReleaseSet(s, a + b)
  {
    hide Valid, Cut, IsCut, Wrap, Add;
    var c := Cut(s.mapped, a);
    CutIsCut(s.mapped, a);
    CutValid(s.mapped, a, c);
    CutIsCut(c, b);
    CutCompose(s.mapped, a, c, b, Cut(c, b));
    CutUnique(s.mapped, a + b, Cut(c, b));
    WrapAdd(|a|, |b|);
    AddAssociates(s.freeSize, Wrap(|a|), Wrap(|b|));
  }

  /** A series succeeds exactly when its ranges are tracked and do not overlap; it then releases their union. */
  lemma {:induction false} SeriesReleases(s: State, xs: seq<Span>)
    requires Valid(s.mapped)
    ensures AllSucceed(s, xs) <==> Apart(xs) && Addresses(xs) <= Tracked(s.mapped)
    ensures AllSucceed(s, xs) ==> UnmapAll(s, xs) == ReleaseSet(s, Addresses(xs))
    decreases |xs|
  {
    hide Valid, Tracked, Unmap, ReleaseSet, Range;
    if xs == [] {
      ReleaseNothing(s);
    } else if FullyTracked(s, xs[0].ptr, xs[0].size) {
      UnmapTracked(s, xs[0]);
      SeriesReleases(Unmap(s, xs[0].ptr, xs[0].size), xs[1..]);
      if SpanRange(xs[0]) !! Addresses(xs[1..]) { ReleaseUnion(s, SpanRange(xs[0]), Addresses(xs[1..])); }
    }
  }

  lemma ReleaseNothing(s: State)
    requires Valid(s.mapped)
    ensures ReleaseSet(s, {}) == s
  {
    hide Valid, Cut, IsCut;
    CutNothing(s.mapped);
    CutUnique(s.mapped, {}, s.mapped);
    WrapSmall(0);
  }

  /** Neither the order nor the splitting of successful unmaps matters. */
  lemma UnmapOrder(s: State, xs: seq<Span>, ys: seq<Span>)
    requires Valid(s.mapped) && AllSucceed(s, xs) && AllSucceed(s, ys)
    requires Addresses(xs) == Addresses(ys)
    ensures UnmapAll(s, xs) == UnmapAll(s, ys)
  {
    hide Valid, ReleaseSet, Tracked;
    SeriesReleases(s, xs);
    SeriesReleases(s, ys);
  }

  // ------------------------------------------------------ high-water marks

  /** The call ends with new live memory, so both high-water marks are taken. */
  ghost predicate Allocates(s: State, c: Call) {
    match c
    case TrackCall(_, _, _) => true
    case TrackMappedCall(_, _, _) => true
    case RetrackCall(o, _, _) => o in s.blocks
    case RemapCall(o, m, _, _, _, can) => FullyTracked(s, o, m) && can
    case _ => false
  }

  /** Call number `i` of the run allocates and leaves the state `t`. */
  ghost predicate AllocatingStep(s: State, cs: seq<Call>, i: nat, t: State) {
    && i < |cs|
    && Allocates(Run(s, cs[..i]), cs[i])
    && t == Step(Run(s, cs[..i]), cs[i])
  }

  lemma {:induction false} AllocatingStepShift(s: State, cs: seq<Call>, i: nat, t: State)
    requires cs != []
    ensures AllocatingStep(s, cs, i + 1, t) <==> AllocatingStep(Step(s, cs[0]), cs[1..], i, t)
    ensures AllocatingStep(s, cs, 0, t) <==> Allocates(s, cs[0]) && t == Step(s, cs[0])
  {
    hide Step, Allocates;
    if i + 1 < |cs| { assert cs[..i + 1][1..] == cs[1..][..i]; }
  }

  /**
   The marks never fall below what they were nor below the live bytes and blocks
   after any allocating call, and whatever they end at was reached.
   */
  lemma {:induction false} MarksArePeaks(s: State, cs: seq<Call>)
    ensures var r := Run(s, cs);
            && s.maxAllocate <= r.maxAllocate && s.maxAllocateCount <= r.maxAllocateCount
            && (forall i, t :: AllocatingStep(s, cs, i, t) ==>
                  LiveWord(t) <= r.maxAllocate && CountWord(t) <= r.maxAllocateCount)
            && (r.maxAllocate == s.maxAllocate
                || exists i, t :: AllocatingStep(s, cs, i, t) && LiveWord(t) == r.maxAllocate)
            && (r.maxAllocateCount == s.maxAllocateCount
                || exists i, t :: AllocatingStep(s, cs, i, t) && CountWord(t) == r.maxAllocateCount)
    decreases |cs|
  {
    hide Step, AllocatingStep, Allocates, LiveWord, CountWord;
    if cs == [] {
      NoStep(s);
    } else {
      var s1, rest, r := Step(s, cs[0]), cs[1..], Run(s, cs);
      StepMarks(s, cs[0]);
      MarksArePeaks(s1, rest);
      AllocatingStepShift(s, cs, 0, s1);
      forall i: nat, t ensures AllocatingStep(s, cs, i + 1, t) <==> AllocatingStep(s1, rest, i, t) {
        AllocatingStepShift(s, cs, i, t);
      }
      forall i: nat, t | AllocatingStep(s, cs, i, t)
        ensures LiveWord(t) <= r.maxAllocate && CountWord(t) <= r.maxAllocateCount
      {
        if i == 0 { AllocatingStepShift(s, cs, 0, t); } else { AllocatingStepShift(s, cs, i - 1, t); }
      }
    }
  }

  lemma NoStep(s: State)
    ensures forall i, t :: !AllocatingStep(s, [], i, t)
  {
  }

  lemma StepMarks(s: State, c: Call)
    ensures var r := Step(s, c);
            if Allocates(s, c)
            then r.maxAllocate == Max(s.maxAllocate, LiveWord(r))
              && r.maxAllocateCount == Max(s.maxAllocateCount, CountWord(r))
            else r.maxAllocate == s.maxAllocate && r.maxAllocateCount == s.maxAllocateCount
  {
  }
}
