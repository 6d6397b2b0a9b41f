/**
 The memory tracker: heap blocks in a hash table keyed by address, mapped regions
 in an ordered table keyed by last address, and six wrapping counters.
 */
module MemoryTracker {
  import opened Words
  import opened Collections
  import opened IntervalTable

  datatype State = State(
    blocks: Table,
    mapped: Table,
    allocateSize: size_t,
    freeSize: size_t,
    allocateCount: size_t,
    freeCount: size_t,
    maxAllocate: size_t,
    maxAllocateCount: size_t)

  const INITIAL := State(map[], map[], 0, 0, 0, 0, 0, 0)

  /** How a call ended: normally, by ignoring an unknown block, or by raising. */
  datatype Outcome = Done | Ignored | Raised(at: Addr)

  // ------------------------------------------------- reference transitions

  /** The two high-water marks, taken after every allocating step. */
  function Mark(s: State): State {
    s.(maxAllocate := Max(s.maxAllocate, Sub(s.allocateSize, s.freeSize)),
       maxAllocateCount := Max(s.maxAllocateCount, Sub(s.allocateCount, s.freeCount)))
  }

  function Track(s: State, ptr: Addr, size: size_t, stack: CallStack): State {
    Mark(s.(blocks := Insert(s.blocks, ptr, Allocation(size, stack)),
            allocateSize := Add(s.allocateSize, size),
            allocateCount := Add(s.allocateCount, 1)))
  }

  function TrackMapped(s: State, ptr: Addr, size: size_t, stack: CallStack): State {
    Mark(s.(mapped := Insert(s.mapped, ptr + size - 1, Allocation(size, stack)),
            allocateSize := Add(s.allocateSize, size)))
  }

  /** A moved block keeps its call stack and is charged the true change of size. */
  function Retrack(s: State, oldPtr: Addr, newPtr: Addr, newSize: size_t): State {
    if oldPtr !in s.blocks then s
    else
      var x := s.blocks[oldPtr];
      Mark(s.(blocks := Insert(s.blocks - {oldPtr}, newPtr, Allocation(newSize, x.callstack)),
              allocateSize := Add(s.allocateSize, Sub(newSize, x.size))))
  }

  function Remove(s: State, ptr: Addr): State {
    if ptr !in s.blocks then s
    else
      s.(blocks := s.blocks - {ptr},
         freeSize := Add(s.freeSize, s.blocks[ptr].size),
         freeCount := Add(s.freeCount, 1))
  }

  /** The first address of `[lo..hi)` nobody owns, or `hi`. */
  ghost function FirstGap(t: Table, lo: Addr, hi: Addr): (g: Addr)
    requires lo <= hi
    ensures lo <= g <= hi && Range(lo, g) <= Tracked(t)
    ensures g < hi ==> g !in Tracked(t)
    decreases hi - lo
  {
    if lo == hi || lo !in Tracked(t) then lo
    else
      var g := FirstGap(t, lo + 1, hi);
      assert forall a :: a in Range(lo, g) ==> a == lo || a in Range(lo + 1, g);
      g
  }

  lemma FirstGapUnique(t: Table, lo: Addr, hi: Addr, g: Addr)
    requires lo <= g <= hi && Range(lo, g) <= Tracked(t) && (g == hi || g !in Tracked(t))
    ensures FirstGap(t, lo, hi) == g
  {
    var f := FirstGap(t, lo, hi);
    assert f < g ==> f in Range(lo, g);
    assert g < f ==> g in Range(lo, f);
  }

  /** The state after `[ptr..stop)` is taken away from every region. */
  ghost function Release(s: State, ptr: Addr, stop: Addr): State
    requires 0 <= stop - ptr < W64
  {
    s.(mapped := Cut(s.mapped, Range(ptr, stop)), freeSize := Add(s.freeSize, stop - ptr))
  }

  /** Unmapping is map subtraction up to the first address nobody owns. */
  ghost function Unmap(s: State, ptr: Addr, size: size_t): State {
    Release(s, ptr, FirstGap(s.mapped, ptr, ptr + size))
  }

  ghost predicate FullyTracked(s: State, ptr: Addr, size: nat) {
    Range(ptr, ptr + size) <= Tracked(s.mapped)
  }

  lemma GapIffNotFullyTracked(s: State, ptr: Addr, size: nat)
    ensures FullyTracked(s, ptr, size) <==> FirstGap(s.mapped, ptr, ptr + size) == ptr + size
  {
    var g := FirstGap(s.mapped, ptr, ptr + size);
    assert g < ptr + size ==> g in Range(ptr, ptr + size);
  }

  /** Moving a region is unmapping the old range and, when all of it was tracked, mapping the new one. */
  ghost function Remap(s: State, oldPtr: Addr, oldSize: size_t, newPtr: Addr, newSize: size_t,
      stack: CallStack, canAlloc: bool): State {
    if FullyTracked(s, oldPtr, oldSize) && canAlloc
    then TrackMapped(Unmap(s, oldPtr, oldSize), newPtr, newSize, stack)
    else Unmap(s, oldPtr, oldSize)
  }

  /** Every block of both tables is released and charged to the free counters. */
  ghost function Clear(s: State): State {
    s.(blocks := map[], mapped := map[],
       freeSize := Add(Add(s.freeSize, Wrap(Bytes(s.blocks))), Wrap(Bytes(s.mapped))),
       freeCount := Add(s.freeCount, Wrap(|s.blocks|)))
  }

  // ------------------------------------------------- what stands at an address

  /** A known block moved to itself or to a free address is found there alone, with its call stack. */
  lemma MovedBlock(s: State, o: Addr, p: Addr, size: size_t)
    requires o in s.blocks && (p == o || p !in s.blocks)
    ensures var r := Retrack(s, o, p, size).blocks;
            && r.Keys == s.blocks.Keys - {o} + {p}
            && r[p] == Allocation(size, s.blocks[o].callstack)
            && (forall a :: a in s.blocks && a != o && a != p ==> a in r && r[a] == s.blocks[a])
  {
    var r := Retrack(s, o, p, size).blocks;
    assert r == (s.blocks - {o})[p := Allocation(size, s.blocks[o].callstack)];
  }

  /** Tracking at an address nobody has, moving to another one and freeing there leaves the blocks as before. */
  lemma TrackMoveFree(s: State, o: Addr, n: size_t, stack: CallStack, p: Addr, m: size_t)
    requires o !in s.blocks && p !in s.blocks
    ensures var t := Track(s, o, n, stack);
            && t.blocks == s.blocks[o := Allocation(n, stack)]
            && Retrack(t, o, p, m).blocks == s.blocks[p := Allocation(m, stack)]
            && Remove(Retrack(t, o, p, m), p).blocks == s.blocks
  {
    var t := Track(s, o, n, stack);
    MovedBlock(t, o, p, m);
    var u := Retrack(t, o, p, m);
    assert u.blocks == s.blocks[p := Allocation(m, stack)];
    assert u.blocks - {p} == s.blocks;
  }

  // --------------------------------------------- progress of a release loop

  /** One turn took `[p..q)` out of table `t`, every address of it tracked. */
  ghost predicate Trimmed(t: Table, free: size_t, p: Addr, q: Addr, t': Table, free': size_t) {
    && 0 < q - p < W64
    && IsCut(t, Range(p, q), t')
    && Range(p, q) <= Tracked(t)
    && free' == Add(free, q - p)
  }

  /** `[ptr..stop)` is released: the table is the cut so far. */
  ghost predicate Released(s: State, ptr: Addr, stop: Addr, t: Table, free: size_t) {
    && 0 <= stop - ptr < W64
    && Valid(s.mapped)
    && Valid(t)
    && IsCut(s.mapped, Range(ptr, stop), t)
    && Range(ptr, stop) <= Tracked(s.mapped)
    && free == Add(s.freeSize, stop - ptr)
  }

  lemma ReleasedStart(s: State, ptr: Addr)
    requires Valid(s.mapped)
    ensures Released(s, ptr, ptr, s.mapped, s.freeSize)
  {
    CutNothing(s.mapped);
    assert Range(ptr, ptr) == {};
  }

  lemma ReleasedStep(s: State, ptr: Addr, p: Addr, q: Addr, t: Table, free: size_t, t': Table, free': size_t)
    requires Released(s, ptr, p, t, free) && Trimmed(t, free, p, q, t', free') && q - ptr < W64
    ensures Released(s, ptr, q, t', free') && Valid(t')
  {
    CutTracked(s.mapped, Range(ptr, p), t);
    CutValid(t, Range(p, q), t');
    CutCompose(s.mapped, Range(ptr, p), t, Range(p, q), t');
    assert Range(ptr, p) + Range(p, q) == Range(ptr, q);
  }

  /** Releasing stops at the first address nobody owns. */
  lemma StopIsFirstGap(m: Table, lo: Addr, stop: Addr, hi: Addr, t: Table)
    requires Valid(m) && lo <= stop <= hi && Range(lo, stop) <= Tracked(m) && IsCut(m, Range(lo, stop), t)
    requires stop == hi || stop !in Tracked(t)
    ensures stop == FirstGap(m, lo, hi)
    ensures t == Cut(m, Range(lo, stop))
  {
    CutTracked(m, Range(lo, stop), t);
    CutUnique(m, Range(lo, stop), t);
    assert stop !in Range(lo, stop);
    FirstGapUnique(m, lo, hi, stop);
  }

  /** At the end the table is the cut up to the first address nobody owns. */
  lemma ReleasedEnd(s: State, ptr: Addr, stop: Addr, size: size_t, t: Table, free: size_t)
    requires Released(s, ptr, stop, t, free) && stop <= ptr + size
    requires stop == ptr + size || stop !in Tracked(t)
    ensures s.(mapped := t, freeSize := free) == Unmap(s, ptr, size) && Valid(t)
    ensures stop == ptr + size <==> FullyTracked(s, ptr, size)
    ensures stop == FirstGap(s.mapped, ptr, ptr + size)
  {
    hide IsCut, Cut, Tracked, FirstGap, Range;
    StopIsFirstGap(s.mapped, ptr, stop, ptr + size, t);
    assert Unmap(s, ptr, size) == Release(s, ptr, stop);
    GapIffNotFullyTracked(s, ptr, size);
  }

  /** The least key not below `a` names the only block that can own `a`. */
  lemma LowerBoundOwns(t: Table, a: Addr, found: bool, k: Addr)
    requires Valid(t)
    requires found ==> k in t && a <= k && forall j :: j in t && a <= j ==> k <= j
    requires !found ==> forall j :: j in t ==> j < a
    ensures !found || First(t, k) > a ==> a !in Tracked(t)
    ensures found && First(t, k) <= a ==> Covers(t, k, a)
  {
  }

  /** Where releasing `size` bytes at `ptr` from the block that ends at `k` has to stop. */
  ghost function ReleasedTo(k: Addr, ptr: Addr, size: size_t): (hi: Addr)
    ensures hi <= k + 1 && hi <= ptr + size && (hi == k + 1 || hi == ptr + size)
  {
    if k + 1 < ptr + size then k + 1 else ptr + size
  }

  /** Carving `[p..q)` out of the block that owns `p` is one turn of releasing. */
  lemma CarveTrims(t: Table, free: size_t, o: Addr, p: Addr, q: Addr)
    requires Valid(t) && Covers(t, o, p) && p < q <= o + 1
    ensures Trimmed(t, free, p, q, Carve(t, o, p, q), Add(free, q - p))
  {
    CarveIsCut(t, o, p, q);
  }

  /** Charging one block and then the rest is charging the whole table. */
  lemma SizeRemove(t: Table, k: Addr)
    requires k in t
    ensures |t - {k}| == |t| - 1
  {
    assert (t - {k}).Keys == t.Keys - {k};
  }

  lemma DrainSums(t: Table, k: Addr)
    requires k in t
    ensures |t - {k}| == |t| - 1
    ensures Wrap(Bytes(t)) == Add(t[k].size, Wrap(Bytes(t - {k})))
    ensures Wrap(|t|) == Add(1, Wrap(|t - {k}|))
  {
    hide Wrap, Add, Bytes;
    SizeRemove(t, k);
    BytesRemove(t, k);
    WrapSmall(t[k].size);
    WrapSmall(1);
    WrapAdd(t[k].size, Bytes(t - {k}));
    WrapAdd(1, |t| - 1);
  }

  lemma DrainEnd(free: size_t, count: size_t, t: Table)
    requires t.Keys == {}
    ensures Add(free, Wrap(Bytes(t))) == free && Add(count, Wrap(|t|)) == count
  {
    assert |t| == |t.Keys|;
    WrapSmall(0);
  }

  lemma DrainStep(free: size_t, count: size_t, t: Table, k: Addr)
    requires k in t
    ensures |t - {k}| < |t|
    ensures Add(Add(free, t[k].size), Wrap(Bytes(t - {k}))) == Add(free, Wrap(Bytes(t)))
    ensures Add(Add(count, 1), Wrap(|t - {k}|)) == Add(count, Wrap(|t|))
  {
    DrainSums(t, k);
    AddAssociates(free, t[k].size, Wrap(Bytes(t - {k})));
    AddAssociates(count, 1, Wrap(|t - {k}|));
  }

  // ------------------------------------------------------------- the class

  /** `std::map::lower_bound`: the least key not below `a`. */
  method LowerBound(t: Table, a: Addr) returns (found: bool, k: Addr)
    ensures found ==> k in t && a <= k && forall j :: j in t && a <= j ==> k <= j
    ensures !found ==> forall j :: j in t ==> j < a
  {
    found, k := false, a;
    var rest := t.Keys;
    while rest != {}
      invariant rest <= t.Keys
      invariant found ==> k in t && a <= k && forall j :: j in t && j !in rest && a <= j ==> k <= j
      invariant !found ==> forall j :: j in t && j !in rest ==> j < a
      decreases |rest|
    {
      ghost var w := Pick(rest);
      var j :| j in rest;
      rest := rest - {j};
      if a <= j && (!found || j < k) { found, k := true, j; }
    }
  }

  class Memory {
    var tracking: bool
    var locked: size_t
    var blocks: Table
    var orderedBlocks: Table
    var allocateSize: size_t
    var freeSize: size_t
    var allocateCount: size_t
    var freeCount: size_t
    var maxAllocate: size_t
    var maxAllocateCount: size_t

    ghost function St(): State
      reads this
    {
      State(blocks, orderedBlocks, allocateSize, freeSize, allocateCount, freeCount, maxAllocate, maxAllocateCount)
    }

    /** Calls are recorded only while tracking is on and this thread is not inside the tracker. */
    ghost predicate Active()
      reads this
    {
      tracking && locked == 0
    }

    constructor ()
      ensures St() == INITIAL && !tracking && locked == 0
    {
      tracking, locked := false, 0;
      blocks, orderedBlocks := map[], map[];
      allocateSize, freeSize, allocateCount, freeCount := 0, 0, 0, 0;
      maxAllocate, maxAllocateCount := 0, 0;
    }

    method Enter() returns (ok: bool)
      modifies this`locked
      ensures ok == old(Active())
      ensures locked == if ok then 1 else old(locked)
    {
      if !tracking || locked != 0 { return false; }
      locked := Add(locked, 1);
      return true;
    }

    method Exit()
      modifies this`locked
      ensures locked == Sub(old(locked), 1)
    {
      locked := Sub(locked, 1);
    }

    method MarkPeaks()
      modifies this`maxAllocate, this`maxAllocateCount
      ensures St() == Mark(old(St()))
    {
      maxAllocate := Max(maxAllocate, Sub(allocateSize, freeSize));
      maxAllocateCount := Max(maxAllocateCount, Sub(allocateCount, freeCount));
    }

    method TrackBlock(ptr: Addr, size: size_t, stack: CallStack, canTrack: bool)
      modifies this
      ensures St() == if old(Active()) && canTrack then Track(old(St()), ptr, size, stack) else old(St())
      ensures old(Active()) && canTrack && ptr !in old(blocks) ==> blocks == old(blocks)[ptr := Allocation(size, stack)]
      ensures locked == old(locked) && tracking == old(tracking)
    {
      var ok := Enter();
      if !ok { return; }
      if canTrack {
        blocks := Insert(blocks, ptr, Allocation(size, stack));
        allocateSize := Add(allocateSize, size);
        allocateCount := Add(allocateCount, 1);
        MarkPeaks();
      }
      Exit();
    }

    method TrackRegion(ptr: Addr, size: size_t, stack: CallStack, canTrack: bool)
      modifies this
      ensures St() == if old(Active()) && canTrack then TrackMapped(old(St()), ptr, size, stack) else old(St())
      ensures old(Active()) && canTrack && ptr + size - 1 !in old(orderedBlocks) ==>
                orderedBlocks == old(orderedBlocks)[ptr + size - 1 := Allocation(size, stack)]
      ensures locked == old(locked) && tracking == old(tracking)
    {
      var ok := Enter();
      if !ok { return; }
      if canTrack {
        orderedBlocks := Insert(orderedBlocks, ptr + size - 1, Allocation(size, stack));
        allocateSize := Add(allocateSize, size);
        MarkPeaks();
      }
      Exit();
    }

    /** Leaving through the not-found path; raising also switches tracking off. */
    method Missing(at: Addr, canTrack: bool) returns (r: Outcome)
      modifies this`locked, this`tracking
      ensures locked == Sub(old(locked), 1)
      ensures r == (if canTrack then Raised(at) else Ignored)
      ensures tracking == (old(tracking) && !canTrack)
    {
      Exit();
      if canTrack {
        tracking := false;
        return Raised(at);
      }
      return Ignored;
    }

    method RetrackBlock(oldPtr: Addr, newPtr: Addr, newSize: size_t, canTrack: bool) returns (r: Outcome)
      modifies this
      ensures St() == if old(Active()) then Retrack(old(St()), oldPtr, newPtr, newSize) else old(St())
      ensures old(Active()) && oldPtr in old(blocks) && (newPtr == oldPtr || newPtr !in old(blocks)) ==>
                blocks == (old(blocks) - {oldPtr})[newPtr := Allocation(newSize, old(blocks)[oldPtr].callstack)]
      ensures r == if old(Active()) && oldPtr !in old(blocks)
                   then (if canTrack then Raised(oldPtr) else Ignored) else Done
      ensures locked == old(locked) && tracking == (old(tracking) && !r.Raised?)
    {
      var ok := Enter();
      if !ok { return Done; }
      if oldPtr !in blocks {
        r := Missing(oldPtr, canTrack);
        return;
      }
      var x := blocks[oldPtr];
      blocks := blocks - {oldPtr};
      blocks := Insert(blocks, newPtr, Allocation(newSize, x.callstack));
      allocateSize := Add(allocateSize, Sub(newSize, x.size));
      MarkPeaks();
      Exit();
      return Done;
    }

    method RemoveBlock(ptr: Addr, canTrack: bool) returns (r: Outcome)
      modifies this
      ensures St() == if old(Active()) then Remove(old(St()), ptr) else old(St())
      ensures old(Active()) ==> blocks == old(blocks) - {ptr}
      ensures r == if old(Active()) && ptr !in old(blocks)
                   then (if canTrack then Raised(ptr) else Ignored) else Done
      ensures locked == old(locked) && tracking == (old(tracking) && !r.Raised?)
    {
      var ok := Enter();
      if !ok { return Done; }
      if ptr !in blocks {
        r := Missing(ptr, canTrack);
        return;
      }
      freeSize := Add(freeSize, blocks[ptr].size);
      freeCount := Add(freeCount, 1);
      blocks := blocks - {ptr};
      Exit();
      return Done;
    }

    /** The block starts at `ptr`: drop it, or keep what lies above the released bytes. */
    method TrimHead(k: Addr, ptr: Addr, size: size_t) returns (next: Addr, left: size_t)
      requires k in orderedBlocks && First(orderedBlocks, k) == ptr && ptr <= k && size > 0
      modifies this`orderedBlocks, this`freeSize
      ensures orderedBlocks == Carve(old(orderedBlocks), k, ptr, ReleasedTo(k, ptr, size))
      ensures freeSize == Add(old(freeSize), ReleasedTo(k, ptr, size) - ptr)
      ensures left == size - (ReleasedTo(k, ptr, size) - ptr)
      ensures left > 0 ==> next == ReleasedTo(k, ptr, size)
    {
      var alloc := orderedBlocks[k];
      orderedBlocks := orderedBlocks - {k};
      if alloc.size > size {
        var p := ptr + size;
        alloc := alloc.(size := alloc.size - size);
        orderedBlocks := Insert(orderedBlocks, p + alloc.size - 1, alloc);
        freeSize := Add(freeSize, size);
        next, left := ptr, 0;
      } else {
        freeSize := Add(freeSize, alloc.size);
        next, left := ptr + alloc.size, size - alloc.size;
      }
    }

    /** The block starts below `ptr`: keep what lies below, and what lies above if the bytes end inside. */
    method TrimTail(k: Addr, ptr: Addr, size: size_t) returns (next: Addr, left: size_t)
      requires k in orderedBlocks && First(orderedBlocks, k) < ptr <= k && size > 0
      modifies this`orderedBlocks, this`freeSize
      ensures orderedBlocks == Carve(old(orderedBlocks), k, ptr, ReleasedTo(k, ptr, size))
      ensures freeSize == Add(old(freeSize), ReleasedTo(k, ptr, size) - ptr)
      ensures left == size - (ReleasedTo(k, ptr, size) - ptr)
      ensures left > 0 ==> next == ReleasedTo(k, ptr, size)
    {
      var p := First(orderedBlocks, k);
      var alloc := orderedBlocks[k];
      orderedBlocks := orderedBlocks - {k};
      var off := ptr - p;
      var rem := alloc.size - off;
      if rem > size {
        alloc := alloc.(size := off);
        orderedBlocks := Insert(orderedBlocks, p + alloc.size - 1, alloc);
        p := ptr + size;
        alloc := alloc.(size := rem - size);
        orderedBlocks := Insert(orderedBlocks, p + alloc.size - 1, alloc);
        freeSize := Add(freeSize, size);
        next, left := ptr, 0;
      } else {
        freeSize := Add(freeSize, rem);
        next, left := ptr + rem, size - rem;
        alloc := alloc.(size := alloc.size - rem);
        orderedBlocks := Insert(orderedBlocks, p + alloc.size - 1, alloc);
      }
    }

    /**
     One turn of the release loop: find the block that may hold `ptr`, and trim,
     split or drop it.
     */
    method TrimOnce(ptr: Addr, size: size_t) returns (more: bool, next: Addr, left: size_t)
      requires Valid(orderedBlocks) && size > 0
      modifies this`orderedBlocks, this`freeSize
      ensures !more ==> unchanged(this) && next == ptr && left == size && ptr !in Tracked(orderedBlocks)
      ensures more ==>
                && left < size
                && Trimmed(old(orderedBlocks), old(freeSize), ptr, ptr + (size - left), orderedBlocks, freeSize)
      ensures left > 0 ==> next == ptr + (size - left)
    {
      hide Trimmed, IsCut, Tracked, Valid, Carve, ReleasedTo, Add;
      var found, k := LowerBound(orderedBlocks, ptr);
      LowerBoundOwns(orderedBlocks, ptr, found, k);
      if !found { return false, ptr, size; }
      var p := First(orderedBlocks, k);
      if p > ptr { return false, ptr, size; }

      CarveTrims(orderedBlocks, freeSize, k, ptr, ReleasedTo(k, ptr, size));
      more := true;
      if ptr == p {
        next, left := TrimHead(k, ptr, size);
      } else {
        next, left := TrimTail(k, ptr, size);
      }
    }

    /** The release loop shared by unmapping and remapping; `left` bytes at `at` were not tracked. */
    method ReleaseRange(ptr: Addr, size: size_t) returns (at: Addr, left: size_t)
      requires Valid(orderedBlocks)
      modifies this`orderedBlocks, this`freeSize
      ensures Valid(orderedBlocks)
      ensures St() == Unmap(old(St()), ptr, size)
      ensures left == 0 <==> FullyTracked(old(St()), ptr, size)
      ensures left > 0 ==> at == FirstGap(old(orderedBlocks), ptr, ptr + size)
    {
      hide Released, Trimmed, Unmap, FullyTracked, Valid, Tracked;
      at, left := ptr, size;
      ghost var s, stop := St(), ptr;
      ReleasedStart(s, ptr);
      while left > 0
        invariant unchanged(`blocks) && stop == ptr + (size - left) && (left > 0 ==> at == stop)
        invariant Valid(orderedBlocks) && Released(s, ptr, stop, orderedBlocks, freeSize)
        decreases left
      {
        ghost var t, free := orderedBlocks, freeSize;
        var more, next, rest := TrimOnce(at, left);
        if !more { break; }
        stop := at + (left - rest);
        ReleasedStep(s, ptr, at, stop, t, free, orderedBlocks, freeSize);
        at, left := next, rest;
      }
      ReleasedEnd(s, ptr, stop, size, orderedBlocks, freeSize);
    }

    method RemoveRegion(ptr: Addr, size: size_t, canTrack: bool) returns (r: Outcome)
      requires Valid(orderedBlocks)
      modifies this
      ensures Valid(orderedBlocks)
      ensures St() == if old(Active()) then Unmap(old(St()), ptr, size) else old(St())
      ensures r == if !old(Active()) || FullyTracked(old(St()), ptr, size) then Done
                   else if canTrack then Raised(FirstGap(old(orderedBlocks), ptr, ptr + size)) else Ignored
      ensures locked == old(locked) && tracking == (old(tracking) && !r.Raised?)
    {
      hide Unmap, FullyTracked, FirstGap, Valid;
      var ok := Enter();
      if !ok { return Done; }
      var at, left := ReleaseRange(ptr, size);
      if left > 0 {
        r := Missing(at, canTrack);
        return;
      }
      Exit();
      return Done;
    }

    method RetrackRegion(oldPtr: Addr, oldSize: size_t, newPtr: Addr, newSize: size_t, stack: CallStack,
                         canDealloc: bool, canAlloc: bool) returns (r: Outcome)
      requires Valid(orderedBlocks)
      modifies this
      ensures St() ==
              if old(Active()) then Remap(old(St()), oldPtr, oldSize, newPtr, newSize, stack, canAlloc)
              else old(St())
      ensures r == if !old(Active()) || FullyTracked(old(St()), oldPtr, oldSize) then Done
                   else if canDealloc then Raised(FirstGap(old(orderedBlocks), oldPtr, oldPtr + oldSize)) else Ignored
      ensures locked == old(locked) && tracking == (old(tracking) && !r.Raised?)
    {
      hide Unmap, FullyTracked, FirstGap, Valid;
      var ok := Enter();
      if !ok { return Done; }
      var at, left := ReleaseRange(oldPtr, oldSize);
      if left > 0 {
        r := Missing(at, canDealloc);
        return;
      }
      if canAlloc {
        orderedBlocks := Insert(orderedBlocks, newPtr + newSize - 1, Allocation(newSize, stack));
        allocateSize := Add(allocateSize, newSize);
        MarkPeaks();
      }
      Exit();
      return Done;
    }

    method ClearHeap()
      modifies this`blocks, this`freeSize, this`freeCount
      ensures blocks == map[]
      ensures freeSize == Add(old(freeSize), Wrap(Bytes(old(blocks))))
      ensures freeCount == Add(old(freeCount), Wrap(|old(blocks)|))
    {
      hide Add, Wrap, Bytes;
      var rest := blocks;
      while rest.Keys != {}
        modifies this`freeSize, this`freeCount
        invariant Add(freeSize, Wrap(Bytes(rest))) == Add(old(freeSize), Wrap(Bytes(blocks)))
        invariant Add(freeCount, Wrap(|rest|)) == Add(old(freeCount), Wrap(|blocks|))
        decreases |rest|
      {
        ghost var w := Pick(rest.Keys);
        var k :| k in rest;
        DrainStep(freeSize, freeCount, rest, k);
        freeSize := Add(freeSize, rest[k].size);
        freeCount := Add(freeCount, 1);
        rest := rest - {k};
      }
      DrainEnd(freeSize, freeCount, rest);
      blocks := map[];
    }

    method ClearRegions()
      modifies this`orderedBlocks, this`freeSize
      ensures orderedBlocks == map[]
      ensures freeSize == Add(old(freeSize), Wrap(Bytes(old(orderedBlocks))))
    {
      hide Add, Wrap, Bytes;
      var rest := orderedBlocks;
      while rest.Keys != {}
        modifies this`freeSize
        invariant Add(freeSize, Wrap(Bytes(rest))) == Add(old(freeSize), Wrap(Bytes(orderedBlocks)))
        decreases |rest|
      {
        ghost var w := Pick(rest.Keys);
        var k :| k in rest;
        DrainStep(freeSize, freeCount, rest, k);
        freeSize := Add(freeSize, rest[k].size);
        rest := rest - {k};
      }
      DrainEnd(freeSize, freeCount, rest);
      orderedBlocks := map[];
    }

    /**
     The result of `Enter` is ignored while `Exit` always runs, so the depth is
     kept exactly when the tracker was active.
     */
    method ClearAll()
      modifies this
      ensures St() == Clear(old(St())) && tracking == old(tracking)
      ensures locked == if old(Active()) then old(locked) else Sub(old(locked), 1)
      ensures locked == old(locked) <==> old(Active())
    {
      var _ := Enter();
      ClearHeap();
      ClearRegions();
      Exit();
    }

    method ResetMaxAllocation()
      modifies this`maxAllocate
      ensures St() == old(St()).(maxAllocate := 0)
    {
      maxAllocate := 0;
    }
  }

  /** One tracker told of a moved region and one told of its unmapping and remapping end alike. */
  method RemapIsUnmapThenMap(a: Memory, b: Memory, oldPtr: Addr, oldSize: size_t, newPtr: Addr, newSize: size_t,
                             stack: CallStack, canDealloc: bool, canAlloc: bool) returns (ra: Outcome, rb: Outcome)
    requires a != b && a.St() == b.St() && a.Active() && b.Active() && Valid(a.orderedBlocks)
    modifies a, b
    ensures a.St() == b.St() && ra == rb
    ensures !old(FullyTracked(a.St(), oldPtr, oldSize)) ==> a.St() == old(Unmap(a.St(), oldPtr, oldSize))
  {
    hide Unmap, FullyTracked, FirstGap, Valid, TrackMapped;
    ra := a.RetrackRegion(oldPtr, oldSize, newPtr, newSize, stack, canDealloc, canAlloc);
    rb := b.RemoveRegion(oldPtr, oldSize, canDealloc);
    if rb == Done { b.TrackRegion(newPtr, newSize, stack, canAlloc); }
  }
}
