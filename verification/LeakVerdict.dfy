/** Resource snapshots around a test body and the memory verdict drawn from their difference. */
module LeakVerdict {
  import opened Words
  import opened Collections
  import opened IntervalTable
  import opened MemoryTracker
  import opened MemoryRuns
  import opened TestStatus

  datatype Usage = Usage(
    initialized: bool,
    allocateSize: size_t, allocateCount: size_t,
    freeSize: size_t, freeCount: size_t,
    maxSize: size_t, maxCount: size_t)

  const UNUSED := Usage(false, 0, 0, 0, 0, 0, 0)

  /** The first snapshot on a record restarts the byte mark; the block mark is never restarted. */
  function Reset(u: Usage, s: State): State {
    if u.initialized then s else s.(maxAllocate := 0)
  }

  /** Each snapshot replaces what the record holds by the distance to the counters now. */
  function Shot(u: Usage, s: State): Usage {
    Usage(true,
          Sub(s.allocateSize, u.allocateSize), Sub(s.allocateCount, u.allocateCount),
          Sub(s.freeSize, u.freeSize), Sub(s.freeCount, u.freeCount),
          Reset(u, s).maxAllocate, s.maxAllocateCount)
  }

  class Snapshot {
    var initialized: bool
    var allocateSize: size_t
    var allocateCount: size_t
    var freeSize: size_t
    var freeCount: size_t
    var maxSize: size_t
    var maxCount: size_t

    ghost function View(): Usage
      reads this
    {
      Usage(initialized, allocateSize, allocateCount, freeSize, freeCount, maxSize, maxCount)
    }

    constructor ()
      ensures View() == UNUSED
    {
      initialized := false;
      allocateSize, allocateCount, freeSize, freeCount, maxSize, maxCount := 0, 0, 0, 0, 0, 0;
    }

    method Take(m: Memory)
      modifies this, m`maxAllocate
      ensures View() == Shot(old(View()), old(m.St()))
      ensures m.St() == Reset(old(View()), old(m.St()))
    {
      if !initialized {
        m.ResetMaxAllocation();
        initialized := true;
      }
      allocateSize := Sub(m.allocateSize, allocateSize);
      allocateCount := Sub(m.allocateCount, allocateCount);
      freeSize := Sub(m.freeSize, freeSize);
      freeCount := Sub(m.freeCount, freeCount);
      maxSize := m.maxAllocate;
      maxCount := m.maxAllocateCount;
    }
  }

  predicate LeakSeen(u: Usage) { u.allocateSize > u.freeSize }

  predicate LimitBroken(u: Usage, bytesLimit: size_t, blocksLimit: size_t) {
    u.maxSize > bytesLimit || u.maxCount > blocksLimit
  }

  class UnitTest {
    var status: Status
    var ignoreMemoryLeak: bool
    var memoryBytesLimit: size_t
    var memoryBlocksLimit: size_t
    var warnings: nat
    const used: Snapshot

    constructor (used: Snapshot)
      ensures this.used == used && status == PENDING && warnings == 0 && !ignoreMemoryLeak
      ensures memoryBytesLimit == W64 - 1 && memoryBlocksLimit == W64 - 1
    {
      this.used := used;
      status, ignoreMemoryLeak, warnings := PENDING, false, 0;
      memoryBytesLimit, memoryBlocksLimit := W64 - 1, W64 - 1;
    }

    /** A broken limit overrides a leak, a leak overrides the status so far, and each finding is reported. */
    method CheckMemoryLeak()
      modifies this`status, this`warnings
      ensures var u := used.View();
              var leak := !ignoreMemoryLeak && LeakSeen(u);
              && status == (if LimitBroken(u, memoryBytesLimit, memoryBlocksLimit) then MEMORY_LIMIT_EXCEEDED
                            else if leak then PASS_WITH_MEMORY_LEAK else old(status))
              && (warnings == old(warnings) <==> !leak && !LimitBroken(u, memoryBytesLimit, memoryBlocksLimit))
              && warnings == old(warnings) + One(leak)
                             + One(u.maxSize > memoryBytesLimit) + One(u.maxCount > memoryBlocksLimit)
    {
      if !ignoreMemoryLeak && used.allocateSize > used.freeSize {
        status := PASS_WITH_MEMORY_LEAK;
        warnings := warnings + 1;
      }
      if used.maxSize > memoryBytesLimit {
        status := MEMORY_LIMIT_EXCEEDED;
        warnings := warnings + 1;
      }
      if used.maxCount > memoryBlocksLimit {
        status := MEMORY_LIMIT_EXCEEDED;
        warnings := warnings + 1;
      }
    }
  }

  // ------------------------------------------------------- what a verdict means

  /** A test: whatever ran before the first snapshot, and the body between the two. */
  ghost predicate Sample(before: seq<Call>, body: seq<Call>) {
    && AllFresh(INITIAL, before)
    && AllFresh(Start(before), body)
    && TotalClaims(before) + TotalClaims(body) < W64
  }

  ghost function Start(before: seq<Call>): State { Reset(UNUSED, Run(INITIAL, before)) }

  ghost function End(before: seq<Call>, body: seq<Call>): State { Run(Start(before), body) }

  ghost function Report(before: seq<Call>, body: seq<Call>): Usage {
    Shot(Shot(UNUSED, Run(INITIAL, before)), End(before, body))
  }

  lemma {:induction false} ClaimsBound(s: State, cs: seq<Call>)
    requires Exact(s) && AllFresh(s, cs) && s.allocateSize + TotalClaims(cs) < W64
    ensures Run(s, cs).allocateSize <= s.allocateSize + TotalClaims(cs)
    decreases |cs|
  {
    hide Exact, Step, Fresh;
    if cs != [] {
      StepExact(s, cs[0]);
      ClaimsBound(Step(s, cs[0]), cs[1..]);
    }
  }

  lemma InitialExact()
    ensures Exact(INITIAL) && INITIAL.allocateSize == 0
  {
  }

  lemma StartExact(before: seq<Call>, body: seq<Call>)
    requires Sample(before, body)
    ensures Exact(Start(before)) && Start(before).allocateSize + TotalClaims(body) < W64
  {
    hide Run, AllFresh, Valid, Bytes, INITIAL;
    InitialExact();
    RunExact(INITIAL, before);
    ClaimsBound(INITIAL, before);
  }

  lemma SampleExact(before: seq<Call>, body: seq<Call>)
    requires Sample(before, body)
    ensures Exact(Start(before)) && Exact(End(before, body))
    ensures Start(before).freeSize <= End(before, body).freeSize
  {
    hide Run, AllFresh, Exact, Start;
    StartExact(before, body);
    RunExact(Start(before), body);
  }

  /** What a call adds to the allocation counter; only a reallocation to a smaller size takes from it. */
  ghost function Gain(s: State, c: Call): int {
    match c
    case TrackCall(_, n, _) => n
    case TrackMappedCall(_, n, _) => n
    case RetrackCall(o, _, n) => if o in s.blocks then n - s.blocks[o].size else 0
    case RemapCall(o, m, _, n, _, can) => if FullyTracked(s, o, m) && can then n else 0
    case _ => 0
  }

  ghost function Net(s: State, cs: seq<Call>): int
    decreases |cs|
  {
    if cs == [] then 0 else Gain(s, cs[0]) + Net(Step(s, cs[0]), cs[1..])
  }

  ghost predicate Shrinks(s: State, c: Call) {
    c.RetrackCall? && c.oldPtr in s.blocks && c.size < s.blocks[c.oldPtr].size
  }

  ghost predicate NoneShrinks(s: State, cs: seq<Call>)
    decreases |cs|
  {
    cs == [] || (!Shrinks(s, cs[0]) && NoneShrinks(Step(s, cs[0]), cs[1..]))
  }

  lemma StepGain(s: State, c: Call)
    requires Exact(s) && s.allocateSize + Claims(c) < W64
    ensures Step(s, c).allocateSize == s.allocateSize + Gain(s, c)
    ensures Gain(s, c) >= 0 || Shrinks(s, c)
  {
    hide Valid, Bytes, Insert, Cut, FullyTracked, FirstGap;
    if c.RetrackCall? && c.oldPtr in s.blocks { DropBlock(s.blocks, c.oldPtr); }
  }

  /** The allocation counter moves by the sum of the calls' gains. */
  lemma {:induction false} RunNet(s: State, cs: seq<Call>)
    requires Exact(s) && AllFresh(s, cs) && s.allocateSize + TotalClaims(cs) < W64
    ensures Run(s, cs).allocateSize == s.allocateSize + Net(s, cs)
    decreases |cs|
  {
    hide Exact, Step, Fresh, Gain;
    if cs != [] {
      StepExact(s, cs[0]);
      StepGain(s, cs[0]);
      RunNet(Step(s, cs[0]), cs[1..]);
    }
  }

  /** Unless a call makes a block smaller, no call takes from the allocation counter. */
  lemma {:induction false} NetWithoutShrinks(s: State, cs: seq<Call>)
    requires NoneShrinks(s, cs)
    ensures 0 <= Net(s, cs)
    decreases |cs|
  {
    hide Step;
    if cs != [] { NetWithoutShrinks(Step(s, cs[0]), cs[1..]); }
  }

  /**
   The verdict is right, that is, a leak is seen exactly when live memory grew, if and
   only if the body's calls do not take more from the allocation counter than they add.
   Only reallocations to smaller sizes can do that, and then every verdict is a false alarm.
   */
  lemma LeakVerdictExact(before: seq<Call>, body: seq<Call>)
    requires Sample(before, body)
    ensures var s, e, u := Start(before), End(before, body), Report(before, body);
            && ((LeakSeen(u) <==> Live(e) > Live(s)) <==> 0 <= Net(s, body))
            && (Net(s, body) < 0 ==> LeakSeen(u) && Live(e) < Live(s))
            && (NoneShrinks(s, body) ==> (LeakSeen(u) <==> Live(e) > Live(s)))
  {
    hide Run, Bytes, Valid, Start, Live, Sub, Net, NoneShrinks, AllFresh;
    SampleExact(before, body);
    var s, e := Start(before), End(before, body);
    StartIsRun(before);
    StartExact(before, body);
    RunNet(s, body);
    if NoneShrinks(s, body) { NetWithoutShrinks(s, body); }
    Differences(s.allocateSize, s.freeSize, Live(s), e.allocateSize, e.freeSize, Live(e));
  }

  lemma StartIsRun(before: seq<Call>)
    ensures var r, s := Run(INITIAL, before), Start(before);
            r.allocateSize == s.allocateSize && r.freeSize == s.freeSize
  {
  }

  /** The arithmetic of two snapshots: counters `a` and `f` with `a - f` live bytes before and after. */
  lemma Differences(a: size_t, f: size_t, live: nat, a': size_t, f': size_t, live': nat)
    requires a == f + live && a' == f' + live' && f <= f'
    ensures var grew := Sub(a', Sub(a, 0)) > Sub(f', Sub(f, 0));
            && ((grew <==> live' > live) <==> a <= a')
            && (a' < a ==> grew && live' < live)
  {
  }

  /** A test that only shrinks a block it already held is reported as leaking. */
  lemma ShrinkIsReportedAsLeak(p: Addr, n: size_t, m: size_t, stack: CallStack)
    requires p != 0 && m < n && n + m < W64
    ensures var before, body := [TrackCall(p, n, stack)], [RetrackCall(p, p, m)];
            && Sample(before, body)
            && LeakSeen(Report(before, body))
            && Live(End(before, body)) < Live(Start(before))
  {
    var before, body := [TrackCall(p, n, stack)], [RetrackCall(p, p, m)];
    OneCall(INITIAL, before[0]);
    OneCall(Start(before), body[0]);
    assert Start(before).blocks == map[p := Allocation(n, stack)];
    hide INITIAL, Run, AllFresh, Net, TotalClaims, Live, LeakSeen, Report;
    LeakVerdictExact(before, body);
  }

  lemma OneCall(s: State, c: Call)
    ensures Run(s, [c]) == Step(s, c) && (AllFresh(s, [c]) <==> Fresh(s, c))
    ensures Net(s, [c]) == Gain(s, c) && TotalClaims([c]) == Claims(c)
  {
    assert [c][1..] == [];
    hide Step, Fresh, Gain;
  }

  lemma {:induction false} AllocatingStepExact(s: State, cs: seq<Call>, i: nat, t: State)
    requires Exact(s) && AllFresh(s, cs) && s.allocateSize + TotalClaims(cs) < W64
    requires AllocatingStep(s, cs, i, t)
    ensures LiveWord(t) == Live(t)
    decreases i
  {
    StepExact(s, cs[0]);
    if i == 0 {
      AllocatingStepShift(s, cs, 0, t);
      hide Step, Valid, Bytes;
    } else {
      hide Exact, Step, Fresh, AllocatingStep, Run;
      AllocatingStepShift(s, cs, i - 1, t);
      AllocatingStepExact(Step(s, cs[0]), cs[1..], i - 1, t);
    }
  }

  /**
   The reported byte peak is the greatest amount of live memory right after an allocating
   call of the body, or 0 when there was none.  The reported block peak is never below the
   blocks right after such a call, and it is theirs exactly when some call of the body
   comes up to the mark that was there before.
   */
  lemma ReportedPeak(before: seq<Call>, body: seq<Call>)
    requires Sample(before, body)
    ensures var s, u := Start(before), Report(before, body);
            && (forall i, t :: AllocatingStep(s, body, i, t) ==> Live(t) <= u.maxSize)
            && (u.maxSize == 0 || exists i, t :: AllocatingStep(s, body, i, t) && Live(t) == u.maxSize)
    ensures var s, u := Start(before), Report(before, body);
            && (forall i, t :: AllocatingStep(s, body, i, t) ==> CountWord(t) <= u.maxCount)
            && ((exists i, t :: AllocatingStep(s, body, i, t) && CountWord(t) == u.maxCount) <==>
                (exists i, t :: AllocatingStep(s, body, i, t) && CountWord(t) >= s.maxAllocateCount))
  {
    hide AllocatingStep, AllFresh, Bytes, Valid, Run, Fresh;
    var s := Start(before);
    StartExact(before, body);
    MarksArePeaks(s, body);
    forall i, t | AllocatingStep(s, body, i, t) ensures LiveWord(t) == Live(t) {
      AllocatingStepExact(s, body, i, t);
    }
  }

  /** Some allocating call of the body leaves more live heap blocks than the limit. */
  ghost predicate Exceeds(s: State, body: seq<Call>, limit: size_t) {
    exists i, t :: AllocatingStep(s, body, i, t) && |t.blocks| > limit
  }

  lemma {:induction false} AllocatingStepCounts(s: State, cs: seq<Call>, i: nat, t: State)
    requires ExactCounts(s) && AllFresh(s, cs) && s.allocateCount + |cs| < W64
    requires AllocatingStep(s, cs, i, t)
    ensures CountWord(t) == |t.blocks|
    decreases i
  {
    StepCounts(s, cs[0]);
    if i == 0 {
      AllocatingStepShift(s, cs, 0, t);
      hide Step;
    } else {
      hide ExactCounts, Step, Fresh, AllocatingStep, Run;
      AllocatingStepShift(s, cs, i - 1, t);
      AllocatingStepCounts(Step(s, cs[0]), cs[1..], i - 1, t);
    }
  }

  lemma StartCounts(before: seq<Call>, body: seq<Call>)
    requires AllFresh(INITIAL, before) && |before| + |body| < W64
    ensures ExactCounts(Start(before)) && Start(before).allocateCount + |body| < W64
  {
    assert ExactCounts(INITIAL) && INITIAL.allocateCount == 0;
    hide Run, AllFresh, INITIAL;
    RunCountsExact(INITIAL, before);
  }

  /**
   As the block mark is not restarted, the limit is seen as broken exactly when the body
   breaks it if and only if the mark was within the limit before, or the body does break it.
   */
  lemma BlockLimitExact(before: seq<Call>, body: seq<Call>, limit: size_t)
    requires Sample(before, body) && |before| + |body| < W64
    ensures var s, u := Start(before), Report(before, body);
            (u.maxCount > limit <==> Exceeds(s, body, limit)) <==>
            s.maxAllocateCount <= limit || Exceeds(s, body, limit)
  {
    hide AllocatingStep, AllFresh, Bytes, Valid, Run, Fresh, CountWord;
    var s := Start(before);
    StartCounts(before, body);
    MarksArePeaks(s, body);
    forall i, t | AllocatingStep(s, body, i, t) ensures CountWord(t) == |t.blocks| {
      AllocatingStepCounts(s, body, i, t);
    }
  }

  /** The bytes limit is seen as broken exactly when some allocating call of the body leaves more live memory. */
  lemma BytesLimitExact(before: seq<Call>, body: seq<Call>, limit: size_t)
    requires Sample(before, body)
    ensures var s, u := Start(before), Report(before, body);
            u.maxSize > limit <==> exists i, t :: AllocatingStep(s, body, i, t) && Live(t) > limit
  {
    hide AllocatingStep, Sample, Live, CountWord, Report;
    ReportedPeak(before, body);
  }

  // ------------------------------------------------------- the other numbers

  lemma Elapsed(a: size_t, b: size_t)
    requires a <= b
    ensures Sub(b, Sub(a, 0)) == b - a
  {
  }

  /**
   The report's counts are the heap blocks that the body added and released, and differ by how
   their number changed.
   */
  lemma ReportedCounts(before: seq<Call>, body: seq<Call>)
    requires Sample(before, body) && |before| + |body| < W64
    ensures var s, e, u := Start(before), End(before, body), Report(before, body);
            && u.allocateCount == Additions(body) && u.freeCount == AllFreed(s, body)
            && Sub(u.allocateCount, u.freeCount) == Wrap(|e.blocks| - |s.blocks|)
  {
    hide Run, AllFresh, Additions, AllFreed, TotalClaims, Wrap, Sub;
    var r, s, e := Run(INITIAL, before), Start(before), End(before, body);
    StartCounts(before, body);
    RunCountsExact(s, body);
    Elapsed(r.allocateCount, e.allocateCount);
    Elapsed(r.freeCount, e.freeCount);
    WrapSub(Additions(body), AllFreed(s, body));
    WrapSmall(e.allocateCount - s.allocateCount);
    WrapSmall(e.freeCount - s.freeCount);
  }

  /** The report's sizes are the sum of the body's gains and that sum less how the live memory grew. */
  lemma ReportedSizes(before: seq<Call>, body: seq<Call>)
    requires Sample(before, body)
    ensures var s, e, u := Start(before), End(before, body), Report(before, body);
            u.allocateSize == Wrap(Net(s, body)) && u.freeSize == Net(s, body) - (Live(e) - Live(s))
  {
    hide Run, AllFresh, TotalClaims, Wrap, Net, Bytes, Valid, Sub;
    var r, s, e := Run(INITIAL, before), Start(before), End(before, body);
    SampleExact(before, body);
    StartExact(before, body);
    StartIsRun(before);
    RunNet(s, body);
    Elapsed(r.freeSize, e.freeSize);
    WrapSub(e.allocateSize, s.allocateSize);
    WrapSmall(e.allocateSize);
    WrapSmall(s.allocateSize);
    Untouched(s.allocateSize);
  }

  lemma Untouched(a: size_t)
    ensures Sub(a, 0) == a
  {
  }

  // ------------------------------------------------------------ a whole test

  /** Makes a call on the tracker itself. */
  method Perform(m: Memory, c: Call)
    requires m.Active() && Exact(m.St()) && Fresh(m.St(), c)
    modifies m
    ensures m.Active() && m.St() == Step(old(m.St()), c)
  {
    hide Exact, Bytes, Unmap, FullyTracked, FreshRegion, FirstGap;
    ExactIsValid(m.St());
    var r;
    match c {
      case TrackCall(p, n, k) => m.TrackBlock(p, n, k, true);
      case TrackMappedCall(p, n, k) => m.TrackRegion(p, n, k, true);
      case RetrackCall(o, p, n) => r := m.RetrackBlock(o, p, n, false);
      case RemoveCall(p) => r := m.RemoveBlock(p, false);
      case UnmapCall(p, n) => r := m.RemoveRegion(p, n, false);
      case RemapCall(o, q, p, n, k, can) => r := m.RetrackRegion(o, q, p, n, k, false, can);
      case ClearCall => m.ClearAll();
    }
  }

  lemma ExactIsValid(s: State)
    requires Exact(s)
    ensures Valid(s.mapped)
  {
  }

  method PerformAll(m: Memory, cs: seq<Call>)
    requires m.Active() && Exact(m.St()) && AllFresh(m.St(), cs)
    requires m.St().allocateSize + TotalClaims(cs) < W64
    modifies m
    ensures m.Active() && m.St() == Run(old(m.St()), cs)
  {
    hide Exact, Fresh, Step, Claims;
    ghost var s := m.St();
    assert cs[0..] == cs;
    for i := 0 to |cs|
      invariant m.Active() && Exact(m.St()) && AllFresh(m.St(), cs[i..])
      invariant m.St().allocateSize + TotalClaims(cs[i..]) < W64
      invariant Run(m.St(), cs[i..]) == Run(s, cs)
    {
      assert cs[i..][0] == cs[i] && cs[i..][1..] == cs[i + 1..];
      StepExact(m.St(), cs[i]);
      Perform(m, cs[i]);
    }
  }

  /**
   A test body run on the tracker between two snapshots, and judged: the limits are broken
   exactly when the body leaves more live memory, or the block mark is above, and else a
   leak is told exactly when live memory grew, unless reallocations took more than was added.
   */
  method Judge(before: seq<Call>, body: seq<Call>, ignore: bool, bytesLimit: size_t, blocksLimit: size_t)
    returns (status: Status)
    requires Sample(before, body)
    ensures var s, e, u := Start(before), End(before, body), Report(before, body);
            && (status == MEMORY_LIMIT_EXCEEDED <==>
                  u.maxCount > blocksLimit || exists i, t :: AllocatingStep(s, body, i, t) && Live(t) > bytesLimit)
            && (status != MEMORY_LIMIT_EXCEEDED ==>
                  status == if !ignore && (Live(e) > Live(s) || Net(s, body) < 0) then PASS_WITH_MEMORY_LEAK else PASS)
  {
    hide Exact, AllFresh, TotalClaims, Run, Step, Fresh, AllocatingStep, Live, Net;
    var m := new Memory();
    m.tracking := true;
    InitialExact();
    PerformAll(m, before);
    var used := new Snapshot();
    used.Take(m);
    StartExact(before, body);
    PerformAll(m, body);
    used.Take(m);
    var test := new UnitTest(used);
    test.ignoreMemoryLeak, test.memoryBytesLimit, test.memoryBlocksLimit := ignore, bytesLimit, blocksLimit;
    test.status := PASS;
    test.CheckMemoryLeak();
    status := test.status;
    BytesLimitExact(before, body, bytesLimit);
    LeakVerdictExact(before, body);
  }

  function TwoBlocks(p: Addr, q: Addr, n: size_t, stack: CallStack): seq<Call> {
    [TrackCall(p, n, stack), TrackCall(q, n, stack), RemoveCall(p), RemoveCall(q)]
  }

  lemma FirstCall(s: State, c: Call, cs: seq<Call>)
    ensures Run(s, [c] + cs) == Run(Step(s, c), cs)
    ensures AllFresh(s, [c] + cs) <==> Fresh(s, c) && AllFresh(Step(s, c), cs)
    ensures TotalClaims([c] + cs) == Claims(c) + TotalClaims(cs)
  {
    assert ([c] + cs)[1..] == cs;
    hide Step, Fresh;
  }

  /** Two blocks come and go: nothing is left but the mark. */
  lemma TwoHeld(p: Addr, q: Addr, n: size_t, stack: CallStack)
    requires p != q
    ensures var cs := TwoBlocks(p, q, n, stack);
            && AllFresh(INITIAL, cs) && TotalClaims(cs) == 2 * n
            && Run(INITIAL, cs).blocks == map[] && Run(INITIAL, cs).maxAllocateCount == 2
  {
    var x, c0, c1 := Allocation(n, stack), TrackCall(p, n, stack), TrackCall(q, n, stack);
    var c2, c3 := RemoveCall(p), RemoveCall(q);
    var s1 := Step(INITIAL, c0);
    assert s1.blocks == map[p := x] && s1.maxAllocateCount == s1.allocateCount == 1 && s1.freeCount == 0;
    var s2 := Step(s1, c1);
    assert s2.blocks == map[p := x, q := x] && s2.maxAllocateCount == 2;
    var s3 := Step(s2, c2);
    assert s3.blocks == map[q := x] && s3.maxAllocateCount == 2;
    var s4 := Step(s3, c3);
    assert s4.blocks == map[] && s4.maxAllocateCount == 2;
    assert Fresh(INITIAL, c0) && Fresh(s1, c1) && Fresh(s2, c2) && Fresh(s3, c3);
    hide Run, AllFresh, Step, Fresh, TotalClaims;
    OneCall(s3, c3);
    FirstCall(s2, c2, [c3]);
    FirstCall(s1, c1, [c2] + [c3]);
    FirstCall(INITIAL, c0, [c1] + ([c2] + [c3]));
    assert TwoBlocks(p, q, n, stack) == [c0] + ([c1] + ([c2] + [c3]));
  }

  /** A body that holds one block is seen to break a limit of one block, because two were held before it. */
  lemma EarlierBlocksBreakLimit(p: Addr, q: Addr, n: size_t, stack: CallStack)
    requires p != 0 && q != 0 && p != q && 3 * n < W64
    ensures var before, body := TwoBlocks(p, q, n, stack), [TrackCall(p, n, stack)];
            && Sample(before, body) && !Exceeds(Start(before), body, 1)
            && LimitBroken(Report(before, body), W64 - 1, 1)
  {
    var before, c := TwoBlocks(p, q, n, stack), TrackCall(p, n, stack);
    var s := Start(before);
    TwoHeld(p, q, n, stack);
    OneCall(s, c);
    assert Step(s, c).blocks == map[p := Allocation(n, stack)];
    forall i, t | AllocatingStep(s, [c], i, t) ensures |t.blocks| == 1 {
      assert [c][..0] == [];
    }
    hide Run, AllFresh, TotalClaims, Report, Step, AllocatingStep, INITIAL;
    BlockLimitExact(before, [c], 1);
  }
}
