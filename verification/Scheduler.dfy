/**
 The dependency scheduler: a worklist over ready, blocked and remaining tests that
 completes module by module.  A test value stands for its copy; the
 table `owed` holds the copies' open dependencies, and its keys are the copies not
 yet deleted, so that looking a test up in it needs the test to be alive.
 */
module Scheduler {
  import opened Collections
  import opened TestStatus

  type Module = string

  /** `outcome` is the status the test's run will end with. */
  datatype Test = Test(id: nat, mod: Module, deps: set<Module>, enabled: bool, expected: Status, outcome: Status)

  type Heap = map<Test, set<Module>>

  predicate Selected(t: Test, chosen: set<Module>) {
    (chosen == {} || t.mod in chosen) && t.enabled
  }

  /** Running a selected test; any other test is skipped. */
  function EndStatus(t: Test, chosen: set<Module>): Status {
    if Selected(t, chosen) then t.outcome else SKIP
  }

  predicate Succeeds(t: Test, chosen: set<Module>) {
    Selected(t, chosen) ==> t.outcome == t.expected
  }

  // ------------------------------------------------------ reference meaning

  ghost function Members(all: set<Test>, m: Module): set<Test> {
    set t | t in all && t.mod == m
  }

  ghost function Won(ran: set<Test>, chosen: set<Module>): set<Test> {
    set t | t in ran && Succeeds(t, chosen)
  }

  /** A module is complete when it has tests and all of them have run and succeeded. */
  ghost predicate Complete(all: set<Test>, m: Module, won: set<Test>) {
    Members(all, m) != {} && Members(all, m) <= won
  }

  ghost predicate DepsComplete(all: set<Test>, t: Test, won: set<Test>) {
    forall m :: m in t.deps ==> Complete(all, m, won)
  }

  /** The tests whose dependencies are all complete once `ran` has run. */
  ghost function Runnable(all: set<Test>, chosen: set<Module>, ran: set<Test>): set<Test> {
    set t | t in all && DepsComplete(all, t, Won(ran, chosen))
  }

  ghost predicate IsLeastFixpoint(all: set<Test>, chosen: set<Module>, ran: set<Test>) {
    && Runnable(all, chosen, ran) == ran
    && forall x: set<Test> :: Runnable(all, chosen, x) <= x ==> ran <= x
  }

  /** Every test ran after all tests of all its dependency modules had run and succeeded. */
  ghost predicate InOrder(all: set<Test>, chosen: set<Module>, log: seq<Test>) {
    forall i :: 0 <= i < |log| ==> log[i] in all && DepsComplete(all, log[i], Won(Elements(log[..i]), chosen))
  }

  /** All dependencies of `t` were complete when the first `i` tests of the log had run. */
  ghost predicate ReadyAt(all: set<Test>, chosen: set<Module>, log: seq<Test>, i: nat, t: Test) {
    i <= |log| && DepsComplete(all, t, Won(Elements(log[..i]), chosen))
  }

  /** The `i`-th test of the log, in running, made `t` ready. */
  ghost predicate MadeReady(all: set<Test>, chosen: set<Module>, log: seq<Test>, i: nat, t: Test) {
    i < |log| && !ReadyAt(all, chosen, log, i, t) && ReadyAt(all, chosen, log, i + 1, t)
  }

  ghost predicate Before(tests: seq<Test>, x: Test, y: Test) {
    exists p, q :: 0 <= p < q < |tests| && tests[p] == x && tests[q] == y
  }

  /** What a test of the log made ready stands before all else that was ready by then. */
  ghost predicate NewestFirst(all: set<Test>, chosen: set<Module>, log: seq<Test>, line: seq<Test>) {
    forall i: nat, a, b ::
      i < a < |line| && i < b < |line|
      && MadeReady(all, chosen, log, i, line[a]) && ReadyAt(all, chosen, log, i, line[b]) ==>
        a < b
  }

  /** What it made ready stands in the order of registration. */
  ghost predicate TogetherInOrder(tests: seq<Test>, chosen: set<Module>, log: seq<Test>, line: seq<Test>) {
    forall i: nat, a, b ::
      i < a < b < |line|
      && MadeReady(Elements(tests), chosen, log, i, line[a]) && MadeReady(Elements(tests), chosen, log, i, line[b]) ==>
        Before(tests, line[a], line[b])
  }

  /** So does what was ready at the start. */
  ghost predicate FirstInOrder(tests: seq<Test>, chosen: set<Module>, log: seq<Test>, line: seq<Test>) {
    forall a, b ::
      0 <= a < b < |line|
      && ReadyAt(Elements(tests), chosen, log, 0, line[a]) && ReadyAt(Elements(tests), chosen, log, 0, line[b]) ==>
        Before(tests, line[a], line[b])
  }

  /** The order of running: `line` is the log and what is ready behind it. */
  ghost predicate Stacked(tests: seq<Test>, chosen: set<Module>, log: seq<Test>, line: seq<Test>) {
    && NewestFirst(Elements(tests), chosen, log, line)
    && TogetherInOrder(tests, chosen, log, line)
    && FirstInOrder(tests, chosen, log, line)
  }

  /** How many tests of the log end in `st` and, as `good` says, succeed or not. */
  ghost function Tally(log: seq<Test>, chosen: set<Module>, st: Status, good: bool): nat {
    if log == [] then 0
    else
      var t := log[|log| - 1];
      Tally(log[..|log| - 1], chosen, st, good)
      + if EndStatus(t, chosen) == st && Succeeds(t, chosen) == good then 1 else 0
  }

  ghost function Successes(log: seq<Test>, chosen: set<Module>): nat {
    if log == [] then 0
    else Successes(log[..|log| - 1], chosen) + if Succeeds(log[|log| - 1], chosen) then 1 else 0
  }

  ghost function Skips(log: seq<Test>, chosen: set<Module>): nat {
    if log == [] then 0
    else Skips(log[..|log| - 1], chosen) + if EndStatus(log[|log| - 1], chosen) == SKIP then 1 else 0
  }

  // -------------------------------------------------------------- the tables

  /** The tests waiting for module `m`, in registration order. */
  ghost function Waiting(tests: seq<Test>, m: Module): seq<Test> {
    if tests == [] then []
    else
      var t := tests[|tests| - 1];
      Waiting(tests[..|tests| - 1], m) + if m in t.deps then [t] else []
  }

  function ListAt(b: map<Module, seq<Test>>, m: Module): seq<Test> { if m in b then b[m] else [] }

  function SetAt(r: map<Module, set<Test>>, m: Module): set<Test> { if m in r then r[m] else {} }

  lemma {:induction false} WaitingElements(tests: seq<Test>, m: Module)
    requires NoRepeats(tests)
    ensures NoRepeats(Waiting(tests, m))
    ensures forall t :: t in Waiting(tests, m) <==> t in tests && m in t.deps
  {
    if tests != [] {
      var rest, t := tests[..|tests| - 1], tests[|tests| - 1];
      WaitingElements(rest, m);
      assert tests == rest + [t];
    }
  }

  datatype Tables = Tables(
    ready: seq<Test>, blocked: map<Module, seq<Test>>, remaining: map<Module, set<Test>>, owed: Heap)

  /** `blocked[dep].push_back(t)` for every dependency of `t`. */
  method Enlist(blocked: map<Module, seq<Test>>, t: Test) returns (b: map<Module, seq<Test>>)
    ensures forall m :: ListAt(b, m) == ListAt(blocked, m) + if m in t.deps then [t] else []
  {
    b := blocked;
    var rest := t.deps;
    while rest != {}
      invariant rest <= t.deps
      invariant forall m :: ListAt(b, m) == ListAt(blocked, m) + if m in t.deps && m !in rest then [t] else []
      decreases |rest|
    {
      var dep :| dep in rest;
      b := b[dep := ListAt(b, dep) + [t]];
      rest := rest - {dep};
    }
  }

  ghost predicate ReadyHolds(done: seq<Test>, ready: seq<Test>) {
    NoRepeats(ready) && forall t :: t in ready <==> t in done && t.deps == {}
  }

  ghost predicate BlockedHolds(done: seq<Test>, b: map<Module, seq<Test>>) {
    forall m :: ListAt(b, m) == Waiting(done, m)
  }

  ghost predicate RemainingHolds(done: seq<Test>, r: map<Module, set<Test>>) {
    forall m :: SetAt(r, m) == Members(Elements(done), m)
  }

  ghost predicate OwedHolds(done: seq<Test>, owed: Heap) {
    owed.Keys == Elements(done) && forall t :: t in owed ==> owed[t] == t.deps
  }

  /** What the tables hold after the tests `done` are registered. */
  ghost predicate Registered(done: seq<Test>, s: Tables) {
    ReadyHolds(done, s.ready) && BlockedHolds(done, s.blocked) && RemainingHolds(done, s.remaining)
      && OwedHolds(done, s.owed)
  }

  /** The list has tests of the sequence only, in their order. */
  ghost predicate Sorted(tests: seq<Test>, xs: seq<Test>) {
    (forall x :: x in xs ==> x in tests) && forall i, j :: 0 <= i < j < |xs| ==> Before(tests, xs[i], xs[j])
  }

  lemma NothingSorted()
    ensures Sorted([], [])
  {
  }

  /** It stays so when one more test comes, whether or not it is taken. */
  lemma SortedSnoc(tests: seq<Test>, t: Test, xs: seq<Test>)
    requires Sorted(tests, xs)
    ensures Sorted(tests + [t], xs) && Sorted(tests + [t], xs + [t])
  {
    hide Before;
    forall x, y | Before(tests, x, y) ensures Before(tests + [t], x, y) { BeforeSnoc(tests, t, x, y); }
    forall x | x in tests ensures Before(tests + [t], x, t) { BeforeLast(tests, t, x); }
  }

  lemma BeforeSnoc(tests: seq<Test>, t: Test, x: Test, y: Test)
    requires Before(tests, x, y)
    ensures Before(tests + [t], x, y)
  {
    var p, q :| 0 <= p < q < |tests| && tests[p] == x && tests[q] == y;
    assert (tests + [t])[p] == x && (tests + [t])[q] == y;
  }

  lemma BeforeLast(tests: seq<Test>, t: Test, x: Test)
    requires x in tests
    ensures Before(tests + [t], x, t)
  {
    var p :| 0 <= p < |tests| && tests[p] == x;
    assert (tests + [t])[p] == x && (tests + [t])[|tests|] == t;
  }

  lemma {:induction false} WaitingSorted(tests: seq<Test>, m: Module)
    ensures Sorted(tests, Waiting(tests, m))
  {
    hide Sorted;
    if tests == [] {
      NothingSorted();
    } else {
      var rest, t := tests[..|tests| - 1], tests[|tests| - 1];
      assert tests == rest + [t];
      WaitingSorted(rest, m);
      SortedSnoc(rest, t, Waiting(rest, m));
      assert Waiting(rest, m) + [] == Waiting(rest, m);
    }
  }

  lemma RegisterReady(done: seq<Test>, t: Test, ready: seq<Test>)
    requires ReadyHolds(done, ready) && t !in done
    ensures ReadyHolds(done + [t], if t.deps == {} then ready + [t] else ready)
  {
  }

  lemma RegisterBlocked(done: seq<Test>, t: Test, b: map<Module, seq<Test>>, b': map<Module, seq<Test>>)
    requires BlockedHolds(done, b)
    requires forall m :: ListAt(b', m) == ListAt(b, m) + if m in t.deps then [t] else []
    ensures BlockedHolds(done + [t], b')
  {
    assert (done + [t])[..|done|] == done;
  }

  lemma RegisterRemaining(done: seq<Test>, t: Test, r: map<Module, set<Test>>)
    requires RemainingHolds(done, r)
    ensures RemainingHolds(done + [t], r[t.mod := SetAt(r, t.mod) + {t}])
  {
    var r' := r[t.mod := SetAt(r, t.mod) + {t}];
    forall m ensures SetAt(r', m) == Members(Elements(done + [t]), m) {
      assert SetAt(r, m) == Members(Elements(done), m);
    }
  }

  lemma RegisterOwed(done: seq<Test>, t: Test, owed: Heap)
    requires OwedHolds(done, owed)
    ensures OwedHolds(done + [t], owed[t := t.deps])
  {
  }

  method Register(tests: seq<Test>) returns (s: Tables)
    requires NoRepeats(tests)
    ensures Registered(tests, s) && Sorted(tests, s.ready)
  {
    hide Sorted, ReadyHolds, BlockedHolds, RemainingHolds, OwedHolds;
    NothingRegistered();
    NothingSorted();
    s := Tables([], map[], map[], map[]);
    for i := 0 to |tests|
      invariant Registered(tests[..i], s) && Sorted(tests[..i], s.ready)
    {
      var t := tests[i];
      ghost var done := tests[..i];
      RegisterReady(done, t, s.ready);
      SortedSnoc(done, t, s.ready);
      RegisterRemaining(done, t, s.remaining);
      RegisterOwed(done, t, s.owed);
      var b := s.blocked;
      if t.deps == {} {
        s := s.(ready := s.ready + [t]);
      } else {
        b := Enlist(s.blocked, t);
      }
      RegisterBlocked(done, t, s.blocked, b);
      s := Tables(s.ready, b, s.remaining[t.mod := SetAt(s.remaining, t.mod) + {t}], s.owed[t := t.deps]);
      assert tests[..i + 1] == done + [t];
    }
    assert tests[..|tests|] == tests;
  }

  lemma NothingRegistered()
    ensures Registered([], Tables([], map[], map[], map[]))
  {
  }

  // ------------------------------------------------------------ unblocking

  /** The waiting tests for which `m` was the last open dependency. */
  ghost function Freed(waiting: seq<Test>, m: Module, owed: Heap): seq<Test>
    requires forall t :: t in waiting ==> t in owed
  {
    if waiting == [] then []
    else
      var t := waiting[|waiting| - 1];
      Freed(waiting[..|waiting| - 1], m, owed) + if owed[t] - {m} == {} then [t] else []
  }

  lemma FreedSnoc(done: seq<Test>, t: Test, m: Module, owed: Heap)
    requires t in owed && forall u :: u in done ==> u in owed
    ensures Freed(done + [t], m, owed) == Freed(done, m, owed) + if owed[t] - {m} == {} then [t] else []
  {
    assert (done + [t])[..|done|] == done;
  }

  lemma {:induction false} FreedElements(waiting: seq<Test>, m: Module, owed: Heap)
    requires NoRepeats(waiting) && forall t :: t in waiting ==> t in owed
    ensures NoRepeats(Freed(waiting, m, owed))
    ensures forall t :: t in Freed(waiting, m, owed) <==> t in waiting && owed[t] - {m} == {}
  {
    if waiting != [] {
      hide Freed;
      var rest, t := waiting[..|waiting| - 1], waiting[|waiting| - 1];
      assert waiting == rest + [t];
      FreedElements(rest, m, owed);
      FreedSnoc(rest, t, m, owed);
    }
  }

  /** A part of a sorted list, taken in its order, is sorted. */
  lemma {:induction false} FreedSorted(tests: seq<Test>, waiting: seq<Test>, m: Module, owed: Heap)
    requires Sorted(tests, waiting) && forall t :: t in waiting ==> t in owed
    ensures Sorted(tests, Freed(waiting, m, owed))
    ensures forall t :: t in Freed(waiting, m, owed) ==> t in waiting
  {
    hide Before, Freed;
    if waiting == [] {
      NoneStruck(m, owed);
    } else {
      var rest, t := waiting[..|waiting| - 1], waiting[|waiting| - 1];
      assert waiting == rest + [t];
      FreedSnoc(rest, t, m, owed);
      FreedSorted(tests, rest, m, owed);
      forall x | x in Freed(rest, m, owed) ensures Before(tests, x, t) {
        var i :| 0 <= i < |rest| && rest[i] == x;
        assert waiting[i] == x && waiting[|rest|] == t;
      }
    }
  }

  /** `h` is `owed` with `m` struck off the tests in `done`. */
  ghost predicate Struck(done: seq<Test>, m: Module, owed: Heap, h: Heap) {
    && h.Keys == owed.Keys
    && forall t :: t in owed ==> h[t] == if t in done then owed[t] - {m} else owed[t]
  }

  lemma StruckSnoc(done: seq<Test>, t: Test, m: Module, owed: Heap, h: Heap)
    requires Struck(done, m, owed, h) && t in owed && t !in done
    ensures t in h && h[t] == owed[t]
    ensures Struck(done + [t], m, owed, h[t := h[t] - {m}])
  {
  }

  lemma InsertAt(r: seq<Test>, f: seq<Test>, ready: seq<Test>, t: Test)
    requires r == f + ready
    ensures r[..|f|] + [t] + r[|f|..] == (f + [t]) + ready
  {
  }

  /** `m` is struck off every waiting test; those that owe nothing more go before what was ready. */
  method Unblock(waiting: seq<Test>, m: Module, ready: seq<Test>, owed: Heap) returns (r: seq<Test>, h: Heap)
    requires NoRepeats(waiting) && forall t :: t in waiting ==> t in owed
    ensures Struck(waiting, m, owed, h)
    ensures r == Freed(waiting, m, owed) + ready
  {
    hide Struck, Freed;
    r, h := ready, owed;
    var at := 0;
    NoneStruck(m, owed);
    for i := 0 to |waiting|
      invariant Struck(waiting[..i], m, owed, h)
      invariant at == |Freed(waiting[..i], m, owed)| && r == Freed(waiting[..i], m, owed) + ready
    {
      var t := waiting[i];
      ghost var done := waiting[..i];
      assert waiting[..i + 1] == done + [t];
      StruckSnoc(done, t, m, owed, h);
      FreedSnoc(done, t, m, owed);
      InsertAt(r, Freed(done, m, owed), ready, t);
      h := h[t := h[t] - {m}];
      if h[t] == {} {
        r := r[..at] + [t] + r[at..];
        at := at + 1;
      }
    }
    assert waiting[..|waiting|] == waiting;
  }

  lemma NoneStruck(m: Module, owed: Heap)
    ensures Struck([], m, owed, owed)
    ensures Freed([], m, owed) == []
  {
  }

  // ----------------------------------------------------------- the worklist

  /** Ready tests are those whose dependencies are complete and that have not run. */
  ghost predicate Listed(all: set<Test>, completed: set<Module>, log: seq<Test>, ready: seq<Test>) {
    && NoRepeats(log + ready)
    && forall t :: t in log || t in ready <==> t in all && t.deps <= completed
  }

  ghost predicate KnowsCompleted(all: set<Test>, completed: set<Module>, won: set<Test>) {
    forall m :: m in completed <==> Complete(all, m, won)
  }

  ghost predicate KnowsRemaining(all: set<Test>, remaining: map<Module, set<Test>>, won: set<Test>) {
    forall m :: SetAt(remaining, m) == Members(all, m) - won
  }

  /** The copies alive are the tests that have not run, each owing its incomplete dependencies. */
  ghost predicate Owing(all: set<Test>, completed: set<Module>, log: seq<Test>, owed: Heap) {
    && owed.Keys == all - Elements(log)
    && forall t :: t in owed ==> owed[t] == t.deps - completed
  }

  /** Only a success changes what is complete, and only in its own module. */
  lemma CompleteAfter(all: set<Test>, completed: set<Module>, won: set<Test>, t: Test)
    requires KnowsCompleted(all, completed, won) && t in all && t !in won
    ensures t.mod !in completed
    ensures KnowsCompleted(
              all, if Members(all, t.mod) - won - {t} == {} then completed + {t.mod} else completed, won + {t})
  {
    assert t in Members(all, t.mod);
    forall m ensures m != t.mod ==> (Complete(all, m, won) <==> Complete(all, m, won + {t})) {
      assert m != t.mod ==> t !in Members(all, m);
    }
    assert Members(all, t.mod) - won - {t} == {} <==> Members(all, t.mod) <= won + {t};
  }

  lemma RemainingAfter(all: set<Test>, remaining: map<Module, set<Test>>, won: set<Test>, t: Test)
    requires KnowsRemaining(all, remaining, won) && t in all && t !in won
    ensures t.mod in remaining && t in remaining[t.mod]
    ensures remaining[t.mod] - {t} == Members(all, t.mod) - won - {t}
    ensures KnowsRemaining(all, remaining[t.mod := remaining[t.mod] - {t}], won + {t})
  {
    assert t in Members(all, t.mod) - won;
    assert SetAt(remaining, t.mod) == Members(all, t.mod) - won;
    var r := remaining[t.mod := remaining[t.mod] - {t}];
    forall m ensures SetAt(r, m) == Members(all, m) - (won + {t}) {
      assert SetAt(remaining, m) == Members(all, m) - won;
      assert m != t.mod ==> t !in Members(all, m);
    }
  }

  lemma OrderAfter(all: set<Test>, chosen: set<Module>, completed: set<Module>, log: seq<Test>, t: Test)
    requires InOrder(all, chosen, log) && KnowsCompleted(all, completed, Won(Elements(log), chosen))
    requires t in all && t.deps <= completed
    ensures InOrder(all, chosen, log + [t])
  {
    var l := log + [t];
    forall i | 0 <= i < |l| ensures DepsComplete(all, l[i], Won(Elements(l[..i]), chosen)) {
      assert l[..i] == log[..i];
      assert log[..|log|] == log;
    }
  }

  /** Moving the first ready test to the log lists the same tests. */
  lemma ListedAfterPop(all: set<Test>, completed: set<Module>, log: seq<Test>, ready: seq<Test>)
    requires Listed(all, completed, log, ready) && ready != []
    ensures Listed(all, completed, log + [ready[0]], ready[1..])
    ensures ready[0] in all && ready[0] !in log && ready[0].deps <= completed
  {
    assert ready == [ready[0]] + ready[1..];
    assert log + ready == (log + [ready[0]]) + ready[1..];
    assert (log + ready)[|log|] == ready[0];
    assert forall i :: 0 <= i < |log| ==> (log + ready)[i] == log[i];
    assert ready[0] in ready;
  }

  lemma OwingAfterPop(all: set<Test>, completed: set<Module>, log: seq<Test>, owed: Heap, t: Test)
    requires Owing(all, completed, log, owed)
    ensures Owing(all, completed, log + [t], owed - {t})
  {
  }

  /** A test waiting for a module that is not complete is alive and still owes that module. */
  lemma WaitingAlive(tests: seq<Test>, completed: set<Module>, log: seq<Test>, ready: seq<Test>, owed: Heap, m: Module)
    requires NoRepeats(tests) && Listed(Elements(tests), completed, log, ready)
             && Owing(Elements(tests), completed, log, owed)
    requires m !in completed
    ensures forall t :: t in Waiting(tests, m) ==> t in owed && owed[t] == t.deps - completed
    ensures NoRepeats(Waiting(tests, m))
  {
    WaitingElements(tests, m);
  }

  lemma ListedAfterUnblock(tests: seq<Test>, completed: set<Module>, log: seq<Test>, ready: seq<Test>,
      owed: Heap, m: Module)
    requires NoRepeats(tests) && Listed(Elements(tests), completed, log, ready)
    requires m !in completed && forall t :: t in Waiting(tests, m) ==> t in owed && owed[t] == t.deps - completed
    ensures Listed(Elements(tests), completed + {m}, log, Freed(Waiting(tests, m), m, owed) + ready)
  {
    WaitingElements(tests, m);
    FreedElements(Waiting(tests, m), m, owed);
    hide Waiting, Freed;
    FreedAreListed(tests, completed, log, ready, m, Freed(Waiting(tests, m), m, owed));
  }

  lemma FreedAreListed(tests: seq<Test>, completed: set<Module>, log: seq<Test>, ready: seq<Test>, m: Module,
      f: seq<Test>)
    requires Listed(Elements(tests), completed, log, ready) && m !in completed && NoRepeats(f)
    requires forall t :: t in f <==> t in tests && m in t.deps && t.deps - completed - {m} == {}
    ensures Listed(Elements(tests), completed + {m}, log, f + ready)
  {
    InsertedNoRepeats(log, f, ready);
    hide NoRepeats;
    forall t: Test ensures t in log || t in f + ready <==> t in Elements(tests) && t.deps <= completed + {m} {
      assert t in f <==> t in tests && m in t.deps && t.deps - completed - {m} == {};
    }
  }

  lemma InsertedNoRepeats(log: seq<Test>, f: seq<Test>, ready: seq<Test>)
    requires NoRepeats(log + ready) && NoRepeats(f)
    requires forall t :: t in f ==> t !in log && t !in ready
    ensures NoRepeats(log + (f + ready))
  {
    var s, n := log + (f + ready), |log|;
    forall i, j | 0 <= i < j < |s| ensures s[i] != s[j] {
      assert i < n ==> s[i] == (log + ready)[i] && s[i] in log;
      assert n <= i < n + |f| ==> s[i] == f[i - n] && s[i] in f;
      assert n + |f| <= i ==> s[i] == (log + ready)[i - |f|] && s[i] in ready;
      assert j < n ==> s[j] == (log + ready)[j];
      assert n <= j < n + |f| ==> s[j] == f[j - n] && s[j] in f;
      assert n + |f| <= j ==> s[j] == (log + ready)[j - |f|] && s[j] in ready;
    }
  }

  lemma OwingAfterUnblock(tests: seq<Test>, completed: set<Module>, log: seq<Test>, owed: Heap, h: Heap, m: Module)
    requires NoRepeats(tests) && Owing(Elements(tests), completed, log, owed)
    requires Struck(Waiting(tests, m), m, owed, h)
    ensures Owing(Elements(tests), completed + {m}, log, h)
  {
    WaitingElements(tests, m);
  }

  // -------------------------------------------------------------- the run

  datatype Summary = Summary(
    success: bool, runCount: nat, skipCount: nat, successCount: nat,
    nominal: map<Status, nat>, unexpected: map<Status, nat>)

  function CountAt(c: map<Status, nat>, st: Status): nat { if st in c then c[st] else 0 }

  /** The summary tells the number of runs, skips and successes and the runs per status. */
  ghost predicate Accounts(log: seq<Test>, chosen: set<Module>, s: Summary) {
    && (s.success <==> forall t :: t in log ==> Succeeds(t, chosen))
    && s.runCount == |log|
    && s.skipCount == Skips(log, chosen)
    && s.successCount == Successes(log, chosen)
    && (forall st :: CountAt(s.nominal, st) == Tally(log, chosen, st, true))
    && (forall st :: CountAt(s.unexpected, st) == Tally(log, chosen, st, false))
  }

  lemma AccountsFields(log: seq<Test>, chosen: set<Module>, s: Summary)
    requires Accounts(log, chosen, s)
    ensures s.runCount == |log| && s.successCount == Successes(log, chosen)
  {
  }

  method Account(s: Summary, t: Test, chosen: set<Module>, ghost log: seq<Test>) returns (r: Summary)
    requires Accounts(log, chosen, s)
    ensures Accounts(log + [t], chosen, r)
  {
    assert (log + [t])[..|log|] == log;
    var st := EndStatus(t, chosen);
    r := s.(runCount := s.runCount + 1);
    if st == SKIP { r := r.(skipCount := r.skipCount + 1); }
    if Succeeds(t, chosen) {
      r := r.(successCount := r.successCount + 1, nominal := r.nominal[st := CountAt(r.nominal, st) + 1]);
    } else {
      r := r.(success := false, unexpected := r.unexpected[st := CountAt(r.unexpected, st) + 1]);
    }
  }

  lemma WonSnoc(log: seq<Test>, t: Test, chosen: set<Module>)
    requires t !in log
    ensures Elements(log + [t]) == Elements(log) + {t} && t !in Elements(log) && t !in Won(Elements(log), chosen)
    ensures Succeeds(t, chosen) ==> Won(Elements(log + [t]), chosen) == Won(Elements(log), chosen) + {t}
    ensures !Succeeds(t, chosen) ==> Won(Elements(log + [t]), chosen) == Won(Elements(log), chosen)
  {
  }

  lemma Started(tests: seq<Test>, chosen: set<Module>, s: Tables)
    requires NoRepeats(tests) && Registered(tests, s)
    ensures var all, won := Elements(tests), Won(Elements<Test>([]), chosen);
            && Listed(all, {}, [], s.ready) && KnowsCompleted(all, {}, won) && KnowsRemaining(all, s.remaining, won)
            && Owing(all, {}, [], s.owed) && InOrder(all, chosen, [])
            && Accounts([], chosen, Summary(true, 0, 0, 0, map[], map[]))
  {
    assert [] + s.ready == s.ready;
    assert Won(Elements<Test>([]), chosen) == {};
  }

  lemma StillAlive(all: set<Test>, completed: set<Module>, log: seq<Test>, owed: Heap, t: Test)
    requires Owing(all, completed, log, owed) && t in all && t !in log
    ensures t in owed
  {
  }

  lemma BlockedLists(tests: seq<Test>, s: Tables)
    requires Registered(tests, s)
    ensures forall m :: ListAt(s.blocked, m) == Waiting(tests, m)
  {
  }

  lemma ReadyMonotone(all: set<Test>, chosen: set<Module>, log: seq<Test>, i: nat, j: nat, t: Test)
    requires ReadyAt(all, chosen, log, i, t) && i <= j <= |log|
    ensures ReadyAt(all, chosen, log, j, t)
  {
    assert Elements(log[..i]) <= Elements(log[..j]);
    WonMonotone(log[..i], chosen, Elements(log[..j]));
    CompleteMonotone(all, t, Won(Elements(log[..i]), chosen), Won(Elements(log[..j]), chosen));
  }

  lemma ReadyStays(all: set<Test>, chosen: set<Module>, log: seq<Test>)
    ensures forall i: nat, t :: ReadyAt(all, chosen, log, i, t) ==> ReadyAt(all, chosen, log, |log|, t)
  {
    forall i: nat, t | ReadyAt(all, chosen, log, i, t) ensures ReadyAt(all, chosen, log, |log|, t) {
      ReadyMonotone(all, chosen, log, i, |log|, t);
    }
  }

  lemma ReadyPrefix(all: set<Test>, chosen: set<Module>, log: seq<Test>, u: Test)
    ensures forall i: nat, t :: i <= |log| ==>
              (ReadyAt(all, chosen, log + [u], i, t) <==> ReadyAt(all, chosen, log, i, t))
    ensures forall i: nat, t :: i < |log| ==>
              (MadeReady(all, chosen, log + [u], i, t) <==> MadeReady(all, chosen, log, i, t))
  {
    assert forall i :: 0 <= i <= |log| ==> (log + [u])[..i] == log[..i];
  }

  /** Ready now is having all dependencies completed. */
  lemma ReadyNow(all: set<Test>, chosen: set<Module>, completed: set<Module>, log: seq<Test>)
    requires KnowsCompleted(all, completed, Won(Elements(log), chosen))
    ensures forall t :: ReadyAt(all, chosen, log, |log|, t) <==> t.deps <= completed
  {
    assert log[..|log|] == log;
  }

  lemma StackedStart(tests: seq<Test>, chosen: set<Module>, ready: seq<Test>)
    requires Sorted(tests, ready)
    ensures Stacked(tests, chosen, [], [] + ready)
  {
    hide ReadyAt, Before;
    assert [] + ready == ready;
  }

  /** Who stands where when `f` is put before `rest`, and who stood there. */
  lemma PutBefore(log: seq<Test>, u: Test, f: seq<Test>, rest: seq<Test>, a: nat)
    requires a < |log + [u] + (f + rest)|
    ensures var x, n := (log + [u] + (f + rest))[a], |log| + 1;
            if a < n then x == (log + [u] + rest)[a]
            else if a < n + |f| then x == f[a - n] && x in f
            else x == (log + [u] + rest)[a - |f|] && x in rest
  {
  }

  /** The turn: `f` is what `u` makes ready, `rest` was ready before. */
  ghost predicate Turn(all: set<Test>, chosen: set<Module>, log: seq<Test>, f: seq<Test>, rest: seq<Test>) {
    && (forall t :: t in rest ==> ReadyAt(all, chosen, log, |log|, t))
    && (forall i: nat, t :: i <= |log| && t in f ==> !ReadyAt(all, chosen, log, i, t))
  }

  lemma NewestFirstStep(all: set<Test>, chosen: set<Module>, log: seq<Test>, u: Test, f: seq<Test>, rest: seq<Test>)
    requires NewestFirst(all, chosen, log, log + [u] + rest) && Turn(all, chosen, log, f, rest)
    ensures NewestFirst(all, chosen, log + [u], log + [u] + (f + rest))
  {
    ReadyPrefix(all, chosen, log, u);
    hide ReadyAt;
    var line, n := log + [u] + (f + rest), |log| + 1;
    forall i: nat, a, b | i < a < |line| && i < b < |line|
      && MadeReady(all, chosen, log + [u], i, line[a]) && ReadyAt(all, chosen, log + [u], i, line[b])
      ensures a < b
    {
      PutBefore(log, u, f, rest, a);
      PutBefore(log, u, f, rest, b);
      if i < |log| {
        var a0, b0 := if a < n then a else a - |f|, if b < n then b else b - |f|;
        assert MadeReady(all, chosen, log, i, (log + [u] + rest)[a0]);
        assert a0 < b0;
      }
    }
  }

  lemma TogetherInOrderStep(tests: seq<Test>, chosen: set<Module>, log: seq<Test>, u: Test, f: seq<Test>,
      rest: seq<Test>)
    requires TogetherInOrder(tests, chosen, log, log + [u] + rest) && Turn(Elements(tests), chosen, log, f, rest)
    requires Sorted(tests, f)
    ensures TogetherInOrder(tests, chosen, log + [u], log + [u] + (f + rest))
  {
    var all, line, n := Elements(tests), log + [u] + (f + rest), |log| + 1;
    ReadyPrefix(all, chosen, log, u);
    hide ReadyAt, Before, Elements;
    forall i: nat, a, b | i < a < b < |line|
      && MadeReady(all, chosen, log + [u], i, line[a]) && MadeReady(all, chosen, log + [u], i, line[b])
      ensures Before(tests, line[a], line[b])
    {
      PutBefore(log, u, f, rest, a);
      PutBefore(log, u, f, rest, b);
      if i < |log| {
        var a0, b0 := if a < n then a else a - |f|, if b < n then b else b - |f|;
        assert MadeReady(all, chosen, log, i, (log + [u] + rest)[a0]);
        assert MadeReady(all, chosen, log, i, (log + [u] + rest)[b0]);
      }
    }
  }

  lemma FirstInOrderStep(tests: seq<Test>, chosen: set<Module>, log: seq<Test>, u: Test, f: seq<Test>, rest: seq<Test>)
    requires FirstInOrder(tests, chosen, log, log + [u] + rest) && Turn(Elements(tests), chosen, log, f, rest)
    ensures FirstInOrder(tests, chosen, log + [u], log + [u] + (f + rest))
  {
    var all, line, n := Elements(tests), log + [u] + (f + rest), |log| + 1;
    ReadyPrefix(all, chosen, log, u);
    hide ReadyAt, Before, Elements;
    forall a, b | 0 <= a < b < |line| && ReadyAt(all, chosen, log + [u], 0, line[a])
      && ReadyAt(all, chosen, log + [u], 0, line[b])
      ensures Before(tests, line[a], line[b])
    {
      PutBefore(log, u, f, rest, a);
      PutBefore(log, u, f, rest, b);
      var a0, b0 := if a < n then a else a - |f|, if b < n then b else b - |f|;
      assert ReadyAt(all, chosen, log, 0, (log + [u] + rest)[a0])
             && ReadyAt(all, chosen, log, 0, (log + [u] + rest)[b0]);
    }
  }

  /** One turn keeps the order; nothing but `f` is put before what was ready. */
  lemma StackedStep(tests: seq<Test>, chosen: set<Module>, completed: set<Module>, log: seq<Test>,
      ready: seq<Test>, f: seq<Test>)
    requires Stacked(tests, chosen, log, log + ready) && ready != [] && Sorted(tests, f)
    requires Listed(Elements(tests), completed, log, ready)
    requires KnowsCompleted(Elements(tests), completed, Won(Elements(log), chosen))
    requires forall t :: t in f ==> !(t.deps <= completed)
    ensures Stacked(tests, chosen, log + [ready[0]], log + [ready[0]] + (f + ready[1..]))
  {
    var all, u, rest := Elements(tests), ready[0], ready[1..];
    hide Elements, Won, KnowsCompleted, ReadyAt, NewestFirst, TogetherInOrder, FirstInOrder, Sorted;
    assert log + [u] + rest == log + ready;
    ReadyNow(all, chosen, completed, log);
    ReadyStays(all, chosen, log);
    assert Turn(all, chosen, log, f, rest);
    NewestFirstStep(all, chosen, log, u, f, rest);
    TogetherInOrderStep(tests, chosen, log, u, f, rest);
    FirstInOrderStep(tests, chosen, log, u, f, rest);
  }

  /** What a completed module sets free was not ready, and is in the order of registration. */
  lemma FreedLate(tests: seq<Test>, completed: set<Module>, owed: Heap, m: Module)
    requires m !in completed && forall t :: t in Waiting(tests, m) ==> t in owed
    requires NoRepeats(tests)
    ensures Sorted(tests, Freed(Waiting(tests, m), m, owed))
    ensures forall t :: t in Freed(Waiting(tests, m), m, owed) ==> !(t.deps <= completed)
  {
    WaitingElements(tests, m);
    WaitingSorted(tests, m);
    hide Waiting, Freed, Sorted, NoRepeats;
    FreedSorted(tests, Waiting(tests, m), m, owed);
  }

  lemma NothingFreed(tests: seq<Test>, ready: seq<Test>)
    ensures Sorted(tests, []) && [] + ready == ready
  {
  }

  /** With nothing ready, the tests that ran are all that could. */
  lemma NothingReady(all: set<Test>, chosen: set<Module>, completed: set<Module>, log: seq<Test>)
    requires Listed(all, completed, log, []) && KnowsCompleted(all, completed, Won(Elements(log), chosen))
    ensures Runnable(all, chosen, Elements(log)) == Elements(log)
  {
    var won := Won(Elements(log), chosen);
    forall t: Test ensures t.deps <= completed <==> DepsComplete(all, t, won) {
    }
  }

  /** A log in dependency order lies within every set closed under running what is runnable. */
  lemma {:induction false} OrderedIsLeast(all: set<Test>, chosen: set<Module>, log: seq<Test>, x: set<Test>)
    requires InOrder(all, chosen, log) && Runnable(all, chosen, x) <= x
    ensures Elements(log) <= x
    decreases |log|
  {
    if log != [] {
      var n := |log| - 1;
      var rest, t := log[..n], log[n];
      assert forall i :: 0 <= i < n ==> log[..n][..i] == log[..i];
      OrderedIsLeast(all, chosen, rest, x);
      WonMonotone(rest, chosen, x);
      CompleteMonotone(all, t, Won(Elements(rest), chosen), Won(x, chosen));
      assert t in Runnable(all, chosen, x);
      assert log == rest + [t];
    }
  }

  lemma WonMonotone(log: seq<Test>, chosen: set<Module>, x: set<Test>)
    requires Elements(log) <= x
    ensures Won(Elements(log), chosen) <= Won(x, chosen)
  {
  }

  lemma CompleteMonotone(all: set<Test>, t: Test, won: set<Test>, more: set<Test>)
    requires DepsComplete(all, t, won) && won <= more
    ensures DepsComplete(all, t, more)
  {
    forall m | m in t.deps ensures Complete(all, m, more) {
      assert Complete(all, m, won);
    }
  }

  lemma RunIsLeastFixpoint(all: set<Test>, chosen: set<Module>, completed: set<Module>, log: seq<Test>)
    requires Listed(all, completed, log, []) && KnowsCompleted(all, completed, Won(Elements(log), chosen))
    requires InOrder(all, chosen, log)
    ensures IsLeastFixpoint(all, chosen, Elements(log)) && NoRepeats(log)
  {
    assert log + [] == log;
    NothingReady(all, chosen, completed, log);
    forall x: set<Test> | Runnable(all, chosen, x) <= x ensures Elements(log) <= x {
      OrderedIsLeast(all, chosen, log, x);
    }
  }

  lemma {:induction false} SuccessesWithin(log: seq<Test>, chosen: set<Module>)
    ensures Successes(log, chosen) <= |log|
  {
    if log != [] { SuccessesWithin(log[..|log| - 1], chosen); }
  }

  lemma CountsWithin(tests: seq<Test>, chosen: set<Module>, log: seq<Test>)
    requires NoRepeats(tests) && NoRepeats(log) && InOrder(Elements(tests), chosen, log)
    ensures Successes(log, chosen) <= |log| <= |tests|
  {
    SuccessesWithin(log, chosen);
    ElementsSize(log);
    ElementsSize(tests);
    SubsetSize(Elements(log), Elements(tests));
  }

  ghost function Tallied(ran: set<Test>, chosen: set<Module>, st: Status, good: bool): set<Test> {
    set t | t in ran && EndStatus(t, chosen) == st && Succeeds(t, chosen) == good
  }

  ghost function Skipped(ran: set<Test>, chosen: set<Module>): set<Test> {
    set t | t in ran && EndStatus(t, chosen) == SKIP
  }

  /** The counts of a log without repeats are sizes of sets of tests. */
  lemma {:induction false} CountsAreSizes(log: seq<Test>, chosen: set<Module>, st: Status, good: bool)
    requires NoRepeats(log)
    ensures Tally(log, chosen, st, good) == |Tallied(Elements(log), chosen, st, good)|
    ensures Successes(log, chosen) == |Won(Elements(log), chosen)|
    ensures Skips(log, chosen) == |Skipped(Elements(log), chosen)|
  {
    if log != [] {
      var rest, t := log[..|log| - 1], log[|log| - 1];
      CountsAreSizes(rest, chosen, st, good);
      assert log == rest + [t] && t !in rest;
      SetsGrow(Elements(rest), t, chosen, st, good);
      assert Elements(log) == Elements(rest) + {t};
    }
  }

  lemma SetsGrow(ran: set<Test>, t: Test, chosen: set<Module>, st: Status, good: bool)
    requires t !in ran
    ensures |Tallied(ran + {t}, chosen, st, good)| ==
            |Tallied(ran, chosen, st, good)|
            + if EndStatus(t, chosen) == st && Succeeds(t, chosen) == good then 1 else 0
    ensures |Won(ran + {t}, chosen)| == |Won(ran, chosen)| + if Succeeds(t, chosen) then 1 else 0
    ensures |Skipped(ran + {t}, chosen)| == |Skipped(ran, chosen)| + if EndStatus(t, chosen) == SKIP then 1 else 0
  {
    hide Succeeds, EndStatus;
    var more := ran + {t};
    AddOne(Tallied(ran, chosen, st, good), t, EndStatus(t, chosen) == st && Succeeds(t, chosen) == good,
           Tallied(more, chosen, st, good));
    AddOne(Won(ran, chosen), t, Succeeds(t, chosen), Won(more, chosen));
    AddOne(Skipped(ran, chosen), t, EndStatus(t, chosen) == SKIP, Skipped(more, chosen));
  }

  lemma AddOne(a: set<Test>, t: Test, p: bool, b: set<Test>)
    requires t !in a
    requires forall u :: u in b <==> u in a || (p && u == t)
    ensures |b| == |a| + if p then 1 else 0
  {
    assert b == if p then a + {t} else a;
  }

  /** What the summary says of the tests themselves: which ran, and which of those ended as expected. */
  lemma SummaryMeans(log: seq<Test>, chosen: set<Module>, s: Summary)
    requires NoRepeats(log) && Accounts(log, chosen, s)
    ensures s.success <==>
              forall t :: t in log && t.enabled && (chosen == {} || t.mod in chosen) ==> t.outcome == t.expected
    ensures s.skipCount ==
            |set t | t in log && (!t.enabled || (chosen != {} && t.mod !in chosen) || t.outcome == SKIP)|
    ensures s.successCount ==
            |set t | t in log && (t.enabled && (chosen == {} || t.mod in chosen) ==> t.outcome == t.expected)|
  {
    CountsAreSizes(log, chosen, PASS, true);
    assert Skipped(Elements(log), chosen) ==
           set t | t in log && (!t.enabled || (chosen != {} && t.mod !in chosen) || t.outcome == SKIP);
    assert Won(Elements(log), chosen) ==
           set t | t in log && (t.enabled && (chosen == {} || t.mod in chosen) ==> t.outcome == t.expected);
  }

  /** And how many of each status did, or did not. */
  lemma StatusesMean(log: seq<Test>, chosen: set<Module>, s: Summary, st: Status)
    requires NoRepeats(log) && Accounts(log, chosen, s)
    ensures CountAt(s.unexpected, st) ==
            |set t | t in log && t.enabled && (chosen == {} || t.mod in chosen) && t.outcome == st != t.expected|
    ensures CountAt(s.nominal, st) ==
            |set t | t in log &&
              if t.enabled && (chosen == {} || t.mod in chosen) then t.outcome == st == t.expected else st == SKIP|
  {
    hide Selected, EndStatus, Succeeds, Tally, NoRepeats;
    CountsAreSizes(log, chosen, st, true);
    CountsAreSizes(log, chosen, st, false);
    UnexpectedAre(log, chosen, st);
    NominalAre(log, chosen, st);
  }

  lemma UnexpectedAre(log: seq<Test>, chosen: set<Module>, st: Status)
    ensures Tallied(Elements(log), chosen, st, false) ==
            set t | t in log && t.enabled && (chosen == {} || t.mod in chosen) && t.outcome == st != t.expected
  {
  }

  lemma NominalAre(log: seq<Test>, chosen: set<Module>, st: Status)
    ensures Tallied(Elements(log), chosen, st, true) ==
            set t | t in log &&
              if t.enabled && (chosen == {} || t.mod in chosen) then t.outcome == st == t.expected else st == SKIP
  {
  }

  method RunAll(tests: seq<Test>, chosen: set<Module>) returns (log: seq<Test>, sum: Summary)
    requires NoRepeats(tests)
    ensures NoRepeats(log) && InOrder(Elements(tests), chosen, log)
    ensures IsLeastFixpoint(Elements(tests), chosen, Elements(log))
    ensures Accounts(log, chosen, sum)
    ensures Stacked(tests, chosen, log, log)
    ensures sum.success <==>
              forall t :: t in log && t.enabled && (chosen == {} || t.mod in chosen) ==> t.outcome == t.expected
    ensures sum.skipCount ==
            |set t | t in log && (!t.enabled || (chosen != {} && t.mod !in chosen) || t.outcome == SKIP)|
    ensures sum.successCount ==
            |set t | t in log && (t.enabled && (chosen == {} || t.mod in chosen) ==> t.outcome == t.expected)|
    ensures sum.successCount <= sum.runCount <= |tests|
  {
    hide Stacked, Sorted, Listed, KnowsCompleted, KnowsRemaining, Owing, InOrder, Accounts, Registered,
         Elements, Members, Won, Struck, Waiting, Freed, BlockedHolds, ReadyHolds, RemainingHolds, OwedHolds,
         IsLeastFixpoint, NoRepeats;
    ghost var all, completed := Elements(tests), {};
    var s := Register(tests);
    BlockedLists(tests, s);
    var blocked := s.blocked;
    Started(tests, chosen, s);
    var ready, remaining, owed := s.ready, s.remaining, s.owed;
    log, sum := [], Summary(true, 0, 0, 0, map[], map[]);
    StackedStart(tests, chosen, ready);
    while ready != []
      invariant Stacked(tests, chosen, log, log + ready)
      invariant Listed(all, completed, log, ready)
      invariant KnowsCompleted(all, completed, Won(Elements(log), chosen))
      invariant KnowsRemaining(all, remaining, Won(Elements(log), chosen))
      invariant Owing(all, completed, log, owed)
      invariant InOrder(all, chosen, log)
      invariant Accounts(log, chosen, sum)
      decreases all - Elements(log)
    {
      var test := ready[0];
      ghost var won, queue := Won(Elements(log), chosen), ready;
      ghost var f, rest := [], ready[1..];
      NothingFreed(tests, rest);
      ListedAfterPop(all, completed, log, ready);
      OrderAfter(all, chosen, completed, log, test);
      WonSnoc(log, test, chosen);
      StillAlive(all, completed, log, owed, test);
      ready := ready[1..];
      sum := Account(sum, test, chosen, log);
      ghost var done := completed;
      if Succeeds(test, chosen) {
        CompleteAfter(all, completed, won, test);
        RemainingAfter(all, remaining, won, test);
        var left := remaining[test.mod] - {test};
        remaining := remaining[test.mod := left];
        if left == {} {
          ghost var before := owed;
          WaitingAlive(tests, completed, log, queue, owed, test.mod);
          ListedAfterUnblock(tests, completed, log + [test], ready, owed, test.mod);
          f := Freed(Waiting(tests, test.mod), test.mod, owed);
          FreedLate(tests, completed, owed, test.mod);
          ready, owed := Unblock(ListAt(blocked, test.mod), test.mod, ready, owed);
          OwingAfterUnblock(tests, completed, log, before, owed, test.mod);
          completed := completed + {test.mod};
        }
      }
      StackedStep(tests, chosen, done, log, queue, f);
      OwingAfterPop(all, completed, log, owed, test);
      owed := owed - {test};
      log := log + [test];
    }
    assert log + ready == log;
    RunIsLeastFixpoint(all, chosen, completed, log);
    CountsWithin(tests, chosen, log);
    AccountsFields(log, chosen, sum);
    SummaryMeans(log, chosen, sum);
  }
}
