/** What the scheduler's runs have in common, whatever order the tests are registered in. */
module SchedulerTheorems {
  import opened Collections
  import opened TestStatus
  import opened Scheduler

  /** What every finished run guarantees. */
  ghost predicate Finished(tests: seq<Test>, chosen: set<Module>, log: seq<Test>) {
    && NoRepeats(tests)
    && NoRepeats(log)
    && IsLeastFixpoint(Elements(tests), chosen, Elements(log))
  }

  lemma LeastIsUnique(all: set<Test>, chosen: set<Module>, ran: set<Test>, ran': set<Test>)
    requires IsLeastFixpoint(all, chosen, ran) && IsLeastFixpoint(all, chosen, ran')
    ensures ran == ran'
  {
    hide Runnable;
    assert ran <= ran' && ran' <= ran;
  }

  /** The tests that run, and all final counts, do not depend on the order of registration. */
  lemma OrderDoesNotMatter(tests: seq<Test>, tests': seq<Test>, chosen: set<Module>, log: seq<Test>, log': seq<Test>)
    requires Elements(tests) == Elements(tests')
    requires Finished(tests, chosen, log) && Finished(tests', chosen, log')
    ensures Elements(log) == Elements(log') && |log| == |log'| && |tests| == |tests'|
    ensures Successes(log, chosen) == Successes(log', chosen) && Skips(log, chosen) == Skips(log', chosen)
    ensures forall st, good :: Tally(log, chosen, st, good) == Tally(log', chosen, st, good)
  {
    hide Successes, Skips, Tally, NoRepeats, Elements, IsLeastFixpoint;
    LeastIsUnique(Elements(tests), chosen, Elements(log), Elements(log'));
    ElementsSize(tests);
    ElementsSize(tests');
    ElementsSize(log);
    ElementsSize(log');
    forall st, good ensures Tally(log, chosen, st, good) == Tally(log', chosen, st, good) {
      CountsAreSizes(log, chosen, st, good);
      CountsAreSizes(log', chosen, st, good);
    }
    CountsAreSizes(log, chosen, PASS, true);
    CountsAreSizes(log', chosen, PASS, true);
  }

  // ------------------------------------------------------- one order of running

  /** What a run of `RunAll` guarantees of its log. */
  ghost predicate Ran(tests: seq<Test>, chosen: set<Module>, log: seq<Test>) {
    Finished(tests, chosen, log) && InOrder(Elements(tests), chosen, log) && Stacked(tests, chosen, log, log)
  }

  /** When a test became ready. */
  lemma {:induction false} Moment(all: set<Test>, chosen: set<Module>, log: seq<Test>, i: nat, t: Test) returns (m: nat)
    requires ReadyAt(all, chosen, log, i, t)
    ensures m <= i && ReadyAt(all, chosen, log, m, t) && (m > 0 ==> MadeReady(all, chosen, log, m - 1, t))
  {
    if i == 0 || !ReadyAt(all, chosen, log, i - 1, t) { return i; }
    m := Moment(all, chosen, log, i - 1, t);
  }

  lemma NotBoth(tests: seq<Test>, x: Test, y: Test)
    requires NoRepeats(tests) && Before(tests, x, y)
    ensures !Before(tests, y, x)
  {
  }

  /** Two logs that begin the same agree on what is ready by then. */
  lemma SameReady(all: set<Test>, chosen: set<Module>, log: seq<Test>, log': seq<Test>, i: nat, t: Test)
    requires i <= |log| && i <= |log'| && log[..i] == log'[..i]
    ensures forall j: nat :: j <= i ==> (ReadyAt(all, chosen, log, j, t) <==> ReadyAt(all, chosen, log', j, t))
  {
    forall j: nat | j <= i ensures log[..j] == log'[..j] {
      assert log[..j] == log[..i][..j];
    }
  }

  /** Of two tests that are ready, a run takes the one it does take for a reason that holds in every run. */
  lemma Precedes(tests: seq<Test>, chosen: set<Module>, log: seq<Test>, i: nat, b: nat, mx: nat, my: nat)
    requires Stacked(tests, chosen, log, log) && i < b < |log| && mx <= i && my <= i
    requires var all := Elements(tests);
             && ReadyAt(all, chosen, log, mx, log[i]) && (mx > 0 ==> MadeReady(all, chosen, log, mx - 1, log[i]))
             && ReadyAt(all, chosen, log, my, log[b]) && (my > 0 ==> MadeReady(all, chosen, log, my - 1, log[b]))
    ensures my <= mx && (mx == my ==> Before(tests, log[i], log[b]))
  {
    hide ReadyAt, MadeReady, Before, Elements;
    var all := Elements(tests);
    if my > mx {
      hide TogetherInOrder, FirstInOrder;
      if mx < my - 1 { ReadyMonotone(all, chosen, log, mx, my - 1, log[i]); }
    }
  }

  lemma NextIsSame(tests: seq<Test>, chosen: set<Module>, log: seq<Test>, log': seq<Test>, i: nat)
    requires Ran(tests, chosen, log) && Ran(tests, chosen, log') && Elements(log) == Elements(log')
    requires i < |log| && i < |log'| && log[..i] == log'[..i]
    ensures log[i] == log'[i]
  {
    var all, x, y := Elements(tests), log[i], log'[i];
    assert ReadyAt(all, chosen, log, i, x) && ReadyAt(all, chosen, log', i, y);
    if x != y {
      var a, b := FindLater(log, log', i), FindLater(log', log, i);
      SameReady(all, chosen, log, log', i, x);
      SameReady(all, chosen, log, log', i, y);
      var mx := Moment(all, chosen, log, i, x);
      var my := Moment(all, chosen, log', i, y);
      hide Stacked, ReadyAt, Finished, InOrder, Elements, Before, NoRepeats;
      Precedes(tests, chosen, log, i, b, mx, my);
      Precedes(tests, chosen, log', i, a, my, mx);
      NotBoth(tests, x, y);
    }
  }

  /** The next test of the one log stands later in the other. */
  ghost function FindLater(log: seq<Test>, log': seq<Test>, i: nat): (a: nat)
    requires NoRepeats(log) && Elements(log) == Elements(log')
    requires i < |log| && i < |log'| && log[..i] == log'[..i] && log[i] != log'[i]
    ensures i < a < |log'| && log'[a] == log[i]
  {
    assert log[i] in Elements(log');
    var a :| 0 <= a < |log'| && log'[a] == log[i];
    assert forall k :: 0 <= k < i ==> log[..i][k] == log[k] && log'[..i][k] == log'[k];
    a
  }

  lemma {:induction false} SamePrefix(tests: seq<Test>, chosen: set<Module>, log: seq<Test>, log': seq<Test>, i: nat)
    requires Ran(tests, chosen, log) && Ran(tests, chosen, log') && Elements(log) == Elements(log')
    requires i <= |log| && i <= |log'|
    ensures log[..i] == log'[..i]
  {
    hide Ran, Elements;
    if i > 0 {
      SamePrefix(tests, chosen, log, log', i - 1);
      NextIsSame(tests, chosen, log, log', i - 1);
      assert log[..i] == log[..i - 1] + [log[i - 1]] && log'[..i] == log'[..i - 1] + [log'[i - 1]];
    }
  }

  /** The tests run in one order only: registration, dependencies and outcomes determine the log. */
  lemma LogIsDetermined(tests: seq<Test>, chosen: set<Module>, log: seq<Test>, log': seq<Test>)
    requires Ran(tests, chosen, log) && Ran(tests, chosen, log')
    ensures log == log'
  {
    LeastIsUnique(Elements(tests), chosen, Elements(log), Elements(log'));
    ElementsSize(log);
    ElementsSize(log');
    SamePrefix(tests, chosen, log, log', |log|);
    assert log[..|log|] == log && log'[..|log|] == log';
  }

  // ----------------------------------------------------------- choosing modules

  /** Choosing no module is choosing all of them. */
  lemma NoneIsAll(tests: seq<Test>, chosen: set<Module>, log: seq<Test>, log': seq<Test>, s: Summary, s': Summary)
    requires forall t :: t in tests ==> t.mod in chosen
    requires Finished(tests, {}, log) && Accounts(log, {}, s)
    requires Finished(tests, chosen, log') && Accounts(log', chosen, s')
    ensures Elements(log) == Elements(log')
    ensures s.success == s'.success && s.runCount == s'.runCount && s.skipCount == s'.skipCount
    ensures s.successCount == s'.successCount
    ensures forall st :: CountAt(s.nominal, st) == CountAt(s'.nominal, st)
    ensures forall st :: CountAt(s.unexpected, st) == CountAt(s'.unexpected, st)
  {
    var all := Elements(tests);
    SameFixpoint(all, chosen, Elements(log));
    LeastIsUnique(all, chosen, Elements(log), Elements(log'));
    var ran := Elements(log);
    assert ran <= all by { RanExist(all, chosen, ran); }
    ElementsSize(log);
    ElementsSize(log');
    assert forall t :: t in log <==> t in ran;
    assert forall t :: t in log' <==> t in Elements(log');
    SameSets(ran, all, chosen);
    forall st, good ensures Tally(log, {}, st, good) == Tally(log', chosen, st, good) {
      CountsAreSizes(log, {}, st, good);
      CountsAreSizes(log', chosen, st, good);
    }
    CountsAreSizes(log, {}, PASS, true);
    CountsAreSizes(log', chosen, PASS, true);
  }

  lemma SameSets(ran: set<Test>, all: set<Test>, chosen: set<Module>)
    requires ran <= all && forall t :: t in all ==> t.mod in chosen
    ensures Won(ran, {}) == Won(ran, chosen) && Skipped(ran, {}) == Skipped(ran, chosen)
    ensures forall st, good :: Tallied(ran, {}, st, good) == Tallied(ran, chosen, st, good)
    ensures forall t :: t in ran ==> (Succeeds(t, {}) <==> Succeeds(t, chosen))
  {
  }

  lemma SameFixpoint(all: set<Test>, chosen: set<Module>, ran: set<Test>)
    requires (forall t :: t in all ==> t.mod in chosen) && IsLeastFixpoint(all, {}, ran)
    ensures IsLeastFixpoint(all, chosen, ran)
  {
    forall x ensures Runnable(all, {}, x) == Runnable(all, chosen, x) {
      forall m ensures Complete(all, m, Won(x, {})) <==> Complete(all, m, Won(x, chosen)) {
        assert forall t :: t in Members(all, m) ==> (t in Won(x, {}) <==> t in Won(x, chosen));
      }
    }
  }

  /**
   A test is left blocked exactly when some dependency has no tests or has a test that did not
   run or did not succeed.
   */
  lemma BlockedIff(all: set<Test>, chosen: set<Module>, ran: set<Test>, t: Test)
    requires IsLeastFixpoint(all, chosen, ran) && t in all
    ensures t !in ran <==>
            exists m :: m in t.deps &&
                        (Members(all, m) == {}
                         || exists u :: u in Members(all, m) && (u !in ran || !Succeeds(u, chosen)))
  {
    assert t in ran <==> DepsComplete(all, t, Won(ran, chosen));
    forall m ensures Complete(all, m, Won(ran, chosen)) <==>
                     Members(all, m) != {} && forall u :: u in Members(all, m) ==> u in ran && Succeeds(u, chosen)
    {
    }
  }

  /** Every member of `x` waits for an empty module or for another member of `x`. */
  ghost predicate Deadlocked(all: set<Test>, x: set<Test>) {
    forall t :: t in x ==> exists m :: m in t.deps && (Members(all, m) == {} || Members(all, m) * x != {})
  }

  /** Tests that wait for each other in a cycle, or for a module without tests, never run. */
  lemma DeadlockNeverRuns(all: set<Test>, chosen: set<Module>, ran: set<Test>, x: set<Test>)
    requires IsLeastFixpoint(all, chosen, ran) && Deadlocked(all, x)
    ensures ran !! x
  {
    var y := all - x;
    forall t | t in Runnable(all, chosen, y) ensures t in y {
      assert forall m :: m in t.deps ==> Complete(all, m, Won(y, chosen));
      assert forall m :: Complete(all, m, Won(y, chosen)) ==> Members(all, m) != {} && Members(all, m) * x == {};
    }
    assert ran <= y;
  }

  /** The dependencies can be met: no tests wait in a cycle or for a module without tests. */
  ghost predicate Satisfiable(all: set<Test>) {
    forall x :: x <= all && Deadlocked(all, x) ==> x == {}
  }

  /**
   Success is reported when every test that ran succeeded.  It then means that all tests
   ran exactly when the dependencies can be met, whatever the tests do.
   */
  lemma SuccessMeansAllRanIff(tests: seq<Test>, chosen: set<Module>, log: seq<Test>)
    requires Finished(tests, chosen, log) && forall t :: t in log ==> Succeeds(t, chosen)
    ensures Elements(log) == Elements(tests) <==> Satisfiable(Elements(tests))
  {
    hide Succeeds, NoRepeats;
    var all, ran := Elements(tests), Elements(log);
    assert forall t :: t in ran ==> t in log;
    assert ran <= all by { assert Runnable(all, chosen, ran) <= all; }
    forall x | x <= all && Deadlocked(all, x) ensures ran !! x {
      DeadlockNeverRuns(all, chosen, ran, x);
    }
    LeftoversDeadlocked(all, chosen, ran);
  }

  /** When whatever ran succeeded, the tests left blocked wait for each other or for empty modules. */
  lemma LeftoversDeadlocked(all: set<Test>, chosen: set<Module>, ran: set<Test>)
    requires IsLeastFixpoint(all, chosen, ran) && forall t :: t in ran ==> Succeeds(t, chosen)
    ensures Deadlocked(all, all - ran)
  {
    hide Succeeds, IsLeastFixpoint;
    forall t | t in all - ran
      ensures exists m :: m in t.deps && (Members(all, m) == {} || Members(all, m) * (all - ran) != {})
    {
      BlockedIff(all, chosen, ran, t);
      var m :| m in t.deps
        && (Members(all, m) == {} || exists u :: u in Members(all, m) && (u !in ran || !Succeeds(u, chosen)));
      if Members(all, m) != {} {
        var u :| u in Members(all, m) && (u !in ran || !Succeeds(u, chosen));
        assert u in Members(all, m) * (all - ran);
      }
    }
  }

  /** All tests run and succeed exactly when each would succeed and the dependencies can be met. */
  lemma AllPassIff(tests: seq<Test>, chosen: set<Module>, log: seq<Test>)
    requires Finished(tests, chosen, log)
    ensures Successes(log, chosen) == |tests| <==>
            (forall t :: t in tests ==> Succeeds(t, chosen)) && Satisfiable(Elements(tests))
  {
    hide Succeeds, NoRepeats, Satisfiable, Successes, IsLeastFixpoint;
    CountsAddUp(tests, chosen, log);
    var all, ran := Elements(tests), Elements(log);
    assert ran <= all by { RanExist(all, chosen, ran); }
    assert forall t :: t in ran <==> t in log;
    assert forall t :: t in all <==> t in tests;
    ElementsSize(tests);
    ElementsSize(log);
    SubsetSize(ran, all);
    assert Successes(log, chosen) == |tests| ==> ran == all by {
      if Successes(log, chosen) == |tests| {
        SubsetSize(ran, all);
        assert |ran| >= |all|;
        SubsetOfSameSize(ran, all);
      }
    }
    if forall t :: t in log ==> Succeeds(t, chosen) {
      SuccessMeansAllRanIff(tests, chosen, log);
    }
  }

  lemma RanExist(all: set<Test>, chosen: set<Module>, ran: set<Test>)
    requires IsLeastFixpoint(all, chosen, ran)
    ensures ran <= all
  {
    assert Runnable(all, chosen, ran) <= all;
  }

  /** When only skipping yields the status SKIP, the skips are among the successes. */
  lemma {:induction false} SkipsAreSuccesses(log: seq<Test>, chosen: set<Module>)
    requires forall t :: t in log ==> t.outcome != SKIP
    ensures Skips(log, chosen) <= Successes(log, chosen)
  {
    if log != [] {
      assert log[|log| - 1] in log;
      SkipsAreSuccesses(log[..|log| - 1], chosen);
    }
  }

  /** Runs split into successes and failures, and all tests into runs and blocked tests. */
  lemma CountsAddUp(tests: seq<Test>, chosen: set<Module>, log: seq<Test>)
    requires Finished(tests, chosen, log)
    ensures |Elements(log) - Won(Elements(log), chosen)| == |log| - Successes(log, chosen)
    ensures |Elements(tests) - Elements(log)| == |tests| - |log|
    ensures (forall t :: t in log ==> Succeeds(t, chosen)) <==> Successes(log, chosen) == |log|
  {
    var all, ran, won := Elements(tests), Elements(log), Won(Elements(log), chosen);
    ElementsSize(tests);
    ElementsSize(log);
    CountsAreSizes(log, chosen, PASS, true);
    assert Runnable(all, chosen, ran) <= all;
    SubsetSize(won, ran);
    SubsetSize(ran, all);
    hide NoRepeats, IsLeastFixpoint, Runnable, Successes;
    assert (forall t :: t in log ==> Succeeds(t, chosen)) <==> ran - won == {};
  }

  /** Success is reported even when tests are left blocked: a cycle alone runs nothing and fails nothing. */
  lemma SuccessWithEverythingBlocked()
    ensures var t := Test(0, "m", {"m"}, true, PASS, PASS);
            Finished([t], {}, []) && forall log :: Finished([t], {}, log) ==> log == []
  {
    var t := Test(0, "m", {"m"}, true, PASS, PASS);
    var all := Elements([t]);
    assert Elements<Test>([]) == {};
    assert t in Members(all, "m");
    assert Runnable(all, {}, {}) == {};
    forall log | Finished([t], {}, log) ensures log == [] {
      ElementsSize(log);
      assert Elements(log) <= {};
    }
  }
}
