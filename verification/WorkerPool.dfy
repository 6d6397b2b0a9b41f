/**
 The driver's worker tables: spawning, allocating, joining and releasing.  `arrivals` are
 the super channel's messages in the order a call receives them; a call that needs one
 more does not return, which its `ok` result tells.
 */
module WorkerPool {
  import opened Collections
  import opened TestStatus

  type Id = nat

  datatype Handle = Handle(running: bool, done: bool, status: Status, report: string)

  const IDLE := Handle(true, false, PENDING, "")

  datatype Event = Started(id: Id) | Finished(id: Id, status: Status, report: string)

  datatype Result = Result(id: Id, status: Status, report: string)

  // ------------------------------------------------------------------- numbers

  /** No worker's number exceeds the number of workers. */
  ghost predicate Bounded(keys: set<Id>) {
    forall j :: j in keys ==> j <= |keys|
  }

  lemma NextIsFresh(keys: set<Id>)
    requires Bounded(keys)
    ensures |keys| + 1 !in keys && |keys + {|keys| + 1}| == |keys| + 1 && Bounded(keys + {|keys| + 1})
  {
  }

  /** The numbers in use are those below `m`. */
  ghost predicate Numbered(keys: set<Id>, m: nat) {
    forall j: Id :: j in keys <==> j < m
  }

  lemma {:induction false} NumberedBounded(keys: set<Id>, m: nat)
    requires Numbered(keys, m)
    ensures |keys| == m && Bounded(keys)
  {
    if m == 0 {
      assert keys == {};
    } else {
      assert m - 1 in keys;
      NumberedBounded(keys - {m - 1}, m - 1);
    }
  }

  // ------------------------------------------------------------------- results

  /** Worker `j` reported among the first messages. */
  ghost predicate Reported(es: seq<Event>, j: Id) {
    exists e :: e in es && e.Finished? && e.id == j
  }

  /** No worker reports twice. */
  ghost predicate OneEach(es: seq<Event>) {
    forall i, k :: 0 <= i < k < |es| && es[i].Finished? && es[k].Finished? ==> es[i].id != es[k].id
  }

  /** A handle is done when its worker reported, and then holds what was reported. */
  ghost predicate Heard(alloc: map<Id, Handle>, es: seq<Event>) {
    && (forall j :: j in alloc ==> (alloc[j].done <==> Reported(es, j)))
    && (forall j :: j in alloc && alloc[j].done ==> Finished(j, alloc[j].status, alloc[j].report) in es)
  }

  function AfterEvent(alloc: map<Id, Handle>, e: Event): map<Id, Handle> {
    if e.Finished? && e.id in alloc
    then alloc[e.id := alloc[e.id].(done := true, status := e.status, report := e.report)]
    else alloc
  }

  lemma HearOne(alloc: map<Id, Handle>, es: seq<Event>, at: nat)
    requires at < |es| && OneEach(es) && Heard(alloc, es[..at])
    ensures Heard(AfterEvent(alloc, es[at]), es[..at + 1])
    ensures Kept(alloc, AfterEvent(alloc, es[at]))
  {
    assert es[..at + 1] == es[..at] + [es[at]];
    var a := AfterEvent(alloc, es[at]);
    assert forall j :: j in alloc && alloc[j].done ==> Reported(es[..at], j);
    forall j | j in alloc
      ensures Reported(es[..at + 1], j) <==> Reported(es[..at], j) || (es[at].Finished? && es[at].id == j)
    {
      assert forall e :: e in es[..at + 1] <==> e in es[..at] || e == es[at];
    }
  }

  /** Handles that were done stay as they are. */
  ghost predicate Kept(before: map<Id, Handle>, after: map<Id, Handle>) {
    before.Keys == after.Keys && forall j :: j in before && before[j].done ==> after[j] == before[j]
  }

  ghost predicate Joined(alloc: map<Id, Handle>, rest: set<Id>, results: seq<Result>) {
    && |results| == |alloc.Keys - rest|
    && (forall r :: r in results ==>
          r.id in alloc && alloc[r.id].done && r == Result(r.id, alloc[r.id].status, alloc[r.id].report))
    && (forall j :: j in alloc && j !in rest ==>
          alloc[j].done && Result(j, alloc[j].status, alloc[j].report) in results)
  }

  lemma JoinOne(alloc: map<Id, Handle>, rest: set<Id>, results: seq<Result>, j: Id)
    requires Joined(alloc, rest, results) && j in rest && j in alloc && alloc[j].done
    ensures Joined(alloc, rest - {j}, results + [Result(j, alloc[j].status, alloc[j].report)])
  {
    assert alloc.Keys - (rest - {j}) == (alloc.Keys - rest) + {j};
  }

  lemma JoinedKept(before: map<Id, Handle>, after: map<Id, Handle>, rest: set<Id>, results: seq<Result>)
    requires Joined(before, rest, results) && Kept(before, after)
    ensures Joined(after, rest, results)
  {
  }

  lemma NothingHeard(alloc: map<Id, Handle>, es: seq<Event>, own: Status)
    requires forall j :: j in alloc ==> !alloc[j].done
    ensures Heard(alloc, es[..0]) && Joined(alloc, alloc.Keys, []) && IsWorst(own, [], own)
  {
    assert alloc.Keys - alloc.Keys == {};
  }

  lemma MissingReport(alloc: map<Id, Handle>, es: seq<Event>, w: Id)
    requires Heard(alloc, es) && w in alloc && !alloc[w].done
    ensures !Reported(es, w)
  {
  }

  /** With every handle done, the results are exactly the reports of the allocated workers. */
  lemma AllHeard(alloc: map<Id, Handle>, es: seq<Event>, at: nat, results: seq<Result>)
    requires at <= |es| && OneEach(es) && Heard(alloc, es[..at]) && Joined(alloc, {}, results)
    ensures |results| == |alloc.Keys| && forall j :: j in alloc ==> Reported(es, j)
    ensures forall r :: r in results <==> r.id in alloc && Finished(r.id, r.status, r.report) in es
  {
    hide OneEach, Heard, Joined, Reported;
    assert |results| == |alloc.Keys| by { AllJoined(alloc, results); }
    forall j | j in alloc ensures Reported(es, j) { HandleHeard(alloc, es, at, results, j); }
    forall r: Result ensures r in results <==> r.id in alloc && Finished(r.id, r.status, r.report) in es {
      AllJoined(alloc, results);
      if r.id in alloc {
        HandleHeard(alloc, es, at, results, r.id);
        OnlyReport(es, Finished(r.id, alloc[r.id].status, alloc[r.id].report), Finished(r.id, r.status, r.report));
      }
    }
  }

  lemma AllJoined(alloc: map<Id, Handle>, results: seq<Result>)
    requires Joined(alloc, {}, results)
    ensures |results| == |alloc.Keys|
    ensures forall r :: r in results <==> r.id in alloc && r == Result(r.id, alloc[r.id].status, alloc[r.id].report)
  {
    assert alloc.Keys - {} == alloc.Keys;
  }

  lemma HandleHeard(alloc: map<Id, Handle>, es: seq<Event>, at: nat, results: seq<Result>, j: Id)
    requires at <= |es| && Heard(alloc, es[..at]) && Joined(alloc, {}, results) && j in alloc
    ensures Reported(es, j) && Finished(j, alloc[j].status, alloc[j].report) in es
  {
    assert forall e :: e in es[..at] ==> e in es;
  }

  lemma OnlyReport(es: seq<Event>, e: Event, f: Event)
    requires OneEach(es) && e in es && e.Finished? && f.Finished? && e.id == f.id
    ensures f in es <==> e == f
  {
  }

  function Worse(a: Status, b: Status): Status { if Severity(b) > Severity(a) then b else a }

  /** The most severe of one status and those in the results. */
  ghost predicate IsWorst(own: Status, results: seq<Result>, st: Status) {
    && Severity(own) <= Severity(st)
    && (forall r :: r in results ==> Severity(r.status) <= Severity(st))
    && (st == own || exists r :: r in results && r.status == st)
  }

  lemma WorstSnoc(own: Status, results: seq<Result>, st: Status, r: Result)
    requires IsWorst(own, results, st)
    ensures IsWorst(own, results + [r], Worse(st, r.status))
  {
    assert forall x :: x in results + [r] <==> x in results || x == r;
  }

  /** It is unique, and depends on the set of results only. */
  lemma WorstUnique(own: Status, results: seq<Result>, st: Status, results': seq<Result>, st': Status)
    requires IsWorst(own, results, st) && IsWorst(own, results', st')
    requires forall r :: r in results <==> r in results'
    ensures st == st'
  {
  }

  // ---------------------------------------------------------------- allocation

  ghost predicate AllIdle(workers: map<Id, Handle>, alloc: map<Id, Handle>) {
    forall j :: j in alloc ==> alloc[j] == IDLE && j in workers && workers[j].running
  }

  /** Whoever runs did so before or was heard of. */
  ghost predicate Announced(before: map<Id, Handle>, workers: map<Id, Handle>, es: seq<Event>) {
    forall j :: j in workers && workers[j].running ==> (j in before && before[j].running) || Started(j) in es
  }

  lemma AnnouncedOn(first: map<Id, Handle>, before: map<Id, Handle>, after: map<Id, Handle>, es: seq<Event>)
    requires Announced(first, before, es) && Announced(before, after, es)
    ensures Announced(first, after, es)
  {
  }

  /** Spawning announces nobody. */
  lemma SpawnedNotRunning(before: map<Id, Handle>, after: map<Id, Handle>, spawned: seq<Id>, es: seq<Event>)
    requires after.Keys == before.Keys + Elements(spawned)
    requires forall j :: j in after ==> if j in before then after[j] == before[j] else !after[j].running
    ensures Announced(before, after, es)
  {
  }

  /** Allocated workers run, so they were announced, and spawned ones by a message. */
  lemma AllocatedAnnounced(before: map<Id, Handle>, workers: map<Id, Handle>, alloc: map<Id, Handle>,
      spawned: seq<Id>, es: seq<Event>)
    requires Announced(before, workers, es) && AllIdle(workers, alloc)
    requires Elements(spawned) !! before.Keys && Elements(spawned) <= alloc.Keys
    ensures forall j :: j in alloc ==> (j in before && before[j].running) || Started(j) in es
    ensures forall j :: j in spawned ==> Started(j) in es
  {
    assert forall j :: j in spawned ==> j in Elements(spawned);
  }

  /** Whoever is not running has not been heard of. */
  ghost predicate Awaited(workers: map<Id, Handle>, es: seq<Event>) {
    forall j :: j in workers && !workers[j].running ==> Started(j) !in es
  }

  lemma NobodyAllocated(workers: map<Id, Handle>, arrivals: seq<Event>)
    ensures AllIdle(workers, map[]) && Awaited(workers, arrivals[..0])
  {
  }

  lemma AddIdle(workers: map<Id, Handle>, alloc: map<Id, Handle>, all: set<Id>, rest: set<Id>, w: Id)
    requires alloc.Keys == all - rest && w in rest && rest <= all
    ensures alloc[w := IDLE].Keys == all - (rest - {w}) && |alloc[w := IDLE].Keys| == |alloc.Keys| + 1
  {
    assert alloc[w := IDLE].Keys == alloc.Keys + {w};
  }

  /** When as many were asked for as there are workers, all of them are allocated. */
  lemma AllPicked(picked: set<Id>, all: set<Id>, n: nat, left: nat, rest: set<Id>)
    requires picked == all - rest && rest <= all && |picked| + left == n && n <= |all| && (rest == {} || left == 0)
    ensures |picked| == n && (n == |all| ==> picked == all)
  {
    if rest == {} {
      assert picked == all;
    } else if n == |all| {
      SubsetOfSameSize(picked, all);
    }
  }

  // -------------------------------------------------------------- a whole test

  /** A worker known before, or one that a test of `n` workers has to spawn. */
  predicate Concerned(before: map<Id, Handle>, n: nat, j: Id) {
    j in before || |before.Keys| < j <= n
  }

  /** Everybody concerned runs or is heard of. */
  ghost predicate AllReady(before: map<Id, Handle>, n: nat, es: seq<Event>) {
    forall j :: Concerned(before, n, j) ==> (j in before && before[j].running) || Started(j) in es
  }

  /** Everybody concerned reports. */
  ghost predicate AllReport(before: map<Id, Handle>, n: nat, es: seq<Event>) {
    forall j :: Concerned(before, n, j) ==> Reported(es, j)
  }

  lemma SomeoneMissing(before: map<Id, Handle>, workers: map<Id, Handle>, n: nat, spawned: seq<Id>, es: seq<Event>)
    requires workers.Keys == before.Keys + Elements(spawned)
    requires forall j :: j in spawned <==> |before.Keys| < j <= n
    requires Awaited(workers, es) && (exists j :: j in workers && !workers[j].running)
    requires forall j :: j in before && before[j].running ==> j in workers && workers[j].running
    ensures !AllReady(before, n, es)
  {
    var j :| j in workers && !workers[j].running;
    assert Concerned(before, n, j);
  }

  lemma EveryoneReports(before: map<Id, Handle>, workers: map<Id, Handle>, alloc: map<Id, Handle>, n: nat,
      spawned: seq<Id>, es: seq<Event>)
    requires workers.Keys == before.Keys + Elements(spawned) && alloc.Keys <= workers.Keys
    requires forall j :: j in spawned <==> |before.Keys| < j <= n
    ensures AllReport(before, n, es) ==> forall j :: j in alloc ==> Reported(es, j)
  {
    hide Reported;
    assert forall j :: j in alloc ==> Concerned(before, n, j);
  }

  /** An idle worker runs, and has no result yet. */
  lemma NobodyDone(workers: map<Id, Handle>, alloc: map<Id, Handle>)
    requires AllIdle(workers, alloc)
    ensures forall j :: j in alloc ==> !alloc[j].done && alloc[j].running && j in workers && workers[j].running
  {
  }

  // --------------------------------------------------------------------- class

  class DriverContext {
    var workers: map<Id, Handle>
    var alloc: map<Id, Handle>

    constructor ()
      ensures workers == map[] && alloc == map[]
    {
      workers, alloc := map[], map[];
    }

    /** Registers a worker that starts by itself. */
    method AddWorker(id: Id)
      modifies this`workers
      ensures workers == old(workers)[id := Handle(false, false, PENDING, "")]
    {
      workers := workers[id := Handle(false, false, PENDING, "")];
    }

    /** The workers announced on the command line, numbered from 0 on; announcing more adds to those of before. */
    method RegisterWorkers(m: nat, ghost before: nat)
      requires Numbered(workers.Keys, before)
      modifies this`workers
      ensures Numbered(workers.Keys, if before < m then m else before)
      ensures Bounded(workers.Keys) && |workers.Keys| == if before < m then m else before
      ensures forall j :: j in workers && j < m ==> workers[j] == Handle(false, false, PENDING, "")
    {
      for i := 0 to m
        invariant Numbered(workers.Keys, if before < i then i else before)
        invariant forall j :: j in workers && j < i ==> workers[j] == Handle(false, false, PENDING, "")
      {
        AddWorker(i);
      }
      NumberedBounded(workers.Keys, if before < m then m else before);
    }

    method SpawnWorker() returns (id: Id)
      requires Bounded(workers.Keys)
      modifies this`workers
      ensures id !in old(workers) && workers.Keys == old(workers).Keys + {id}
      ensures Bounded(workers.Keys) && |workers.Keys| == |old(workers).Keys| + 1
      ensures id == |old(workers).Keys| + 1 && workers[id] == Handle(false, false, PENDING, "")
      ensures forall j :: j in old(workers) ==> workers[j] == old(workers)[j]
    {
      id := |workers.Keys| + 1;
      NextIsFresh(workers.Keys);
      workers := workers[id := Handle(false, false, PENDING, "")];
      assert workers.Keys == old(workers).Keys + {id};
    }

    method HandleSuperEvent(e: Event)
      modifies this
      ensures workers.Keys == old(workers).Keys && alloc == AfterEvent(old(alloc), e)
      ensures forall j :: j in workers ==> workers[j].running == (old(workers)[j].running || e == Started(j))
    {
      match e
      case Started(id) =>
        if id in workers { workers := workers[id := workers[id].(running := true)]; }
      case Finished(id, st, rep) =>
        if id in alloc { alloc := alloc[id := alloc[id].(done := true, status := st, report := rep)]; }
    }

    /** Receives until `w` is running; before a test only WORKER_STARTED messages are in flight. */
    method AwaitRunning(w: Id, arrivals: seq<Event>, at: nat) returns (ok: bool, next: nat)
      requires w in workers && at <= |arrivals| && (forall e :: e in arrivals ==> e.Started?)
      requires Awaited(workers, arrivals[..at])
      modifies this
      ensures alloc == old(alloc) && workers.Keys == old(workers).Keys && at <= next <= |arrivals|
      ensures forall j :: j in workers && old(workers)[j].running ==> workers[j].running
      ensures Awaited(workers, arrivals[..next])
      ensures if ok then workers[w].running else Awaited(workers, arrivals) && !workers[w].running
      ensures Announced(old(workers), workers, arrivals)
    {
      next := at;
      while !workers[w].running
        invariant Announced(old(workers), workers, arrivals)
        invariant alloc == old(alloc) && workers.Keys == old(workers).Keys && at <= next <= |arrivals|
        invariant forall j :: j in workers && old(workers)[j].running ==> workers[j].running
        invariant Awaited(workers, arrivals[..next])
        decreases |arrivals| - next
      {
        if next == |arrivals| {
          assert arrivals[..next] == arrivals;
          return false, next;
        }
        assert arrivals[..next + 1] == arrivals[..next] + [arrivals[next]] && arrivals[next] in arrivals;
        HandleSuperEvent(arrivals[next]);
        next := next + 1;
      }
      return true, next;
    }

    /** Waits for `w`, clears its flags and allocates it. */
    method AllocateNext(w: Id, arrivals: seq<Event>, at: nat) returns (ok: bool, next: nat)
      requires w in workers && at <= |arrivals| && (forall e :: e in arrivals ==> e.Started?)
      requires Awaited(workers, arrivals[..at]) && AllIdle(workers, alloc)
      modifies this
      ensures workers.Keys == old(workers).Keys && at <= next <= |arrivals|
      ensures alloc == if ok then old(alloc)[w := IDLE] else old(alloc)
      ensures AllIdle(workers, alloc) && Awaited(workers, arrivals[..next])
      ensures !ok ==> Awaited(workers, arrivals) && exists j :: j in workers && !workers[j].running
      ensures Announced(old(workers), workers, arrivals)
      ensures forall j :: j in workers && old(workers)[j].running ==> workers[j].running
    {
      ok, next := AwaitRunning(w, arrivals, at);
      if ok {
        workers := workers[w := workers[w].(done := false)];
        alloc := alloc[w := IDLE];
      }
    }

    /**
     Allocates exactly `n` workers, spawning as many as are missing; all are running with
     their flags cleared, and every spawned one is among them.
     */
    method AllocateWorkers(n: nat, arrivals: seq<Event>) returns (ok: bool, spawned: seq<Id>)
      requires Bounded(workers.Keys) && alloc == map[] && forall e :: e in arrivals ==> e.Started?
      modifies this
      ensures Bounded(workers.Keys) && workers.Keys == old(workers).Keys + Elements(spawned)
      ensures Elements(spawned) !! old(workers).Keys
      ensures |workers.Keys| == if n > |old(workers).Keys| then n else |old(workers).Keys|
      ensures alloc.Keys <= workers.Keys && AllIdle(workers, alloc)
      ensures ok ==> |alloc.Keys| == n && Elements(spawned) <= alloc.Keys
      ensures forall j :: j in spawned <==> |old(workers).Keys| < j <= n
      ensures !ok ==> Awaited(workers, arrivals) && exists j :: j in workers && !workers[j].running
      ensures Announced(old(workers), workers, arrivals)
      ensures ok ==> forall j :: j in alloc ==> (j in old(workers) && old(workers)[j].running) || Started(j) in arrivals
      ensures ok ==> forall j :: j in spawned ==> Started(j) in arrivals
      ensures forall j :: j in old(workers) && old(workers)[j].running ==> j in workers && workers[j].running
    {
      hide Bounded, Elements, AllIdle, Awaited, Announced;
      spawned := SpawnMissing(n);
      ghost var known := workers;
      NobodyAllocated(workers, arrivals);
      SpawnedNotRunning(old(workers), known, spawned, arrivals);
      var at := 0;
      var left, rest := n, workers.Keys;
      ghost var all := workers.Keys;
      while rest != {}
        invariant workers.Keys == all && rest <= all && at <= |arrivals|
        invariant alloc.Keys == all - rest && |alloc.Keys| + left == n
        invariant AllIdle(workers, alloc) && Awaited(workers, arrivals[..at])
        invariant Announced(old(workers), workers, arrivals)
        invariant forall j :: j in old(workers) && old(workers)[j].running ==> j in workers && workers[j].running
        decreases |rest|
      {
        if left == 0 { break; }
        left := left - 1;
        var w :| w in rest;
        AddIdle(workers, alloc, all, rest, w);
        ghost var before := workers;
        ok, at := AllocateNext(w, arrivals, at);
        AnnouncedOn(old(workers), before, workers, arrivals);
        if !ok { return false, spawned; }
        rest := rest - {w};
      }
      AllPicked(alloc.Keys, all, n, left, rest);
      AllocatedAnnounced(old(workers), workers, alloc, spawned, arrivals);
      return true, spawned;
    }

    method SpawnMissing(n: nat) returns (spawned: seq<Id>)
      requires Bounded(workers.Keys)
      modifies this`workers
      ensures Bounded(workers.Keys) && workers.Keys == old(workers).Keys + Elements(spawned)
      ensures Elements(spawned) !! old(workers).Keys
      ensures |workers.Keys| == if n > |old(workers).Keys| then n else |old(workers).Keys|
      ensures if spawned == [] then Elements(spawned) == {} else |workers.Keys| == n
      ensures forall j :: j in workers ==>
                if j in old(workers) then workers[j] == old(workers)[j] else !workers[j].running
      ensures forall j :: j in spawned <==> |old(workers).Keys| < j <= n
    {
      hide Elements, Bounded;
      spawned := [];
      NoElements<Id>();
      while |workers.Keys| < n
        invariant Bounded(workers.Keys) && workers.Keys == old(workers).Keys + Elements(spawned)
        invariant Elements(spawned) !! old(workers).Keys
        invariant |old(workers).Keys| <= |workers.Keys| && (spawned != [] ==> |workers.Keys| <= n)
        invariant spawned == [] ==> |workers.Keys| == |old(workers).Keys|
        invariant forall j :: j in workers ==>
                    if j in old(workers) then workers[j] == old(workers)[j] else !workers[j].running
        invariant forall j :: j in spawned <==> |old(workers).Keys| < j <= |workers.Keys|
        decreases n - |workers.Keys|
      {
        var w := SpawnWorker();
        ElementsSnoc(spawned, w);
        spawned := spawned + [w];
      }
    }

    /** Receives until `w` has reported. */
    method AwaitDone(w: Id, arrivals: seq<Event>, at: nat) returns (ok: bool, next: nat)
      requires w in alloc && at <= |arrivals| && OneEach(arrivals) && Heard(alloc, arrivals[..at])
      modifies this
      ensures alloc.Keys == old(alloc).Keys && workers.Keys == old(workers).Keys && at <= next <= |arrivals|
      ensures Heard(alloc, arrivals[..next]) && Kept(old(alloc), alloc)
      ensures if ok then alloc[w].done else next == |arrivals| && !alloc[w].done
    {
      hide Heard, OneEach, AfterEvent;
      next := at;
      while !alloc[w].done
        invariant alloc.Keys == old(alloc).Keys && workers.Keys == old(workers).Keys && at <= next <= |arrivals|
        invariant Heard(alloc, arrivals[..next]) && Kept(old(alloc), alloc)
        decreases |arrivals| - next
      {
        if next == |arrivals| { return false, next; }
        HearOne(alloc, arrivals, next);
        HandleSuperEvent(arrivals[next]);
        next := next + 1;
      }
      return true, next;
    }

    /**
     Collects one result from every allocated worker, whatever the order they arrive in; the
     status ends as the most severe of the test's own and the workers'.  It returns exactly
     when every allocated worker reports.
     */
    method Join(own: Status, arrivals: seq<Event>) returns (ok: bool, status: Status, results: seq<Result>)
      requires OneEach(arrivals) && forall j :: j in alloc ==> !alloc[j].done
      modifies this
      ensures alloc.Keys == old(alloc).Keys && workers.Keys == old(workers).Keys
      ensures ok <==> forall j :: j in alloc ==> Reported(arrivals, j)
      ensures ok ==> |results| == |alloc.Keys| && IsWorst(own, results, status)
      ensures ok ==> forall r :: r in results <==> r.id in alloc && Finished(r.id, r.status, r.report) in arrivals
    {
      hide Heard, Joined, IsWorst, OneEach, Reported, Kept;
      status, results := own, [];
      var at, rest := 0, alloc.Keys;
      ghost var all := alloc.Keys;
      NothingHeard(alloc, arrivals, own);
      while rest != {}
        invariant rest <= all == alloc.Keys && workers.Keys == old(workers).Keys && at <= |arrivals|
        invariant Heard(alloc, arrivals[..at]) && Joined(alloc, rest, results)
        invariant IsWorst(own, results, status)
        decreases |rest|
      {
        ghost var before := alloc;
        var w :| w in rest;
        ok, at := AwaitDone(w, arrivals, at);
        if !ok {
          assert arrivals[..at] == arrivals;
          MissingReport(alloc, arrivals, w);
          return;
        }
        JoinedKept(before, alloc, rest, results);
        var r := Result(w, alloc[w].status, alloc[w].report);
        JoinOne(alloc, rest, results, w);
        WorstSnoc(own, results, status, r);
        if Severity(r.status) > Severity(status) { status := r.status; }
        results := results + [r];
        rest := rest - {w};
      }
      ok := true;
      AllHeard(alloc, arrivals, at, results);
    }

    /** Terminates the spawned workers and forgets them; each is allocated, so no handle is made up. */
    method DeallocateWorkers(spawned: seq<Id>)
      requires Elements(spawned) <= alloc.Keys
      modifies this
      ensures workers.Keys == old(workers).Keys - Elements(spawned) && alloc == map[]
    {
      for i := 0 to |spawned|
        invariant workers.Keys == old(workers).Keys - Elements(spawned[..i])
        invariant alloc == old(alloc)
      {
        assert spawned[i] in Elements(spawned);
        var terminated := alloc[spawned[i]];
        assert spawned[..i + 1] == spawned[..i] + [spawned[i]];
        assert Elements(spawned[..i + 1]) == Elements(spawned[..i]) + {spawned[i]};
        workers := workers - {spawned[i]};
      }
      assert spawned[..|spawned|] == spawned;
      alloc := map[];
    }

    /** A whole test leaves the worker table as it found it. */
    method RunTest(n: nat, own: Status, starting: seq<Event>, finishing: seq<Event>)
      returns (ok: bool, status: Status, results: seq<Result>)
      requires Bounded(workers.Keys) && alloc == map[]
      requires (forall e :: e in starting ==> e.Started?) && OneEach(finishing)
      modifies this
      ensures ok ==> workers.Keys == old(workers).Keys && alloc == map[]
      ensures ok ==> |results| == n && IsWorst(own, results, status)
      ensures ok ==> forall r :: r in results ==> Finished(r.id, r.status, r.report) in finishing
      ensures ok ==> forall r :: r in results ==>
                (r.id in old(workers) && old(workers)[r.id].running) || Started(r.id) in starting
      ensures AllReady(old(workers), n, starting) && AllReport(old(workers), n, finishing) ==> ok
    {
      hide Bounded, OneEach, Reported, IsWorst, Elements, Awaited, Announced, AllReady, AllReport, AllIdle;
      status, results := own, [];
      var spawned;
      ok, spawned := AllocateWorkers(n, starting);
      if !ok {
        SomeoneMissing(old(workers), workers, n, spawned, starting);
        return;
      }
      EveryoneReports(old(workers), workers, alloc, n, spawned, finishing);
      assert forall j :: j in alloc ==> !alloc[j].done by { NobodyDone(workers, alloc); }
      ok, status, results := Join(own, finishing);
      if !ok { return; }
      DeallocateWorkers(spawned);
      assert old(workers).Keys + Elements(spawned) - Elements(spawned) == old(workers).Keys;
    }
  }
}
