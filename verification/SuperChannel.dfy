/**
 The super channel between the driver and its workers, as a step system: spawning and
 allocating workers, RUN_TEST, FINISHED_TEST, joining and terminating.  Messages in flight
 arrive in any order: those of a worker to the driver travel on a connection of their own each,
 and for those to a worker, which share one, this allows more runs than there are.
 */
module SuperChannel {
  import opened Collections
  import opened TestStatus

  type Id = nat

  datatype Finished = Finished(test: nat, status: Status, report: string)

  /** Where a worker process stands. */
  datatype Proc = Booting | Waiting | InTest(test: nat) | Reported | Gone

  /** A worker process with the messages in flight to it and from it. */
  datatype Net = Net(proc: Proc, runs: seq<nat>, terms: nat, finished: seq<Finished>, started: nat)

  const NOBODY := Net(Gone, [], 0, [], 0)
  const NEWBORN := Net(Booting, [], 0, [], 0)

  /** The driver's handle of a worker allocated to the current test. */
  datatype Allocated = Allocated(done: bool, status: Status, report: string)

  datatype Result = Result(id: Id, status: Status, report: string)

  /** Where the driver stands in running a test; a list with an index is a loop over it. */
  datatype Phase =
    | Idle
    | Spawning(n: nat)
    | Allocating(chosen: seq<Id>, at: nat)
    | Sending(order: seq<Id>, at: nat)
    | Body
    | Joining(order: seq<Id>, at: nat)
    | Releasing(at: nat, signalled: bool)

  /**
   `workers` tells for every known worker whether it reported to be running, `asked` how many
   the current test asked for.  The last four fields are history: who handled and reported
   which test, what the report said, and who was allocated to the test.
   */
  datatype State = State(
    registered: nat, k: nat, asked: nat, phase: Phase,
    workers: map<Id, bool>, alloc: map<Id, Allocated>, spawned: seq<Id>,
    net: map<Id, Net>,
    status: Status, ownStatus: Status, results: seq<Result>,
    handled: multiset<(Id, nat)>, reported: multiset<(Id, nat)>, told: map<(Id, nat), (Status, string)>,
    rosters: seq<set<Id>>)

  function NetAt(s: State, j: Id): Net { if j in s.net then s.net[j] else NOBODY }

  function Remove<X>(xs: seq<X>, i: nat): seq<X>
    requires i < |xs|
  {
    xs[..i] + xs[i + 1..]
  }

  datatype Action =
    | Begin(n: nat)
    | Spawn
    | Choose(chosen: seq<Id>)
    | Allocate
    | StartSending(order: seq<Id>)
    | SendRun
    | RunBody
    | StartJoining(status: Status, order: seq<Id>)
    | JoinNext
    | StartReleasing
    | SendTerminate
    | Reap
    | EndTest
    | DeliverStarted(j: Id)
    | DeliverFinished(j: Id, i: nat)
    | Boot(j: Id)
    | TakeRun(j: Id, i: nat)
    | Finish(j: Id, status: Status, report: string)
    | Reset(j: Id)
    | TakeTerminate(j: Id)

  /** The driver blocks for a super event: the worker it looks at is not running, or not done. */
  ghost predicate Polling(s: State) {
    match s.phase
    case Allocating(chosen, at) => at < |chosen| && chosen[at] in s.workers && !s.workers[chosen[at]]
    case Joining(order, at) => at < |order| && order[at] in s.alloc && !s.alloc[order[at]].done
    case _ => false
  }

  /** A worker receives in its main loop and while its test body waits, nowhere else. */
  predicate Receives(p: Proc) { p.Waiting? || p.InTest? }

  ghost predicate Enabled(s: State, a: Action) {
    match a
    case Begin(n) => s.phase.Idle?
    case Spawn => s.phase.Spawning? && |s.workers| < s.phase.n
    case Choose(chosen) =>
      && s.phase.Spawning? && |s.workers| >= s.phase.n
      && |chosen| == s.phase.n && NoRepeats(chosen) && Elements(chosen) <= s.workers.Keys
    case Allocate =>
      && s.phase.Allocating? && s.phase.at < |s.phase.chosen|
      && s.phase.chosen[s.phase.at] in s.workers && s.workers[s.phase.chosen[s.phase.at]]
    case StartSending(order) =>
      && s.phase.Allocating? && s.phase.at == |s.phase.chosen|
      && NoRepeats(order) && Elements(order) == s.alloc.Keys
    case SendRun => s.phase.Sending? && s.phase.at < |s.phase.order|
    case RunBody => s.phase.Sending? && s.phase.at == |s.phase.order|
    case StartJoining(_, order) => s.phase.Body? && NoRepeats(order) && Elements(order) == s.alloc.Keys
    case JoinNext =>
      && s.phase.Joining? && s.phase.at < |s.phase.order|
      && s.phase.order[s.phase.at] in s.alloc && s.alloc[s.phase.order[s.phase.at]].done
    case StartReleasing => s.phase.Joining? && s.phase.at == |s.phase.order|
    case SendTerminate => s.phase.Releasing? && s.phase.at < |s.spawned| && !s.phase.signalled
    case Reap =>
      && s.phase.Releasing? && s.phase.at < |s.spawned| && s.phase.signalled
      && NetAt(s, s.spawned[s.phase.at]).proc.Gone?
    case EndTest => s.phase.Releasing? && s.phase.at == |s.spawned|
    case DeliverStarted(j) => Polling(s) && NetAt(s, j).started > 0
    case DeliverFinished(j, i) => Polling(s) && i < |NetAt(s, j).finished|
    case Boot(j) => NetAt(s, j).proc.Booting?
    case TakeRun(j, i) => Receives(NetAt(s, j).proc) && i < |NetAt(s, j).runs|
    case Finish(j, _, _) => NetAt(s, j).proc.InTest?
    case Reset(j) => NetAt(s, j).proc.Reported?
    case TakeTerminate(j) => Receives(NetAt(s, j).proc) && NetAt(s, j).terms > 0
  }

  ghost function Apply(s: State, a: Action): State
    requires Enabled(s, a)
  {
    match a
    case Begin(n) =>
      s.(asked := n, phase := Spawning(n), spawned := [], status := PENDING, ownStatus := PENDING, results := [])
    case Spawn =>
      var id := |s.workers| + 1;
      s.(workers := s.workers[id := false], net := s.net[id := NEWBORN], spawned := s.spawned + [id])
    case Choose(chosen) => s.(phase := Allocating(chosen, 0))
    case Allocate =>
      var p := s.phase;
      s.(alloc := s.alloc[p.chosen[p.at] := Allocated(false, PENDING, "")], phase := Allocating(p.chosen, p.at + 1))
    case StartSending(order) => s.(phase := Sending(order, 0))
    case SendRun =>
      var p := s.phase;
      var j := p.order[p.at];
      var n := NetAt(s, j);
      s.(net := s.net[j := n.(runs := n.runs + [s.k])], phase := Sending(p.order, p.at + 1))
    case RunBody => s.(phase := Body)
    case StartJoining(st, order) => s.(phase := Joining(order, 0), status := st, ownStatus := st)
    case JoinNext =>
      var p := s.phase;
      var h := s.alloc[p.order[p.at]];
      s.(status := if Severity(h.status) > Severity(s.status) then h.status else s.status,
         results := s.results + [Result(p.order[p.at], h.status, h.report)],
         phase := Joining(p.order, p.at + 1))
    case StartReleasing => s.(phase := Releasing(0, false))
    case SendTerminate =>
      var j := s.spawned[s.phase.at];
      var n := NetAt(s, j);
      s.(net := s.net[j := n.(terms := n.terms + 1)], phase := Releasing(s.phase.at, true))
    case Reap => s.(workers := s.workers - {s.spawned[s.phase.at]}, phase := Releasing(s.phase.at + 1, false))
    case EndTest =>
      s.(phase := Idle, alloc := map[], spawned := [], k := s.k + 1, rosters := s.rosters + [s.alloc.Keys])
    case DeliverStarted(j) =>
      var n := NetAt(s, j);
      var t := s.(net := s.net[j := n.(started := n.started - 1)]);
      if j in s.workers then t.(workers := s.workers[j := true]) else t
    case DeliverFinished(j, i) =>
      var n := NetAt(s, j);
      var t := s.(net := s.net[j := n.(finished := Remove(n.finished, i))]);
      if j in s.alloc then t.(alloc := s.alloc[j := Allocated(true, n.finished[i].status, n.finished[i].report)]) else t
    case Boot(j) =>
      var n := NetAt(s, j);
      s.(net := s.net[j := n.(proc := Waiting, started := n.started + 1)])
    case TakeRun(j, i) =>
      var n := NetAt(s, j);
      if n.proc.InTest? then s.(net := s.net[j := n.(runs := Remove(n.runs, i))])
      else s.(net := s.net[j := n.(proc := InTest(n.runs[i]), runs := Remove(n.runs, i))],
              handled := s.handled + multiset{(j, n.runs[i])})
    case Finish(j, st, rep) =>
      var n := NetAt(s, j);
      s.(net := s.net[j := n.(proc := Reported, finished := n.finished + [Finished(n.proc.test, st, rep)])],
         reported := s.reported + multiset{(j, n.proc.test)}, told := s.told[(j, n.proc.test) := (st, rep)])
    case Reset(j) =>
      var n := NetAt(s, j);
      s.(net := s.net[j := n.(proc := Waiting)])
    case TakeTerminate(j) =>
      var n := NetAt(s, j);
      s.(net := s.net[j := n.(proc := Gone, terms := n.terms - 1)])
  }

  predicate Below(j: Id, m: nat) { j < m }

  ghost function Numbered(m: nat): set<Id> { set j: Id | j < m && Below(j, m) }

  /** The command line registers workers `0` to `m - 1`, which start in their own time. */
  ghost predicate Initial(s: State) {
    && s.phase.Idle? && s.k == 0 && s.alloc == map[] && s.spawned == []
    && s.workers.Keys == Numbered(s.registered)
    && (forall j :: j in s.workers ==> !s.workers[j] && j in s.net && s.net[j] == NEWBORN)
    && s.net.Keys == s.workers.Keys
    && s.handled == multiset{} && s.reported == multiset{} && s.told == map[] && s.rosters == []
  }

  // -------------------------------------------------------------- invariant

  /** The driver has sent RUN_TEST to this worker for the current test. */
  ghost predicate Sent(s: State, j: Id) {
    && j in s.alloc
    && match s.phase
       case Sending(order, at) => at <= |order| && j in order[..at]
       case Body => true
       case Joining(_, _) => true
       case Releasing(_, _) => true
       case _ => false
  }

  ghost predicate Signalled(s: State, j: Id) {
    s.phase.Releasing? && s.phase.at < |s.spawned| && s.phase.signalled && j == s.spawned[s.phase.at]
  }

  ghost predicate Done(s: State, j: Id) { j in s.alloc && s.alloc[j].done }

  /**
   One token per worker that was sent RUN_TEST: the message, the running test, the
   FINISHED_TEST message, or the driver's `done` flag, always for the current test.
   */
  ghost predicate TestToken(s: State, j: Id) {
    var n := NetAt(s, j);
    && |n.runs| + One(n.proc.InTest?) + |n.finished| + One(Done(s, j)) == One(Sent(s, j))
    && (n.runs != [] ==> n.runs[0] == s.k)
    && (n.proc.InTest? ==> n.proc.test == s.k)
    && (n.finished != [] ==> n.finished[0].test == s.k)
  }

  /** One token per known worker: not yet started, its WORKER_STARTED message, or the `running` flag. */
  ghost predicate StartToken(s: State, j: Id) {
    var n := NetAt(s, j);
    if j in s.workers then n.started + One(s.workers[j]) + One(n.proc.Booting?) == 1
    else n == NOBODY
  }

  /** A known worker exits only after it took the TERMINATE message sent to it. */
  ghost predicate ExitToken(s: State, j: Id) {
    var n := NetAt(s, j);
    j in s.workers ==> n.terms + One(n.proc.Gone?) == One(Signalled(s, j))
  }

  /** What the history says about the current test and later ones. */
  ghost predicate HistoryNow(s: State, j: Id) {
    var n := NetAt(s, j);
    && s.handled[(j, s.k)] == One(Sent(s, j) && n.runs == [])
    && s.reported[(j, s.k)] == |n.finished| + One(Done(s, j))
    && forall t :: t > s.k ==> s.handled[(j, t)] == 0 && s.reported[(j, t)] == 0
  }

  /** Every finished test was handled and reported exactly once by each worker allocated to it. */
  ghost predicate HistoryPast(s: State, j: Id) {
    forall t :: 0 <= t < |s.rosters| ==>
                  s.handled[(j, t)] == One(j in s.rosters[t]) && s.reported[(j, t)] == One(j in s.rosters[t])
  }

  ghost predicate PeerOk(s: State, j: Id) {
    TestToken(s, j) && StartToken(s, j) && ExitToken(s, j) && HistoryNow(s, j) && HistoryPast(s, j)
  }

  ghost predicate PeersOk(s: State) {
    forall j :: PeerOk(s, j)
  }

  /** The spawned workers still known. */
  ghost function Live(s: State): seq<Id> {
    if s.phase.Releasing? && s.phase.at <= |s.spawned| then s.spawned[s.phase.at..] else s.spawned
  }

  /** Spawned workers get consecutive numbers above the registered ones. */
  ghost predicate Consecutive(registered: nat, spawned: seq<Id>) {
    forall i :: 0 <= i < |spawned| ==> spawned[i] == registered + 1 + i
  }

  ghost predicate WorkersOk(s: State) {
    && s.workers.Keys == Numbered(s.registered) + Elements(Live(s))
    && Consecutive(s.registered, s.spawned)
  }

  ghost predicate ResultsOk(s: State)
    requires s.phase.Joining?
  {
    && |s.results| == s.phase.at <= |s.phase.order|
    && (forall i :: 0 <= i < s.phase.at ==>
          s.phase.order[i] in s.alloc && s.alloc[s.phase.order[i]].done
          && s.results[i] ==
             Result(s.phase.order[i], s.alloc[s.phase.order[i]].status, s.alloc[s.phase.order[i]].report))
  }

  ghost predicate StatusOk(s: State) {
    && Severity(s.ownStatus) <= Severity(s.status)
    && (forall i :: 0 <= i < |s.results| ==> Severity(s.results[i].status) <= Severity(s.status))
    && (s.status == s.ownStatus || exists i :: 0 <= i < |s.results| && s.results[i].status == s.status)
  }

  /** Nobody reported yet, and everybody allocated is running. */
  ghost predicate Fresh(s: State) {
    && s.results == []
    && (forall j :: j in s.alloc ==> !s.alloc[j].done && j in s.workers && s.workers[j])
  }

  ghost predicate PhaseOk(s: State) {
    && s.k == |s.rosters|
    && match s.phase
       case Idle => s.alloc == map[] && s.spawned == []
       case Spawning(n) => s.alloc == map[] && Fresh(s) && (s.spawned != [] ==> |s.workers| <= n)
       case Allocating(chosen, at) =>
         && NoRepeats(chosen) && at <= |chosen| && s.alloc.Keys == Elements(chosen[..at])
         && Elements(s.spawned) <= Elements(chosen) <= s.workers.Keys
         && Fresh(s)
       case Sending(order, at) =>
         && NoRepeats(order) && at <= |order| && Elements(order) == s.alloc.Keys && Elements(s.spawned) <= s.alloc.Keys
         && Fresh(s)
       case Body => Elements(s.spawned) <= s.alloc.Keys && Fresh(s)
       case Joining(order, at) =>
         && NoRepeats(order) && Elements(order) == s.alloc.Keys && Elements(s.spawned) <= s.alloc.Keys
         && (forall j :: j in s.alloc ==> j in s.workers && s.workers[j])
         && ResultsOk(s) && StatusOk(s)
       case Releasing(at, signalled) =>
         && at <= |s.spawned| && Elements(s.spawned) <= s.alloc.Keys
         && (signalled ==> at < |s.spawned|)
         && (forall j :: j in s.alloc ==> s.alloc[j].done)
         && (forall j :: j in s.workers && j in s.alloc ==> s.workers[j])
  }

  /** Nothing that concerns worker `i` differs. */
  ghost predicate SameFor(s: State, t: State, i: Id) {
    && NetAt(s, i) == NetAt(t, i)
    && (i in s.workers <==> i in t.workers) && (i in s.workers ==> s.workers[i] == t.workers[i])
    && Done(s, i) == Done(t, i) && Sent(s, i) == Sent(t, i) && Signalled(s, i) == Signalled(t, i)
    && s.k == t.k && s.rosters == t.rosters
    && forall n :: s.handled[(i, n)] == t.handled[(i, n)] && s.reported[(i, n)] == t.reported[(i, n)]
  }

  lemma SameKeeps(s: State, t: State, i: Id)
    requires PeerOk(s, i) && SameFor(s, t, i)
    ensures PeerOk(t, i)
  {
  }

  /** What is in flight from worker `j`, and what the driver holds of it, is what it reported. */
  ghost predicate ToldBy(s: State, j: Id) {
    && (forall f :: f in NetAt(s, j).finished ==> (j, f.test) in s.told && s.told[(j, f.test)] == (f.status, f.report))
    && (Done(s, j) ==> (j, s.k) in s.told && s.told[(j, s.k)] == (s.alloc[j].status, s.alloc[j].report))
  }

  ghost predicate ToldOk(s: State) {
    forall j :: ToldBy(s, j)
  }

  /** As many workers are allocated as the test asked for. */
  ghost predicate AskedOk(s: State) {
    match s.phase
    case Spawning(n) => n == s.asked
    case Allocating(chosen, at) => |chosen| == s.asked
    case _ => true
  }

  ghost predicate Inv(s: State) {
    PeersOk(s) && WorkersOk(s) && PhaseOk(s) && ToldOk(s) && AskedOk(s)
  }
}
