/**
 How long runs of the super channel are: every step but beginning a test brings the end of
 the test one step nearer, so no test can go on for ever, however its steps are scheduled.
 */
module SuperChannelProgress {
  import opened Collections
  import opened TestStatus
  import opened SuperChannel
  import opened SuperChannelSafety

  // ------------------------------------------------------------------- rank

  /** Steps that a worker process and the messages from and to it still have to make. */
  function Weight(n: Net): nat {
    (match n.proc
     case Booting => 2
     case InTest(_) => 3
     case Reported => 1
     case _ => 0) + 4 * |n.runs| + n.terms + |n.finished| + n.started
  }

  ghost function Weights(s: State): Id -> nat {
    (j: Id) => Weight(NetAt(s, j))
  }

  ghost function Traffic(s: State): nat {
    Sum(s.net.Keys, Weights(s))
  }

  function Missing(n: nat, have: nat): nat { if have < n then n - have else 0 }

  /** Steps of the driver still to come in this test, with the traffic they will cause. */
  function DriverSteps(s: State): int {
    var release := 1 + 3 * |s.spawned|;
    match s.phase
    case Idle => 0
    case Spawning(n) => 6 * Missing(n, |s.workers|) + 7 * n + 5 + release
    case Allocating(chosen, at) => 7 * |chosen| - at + 4 + release
    case Sending(order, at) => 5 * (|order| - at) + |s.alloc| + 3 + release
    case Body => |s.alloc| + 2 + release
    case Joining(order, at) => |order| - at + 1 + release
    case Releasing(at, signalled) => release - 3 * at - 2 * One(signalled)
  }

  ghost function Rank(s: State): int {
    Traffic(s) + DriverSteps(s)
  }

  /** Only worker `j` and its messages differ. */
  lemma TrafficChange(s: State, t: State, j: Id)
    requires t.net.Keys == s.net.Keys || t.net.Keys == s.net.Keys + {j}
    requires forall i :: i != j ==> NetAt(s, i) == NetAt(t, i)
    ensures Traffic(t) - Traffic(s) == Weight(NetAt(t, j)) - Weight(NetAt(s, j))
  {
    hide Weight;
    assert forall i :: i != j ==> Weights(s)(i) == Weights(t)(i);
    SumChange(s.net.Keys, Weights(s), Weights(t), j);
    if j !in s.net.Keys {
      assert NetAt(s, j) == NOBODY && Weight(NOBODY) == 0 by { EmptyWeight(); }
      if j in t.net.Keys {
        SumRemove(t.net.Keys, Weights(t), j);
        assert t.net.Keys - {j} == s.net.Keys;
      }
    }
  }

  lemma EmptyWeight()
    ensures Weight(NOBODY) == 0 && Weight(NEWBORN) == 2
  {
  }

  /** The net changes at `j` alone, and how the weight there changes. */
  ghost predicate NetStep(s: State, t: State, j: Id, change: int) {
    && (t.net.Keys == s.net.Keys || t.net.Keys == s.net.Keys + {j})
    && (forall i :: i != j ==> NetAt(s, i) == NetAt(t, i))
    && Weight(NetAt(t, j)) == Weight(NetAt(s, j)) + change
  }

  lemma NetUpdate(s: State, t: State, j: Id, n: Net, change: int)
    requires t.net == s.net[j := n] && Weight(n) == Weight(NetAt(s, j)) + change
    ensures NetStep(s, t, j, change)
  {
    hide Weight;
    assert NetAt(t, j) == n;
  }

  // ---------------------------------------------------------- worker steps

  lemma WorkerNet(s: State, a: Action)
    requires Enabled(s, a) && (a.Boot? || a.Finish? || a.Reset?)
    ensures NetStep(s, Apply(s, a), a.j, -1)
  {
    var n, t := NetAt(s, a.j), Apply(s, a);
    var m :=
      if a.Boot? then n.(proc := Waiting, started := n.started + 1)
      else if a.Reset? then n.(proc := Waiting)
      else n.(proc := Reported, finished := n.finished + [Finished(n.proc.test, a.status, a.report)]);
    assert t.net == s.net[a.j := m];
    hide Enabled, Apply;
    NetUpdate(s, t, a.j, m, -1);
  }

  lemma TakeRunNet(s: State, j: Id, i: nat)
    requires Enabled(s, TakeRun(j, i)) && TestToken(s, j)
    ensures NetStep(s, Apply(s, TakeRun(j, i)), j, -1)
  {
    RunToken(s, j, i);
    hide TestToken;
  }

  lemma TakeTerminateNet(s: State, j: Id)
    requires Enabled(s, TakeTerminate(j)) && NetAt(s, j).proc.Waiting?
    ensures NetStep(s, Apply(s, TakeTerminate(j)), j, -1)
  {
  }

  lemma WorkerStepRank(s: State, a: Action)
    requires Enabled(s, a) && Inv(s) && IsWorkerStep(a)
    ensures Rank(Apply(s, a)) == Rank(s) - 1
  {
    hide Enabled, Apply, PeersOk, WorkersOk, PhaseOk, ToldOk, AskedOk, TestToken, StartToken, ExitToken,
         Weight, Traffic;
    TokensOf(s, a.j);
    match a {
      case TakeRun(j, i) => TakeRunNet(s, j, i);
      case TakeTerminate(j) => Terminated(s, j); TakeTerminateNet(s, j);
      case _ => WorkerNet(s, a);
    }
    TrafficChange(s, Apply(s, a), a.j);
    WorkerStepApart(s, a);
  }

  // ------------------------------------------------------------- deliveries

  lemma DeliveryNet(s: State, a: Action)
    requires Enabled(s, a) && IsDelivery(a)
    ensures NetStep(s, Apply(s, a), a.j, -1)
  {
    hide Polling;
    var n, t := NetAt(s, a.j), Apply(s, a);
    var m := if a.DeliverFinished? then n.(finished := Remove(n.finished, a.i)) else n.(started := n.started - 1);
    assert t.net == s.net[a.j := m];
    hide Enabled, Apply;
    NetUpdate(s, t, a.j, m, -1);
  }

  lemma DeliveryPhase(s: State, a: Action)
    requires Enabled(s, a) && IsDelivery(a)
    ensures var t := Apply(s, a);
            t.phase == s.phase && t.spawned == s.spawned && (s.phase.Allocating? || s.phase.Joining?)
  {
  }

  lemma DeliveryRank(s: State, a: Action)
    requires Enabled(s, a) && IsDelivery(a)
    ensures Rank(Apply(s, a)) == Rank(s) - 1
  {
    hide Enabled, Apply, Weight, Traffic;
    DeliveryNet(s, a);
    TrafficChange(s, Apply(s, a), a.j);
    DeliveryPhase(s, a);
  }

  // ------------------------------------------------------------ driver steps

  predicate ChangesNet(a: Action) { a.Spawn? || a.SendRun? || a.SendTerminate? }

  lemma SameTraffic(s: State, a: Action)
    requires Enabled(s, a) && !IsWorkerStep(a) && !IsDelivery(a) && !ChangesNet(a)
    ensures Traffic(Apply(s, a)) == Traffic(s)
  {
    assert Apply(s, a).net == s.net;
    hide Enabled, Apply;
    SumChange(s.net.Keys, Weights(s), Weights(Apply(s, a)), 0);
  }

  lemma SpawnRank(s: State)
    requires Enabled(s, Spawn) && Inv(s)
    ensures Rank(Apply(s, Spawn)) == Rank(s) - 1
  {
    hide Enabled, Apply, PeersOk, WorkersOk, PhaseOk, ToldOk, AskedOk, Weight, Traffic;
    SpawnCount(s);
    SpawnNet(s);
    TrafficChange(s, Apply(s, Spawn), |s.workers| + 1);
    SpawnDriver(s);
  }

  lemma SpawnNet(s: State)
    requires Enabled(s, Spawn) && Inv(s)
    ensures NetStep(s, Apply(s, Spawn), |s.workers| + 1, 2)
  {
    var t := Apply(s, Spawn);
    assert t.net == s.net[|s.workers| + 1 := NEWBORN];
    SpawnMeans(s);
    hide Enabled, Apply, PeersOk, WorkersOk, PhaseOk, ToldOk, AskedOk, Weight;
    UnknownIsNobody(s);
    EmptyWeight();
    NetUpdate(s, t, |s.workers| + 1, NEWBORN, 2);
  }

  lemma UnknownIsNobody(s: State)
    requires PeersOk(s) && WorkersOk(s) && !s.phase.Releasing?
    ensures NetAt(s, |s.workers| + 1) == NOBODY
  {
    hide TestToken, ExitToken, HistoryNow, HistoryPast, WorkersOk;
    WorkerCount(s);
    assert PeerOk(s, |s.workers| + 1);
  }

  lemma SpawnDriver(s: State)
    requires Enabled(s, Spawn) && |Apply(s, Spawn).workers| == |s.workers| + 1
    ensures DriverSteps(Apply(s, Spawn)) == DriverSteps(s) - 3
  {
  }

  lemma SendRunNet(s: State)
    requires Enabled(s, SendRun)
    ensures NetStep(s, Apply(s, SendRun), s.phase.order[s.phase.at], 4)
  {
    var t, j := Apply(s, SendRun), s.phase.order[s.phase.at];
    var n := NetAt(s, j);
    assert t.net == s.net[j := n.(runs := n.runs + [s.k])];
    hide Enabled, Apply;
    NetUpdate(s, t, j, n.(runs := n.runs + [s.k]), 4);
  }

  lemma SendTerminateNet(s: State)
    requires Enabled(s, SendTerminate)
    ensures NetStep(s, Apply(s, SendTerminate), s.spawned[s.phase.at], 1)
  {
    var t, j := Apply(s, SendTerminate), s.spawned[s.phase.at];
    var n := NetAt(s, j);
    assert t.net == s.net[j := n.(terms := n.terms + 1)];
    hide Enabled, Apply;
    NetUpdate(s, t, j, n.(terms := n.terms + 1), 1);
  }

  lemma SendSteps(s: State, a: Action)
    requires Enabled(s, a) && (a.SendRun? || a.SendTerminate?)
    ensures DriverSteps(Apply(s, a)) == DriverSteps(s) - if a.SendRun? then 5 else 2
  {
  }

  lemma SendRank(s: State, a: Action)
    requires Enabled(s, a) && (a.SendRun? || a.SendTerminate?)
    ensures Rank(Apply(s, a)) == Rank(s) - 1
  {
    SendSteps(s, a);
    var j := if a.SendRun? then s.phase.order[s.phase.at] else s.spawned[s.phase.at];
    hide Enabled, Apply, Weight, DriverSteps, Traffic;
    if a.SendRun? { SendRunNet(s); } else { SendTerminateNet(s); }
    TrafficChange(s, Apply(s, a), j);
  }

  /** The allocated workers are as many as were chosen, and as a loop over them goes through. */
  lemma AllocSize(xs: seq<Id>, alloc: map<Id, Allocated>)
    requires NoRepeats(xs) && Elements(xs) == alloc.Keys
    ensures |alloc| == |xs|
  {
    ElementsSize(xs);
    assert |alloc| == |alloc.Keys|;
  }

  lemma StartSendingSteps(s: State, order: seq<Id>)
    requires Enabled(s, StartSending(order)) && PhaseOk(s)
    ensures DriverSteps(Apply(s, StartSending(order))) == DriverSteps(s) - 1
  {
    hide Elements, NoRepeats;
    StartSendingMeans(s, order);
    AllocSize(s.phase.chosen, s.alloc);
    AllocSize(order, s.alloc);
  }

  lemma StartJoiningSteps(s: State, st: Status, order: seq<Id>)
    requires Enabled(s, StartJoining(st, order))
    ensures DriverSteps(Apply(s, StartJoining(st, order))) == DriverSteps(s) - 1
  {
    hide Elements, NoRepeats;
    AllocSize(order, s.alloc);
  }

  lemma LoopSteps(s: State, a: Action)
    requires Enabled(s, a) && (a.Allocate? || a.JoinNext? || a.Reap?)
    ensures DriverSteps(Apply(s, a)) == DriverSteps(s) - 1
  {
  }

  predicate IsPlain(a: Action) {
    a.Choose? || a.RunBody? || a.StartReleasing? || a.EndTest?
  }

  lemma PlainSteps(s: State, a: Action)
    requires Enabled(s, a) && PhaseOk(s) && IsPlain(a)
    ensures DriverSteps(Apply(s, a)) == DriverSteps(s) - 1
  {
    hide Elements, NoRepeats, Fresh, ResultsOk, StatusOk;
  }

  lemma DriverStepRank(s: State, a: Action)
    requires Enabled(s, a) && Inv(s) && !IsWorkerStep(a) && !IsDelivery(a) && !a.Begin?
    ensures Rank(Apply(s, a)) == Rank(s) - 1
  {
    hide Enabled, Apply, PeersOk, WorkersOk, PhaseOk, ToldOk, AskedOk, Traffic, DriverSteps;
    match a
    case Spawn => SpawnRank(s);
    case SendRun => SendRank(s, a);
    case SendTerminate => SendRank(s, a);
    case StartSending(order) => StartSendingSteps(s, order); SameTraffic(s, a);
    case StartJoining(st, order) => StartJoiningSteps(s, st, order); SameTraffic(s, a);
    case _ =>
      SameTraffic(s, a);
      if IsPlain(a) { PlainSteps(s, a); } else { LoopSteps(s, a); }
  }

  /** Every step but beginning a test uses up exactly one of the steps to come. */
  lemma StepRank(s: State, a: Action)
    requires Enabled(s, a) && Inv(s) && !a.Begin?
    ensures Rank(Apply(s, a)) == Rank(s) - 1
  {
    hide Enabled, Apply, Inv, Rank;
    if IsWorkerStep(a) {
      WorkerStepRank(s, a);
    } else if IsDelivery(a) {
      DeliveryRank(s, a);
    } else {
      DriverStepRank(s, a);
    }
  }

  // ------------------------------------------------------------------- runs

  /** The steps a test of `n` workers takes when `m` are registered. */
  function TestCost(n: nat, m: nat): nat { 6 * Missing(n, m) + 7 * n + 6 }

  lemma BeginRank(s: State, n: nat)
    requires Enabled(s, Begin(n)) && Inv(s)
    ensures Rank(Apply(s, Begin(n))) == Rank(s) + TestCost(n, s.registered)
  {
    hide PeersOk, ToldOk, AskedOk, Traffic;
    SameTraffic(s, Begin(n));
    WorkerCount(s);
  }

  lemma RankNonNegative(s: State)
    requires PhaseOk(s)
    ensures Rank(s) >= 0
    ensures s.phase.Idle? <==> DriverSteps(s) <= 0
  {
    hide Elements, NoRepeats, Fresh, StatusOk, Traffic;
  }

  function Costs(actions: seq<Action>, m: nat): nat {
    if actions == [] then 0
    else (if actions[0].Begin? then 1 + TestCost(actions[0].n, m) else 0) + Costs(actions[1..], m)
  }

  lemma SameRegistered(s: State, a: Action)
    requires Enabled(s, a)
    ensures Apply(s, a).registered == s.registered
  {
  }

  /** A run is as long as the tests begun in it demand, less what is still to be done. */
  lemma {:induction false} RunLength(s: State, actions: seq<Action>, t: State)
    requires Inv(s) && Runs(s, actions, t)
    ensures |actions| + Rank(t) == Rank(s) + Costs(actions, s.registered)
    decreases |actions|
  {
    hide Inv, Enabled, Apply, Rank, TestCost;
    if actions != [] {
      var r := Apply(s, actions[0]);
      StepKeeps(s, actions[0]);
      SameRegistered(s, actions[0]);
      if actions[0].Begin? { BeginRank(s, actions[0].n); } else { StepRank(s, actions[0]); }
      RunLength(r, actions[1..], t);
    }
  }

  ghost predicate WithinTest(actions: seq<Action>) {
    forall i :: 0 <= i < |actions| ==> !actions[i].Begin?
  }

  lemma {:induction false} NoCosts(actions: seq<Action>, m: nat)
    requires WithinTest(actions)
    ensures Costs(actions, m) == 0
  {
    if actions != [] {
      assert WithinTest(actions[1..]);
      NoCosts(actions[1..], m);
    }
  }

  /**
   A test ends under every scheduling: once begun, there are at most `TestCost` steps, and
   what was left to do before, until the driver is idle again, and while it is not, there
   is always a step.  A test that has ended took exactly what was done of these.
   */
  lemma TestsEnd(s: State, n: nat, actions: seq<Action>, t: State) returns (a: Action)
    requires Reachable(s) && Enabled(s, Begin(n))
    requires Runs(Apply(s, Begin(n)), actions, t) && WithinTest(actions)
    ensures |actions| <= TestCost(n, s.registered) + Rank(s)
    ensures |actions| == TestCost(n, s.registered) + Rank(s) - Rank(t)
    ensures !t.phase.Idle? ==> Enabled(t, a) && !a.Begin? && |actions| < TestCost(n, s.registered) + Rank(s)
  {
    hide Enabled, Apply, PeersOk, WorkersOk, PhaseOk, ToldOk, AskedOk, Runs, Traffic, DriverSteps, Initial,
         TestCost, WithinTest;
    var r := Apply(s, Begin(n));
    ReachableHolds(s);
    StepKeeps(s, Begin(n));
    BeginRank(s, n);
    RunLength(r, actions, t);
    NoCosts(actions, r.registered);
    RunKeeps(r, actions, t);
    RankNonNegative(t);
    a := Moves(t);
  }

  /** A run from the first state: two steps for each registered worker to start and be heard of, and the tests. */
  lemma RunFromInitial(s: State, actions: seq<Action>, t: State)
    requires Initial(s) && Runs(s, actions, t)
    ensures |actions| + Rank(t) == 2 * s.registered + Costs(actions, s.registered) && Rank(t) >= 0
  {
    InitialHolds(s);
    forall j | j in s.net.Keys ensures Weights(s)(j) == 2 { assert s.net[j] == NEWBORN; }
    SumConstant(s.net.Keys, Weights(s), 2);
    NumberedSize(s.registered);
    assert Rank(s) == 2 * s.registered;
    hide Inv, Initial, Rank, Runs;
    RunLength(s, actions, t);
    RunKeeps(s, actions, t);
    InvRank(t);
  }

  lemma InvRank(s: State)
    requires Inv(s)
    ensures Rank(s) >= 0
  {
    hide PeersOk, WorkersOk, PhaseOk, ToldOk, AskedOk;
    RankNonNegative(s);
  }
}
