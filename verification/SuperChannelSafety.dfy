/** Every step of the super channel keeps its invariant; what holds in all runs follows. */
module SuperChannelSafety {
  import opened Collections
  import opened TestStatus
  import opened SuperChannel

  // ------------------------------------------------------------- small facts

  lemma NumberedSize(m: nat)
    ensures |Numbered(m)| == m
  {
    if m > 0 {
      NumberedSize(m - 1);
      assert Numbered(m) == Numbered(m - 1) + {m - 1};
    } else {
      assert Numbered(0) == {};
    }
  }

  lemma KnownSize(registered: nat, spawned: seq<Id>)
    requires Consecutive(registered, spawned)
    ensures |Numbered(registered) + Elements(spawned)| == registered + |spawned|
  {
    NumberedSize(registered);
    ElementsSize(spawned);
    assert Numbered(registered) !! Elements(spawned);
  }

  /** While nobody is released, the number of workers is the registered ones plus the spawned ones. */
  lemma WorkerCount(s: State)
    requires WorkersOk(s) && !s.phase.Releasing?
    ensures |s.workers| == s.registered + |s.spawned| && |s.workers| + 1 !in s.workers
  {
    KnownSize(s.registered, s.spawned);
    assert |s.workers| == |s.workers.Keys|;
  }

  // ------------------------------------------------------------ quiet steps

  lemma QuietStep(s: State, t: State)
    requires PeersOk(s) && forall i :: SameFor(s, t, i)
    ensures PeersOk(t)
  {
    hide PeerOk, SameFor;
    forall i ensures PeerOk(t, i) {
      assert PeerOk(s, i) && SameFor(s, t, i);
      SameKeeps(s, t, i);
    }
  }

  predicate Quiet(a: Action) {
    a.Begin? || a.Choose? || a.Allocate? || a.StartSending? || a.RunBody? || a.StartJoining? || a.JoinNext?
      || a.StartReleasing?
  }

  lemma EarlyIsSame(s: State, a: Action, i: Id)
    requires Enabled(s, a) && PhaseOk(s) && (a.Begin? || a.Choose? || a.Allocate? || a.StartSending?)
    ensures SameFor(s, Apply(s, a), i)
  {
    match a
    case Begin(_) =>
    case Choose(_) =>
    case Allocate =>
    case StartSending(_) =>
  }

  lemma LateIsSame(s: State, a: Action, i: Id)
    requires Enabled(s, a) && PhaseOk(s) && (a.RunBody? || a.StartJoining? || a.JoinNext? || a.StartReleasing?)
    ensures SameFor(s, Apply(s, a), i)
  {
    hide NoRepeats, Fresh, ResultsOk, StatusOk;
    match a
    case RunBody =>
    case StartJoining(_, _) =>
    case JoinNext =>
    case StartReleasing =>
  }

  lemma QuietIsSame(s: State, a: Action, i: Id)
    requires Enabled(s, a) && PhaseOk(s) && Quiet(a)
    ensures SameFor(s, Apply(s, a), i)
  {
    hide PhaseOk, SameFor, Enabled, Apply;
    if a.Begin? || a.Choose? || a.Allocate? || a.StartSending? {
      EarlyIsSame(s, a, i);
    } else {
      LateIsSame(s, a, i);
    }
  }

  // ------------------------------------------------------ one worker at a time

  /** A step that concerns worker `j` alone keeps everybody's tokens if it keeps `j`'s. */
  lemma OnePeer(s: State, t: State, j: Id)
    requires PeersOk(s) && PeerOk(t, j) && forall i :: i != j ==> SameFor(s, t, i)
    ensures PeersOk(t)
  {
    hide PeerOk, SameFor;
    forall i ensures PeerOk(t, i) {
      assert PeerOk(s, i) && (i != j ==> SameFor(s, t, i));
      if i != j { SameKeeps(s, t, i); }
    }
  }

  /** The worker a step concerns. */
  ghost function Subject(s: State, a: Action): Id
    requires Enabled(s, a) && !Quiet(a) && a != EndTest
  {
    match a
    case Spawn => |s.workers| + 1
    case SendRun => s.phase.order[s.phase.at]
    case SendTerminate => s.spawned[s.phase.at]
    case Reap => s.spawned[s.phase.at]
    case DeliverStarted(j) => j
    case DeliverFinished(j, _) => j
    case Boot(j) => j
    case TakeRun(j, _) => j
    case Finish(j, _, _) => j
    case Reset(j) => j
    case TakeTerminate(j) => j
  }

  /** A step of a worker process, or the delivery of a message to the driver. */
  predicate IsWorkerStep(a: Action) { a.Boot? || a.TakeRun? || a.Finish? || a.Reset? || a.TakeTerminate? }

  predicate IsDelivery(a: Action) { a.DeliverStarted? || a.DeliverFinished? }

  lemma OthersSameTest(s: State, a: Action, i: Id)
    requires Enabled(s, a) && (a.TakeRun? || a.Finish?) && i != Subject(s, a)
    ensures SameFor(s, Apply(s, a), i)
  {
    hide Receives, Remove;
  }

  lemma OthersSameWorker(s: State, a: Action, i: Id)
    requires Enabled(s, a) && IsWorkerStep(a) && i != Subject(s, a)
    ensures SameFor(s, Apply(s, a), i)
  {
    if a.TakeRun? || a.Finish? {
      OthersSameTest(s, a, i);
    } else {
      hide Receives;
    }
  }

  lemma OthersSameStarted(s: State, j: Id, i: Id)
    requires Enabled(s, DeliverStarted(j)) && i != j
    ensures SameFor(s, Apply(s, DeliverStarted(j)), i)
  {
    hide Polling;
  }

  lemma OthersSameFinished(s: State, j: Id, n: nat, i: Id)
    requires Enabled(s, DeliverFinished(j, n)) && i != j
    ensures SameFor(s, Apply(s, DeliverFinished(j, n)), i)
  {
    hide Polling;
  }

  lemma OthersSameDelivery(s: State, a: Action, i: Id)
    requires Enabled(s, a) && IsDelivery(a) && i != Subject(s, a)
    ensures SameFor(s, Apply(s, a), i)
  {
    hide Enabled, Apply, SameFor;
    match a
    case DeliverStarted(j) => OthersSameStarted(s, j, i);
    case DeliverFinished(j, n) => OthersSameFinished(s, j, n, i);
  }

  lemma OthersSameSent(s: State, i: Id)
    requires Enabled(s, SendRun) && i != Subject(s, SendRun)
    ensures SameFor(s, Apply(s, SendRun), i)
  {
    var p := s.phase;
    assert p.order[..p.at + 1] == p.order[..p.at] + [p.order[p.at]];
  }

  lemma OthersSameDriver(s: State, a: Action, i: Id)
    requires Enabled(s, a) && (a.Spawn? || a.SendTerminate? || a.Reap?) && i != Subject(s, a)
    ensures SameFor(s, Apply(s, a), i)
  {
    hide Elements, NoRepeats;
  }

  lemma OthersSame(s: State, a: Action, i: Id)
    requires Enabled(s, a) && !Quiet(a) && a != EndTest && i != Subject(s, a)
    ensures SameFor(s, Apply(s, a), i)
  {
    hide Enabled, Apply, SameFor;
    if IsWorkerStep(a) {
      OthersSameWorker(s, a, i);
    } else if IsDelivery(a) {
      OthersSameDelivery(s, a, i);
    } else if a.SendRun? {
      OthersSameSent(s, i);
    } else {
      OthersSameDriver(s, a, i);
    }
  }

  // ----------------------------------------------------- the worker concerned

  lemma SpawnKeeps(s: State)
    requires Enabled(s, Spawn) && Inv(s)
    ensures PeerOk(Apply(s, Spawn), Subject(s, Spawn))
  {
    WorkerCount(s);
    assert PeerOk(s, |s.workers| + 1);
  }

  lemma PeerAt(s: State, j: Id)
    requires PeersOk(s)
    ensures PeerOk(s, j)
  {
  }

  /** Who a RUN_TEST goes to: an allocated worker that was not sent one yet. */
  lemma NextToSend(s: State)
    requires Enabled(s, SendRun) && PhaseOk(s)
    ensures var j := s.phase.order[s.phase.at];
            j in s.workers && j in s.alloc && !s.alloc[j].done && !Sent(s, j) && Sent(Apply(s, SendRun), j)
  {
    var p := s.phase;
    var j := p.order[p.at];
    assert j in Elements(p.order);
    assert p.order[..p.at + 1] == p.order[..p.at] + [j];
    assert j !in p.order[..p.at];
  }

  lemma SendRunTokens(s: State, j: Id)
    requires Enabled(s, SendRun) && j == s.phase.order[s.phase.at]
    requires j in s.workers && j in s.alloc && !s.alloc[j].done
    requires !Sent(s, j) && Sent(Apply(s, SendRun), j) && TestToken(s, j) && StartToken(s, j) && ExitToken(s, j)
    ensures var t := Apply(s, SendRun); TestToken(t, j) && StartToken(t, j) && ExitToken(t, j)
  {
    hide Sent;
  }

  lemma SendRunHistory(s: State, j: Id)
    requires Enabled(s, SendRun) && j == s.phase.order[s.phase.at] && !Sent(s, j) && HistoryNow(s, j)
             && HistoryPast(s, j)
    ensures var t := Apply(s, SendRun); HistoryNow(t, j) && HistoryPast(t, j)
  {
    hide Sent;
  }

  lemma SendRunKeeps(s: State)
    requires Enabled(s, SendRun) && Inv(s)
    ensures PeerOk(Apply(s, SendRun), Subject(s, SendRun))
  {
    hide PeersOk, PhaseOk, WorkersOk, ToldOk, AskedOk, TestToken, StartToken, ExitToken, HistoryNow, HistoryPast, Sent;
    var j := s.phase.order[s.phase.at];
    PeerAt(s, j);
    NextToSend(s);
    SendRunTokens(s, j);
    SendRunHistory(s, j);
  }

  /** What concerns the tests handled by `j` is the same. */
  lemma SameTest(s: State, t: State, j: Id)
    requires PeerOk(s, j) && s.handled == t.handled && s.reported == t.reported && s.rosters == t.rosters && s.k == t.k
    requires NetAt(s, j).runs == NetAt(t, j).runs && NetAt(s, j).finished == NetAt(t, j).finished
             && NetAt(s, j).proc == NetAt(t, j).proc
    requires Sent(s, j) == Sent(t, j) && Done(s, j) == Done(t, j)
    ensures TestToken(t, j) && HistoryNow(t, j) && HistoryPast(t, j)
  {
  }

  lemma NextToTerminate(s: State)
    requires Enabled(s, SendTerminate) && PhaseOk(s) && WorkersOk(s)
    ensures var j := s.spawned[s.phase.at]; j in s.workers && !Signalled(s, j) && Signalled(Apply(s, SendTerminate), j)
  {
    assert s.spawned[s.phase.at] in Elements(s.spawned[s.phase.at..]);
  }

  lemma SendTerminateTokens(s: State)
    requires Enabled(s, SendTerminate)
    requires var j := s.spawned[s.phase.at];
             StartToken(s, j) && ExitToken(s, j) && j in s.workers && !Signalled(s, j)
               && Signalled(Apply(s, SendTerminate), j)
    ensures var t, j := Apply(s, SendTerminate), s.spawned[s.phase.at]; StartToken(t, j) && ExitToken(t, j)
  {
    hide Signalled;
  }

  lemma SendTerminateKeeps(s: State)
    requires Enabled(s, SendTerminate) && Inv(s)
    ensures PeerOk(Apply(s, SendTerminate), Subject(s, SendTerminate))
  {
    hide PhaseOk, WorkersOk, ToldOk, AskedOk, Elements, Signalled, TestToken, StartToken, ExitToken,
         HistoryNow, HistoryPast, Sent;
    var j := s.spawned[s.phase.at];
    assert PeerOk(s, j);
    NextToTerminate(s);
    SendTerminateSame(s, j);
    SameTest(s, Apply(s, SendTerminate), j);
    SendTerminateTokens(s);
  }

  lemma SendTerminateSame(s: State, j: Id)
    requires Enabled(s, SendTerminate) && j == s.spawned[s.phase.at]
    ensures var t := Apply(s, SendTerminate);
            && s.handled == t.handled && s.reported == t.reported && s.rosters == t.rosters && s.k == t.k
            && NetAt(s, j).runs == NetAt(t, j).runs && NetAt(s, j).finished == NetAt(t, j).finished
               && NetAt(s, j).proc == NetAt(t, j).proc
            && Sent(s, j) == Sent(t, j) && Done(s, j) == Done(t, j)
  {
  }

  /** Who is reaped: an allocated worker that is known, running and done. */
  lemma NextToReap(s: State)
    requires Enabled(s, Reap) && PhaseOk(s) && WorkersOk(s)
    ensures var j := s.spawned[s.phase.at];
            j in s.alloc && s.alloc[j].done && j in s.workers && s.workers[j] && Signalled(s, j) && Sent(s, j)
  {
    var j := s.spawned[s.phase.at];
    assert j in Elements(s.spawned[s.phase.at..]) && j in Elements(s.spawned);
  }

  lemma ReapTokens(s: State)
    requires Enabled(s, Reap)
    requires var j := s.spawned[s.phase.at];
             StartToken(s, j) && ExitToken(s, j) && TestToken(s, j) && Signalled(s, j) && Sent(s, j) && Done(s, j)
               && j in s.workers && s.workers[j]
    ensures var t, j := Apply(s, Reap), s.spawned[s.phase.at]; StartToken(t, j) && ExitToken(t, j)
  {
  }

  lemma ReapSame(s: State, j: Id)
    requires Enabled(s, Reap) && j == s.spawned[s.phase.at]
    ensures var t := Apply(s, Reap);
            && s.handled == t.handled && s.reported == t.reported && s.rosters == t.rosters && s.k == t.k
            && NetAt(s, j) == NetAt(t, j) && Sent(s, j) == Sent(t, j) && Done(s, j) == Done(t, j)
  {
  }

  lemma ReapKeeps(s: State)
    requires Enabled(s, Reap) && Inv(s)
    ensures PeerOk(Apply(s, Reap), Subject(s, Reap))
  {
    hide PhaseOk, WorkersOk, ToldOk, AskedOk, Elements, Signalled, TestToken, StartToken, ExitToken,
         HistoryNow, HistoryPast, Sent;
    var j := s.spawned[s.phase.at];
    assert PeerOk(s, j);
    NextToReap(s);
    ReapSame(s, j);
    SameTest(s, Apply(s, Reap), j);
    ReapTokens(s);
  }

  lemma DeliverStartedKeeps(s: State, j: Id)
    requires Enabled(s, DeliverStarted(j)) && Inv(s)
    ensures PeerOk(Apply(s, DeliverStarted(j)), j)
  {
    assert PeerOk(s, j);
  }

  lemma DeliverFinishedKeeps(s: State, j: Id, i: nat)
    requires Enabled(s, DeliverFinished(j, i)) && Inv(s)
    ensures PeerOk(Apply(s, DeliverFinished(j, i)), j)
  {
    assert PeerOk(s, j);
  }

  lemma BootKeeps(s: State, j: Id)
    requires Enabled(s, Boot(j)) && PeerOk(s, j)
    ensures PeerOk(Apply(s, Boot(j)), j)
  {
  }

  lemma TakeRunTokens(s: State, j: Id, i: nat)
    requires Enabled(s, TakeRun(j, i)) && TestToken(s, j) && StartToken(s, j) && ExitToken(s, j)
    ensures var t := Apply(s, TakeRun(j, i)); TestToken(t, j) && StartToken(t, j) && ExitToken(t, j)
  {
  }

  lemma TakeRunHistory(s: State, j: Id, i: nat)
    requires Enabled(s, TakeRun(j, i)) && TestToken(s, j) && HistoryNow(s, j) && HistoryPast(s, j) && s.k == |s.rosters|
    ensures var t := Apply(s, TakeRun(j, i)); HistoryNow(t, j) && HistoryPast(t, j)
  {
    assert |NetAt(s, j).runs| == 1 && NetAt(s, j).proc.Waiting? && NetAt(s, j).runs[i] == s.k;
  }

  lemma TakeRunKeeps(s: State, j: Id, i: nat)
    requires Enabled(s, TakeRun(j, i)) && PeerOk(s, j) && s.k == |s.rosters|
    ensures PeerOk(Apply(s, TakeRun(j, i)), j)
  {
    hide Enabled, Apply, TestToken, StartToken, ExitToken, HistoryNow, HistoryPast;
    TakeRunTokens(s, j, i);
    TakeRunHistory(s, j, i);
  }

  lemma FinishKeeps(s: State, j: Id, st: Status, rep: string)
    requires Enabled(s, Finish(j, st, rep)) && PeerOk(s, j) && s.k == |s.rosters|
    ensures PeerOk(Apply(s, Finish(j, st, rep)), j)
  {
  }

  lemma ResetKeeps(s: State, j: Id)
    requires Enabled(s, Reset(j)) && PeerOk(s, j)
    ensures PeerOk(Apply(s, Reset(j)), j)
  {
  }

  /** Who takes a TERMINATE is not inside a test. */
  lemma Terminated(s: State, j: Id)
    requires Enabled(s, TakeTerminate(j)) && PhaseOk(s) && TestToken(s, j) && StartToken(s, j) && ExitToken(s, j)
    ensures NetAt(s, j).proc.Waiting?
  {
    hide Fresh, ResultsOk, StatusOk;
    assert j in s.workers;
    assert Signalled(s, j);
    assert j in Elements(s.spawned);
  }

  lemma TakeTerminateTokens(s: State, j: Id)
    requires Enabled(s, TakeTerminate(j)) && NetAt(s, j).proc.Waiting?
    requires TestToken(s, j) && StartToken(s, j) && ExitToken(s, j)
    ensures var t := Apply(s, TakeTerminate(j)); TestToken(t, j) && StartToken(t, j) && ExitToken(t, j)
  {
  }

  lemma TakeTerminateHistory(s: State, j: Id)
    requires Enabled(s, TakeTerminate(j)) && HistoryNow(s, j) && HistoryPast(s, j)
    ensures var t := Apply(s, TakeTerminate(j)); HistoryNow(t, j) && HistoryPast(t, j)
  {
  }

  lemma TakeTerminateKeeps(s: State, j: Id)
    requires Enabled(s, TakeTerminate(j)) && Inv(s)
    ensures PeerOk(Apply(s, TakeTerminate(j)), j)
  {
    assert PeerOk(s, j);
    hide Enabled, Apply, PeersOk, PhaseOk, WorkersOk, ToldOk, AskedOk, TestToken, StartToken, ExitToken,
         HistoryNow, HistoryPast;
    Terminated(s, j);
    TakeTerminateTokens(s, j);
    TakeTerminateHistory(s, j);
  }

  lemma TestsCounted(s: State)
    requires PhaseOk(s)
    ensures s.k == |s.rosters|
  {
  }

  lemma SubjectKeeps(s: State, a: Action)
    requires Enabled(s, a) && Inv(s) && !Quiet(a) && a != EndTest
    ensures PeerOk(Apply(s, a), Subject(s, a))
  {
    hide PeerOk, WorkersOk, PhaseOk;
    assert PeerOk(s, Subject(s, a));
    match a
    case Spawn => SpawnKeeps(s);
    case SendRun => SendRunKeeps(s);
    case SendTerminate => SendTerminateKeeps(s);
    case Reap => ReapKeeps(s);
    case DeliverStarted(j) => DeliverStartedKeeps(s, j);
    case DeliverFinished(j, i) => DeliverFinishedKeeps(s, j, i);
    case Boot(j) => BootKeeps(s, j);
    case TakeRun(j, i) => TestsCounted(s); TakeRunKeeps(s, j, i);
    case Finish(j, st, rep) => TestsCounted(s); FinishKeeps(s, j, st, rep);
    case Reset(j) => ResetKeeps(s, j);
    case TakeTerminate(j) => TakeTerminateKeeps(s, j);
  }

  /** Ending a test turns what the history says about it into the past. */
  lemma EndTestKeeps(s: State, j: Id)
    requires Enabled(s, EndTest) && Inv(s)
    ensures PeerOk(Apply(s, EndTest), j)
  {
    hide HistoryNow, HistoryPast, TestToken, StartToken, ExitToken, PhaseOk, WorkersOk;
    assert PeerOk(s, j);
    EndTestHistory(s, j);
    EndTestTokens(s, j);
  }

  lemma EndTestTokens(s: State, j: Id)
    requires Enabled(s, EndTest) && PeerOk(s, j) && PhaseOk(s)
    ensures var t := Apply(s, EndTest); TestToken(t, j) && StartToken(t, j) && ExitToken(t, j)
  {
    hide HistoryNow, HistoryPast;
  }

  lemma EndTestHistory(s: State, j: Id)
    requires Enabled(s, EndTest) && PeerOk(s, j) && PhaseOk(s)
    ensures HistoryNow(Apply(s, EndTest), j) && HistoryPast(Apply(s, EndTest), j)
  {
  }

  lemma PeersKept(s: State, a: Action)
    requires Enabled(s, a) && Inv(s)
    ensures PeersOk(Apply(s, a))
  {
    hide PeerOk, SameFor, Enabled, Apply, PhaseOk, WorkersOk;
    if Quiet(a) {
      forall i ensures SameFor(s, Apply(s, a), i) { QuietIsSame(s, a, i); }
      QuietStep(s, Apply(s, a));
    } else if a == EndTest {
      forall j ensures PeerOk(Apply(s, a), j) { EndTestKeeps(s, j); }
    } else {
      forall i | i != Subject(s, a) ensures SameFor(s, Apply(s, a), i) { OthersSame(s, a, i); }
      SubjectKeeps(s, a);
      OnePeer(s, Apply(s, a), Subject(s, a));
    }
  }

  // -------------------------------------------------- worker table and phases

  lemma ConsecutiveSnoc(registered: nat, spawned: seq<Id>)
    requires Consecutive(registered, spawned)
    ensures Consecutive(registered, spawned + [registered + |spawned| + 1])
  {
  }

  lemma SpawnedState(s: State)
    requires Enabled(s, Spawn)
    ensures var t, id := Apply(s, Spawn), |s.workers| + 1;
            && t.workers.Keys == s.workers.Keys + {id} && t.spawned == s.spawned + [id] && t.registered == s.registered
            && !s.phase.Releasing? && !t.phase.Releasing?
  {
  }

  lemma KnownAre(t: State)
    requires !t.phase.Releasing? && Consecutive(t.registered, t.spawned)
    ensures WorkersOk(t) <==> t.workers.Keys == Numbered(t.registered) + Elements(t.spawned)
  {
    hide Elements, Numbered, Consecutive;
  }

  lemma UnionSnoc(n: set<Id>, xs: seq<Id>, x: Id)
    ensures n + Elements(xs + [x]) == n + Elements(xs) + {x}
  {
    ElementsSnoc(xs, x);
  }

  lemma SpawnExtends(s: State)
    requires Enabled(s, Spawn) && WorkersOk(s)
    ensures WorkersOk(Apply(s, Spawn))
  {
    hide Enabled, Apply, Elements, Numbered, Consecutive, WorkersOk, Live;
    SpawnedState(s);
    SpawnedConsecutive(s);
    KnownConsecutive(s);
    UnionSnoc(Numbered(s.registered), s.spawned, |s.workers| + 1);
    KnownAre(s);
    KnownAre(Apply(s, Spawn));
  }

  lemma SpawnedConsecutive(s: State)
    requires WorkersOk(s) && !s.phase.Releasing?
    ensures Consecutive(s.registered, s.spawned + [|s.workers| + 1])
  {
    WorkerCount(s);
    ConsecutiveSnoc(s.registered, s.spawned);
  }

  lemma KnownConsecutive(s: State)
    requires WorkersOk(s)
    ensures Consecutive(s.registered, s.spawned)
  {
  }

  lemma DropFirst(registered: nat, spawned: seq<Id>, at: nat)
    requires at < |spawned| && Consecutive(registered, spawned)
    ensures Numbered(registered) + Elements(spawned[at + 1..]) ==
            Numbered(registered) + Elements(spawned[at..]) - {spawned[at]}
  {
    assert forall j :: j in spawned[at..] <==> j == spawned[at] || j in spawned[at + 1..];
  }

  lemma ReapShrinks(s: State)
    requires Enabled(s, Reap) && WorkersOk(s)
    ensures WorkersOk(Apply(s, Reap))
  {
    DropFirst(s.registered, s.spawned, s.phase.at);
    hide Elements, Numbered, Consecutive;
  }

  lemma EndTestRestores(s: State)
    requires Enabled(s, EndTest) && WorkersOk(s)
    ensures WorkersOk(Apply(s, EndTest))
  {
    assert s.spawned[s.phase.at..] == [];
    hide Elements, Numbered;
  }

  /** These steps neither add nor lose a worker. */
  lemma SameWorkers(s: State, a: Action)
    requires Enabled(s, a) && (a.Begin? ==> s.spawned == []) && (Quiet(a) || a.SendRun? || a.SendTerminate?)
    ensures var t := Apply(s, a);
            t.workers == s.workers && t.spawned == s.spawned && t.registered == s.registered && Live(t) == Live(s)
  {
    assert s.spawned[0..] == s.spawned;
  }

  lemma OthersKeepWorkers(s: State, a: Action)
    requires Enabled(s, a) && WorkersOk(s) && (a.Begin? ==> s.spawned == [])
    requires Quiet(a) || a.SendRun? || a.SendTerminate?
    ensures WorkersOk(Apply(s, a))
  {
    hide Elements, Numbered, Consecutive, Enabled, Apply, Live, Quiet;
    SameWorkers(s, a);
  }

  lemma WorkerStepKeepsWorkers(s: State, a: Action)
    requires Enabled(s, a) && WorkersOk(s) && IsWorkerStep(a)
    ensures WorkersOk(Apply(s, a))
  {
    hide Elements, Numbered, Consecutive;
  }

  lemma DeliveryKeepsWorkers(s: State, a: Action)
    requires Enabled(s, a) && WorkersOk(s) && IsDelivery(a)
    ensures WorkersOk(Apply(s, a))
  {
    hide Elements, Numbered, Consecutive, Polling;
    if a.DeliverStarted? { assert a.j in s.workers ==> s.workers.Keys + {a.j} == s.workers.Keys; }
  }

  lemma WorkersKept(s: State, a: Action)
    requires Enabled(s, a) && Inv(s)
    ensures WorkersOk(Apply(s, a))
  {
    BeginsEmpty(s, a);
    hide PeersOk, WorkersOk, PhaseOk;
    match a
    case Spawn => SpawnExtends(s);
    case Reap => ReapShrinks(s);
    case EndTest => EndTestRestores(s);
    case _ =>
      if IsWorkerStep(a) {
        WorkerStepKeepsWorkers(s, a);
      } else if IsDelivery(a) {
        DeliveryKeepsWorkers(s, a);
      } else {
        OthersKeepWorkers(s, a);
      }
  }

  lemma BeginsEmpty(s: State, a: Action)
    requires Enabled(s, a) && PhaseOk(s)
    ensures a.Begin? ==> s.spawned == []
  {
  }

  // ---------------------------------------------------------------- phases

  lemma SpawnCount(s: State)
    requires Enabled(s, Spawn) && WorkersOk(s)
    ensures |Apply(s, Spawn).workers| == |s.workers| + 1
  {
    hide Enabled, Apply, WorkersOk;
    SpawnedState(s);
    WorkerCount(s);
    var t := Apply(s, Spawn);
    assert |t.workers| == |t.workers.Keys| && |s.workers| == |s.workers.Keys|;
  }

  lemma SpawnPhase(s: State)
    requires Enabled(s, Spawn) && Inv(s)
    ensures PhaseOk(Apply(s, Spawn))
  {
    hide PeersOk, WorkersOk, ToldOk, AskedOk, Elements, NoRepeats, ResultsOk, StatusOk;
    SpawnCount(s);
  }

  /** When anyone was spawned, all workers are chosen. */
  lemma SpawnedAreChosen(s: State, chosen: seq<Id>)
    requires Enabled(s, Choose(chosen)) && Inv(s)
    ensures Elements(s.spawned) <= Elements(chosen)
  {
    if s.spawned != [] {
      ElementsSize(chosen);
      assert |s.workers| == |s.workers.Keys|;
      SubsetOfSameSize(Elements(chosen), s.workers.Keys);
    }
  }

  lemma ChoosePhase(s: State, chosen: seq<Id>)
    requires Enabled(s, Choose(chosen)) && Inv(s)
    ensures PhaseOk(Apply(s, Choose(chosen)))
  {
    SpawnedAreChosen(s, chosen);
    hide PeersOk, WorkersOk;
  }

  lemma AllocateFresh(s: State)
    requires Enabled(s, Allocate) && Fresh(s)
    ensures Fresh(Apply(s, Allocate))
    ensures Apply(s, Allocate).alloc.Keys == s.alloc.Keys + {s.phase.chosen[s.phase.at]}
  {
    hide NoRepeats;
  }

  lemma AllocatePhase(s: State)
    requires Enabled(s, Allocate) && PhaseOk(s)
    ensures PhaseOk(Apply(s, Allocate))
  {
    hide Elements, NoRepeats, Fresh;
    AllocateFresh(s);
    var p := s.phase;
    assert p.chosen[..p.at + 1] == p.chosen[..p.at] + [p.chosen[p.at]];
    ElementsSnoc(p.chosen[..p.at], p.chosen[p.at]);
  }

  lemma StartSendingPhase(s: State, order: seq<Id>)
    requires Enabled(s, StartSending(order)) && PhaseOk(s)
    ensures PhaseOk(Apply(s, StartSending(order)))
  {
    assert s.phase.chosen[..s.phase.at] == s.phase.chosen;
    hide Elements, NoRepeats;
  }

  lemma PlainPhase(s: State, a: Action)
    requires Enabled(s, a) && PhaseOk(s) && (a.Begin? || a.SendRun? || a.RunBody? || a.StartJoining?)
    ensures PhaseOk(Apply(s, a))
  {
    hide Elements, NoRepeats;
  }

  lemma JoinNextPhase(s: State)
    requires Enabled(s, JoinNext) && PhaseOk(s)
    ensures PhaseOk(Apply(s, JoinNext))
  {
    hide Elements, NoRepeats;
    JoinNextStatus(s);
  }

  lemma JoinNextStatus(s: State)
    requires Enabled(s, JoinNext) && StatusOk(s)
    ensures StatusOk(Apply(s, JoinNext))
  {
    var t := Apply(s, JoinNext);
    assert forall i :: 0 <= i < |s.results| ==> t.results[i] == s.results[i];
    assert t.results[|s.results|].status == s.alloc[s.phase.order[s.phase.at]].status;
    if t.status == s.status && s.status != s.ownStatus {
      var i :| 0 <= i < |s.results| && s.results[i].status == s.status;
      assert t.results[i].status == t.status;
    }
  }

  lemma StartReleasingPhase(s: State)
    requires Enabled(s, StartReleasing) && PhaseOk(s)
    ensures PhaseOk(Apply(s, StartReleasing))
  {
    assert forall j :: j in s.alloc ==> j in Elements(s.phase.order);
  }

  lemma SendTerminatePhase(s: State)
    requires Enabled(s, SendTerminate) && PhaseOk(s)
    ensures PhaseOk(Apply(s, SendTerminate))
  {
    hide Elements, Fresh, ResultsOk, StatusOk;
  }

  lemma ReapPhase(s: State)
    requires Enabled(s, Reap) && PhaseOk(s)
    ensures PhaseOk(Apply(s, Reap))
  {
    hide Elements, Fresh, ResultsOk, StatusOk;
  }

  lemma EndTestPhase(s: State)
    requires Enabled(s, EndTest) && PhaseOk(s)
    ensures PhaseOk(Apply(s, EndTest))
  {
    hide Elements, Fresh, ResultsOk, StatusOk;
  }

  lemma DeliverStartedPhase(s: State, j: Id)
    requires Enabled(s, DeliverStarted(j)) && PhaseOk(s)
    ensures PhaseOk(Apply(s, DeliverStarted(j)))
  {
    hide Elements, NoRepeats;
  }

  /** A FINISHED_TEST in flight comes from a worker the driver has not recorded yet. */
  lemma DeliverFinishedPhase(s: State, j: Id, i: nat)
    requires Enabled(s, DeliverFinished(j, i)) && PhaseOk(s) && TestToken(s, j)
    ensures PhaseOk(Apply(s, DeliverFinished(j, i)))
  {
    hide Elements, NoRepeats;
  }

  /** A worker process touches nothing of the driver. */
  lemma WorkerStepApart(s: State, a: Action)
    requires Enabled(s, a) && IsWorkerStep(a)
    ensures var t := Apply(s, a);
            t.k == s.k && t.phase == s.phase && t.workers == s.workers && t.alloc == s.alloc && t.spawned == s.spawned
            && t.status == s.status && t.ownStatus == s.ownStatus && t.results == s.results && t.rosters == s.rosters
  {
  }

  lemma WorkerStepPhase(s: State, a: Action)
    requires Enabled(s, a) && PhaseOk(s) && IsWorkerStep(a)
    ensures PhaseOk(Apply(s, a))
  {
    hide Elements, NoRepeats, Apply, Enabled;
    WorkerStepApart(s, a);
  }

  lemma PhaseKept(s: State, a: Action)
    requires Enabled(s, a) && Inv(s)
    ensures PhaseOk(Apply(s, a))
  {
    hide PhaseOk, PeersOk, PeerOk, WorkersOk, Apply;
    match a
    case Spawn => SpawnPhase(s);
    case Choose(chosen) => ChoosePhase(s, chosen);
    case Allocate => AllocatePhase(s);
    case StartSending(order) => StartSendingPhase(s, order);
    case JoinNext => JoinNextPhase(s);
    case StartReleasing => StartReleasingPhase(s);
    case SendTerminate => SendTerminatePhase(s);
    case Reap => ReapPhase(s);
    case EndTest => EndTestPhase(s);
    case DeliverStarted(j) => DeliverStartedPhase(s, j);
    case DeliverFinished(j, i) => TokenOf(s, j); DeliverFinishedPhase(s, j, i);
    case _ => if IsWorkerStep(a) { WorkerStepPhase(s, a); } else { PlainPhase(s, a); }
  }

  // ------------------------------------------------------- what was reported

  lemma SilentTold(s: State, a: Action, j: Id)
    requires Enabled(s, a) && ToldBy(s, j) && !a.Finish? && !a.DeliverFinished? && !IsWorkerStep(a)
    ensures ToldBy(Apply(s, a), j)
  {
  }

  /** What was told, and what is in flight and held of it, is the same. */
  lemma SameTold(s: State, t: State, j: Id)
    requires ToldBy(s, j) && s.told == t.told && s.alloc == t.alloc && s.k == t.k
    requires NetAt(s, j).finished == NetAt(t, j).finished
    ensures ToldBy(t, j)
  {
  }

  lemma WorkerStepTold(s: State, a: Action, j: Id)
    requires Enabled(s, a) && ToldBy(s, j) && IsWorkerStep(a) && !a.Finish?
    ensures ToldBy(Apply(s, a), j)
  {
    hide Enabled, Apply, ToldBy;
    WorkerStepApart(s, a);
    SilentWorker(s, a);
    SameTold(s, Apply(s, a), j);
  }

  /** But for finishing a test, a worker sends no result. */
  lemma SilentWorker(s: State, a: Action)
    requires Enabled(s, a) && IsWorkerStep(a) && !a.Finish?
    ensures Apply(s, a).told == s.told
    ensures forall j :: NetAt(Apply(s, a), j).finished == NetAt(s, j).finished
  {
    if a.TakeRun? {
      SilentTakeRun(s, a.j, a.i);
    } else {
      hide Receives, Remove;
    }
  }

  lemma SilentTakeRun(s: State, j: Id, i: nat)
    requires Enabled(s, TakeRun(j, i))
    ensures var t := Apply(s, TakeRun(j, i));
            t.told == s.told && forall k :: NetAt(t, k).finished == NetAt(s, k).finished
  {
    hide Receives, Remove;
  }

  lemma FinishTold(s: State, j: Id, st: Status, rep: string, i: Id)
    requires Enabled(s, Finish(j, st, rep)) && ToldBy(s, i) && TestToken(s, j)
    ensures ToldBy(Apply(s, Finish(j, st, rep)), i)
  {
    assert NetAt(s, j).finished == [] && !Done(s, j);
  }

  lemma DeliverFinishedTold(s: State, j: Id, n: nat, i: Id)
    requires Enabled(s, DeliverFinished(j, n)) && ToldBy(s, i) && TestToken(s, j)
    ensures ToldBy(Apply(s, DeliverFinished(j, n)), i)
  {
  }

  lemma ToldKept(s: State, a: Action)
    requires Enabled(s, a) && PeersOk(s) && ToldOk(s)
    ensures ToldOk(Apply(s, a))
  {
    hide ToldBy, Enabled, Apply, PeersOk, TestToken;
    forall j ensures ToldBy(Apply(s, a), j) {
      if a.Finish? {
        TokenOf(s, a.j);
        FinishTold(s, a.j, a.status, a.report, j);
      } else if a.DeliverFinished? {
        TokenOf(s, a.j);
        DeliverFinishedTold(s, a.j, a.i, j);
      } else if IsWorkerStep(a) {
        WorkerStepTold(s, a, j);
      } else {
        SilentTold(s, a, j);
      }
    }
  }

  lemma AskedKept(s: State, a: Action)
    requires Enabled(s, a) && AskedOk(s)
    ensures AskedOk(Apply(s, a))
  {
  }

  lemma TokenOf(s: State, j: Id)
    requires PeersOk(s)
    ensures TestToken(s, j)
  {
    assert PeerOk(s, j);
  }

  // ---------------------------------------------------------------- all runs

  lemma StepKeeps(s: State, a: Action)
    requires Enabled(s, a) && Inv(s)
    ensures Inv(Apply(s, a))
  {
    hide PeersOk, WorkersOk, PhaseOk, ToldOk, AskedOk, Enabled, Apply;
    PeersKept(s, a);
    WorkersKept(s, a);
    PhaseKept(s, a);
    ToldKept(s, a);
    AskedKept(s, a);
  }

  lemma InitialHolds(s: State)
    requires Initial(s)
    ensures Inv(s)
  {
    forall j ensures PeerOk(s, j) {
    }
  }

  /** A run: a first state and the actions taken one after the other. */
  ghost predicate Runs(s: State, actions: seq<Action>, t: State)
    decreases |actions|
  {
    if actions == [] then s == t
    else Enabled(s, actions[0]) && Runs(Apply(s, actions[0]), actions[1..], t)
  }

  lemma {:induction false} RunKeeps(s: State, actions: seq<Action>, t: State)
    requires Inv(s) && Runs(s, actions, t)
    ensures Inv(t)
    decreases |actions|
  {
    hide Inv, Enabled, Apply;
    if actions != [] {
      StepKeeps(s, actions[0]);
      RunKeeps(Apply(s, actions[0]), actions[1..], t);
    }
  }

  ghost predicate Reachable(t: State) {
    exists s, actions :: Initial(s) && Runs(s, actions, t)
  }

  lemma ReachableHolds(t: State)
    requires Reachable(t)
    ensures Inv(t)
  {
    var s, actions :| Initial(s) && Runs(s, actions, t);
    InitialHolds(s);
    RunKeeps(s, actions, t);
  }

  lemma TakeRunMeans(t: State, j: Id, i: nat)
    requires Enabled(t, TakeRun(j, i))
    ensures Receives(NetAt(t, j).proc) && i < |NetAt(t, j).runs|
  {
  }

  /**
   A worker that can take a RUN_TEST is never inside a test, so the guard against nested
   tests discards nothing, and the test it is told to run is the current one.
   */
  lemma GuardNeverDiscards(t: State, j: Id, i: nat)
    requires Reachable(t) && Enabled(t, TakeRun(j, i))
    ensures NetAt(t, j).proc.Waiting? && NetAt(t, j).runs == [t.k] && j in t.alloc
  {
    hide Reachable, Enabled, PeersOk, WorkersOk, PhaseOk, TestToken, Sent, Done;
    TakeRunMeans(t, j, i);
    ReachableHolds(t);
    TokenOf(t, j);
    RunToken(t, j, i);
  }

  lemma RunToken(t: State, j: Id, i: nat)
    requires TestToken(t, j) && i < |NetAt(t, j).runs| && Receives(NetAt(t, j).proc)
    ensures NetAt(t, j).proc.Waiting? && NetAt(t, j).runs == [t.k] && j in t.alloc
  {
    assert |NetAt(t, j).runs| == 1;
  }

  lemma DeliverFinishedMeans(t: State, j: Id, i: nat)
    requires Enabled(t, DeliverFinished(j, i))
    ensures i < |NetAt(t, j).finished|
  {
  }

  /**
   A result that arrives is for the current test and from a worker allocated to it, whose result
   was still missing.
   */
  lemma NoForeignResult(t: State, j: Id, i: nat)
    requires Reachable(t) && Enabled(t, DeliverFinished(j, i))
    ensures j in t.alloc && !t.alloc[j].done && i < |NetAt(t, j).finished| && NetAt(t, j).finished[i].test == t.k
  {
    hide Reachable, Enabled, PeersOk, WorkersOk, PhaseOk, TestToken, Sent, Done;
    DeliverFinishedMeans(t, j, i);
    ReachableHolds(t);
    TokenOf(t, j);
    FinishedToken(t, j, i);
  }

  lemma FinishedToken(t: State, j: Id, i: nat)
    requires TestToken(t, j) && i < |NetAt(t, j).finished|
    ensures j in t.alloc && !t.alloc[j].done && NetAt(t, j).finished[i].test == t.k
  {
  }

  lemma StartReleasingMeans(t: State)
    requires Enabled(t, StartReleasing) && PhaseOk(t)
    ensures t.phase.Joining? && |t.results| == |t.phase.order| && ResultsOk(t) && StatusOk(t)
    ensures NoRepeats(t.phase.order) && Elements(t.phase.order) == t.alloc.Keys
  {
  }

  /** When joining is over no test message is in flight and no worker is inside a test. */
  lemma JoinLeavesNothingInFlight(t: State, j: Id)
    requires Reachable(t) && Enabled(t, StartReleasing)
    ensures NetAt(t, j).runs == [] && NetAt(t, j).finished == [] && !NetAt(t, j).proc.InTest?
  {
    hide Reachable, Enabled, PeersOk, WorkersOk, PhaseOk;
    ReachableHolds(t);
    TokenOf(t, j);
    StartReleasingMeans(t);
    assert j in t.alloc ==> j in Elements(t.phase.order);
  }

  lemma AllTold(t: State)
    requires ToldOk(t) && t.phase.Joining? && ResultsOk(t) && |t.results| == |t.phase.order|
             && Elements(t.phase.order) == t.alloc.Keys
    ensures forall j :: j in t.alloc ==>
              (j, t.k) in t.told && t.told[(j, t.k)] == (t.alloc[j].status, t.alloc[j].report)
  {
    forall j | j in t.alloc ensures (j, t.k) in t.told && t.told[(j, t.k)] == (t.alloc[j].status, t.alloc[j].report) {
      assert j in Elements(t.phase.order);
      assert Done(t, j);
      assert ToldBy(t, j);
    }
  }

  /**
   When joining is over there is one result per allocated worker, with the status and the
   report that the worker gave for this test, and the test's status is the most severe of the
   driver's own and the workers', whatever the order the results came and were joined in.
   */
  lemma JoinResults(t: State)
    requires Reachable(t) && Enabled(t, StartReleasing)
    ensures |t.results| == |t.alloc|
    ensures forall j :: j in t.alloc ==>
              (j, t.k) in t.told && t.told[(j, t.k)] == (t.alloc[j].status, t.alloc[j].report)
    ensures forall j :: j in t.alloc ==>
              exists i :: 0 <= i < |t.results| && t.results[i] == Result(j, t.told[(j, t.k)].0, t.told[(j, t.k)].1)
    ensures Severity(t.ownStatus) <= Severity(t.status)
    ensures forall j :: j in t.alloc ==> Severity(t.alloc[j].status) <= Severity(t.status)
    ensures t.status == t.ownStatus || exists j :: j in t.alloc && t.alloc[j].status == t.status
  {
    hide Reachable, Enabled, PeersOk, WorkersOk, PhaseOk, AskedOk;
    ReachableHolds(t);
    StartReleasingMeans(t);
    AllTold(t);
    hide ToldOk;
    var order := t.phase.order;
    ElementsSize(order);
    assert |t.alloc| == |t.alloc.Keys|;
    forall j | j in t.alloc
      ensures exists i :: 0 <= i < |t.results| && t.results[i] == Result(j, t.told[(j, t.k)].0, t.told[(j, t.k)].1)
    {
      assert j in Elements(order);
      var i :| 0 <= i < |order| && order[i] == j;
      assert t.results[i] == Result(order[i], t.alloc[order[i]].status, t.alloc[order[i]].report);
    }
    if t.status != t.ownStatus {
      var i :| 0 <= i < |t.results| && t.results[i].status == t.status;
      assert t.alloc[order[i]].status == t.status;
    }
  }

  /** Every past test was handled and reported exactly once by each worker it was given to, and by nobody else. */
  lemma ExactlyOnce(t: State, j: Id, n: nat)
    requires Reachable(t) && n < t.k
    ensures n < |t.rosters|
    ensures t.handled[(j, n)] == t.reported[(j, n)] == if j in t.rosters[n] then 1 else 0
  {
    ReachableHolds(t);
    assert PeerOk(t, j);
    TestsCounted(t);
    hide PeersOk, WorkersOk, PhaseOk, Reachable, TestToken, StartToken, ExitToken, HistoryNow;
  }

  lemma SpawnMeans(t: State)
    requires Enabled(t, Spawn)
    ensures t.phase.Spawning?
  {
  }

  /** A spawned worker's number is new, above all others in use, and nothing is in flight for it. */
  lemma SpawnedIsFresh(t: State)
    requires Reachable(t) && Enabled(t, Spawn)
    ensures |t.workers| + 1 !in t.workers && forall j :: j in t.workers ==> j <= |t.workers|
    ensures NetAt(t, |t.workers| + 1) == NOBODY
  {
    SpawnMeans(t);
    hide Reachable, Enabled, PhaseOk, TestToken, ExitToken, HistoryNow, HistoryPast;
    ReachableHolds(t);
    WorkerCount(t);
    assert PeerOk(t, |t.workers| + 1);
    hide PeersOk;
    forall j | j in t.workers ensures j <= |t.workers| {
      assert j in Numbered(t.registered) || j in Elements(t.spawned);
    }
  }

  lemma StartSendingMeans(t: State, order: seq<Id>)
    requires Enabled(t, StartSending(order)) && PhaseOk(t)
    ensures t.phase.Allocating? && t.alloc.Keys == Elements(t.phase.chosen) && NoRepeats(t.phase.chosen)
    ensures Elements(t.spawned) <= Elements(t.phase.chosen) && Fresh(t)
  {
    assert t.phase.chosen[..t.phase.at] == t.phase.chosen;
    hide Elements;
  }

  /** Allocation ends with exactly the workers asked for, all running and with their flags cleared. */
  lemma AllocatesExactly(t: State, order: seq<Id>)
    requires Reachable(t) && Enabled(t, StartSending(order))
    ensures |t.alloc| == t.asked
    ensures forall j :: j in t.alloc ==> j in t.workers && t.workers[j] && !t.alloc[j].done
    ensures forall j :: j in t.spawned ==> j in t.alloc
  {
    hide Reachable, Enabled, PeersOk, WorkersOk, PhaseOk, ToldOk;
    ReachableHolds(t);
    StartSendingMeans(t, order);
    ElementsSize(t.phase.chosen);
    assert |t.alloc| == |t.alloc.Keys|;
    assert forall j :: j in t.spawned ==> j in Elements(t.spawned);
  }

  lemma SendTerminateMeans(t: State)
    requires Enabled(t, SendTerminate) && PhaseOk(t)
    ensures t.phase.Releasing? && t.phase.at < |t.spawned|
    ensures var j := t.spawned[t.phase.at]; j in t.alloc && t.alloc[j].done
  {
    assert t.spawned[t.phase.at] in Elements(t.spawned);
  }

  /** Whoever is told to terminate is an allocated worker that has reported its result. */
  lemma TerminatesAllocated(t: State)
    requires Reachable(t) && Enabled(t, SendTerminate)
    ensures t.phase.Releasing? && t.phase.at < |t.spawned|
    ensures var j := t.spawned[t.phase.at]; j in t.alloc && t.alloc[j].done
  {
    hide Reachable, Enabled, PeersOk, WorkersOk, PhaseOk;
    ReachableHolds(t);
    SendTerminateMeans(t);
  }

  /** Between tests exactly the registered workers are known. */
  lemma WorkersRestored(t: State)
    requires Reachable(t) && t.phase.Idle?
    ensures t.workers.Keys == Numbered(t.registered) && t.alloc == map[]
  {
    hide Reachable, PeersOk;
    ReachableHolds(t);
    assert t.spawned == [];
  }

  // ------------------------------------------------------------- no deadlock

  lemma {:induction false} ListSome(a: set<Id>, n: nat) returns (xs: seq<Id>)
    requires n <= |a|
    ensures |xs| == n && NoRepeats(xs) && Elements(xs) <= a
    decreases n
  {
    xs := [];
    if n > 0 {
      var x :| x in a;
      var rest := ListSome(a - {x}, n - 1);
      assert forall y :: y in rest ==> y in Elements(rest);
      xs := [x] + rest;
      assert forall i :: 1 <= i < n ==> xs[i] == rest[i - 1] && xs[i] in rest;
    }
  }

  lemma ListAll(a: set<Id>) returns (xs: seq<Id>)
    ensures NoRepeats(xs) && Elements(xs) == a
  {
    xs := ListSome(a, |a|);
    ElementsSize(xs);
    SubsetOfSameSize(Elements(xs), a);
  }

  /** While the driver waits for a worker, that worker or a message of it can move. */
  lemma AwaitedMoves(s: State, j: Id) returns (a: Action)
    requires TestToken(s, j) && StartToken(s, j) && ExitToken(s, j) && Polling(s) && j in s.workers
    requires (!s.workers[j] && !Sent(s, j)) || (s.workers[j] && Sent(s, j) && !Done(s, j))
    ensures Enabled(s, a) && !a.Begin?
  {
    var n := NetAt(s, j);
    assert !Signalled(s, j) && !n.proc.Gone?;
    if n.proc.Booting? { return Boot(j); }
    if n.proc.InTest? { return Finish(j, PASS, ""); }
    if n.proc.Reported? { return Reset(j); }
    if n.started > 0 { return DeliverStarted(j); }
    if n.runs != [] { return TakeRun(j, 0); }
    return DeliverFinished(j, 0);
  }

  /** A worker that was told to terminate can move until it is gone. */
  lemma SignalledMoves(s: State, j: Id) returns (a: Action)
    requires TestToken(s, j) && StartToken(s, j) && ExitToken(s, j) && Signalled(s, j) && j in s.workers && s.workers[j]
             && Done(s, j)
    requires s.phase.Releasing? && s.phase.at < |s.spawned| && j == s.spawned[s.phase.at]
    ensures Enabled(s, a) && !a.Begin?
  {
    var n := NetAt(s, j);
    assert !n.proc.Booting? && !n.proc.InTest?;
    if n.proc.Reported? { return Reset(j); }
    if n.proc.Waiting? { return TakeTerminate(j); }
    return Reap;
  }

  lemma AllocatingAt(t: State)
    requires PhaseOk(t) && t.phase.Allocating? && t.phase.at < |t.phase.chosen|
    ensures var j := t.phase.chosen[t.phase.at];
            j in t.workers && (if t.workers[j] then Enabled(t, Allocate) else Polling(t) && !Sent(t, j))
  {
    hide Fresh;
    assert t.phase.chosen[t.phase.at] in Elements(t.phase.chosen);
  }

  lemma AllocatingMoves(t: State) returns (a: Action)
    requires Inv(t) && t.phase.Allocating?
    ensures Enabled(t, a) && !a.Begin?
  {
    hide PeersOk, WorkersOk, ToldOk, AskedOk, TestToken, StartToken, ExitToken, Fresh, Elements, NoRepeats;
    if t.phase.at == |t.phase.chosen| {
      var order := ListAll(t.alloc.Keys);
      return StartSending(order);
    }
    AllocatingAt(t);
    var j := t.phase.chosen[t.phase.at];
    if t.workers[j] { return Allocate; }
    TokensOf(t, j);
    a := AwaitedMoves(t, j);
  }

  lemma TokensOf(s: State, j: Id)
    requires PeersOk(s)
    ensures TestToken(s, j) && StartToken(s, j) && ExitToken(s, j)
  {
    assert PeerOk(s, j);
  }

  lemma JoiningAt(t: State)
    requires PhaseOk(t) && t.phase.Joining? && t.phase.at != |t.phase.order|
    ensures t.phase.at < |t.phase.order|
    ensures var j := t.phase.order[t.phase.at];
            && j in t.alloc && j in t.workers && t.workers[j] && Sent(t, j)
            && if t.alloc[j].done then Enabled(t, JoinNext) else Polling(t)
  {
    hide StatusOk;
    assert t.phase.order[t.phase.at] in Elements(t.phase.order);
  }

  lemma JoiningMoves(t: State) returns (a: Action)
    requires Inv(t) && t.phase.Joining?
    ensures Enabled(t, a) && !a.Begin?
  {
    hide PeersOk, WorkersOk, ToldOk, AskedOk, TestToken, StartToken, ExitToken, ResultsOk, StatusOk, Elements,
         NoRepeats;
    if t.phase.at == |t.phase.order| { return StartReleasing; }
    JoiningAt(t);
    var j := t.phase.order[t.phase.at];
    if t.alloc[j].done { return JoinNext; }
    TokensOf(t, j);
    a := AwaitedMoves(t, j);
  }

  lemma ReleasingMoves(t: State) returns (a: Action)
    requires Inv(t) && t.phase.Releasing?
    ensures Enabled(t, a) && !a.Begin?
  {
    hide PeersOk, ToldOk, AskedOk, TestToken, StartToken, ExitToken;
    if t.phase.at == |t.spawned| { return EndTest; }
    if !t.phase.signalled { return SendTerminate; }
    var j := t.spawned[t.phase.at];
    assert j in Elements(t.spawned[t.phase.at..]) && j in Elements(t.spawned);
    TokensOf(t, j);
    a := SignalledMoves(t, j);
  }

  /** In every reachable state some step is possible: no message is lost that anybody waits for. */
  lemma NeverStuck(t: State) returns (a: Action)
    requires Reachable(t)
    ensures Enabled(t, a) && (a.Begin? ==> t.phase.Idle?)
  {
    hide Reachable, Inv, Enabled;
    ReachableHolds(t);
    a := Moves(t);
  }

  lemma Moves(t: State) returns (a: Action)
    requires Inv(t)
    ensures Enabled(t, a) && (a.Begin? ==> t.phase.Idle?)
  {
    hide PeersOk, WorkersOk, ToldOk, AskedOk;
    match t.phase
    case Idle => return Begin(0);
    case Spawning(n) =>
      if |t.workers| < n { return Spawn; }
      assert |t.workers| == |t.workers.Keys|;
      var chosen := ListSome(t.workers.Keys, n);
      return Choose(chosen);
    case Allocating(chosen, at) => a := AllocatingMoves(t);
    case Sending(order, at) => return if at < |order| then SendRun else RunBody;
    case Body =>
      var order := ListAll(t.alloc.Keys);
      return StartJoining(PASS, order);
    case Joining(order, at) => a := JoiningMoves(t);
    case Releasing(at, signalled) => a := ReleasingMoves(t);
  }
}
