/**
 Rounds of "driver: notify, wait for all; worker: wait, notify" as a step system, with
 the notifications in flight and every delivery order.
 */
module Barrier {
  import opened Collections

  type Id = nat

  /** `true` while the worker has passed its wait and not yet notified. */
  datatype Worker = Worker(count: nat, passes: nat, notifying: bool)

  datatype Phase = Notifying(sent: set<Id>) | Collecting(pulled: set<Id>)

  /**
   `round` rounds are finished; notifications in flight are counted per worker and direction.
   `spare` and `stray` tell how many to and from each worker were left over by earlier tests.
   */
  datatype State = State(
    ids: set<Id>, round: nat, phase: Phase, counts: map<Id, nat>,
    down: map<Id, nat>, up: map<Id, nat>, workers: map<Id, Worker>,
    spare: map<Id, nat>, stray: map<Id, nat>)

  datatype Action =
    | DriverNotify(j: Id)
    | DriverWait
    | PullCounted(j: Id)
    | DriverReceive(j: Id)
    | DriverLeave
    | WorkerReceive(j: Id)
    | WorkerPass(j: Id)
    | WorkerNotify(j: Id)

  predicate Total(s: State) {
    && s.counts.Keys == s.ids && s.down.Keys == s.ids && s.up.Keys == s.ids && s.workers.Keys == s.ids
    && s.spare.Keys == s.ids && s.stray.Keys == s.ids
  }

  /** No worker has anything left over. */
  predicate Clean(s: State) {
    Total(s) && forall j :: j in s.ids ==> s.spare[j] == 0 && s.stray[j] == 0
  }

  /**
   The driver starts with cleared counts, a worker with what it has counted; either may still
   have notifications of an earlier test in flight to it.
   */
  predicate Initial(s: State) {
    && Total(s) && s.round == 0 && s.phase == Notifying({})
    && forall j :: j in s.ids ==>
         && s.counts[j] == 0 && s.up[j] == s.stray[j]
         && s.down[j] + s.workers[j].count == s.spare[j]
         && s.workers[j].passes == 0 && !s.workers[j].notifying
  }

  predicate Enabled(s: State, a: Action) {
    Total(s) &&
    match a
    case DriverNotify(j) => s.phase.Notifying? && j in s.ids && j !in s.phase.sent
    case DriverWait => s.phase.Notifying? && s.phase.sent == s.ids
    case PullCounted(j) => s.phase.Collecting? && j in s.ids && j !in s.phase.pulled && s.counts[j] > 0
    case DriverReceive(j) => s.phase.Collecting? && s.phase.pulled != s.ids && j in s.ids && s.up[j] > 0
    case DriverLeave => s.phase.Collecting? && s.phase.pulled == s.ids
    case WorkerReceive(j) => j in s.ids && s.workers[j].count == 0 && !s.workers[j].notifying && s.down[j] > 0
    case WorkerPass(j) => j in s.ids && s.workers[j].count > 0 && !s.workers[j].notifying
    case WorkerNotify(j) => j in s.ids && s.workers[j].notifying
  }

  function Apply(s: State, a: Action): State
    requires Enabled(s, a)
  {
    match a
    case DriverNotify(j) => s.(phase := Notifying(s.phase.sent + {j}), down := s.down[j := s.down[j] + 1])
    case DriverWait => s.(phase := Collecting({}))
    case PullCounted(j) =>
      s.(phase := Collecting(s.phase.pulled + {j}), counts := s.counts[j := s.counts[j] - 1])
    case DriverReceive(j) =>
      s.(up := s.up[j := s.up[j] - 1], counts := s.counts[j := s.counts[j] + 1])
    case DriverLeave => s.(round := s.round + 1, phase := Notifying({}))
    case WorkerReceive(j) =>
      s.(down := s.down[j := s.down[j] - 1], workers := s.workers[j := s.workers[j].(count := s.workers[j].count + 1)])
    case WorkerPass(j) =>
      var w := s.workers[j];
      s.(workers := s.workers[j := Worker(w.count - 1, w.passes + 1, true)])
    case WorkerNotify(j) =>
      s.(up := s.up[j := s.up[j] + 1], workers := s.workers[j := s.workers[j].(notifying := false)])
  }

  // ------------------------------------------------------------------ tokens

  /** Rounds the driver has started. */
  function Started(s: State): nat {
    s.round + One(s.phase.Collecting? || s.phase.sent != {})
  }

  /** Notifications the driver has sent to, and taken from, worker `j`. */
  function SentTo(s: State, j: Id): nat { s.round + One(s.phase.Collecting? || j in s.phase.sent) }

  function TakenFrom(s: State, j: Id): nat { s.round + One(s.phase.Collecting? && j in s.phase.pulled) }

  /** Every notification is in flight, counted, or used up by a wait. */
  ghost predicate Tokens(s: State, j: Id) {
    Total(s) && j in s.ids ==>
      && SentTo(s, j) + s.spare[j] == s.down[j] + s.workers[j].count + s.workers[j].passes
      && s.workers[j].passes + s.stray[j] == One(s.workers[j].notifying) + s.up[j] + s.counts[j] + TakenFrom(s, j)
  }

  ghost predicate Inv(s: State) {
    && Total(s)
    && (match s.phase case Notifying(sent) => sent <= s.ids case Collecting(pulled) => pulled <= s.ids)
    && forall j :: Tokens(s, j)
  }

  lemma DriverKeepsTokens(s: State, a: Action, j: Id)
    requires Inv(s) && Enabled(s, a)
             && (a.DriverNotify? || a.DriverWait? || a.PullCounted? || a.DriverReceive? || a.DriverLeave?)
    ensures Tokens(Apply(s, a), j)
  {
    assert Tokens(s, j);
  }

  lemma WorkerKeepsTokens(s: State, a: Action, j: Id)
    requires Inv(s) && Enabled(s, a) && (a.WorkerReceive? || a.WorkerPass? || a.WorkerNotify?)
    ensures Tokens(Apply(s, a), j)
  {
    assert Tokens(s, j);
  }

  lemma StepKeeps(s: State, a: Action)
    requires Inv(s) && Enabled(s, a)
    ensures var t := Apply(s, a); Inv(t) && t.ids == s.ids && t.spare == s.spare && t.stray == s.stray
  {
    hide Tokens;
    forall j ensures Tokens(Apply(s, a), j) {
      if a.WorkerReceive? || a.WorkerPass? || a.WorkerNotify? {
        WorkerKeepsTokens(s, a, j);
      } else {
        DriverKeepsTokens(s, a, j);
      }
    }
  }

  ghost predicate Runs(s: State, actions: seq<Action>, t: State)
    decreases |actions|
  {
    if actions == [] then s == t
    else Enabled(s, actions[0]) && Runs(Apply(s, actions[0]), actions[1..], t)
  }

  lemma {:induction false} RunKeeps(s: State, actions: seq<Action>, t: State)
    requires Inv(s) && Runs(s, actions, t)
    ensures Inv(t) && t.ids == s.ids && t.spare == s.spare && t.stray == s.stray
    decreases |actions|
  {
    hide Inv, Enabled, Apply;
    if actions != [] {
      StepKeeps(s, actions[0]);
      RunKeeps(Apply(s, actions[0]), actions[1..], t);
    }
  }

  ghost predicate Reachable(t: State) {
    exists s, actions :: Initial(s) && Runs(s, actions, t)
  }

  lemma ReachableHolds(t: State)
    requires Reachable(t)
    ensures Inv(t)
  {
    var s, actions :| Initial(s) && Runs(s, actions, t);
    RunKeeps(s, actions, t);
  }

  /**
   A worker is past no more waits than rounds the driver has started, and notifications it had
   left over, and behind the rounds the driver has finished by no more than it left over itself.
   */
  lemma InStep(t: State, j: Id)
    requires Reachable(t) && j in t.ids
    ensures j in t.workers && j in t.spare && j in t.stray
    ensures t.round <= t.workers[j].passes + t.stray[j]
    ensures t.workers[j].passes <= Started(t) + t.spare[j] && Started(t) <= t.round + 1
  {
    ReachableHolds(t);
    assert Tokens(t, j);
  }

  /**
   The driver leaves a round only when every worker has passed its wait of that round, unless it
   left notifications over; without any left over it has notified, and nothing is left over again.
   */
  lemma LeavesAfterAll(t: State, j: Id)
    requires Reachable(t) && Enabled(t, DriverLeave) && j in t.ids
    ensures t.workers[j].passes + t.stray[j] >= t.round + 1
    ensures t.spare[j] == 0 && t.stray[j] == 0 ==>
              && t.workers[j].passes == t.round + 1 && !t.workers[j].notifying
              && t.down[j] == 0 && t.up[j] == 0 && t.counts[j] == 0 && t.workers[j].count == 0
  {
    ReachableHolds(t);
    assert Tokens(t, j);
  }

  /** A worker with nothing left over passes its wait of a round only after that round's notification was sent to it. */
  lemma PassesAfterNotify(t: State, j: Id)
    requires Reachable(t) && Enabled(t, WorkerPass(j))
    ensures t.workers[j].passes < SentTo(t, j) + t.spare[j]
    ensures t.spare[j] == 0 && t.stray[j] == 0 ==> t.workers[j].passes == t.round && SentTo(t, j) == t.round + 1
  {
    ReachableHolds(t);
    assert Tokens(t, j);
  }

  // --------------------------------------------------------------- leftovers

  /** In some run the worker gets past a wait of a round that has not been started. */
  ghost predicate Overtakes(s: State, j: Id) {
    exists actions, t :: Runs(s, actions, t) && j in t.workers && t.workers[j].passes > Started(t)
  }

  /** In some run the driver finishes a round that the worker has not passed. */
  ghost predicate Lags(s: State, j: Id) {
    exists actions, t :: Runs(s, actions, t) && j in t.workers && t.workers[j].passes < t.round
  }

  /** A worker can get ahead of the driver exactly when a notification to it was left over. */
  lemma OvertakesIff(s: State, j: Id)
    requires Initial(s) && j in s.ids
    ensures Overtakes(s, j) <==> s.spare[j] > 0
  {
    hide Enabled, Apply, Initial, Runs, Overtakes;
    InitialLeftover(s, j);
    if s.spare[j] > 0 { PassesAtOnce(s, j); }
    if Overtakes(s, j) { OvertakerHadSpare(s, j); }
  }

  lemma OvertakerHadSpare(s: State, j: Id)
    requires Inv(s) && j in s.ids && Overtakes(s, j)
    ensures s.spare[j] > 0
  {
    hide Enabled, Apply, Runs;
    var actions, t :| Runs(s, actions, t) && j in t.workers && t.workers[j].passes > Started(t);
    RunKeeps(s, actions, t);
    assert Tokens(t, j);
  }

  lemma PassesAtOnce(s: State, j: Id)
    requires Initial(s) && j in s.ids && s.spare[j] > 0
    ensures Overtakes(s, j)
  {
    if s.workers[j].count > 0 {
      PassOvertakes(s, [], s, j);
    } else {
      var r := Apply(s, WorkerReceive(j));
      assert Runs(s, [WorkerReceive(j)], r) by { assert [WorkerReceive(j)][1..] == []; }
      PassOvertakes(s, [WorkerReceive(j)], r, j);
    }
  }

  lemma PassOvertakes(s: State, actions: seq<Action>, r: State, j: Id)
    requires Runs(s, actions, r) && Enabled(r, WorkerPass(j)) && r.workers[j].passes == Started(r)
    ensures Overtakes(s, j)
  {
    var t := Apply(r, WorkerPass(j));
    assert Started(t) == Started(r) && t.workers[j].passes == r.workers[j].passes + 1;
    hide Enabled, Apply, Runs;
    RunSnoc(s, actions, r, WorkerPass(j));
  }

  /** The driver can get ahead of a worker exactly when a notification from it was left over. */
  lemma LagsIff(s: State, j: Id)
    requires Initial(s) && j in s.ids
    ensures Lags(s, j) <==> s.stray[j] > 0
  {
    if Lags(s, j) {
      var actions, t :| Runs(s, actions, t) && j in t.workers && t.workers[j].passes < t.round;
      RunKeeps(s, actions, t);
      assert Tokens(t, j);
    }
    if s.stray[j] > 0 {
      hide Enabled, Apply, Initial, Runs;
      InitialLeftover(s, j);
      var actions, t := LeaveWithout(s, j);
      NextRound(t, j);
      RunSnoc(s, actions, t, DriverLeave);
    }
  }

  lemma InitialLeftover(s: State, j: Id)
    requires Initial(s) && j in s.ids
    ensures Inv(s) && s.round == 0 && j in s.workers && s.workers[j].passes == 0 && !s.workers[j].notifying
  {
  }

  lemma NextRound(t: State, j: Id)
    requires Enabled(t, DriverLeave) && j in t.ids
    ensures var u := Apply(t, DriverLeave); j in u.workers && u.workers[j] == t.workers[j] && u.round == t.round + 1
  {
  }

  /** The first round can be brought to its end without a step of a worker that left a notification over. */
  lemma {:induction false} LeaveWithout(s: State, j: Id) returns (actions: seq<Action>, t: State)
    requires Inv(s) && j in s.ids && s.round == 0 && s.stray[j] > 0
    requires s.workers[j].passes == 0 && !s.workers[j].notifying
    ensures Runs(s, actions, t) && Enabled(t, DriverLeave)
    ensures j in t.ids && t.round == 0 && j in t.workers && t.workers[j].passes == 0
    decreases Rank(s)
  {
    if Enabled(s, DriverLeave) { return [], s; }
    var a := StepWithout(s, j);
    hide Enabled, Apply, Inv, Rank;
    StepRanks(s, a);
    StepKeeps(s, a);
    StaysBehind(s, a, j);
    var rest;
    rest, t := LeaveWithout(Apply(s, a), j);
    actions := [a] + rest;
    assert actions[1..] == rest;
  }

  lemma StepWithout(s: State, j: Id) returns (a: Action)
    requires Inv(s) && j in s.ids && s.round == 0 && s.stray[j] > 0 && !Enabled(s, DriverLeave)
    requires s.workers[j].passes == 0 && !s.workers[j].notifying
    ensures Enabled(s, a) && !a.DriverLeave? && a != WorkerPass(j)
  {
    match s.phase
    case Notifying(sent) =>
      if sent == s.ids { return DriverWait; }
      var i :| i in s.ids && i !in sent;
      return DriverNotify(i);
    case Collecting(pulled) =>
      var i :| i in s.ids && i !in pulled;
      assert Tokens(s, i);
      a := Collect(s, i);
  }

  lemma StaysBehind(s: State, a: Action, j: Id)
    requires Enabled(s, a) && !a.DriverLeave? && a != WorkerPass(j) && j in s.ids
    requires s.workers[j].passes == 0 && !s.workers[j].notifying
    ensures var t := Apply(s, a);
            t.round == s.round && j in t.workers && t.workers[j].passes == 0 && !t.workers[j].notifying
  {
  }

  /** A step that brings the driver nearer to a notification of worker `j`: what is sent and counted goes first. */
  lemma Collect(s: State, j: Id) returns (a: Action)
    requires Total(s) && s.phase.Collecting? && j in s.ids && j !in s.phase.pulled && Tokens(s, j)
    ensures Enabled(s, a) && !a.DriverLeave?
    ensures a == WorkerPass(j) ==> s.workers[j].passes + s.stray[j] == s.round
    ensures a.WorkerPass? ==> a.j == j
  {
    if s.counts[j] > 0 { return PullCounted(j); }
    if s.up[j] > 0 { return DriverReceive(j); }
    if s.workers[j].notifying { return WorkerNotify(j); }
    if s.workers[j].count > 0 { return WorkerPass(j); }
    return WorkerReceive(j);
  }

  // ---------------------------------------------------------------- progress

  /** Steps still to be made for worker `j` in this round. */
  ghost function Steps(s: State, j: Id): nat {
    if !Total(s) || j !in s.ids then 0
    else 6 * One(s.phase.Notifying? && j !in s.phase.sent) + 5 * s.down[j] + 4 * s.workers[j].count
         + 3 * One(s.workers[j].notifying) + 2 * s.up[j] + s.counts[j]
  }

  ghost function StepsOf(s: State): Id -> nat {
    (j: Id) => Steps(s, j)
  }

  ghost function Rank(s: State): nat {
    Sum(s.ids, StepsOf(s)) + One(s.phase.Notifying?)
  }

  /** The worker a step is about. */
  function About(a: Action): Id
    requires !a.DriverWait? && !a.DriverLeave?
  {
    a.j
  }

  lemma StepsElsewhere(s: State, a: Action, i: Id)
    requires Enabled(s, a) && !a.DriverLeave? && (a.DriverWait? || i != About(a))
    ensures Steps(Apply(s, a), i) == Steps(s, i)
  {
  }

  lemma OneStepLess(s: State, a: Action)
    requires Enabled(s, a) && !a.DriverLeave? && !a.DriverWait?
    ensures About(a) in s.ids && Steps(Apply(s, a), About(a)) + 1 == Steps(s, About(a))
  {
  }

  /** Every step but leaving the round brings its end one step nearer. */
  lemma StepRanks(s: State, a: Action)
    requires Enabled(s, a) && !a.DriverLeave?
    ensures Rank(Apply(s, a)) + 1 == Rank(s)
  {
    hide Enabled, Apply, Steps;
    var t := Apply(s, a);
    SamePhase(s, a);
    forall i | a.DriverWait? || i != About(a) ensures StepsOf(s)(i) == StepsOf(t)(i) { StepsElsewhere(s, a, i); }
    if a.DriverWait? {
      SumChange(s.ids, StepsOf(s), StepsOf(t), 0);
      assert StepsOf(s)(0) == StepsOf(t)(0);
    } else {
      OneStepLess(s, a);
      SumChange(s.ids, StepsOf(s), StepsOf(t), About(a));
    }
  }

  lemma SamePhase(s: State, a: Action)
    requires Enabled(s, a) && !a.DriverLeave?
    ensures var t := Apply(s, a);
            t.ids == s.ids && s.phase.Notifying? == (t.phase.Notifying? || a.DriverWait?)
              && !(t.phase.Notifying? && a.DriverWait?)
  {
  }

  /** When there is nothing left to do in the round, the driver can leave it. */
  lemma DoneCanLeave(t: State)
    requires Inv(t) && Rank(t) == 0
    ensures Enabled(t, DriverLeave)
  {
    if t.phase.pulled != t.ids {
      var j :| j in t.ids && j !in t.phase.pulled;
      assert Tokens(t, j) && StepsOf(t)(j) > 0;
      SumRemove(t.ids, StepsOf(t), j);
    }
  }

  /** With nothing left over, it can leave only then. */
  lemma LeaveMeansDone(t: State)
    requires Inv(t) && Clean(t) && Enabled(t, DriverLeave)
    ensures Rank(t) == 0
  {
    forall j | j in t.ids ensures StepsOf(t)(j) == 0 { assert Tokens(t, j); }
    SumConstant(t.ids, StepsOf(t), 0);
  }

  /** When a round starts, there are six steps per worker and the driver's own to come. */
  lemma RoundCosts(t: State)
    requires Inv(t) && Clean(t) && t.phase == Notifying({})
    ensures Rank(t) == 6 * |t.ids| + 1
  {
    forall j | j in t.ids ensures StepsOf(t)(j) == 6 { assert Tokens(t, j); }
    SumConstant(t.ids, StepsOf(t), 6);
  }

  ghost predicate WithinRound(actions: seq<Action>) {
    forall i :: 0 <= i < |actions| ==> !actions[i].DriverLeave?
  }

  lemma {:induction false} RunRanks(s: State, actions: seq<Action>, t: State)
    requires Runs(s, actions, t) && WithinRound(actions)
    ensures |actions| + Rank(t) == Rank(s)
    decreases |actions|
  {
    hide Rank, Enabled, Apply;
    if actions != [] {
      assert WithinRound(actions[1..]);
      StepRanks(s, actions[0]);
      RunRanks(Apply(s, actions[0]), actions[1..], t);
    }
  }

  /**
   Whatever the interleaving and the scheduling, a round ends: each step is one of the `Rank`
   steps to come, and when they are made the driver can leave.  With nothing left over that
   is so after exactly six steps per worker and one more, and not before.  As there is always
   a step to make, no run avoids it.
   */
  lemma RoundsEnd(s: State, actions: seq<Action>, t: State)
    requires Reachable(s) && Runs(s, actions, t) && WithinRound(actions)
    ensures |actions| <= Rank(s) && (|actions| == Rank(s) ==> Enabled(t, DriverLeave))
    ensures Clean(s) && s.phase == Notifying({}) ==>
              |actions| <= 6 * |s.ids| + 1 && (Enabled(t, DriverLeave) <==> |actions| == 6 * |s.ids| + 1)
  {
    hide Rank, Runs, Reachable, Enabled, Inv;
    ReachableHolds(s);
    RunRanks(s, actions, t);
    RunKeeps(s, actions, t);
    if Rank(t) == 0 { DoneCanLeave(t); }
    if Clean(s) && s.phase == Notifying({}) {
      RoundCosts(s);
      StaysClean(s, t);
      if Enabled(t, DriverLeave) { LeaveMeansDone(t); }
    }
  }

  lemma StaysClean(s: State, t: State)
    requires Clean(s) && Inv(t) && t.ids == s.ids && t.spare == s.spare && t.stray == s.stray
    ensures Clean(t)
  {
  }

  lemma {:induction false} RunSnoc(r: State, actions: seq<Action>, s: State, a: Action)
    requires Runs(r, actions, s) && Enabled(s, a)
    ensures Runs(r, actions + [a], Apply(s, a))
    decreases |actions|
  {
    hide Enabled, Apply;
    if actions == [] {
      assert [] + [a] == [a] && [a][1..] == [];
    } else {
      RunSnoc(Apply(r, actions[0]), actions[1..], s, a);
      assert (actions + [a])[1..] == actions[1..] + [a];
    }
  }

  /** The rounds never get stuck: some step is enabled in every reachable state. */
  lemma AlwaysAStep(t: State) returns (a: Action)
    requires Reachable(t)
    ensures Enabled(t, a)
  {
    ReachableHolds(t);
    match t.phase
    case Notifying(sent) =>
      if sent == t.ids { return DriverWait; }
      var j :| j in t.ids && j !in sent;
      return DriverNotify(j);
    case Collecting(pulled) =>
      if pulled == t.ids { return DriverLeave; }
      var j :| j in t.ids && j !in pulled;
      assert Tokens(t, j);
      a := Collect(t, j);
  }
}
