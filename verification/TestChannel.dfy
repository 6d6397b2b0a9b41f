/**
 The test channel: counting waits and user messages.  A context handles one arriving
 message at a time, in whatever order they come; `inbox` lists the messages still to
 arrive, and a call that finds it empty does not return.
 */
module TestChannel {
  import opened Collections

  type Id = nat
  type Body = seq<int>

  const ALL: nat := 0xffff_ffff

  datatype Event = Notify(id: Id) | User(id: Id, body: Body) | Other(id: Id)

  /** How handling one message ends: nothing arrived, or the sender's id, unless it is unknown. */
  datatype Handled = Blocked | Unknown | From(id: Id)

  /** Notifications of worker `w` among the messages. */
  function Notifies(es: seq<Event>, w: Id): nat {
    if es == [] then 0
    else Notifies(es[..|es| - 1], w) + if es[|es| - 1] == Notify(w) then 1 else 0
  }

  /** Notifications among the messages. */
  function Rings(es: seq<Event>): nat {
    if es == [] then 0
    else Rings(es[..|es| - 1]) + if es[|es| - 1].Notify? then 1 else 0
  }

  /** The user messages, in the order they come. */
  function Users(es: seq<Event>): seq<Event> {
    if es == [] then []
    else Users(es[..|es| - 1]) + if es[|es| - 1].User? then [es[|es| - 1]] else []
  }

  lemma TakeOne(es: seq<Event>, e: Event, w: Id)
    ensures Notifies(es + [e], w) == Notifies(es, w) + if e == Notify(w) then 1 else 0
    ensures Rings(es + [e]) == Rings(es) + if e.Notify? then 1 else 0
    ensures Users(es + [e]) == Users(es) + if e.User? then [e] else []
  {
    assert (es + [e])[..|es|] == es;
  }

  /** Counts grow by what was received and shrink by one for every pulled worker. */
  ghost predicate Settled(before: map<Id, nat>, taken: seq<Event>, pulled: set<Id>, after: map<Id, nat>) {
    && after.Keys == before.Keys
    && pulled <= before.Keys
    && forall w :: w in before ==> before[w] + Notifies(taken, w) == after[w] + if w in pulled then 1 else 0
  }

  /** No worker outside `pulled` has a notification left. */
  ghost predicate Drained(counts: map<Id, nat>, pulled: set<Id>) {
    forall w :: w in counts && w !in pulled ==> counts[w] == 0
  }

  lemma NothingTaken(users: seq<Event>)
    ensures users + Users([]) == users && Rings([]) == 0 && forall w :: Notifies([], w) == 0
  {
  }

  /** Workers that have sent, or will have sent, a notification not yet consumed. */
  ghost function Ringing(counts: map<Id, nat>, es: seq<Event>): set<Id> {
    set w | w in counts && counts[w] + Notifies(es, w) > 0
  }

  lemma SettledNotify(before: map<Id, nat>, taken: seq<Event>, pulled: set<Id>, after: map<Id, nat>, e: Event)
    requires Settled(before, taken, pulled, after)
    ensures Settled(before, taken + [e], pulled,
                    if e.Notify? && e.id in after then after[e.id := after[e.id] + 1] else after)
  {
    forall w ensures Notifies(taken + [e], w) == Notifies(taken, w) + if e == Notify(w) then 1 else 0 {
      TakeOne(taken, e, w);
    }
  }

  lemma StartSettled(counts: map<Id, nat>)
    ensures Settled(counts, [], {}, counts)
  {
  }

  lemma SettledPull(before: map<Id, nat>, taken: seq<Event>, pulled: set<Id>, after: map<Id, nat>, w: Id)
    requires Settled(before, taken, pulled, after) && w in after && after[w] > 0 && w !in pulled
    ensures Settled(before, taken, pulled + {w}, after[w := after[w] - 1])
  {
  }

  /** Per worker: received is consumed plus still counted. */
  ghost predicate Booked(counts: map<Id, nat>, consumed: map<Id, nat>, received: seq<Event>) {
    consumed.Keys == counts.Keys && forall w :: w in counts ==> Notifies(received, w) == consumed[w] + counts[w]
  }

  lemma BookNotify(counts: map<Id, nat>, consumed: map<Id, nat>, received: seq<Event>, e: Event)
    requires Booked(counts, consumed, received)
    ensures Booked(if e.Notify? && e.id in counts then counts[e.id := counts[e.id] + 1] else counts,
                   consumed, received + [e])
  {
    forall w ensures Notifies(received + [e], w) == Notifies(received, w) + if e == Notify(w) then 1 else 0 {
      TakeOne(received, e, w);
    }
  }

  lemma BookPull(counts: map<Id, nat>, consumed: map<Id, nat>, received: seq<Event>, w: Id)
    requires Booked(counts, consumed, received) && w in counts && counts[w] > 0
    ensures w in consumed && Booked(counts[w := counts[w] - 1], consumed[w := consumed[w] + 1], received)
  {
  }

  /** Messages by users come from allocated workers. */
  ghost predicate KnownUsers(counts: map<Id, nat>, es: seq<Event>) {
    forall e :: e in es && !e.Notify? ==> e.id in counts
  }

  /** No message is taken once enough workers have rung. */
  ghost predicate NoneTooMany(counts: map<Id, nat>, taken: seq<Event>, need: nat) {
    taken != [] ==> |Ringing(counts, taken[..|taken| - 1])| < need
  }

  lemma StillShort(before: map<Id, nat>, taken: seq<Event>, got: set<Id>, after: map<Id, nat>, need: nat, e: Event)
    requires Settled(before, taken, got, after) && |got| < need && Drained(after, got)
    ensures |Ringing(before, taken)| < need && NoneTooMany(before, taken + [e], need)
  {
    assert (taken + [e])[..|taken|] == taken;
    BlockedIsShort(before, taken, got, after, need);
  }

  /** No message is taken once there is one of a user. */
  ghost predicate NoneBefore(users: seq<Event>, taken: seq<Event>) {
    taken != [] ==> users == [] && Users(taken[..|taken| - 1]) == []
  }

  lemma NothingYet(counts: map<Id, nat>, users: seq<Event>, need: nat)
    ensures NoneTooMany(counts, [], need) && NoneBefore(users, [])
  {
  }

  lemma NoneBeforeSnoc(users: seq<Event>, taken: seq<Event>, e: Event)
    requires users + Users(taken) == []
    ensures NoneBefore(users, taken + [e])
  {
    assert (taken + [e])[..|taken|] == taken;
  }

  lemma Regroup(a: seq<Event>, b: seq<Event>, c: seq<Event>)
    ensures a + b + c == a + (b + c)
  {
  }

  class DriverContext {
    /** The allocated workers and their unconsumed notifications. */
    var counts: map<Id, nat>
    var userMessages: seq<Event>
    var inbox: seq<Event>

    /** Everything received, the notifications consumed, and the user messages handed out. */
    ghost var received: seq<Event>
    ghost var consumed: map<Id, nat>
    ghost var handed: seq<Event>

    /** Nothing is lost: notifications are counted until consumed, user messages kept in order until handed out. */
    ghost predicate Valid()
      reads this
    {
      Booked(counts, consumed, received) && Users(received) == handed + userMessages
    }

    constructor (workers: set<Id>, inbox: seq<Event>)
      ensures Valid() && received == [] && handed == []
      ensures counts == (map w | w in workers :: 0) && userMessages == [] && this.inbox == inbox
    {
      counts, userMessages, this.inbox := map w | w in workers :: 0, [], inbox;
      received, consumed, handed := [], map w | w in workers :: 0, [];
    }

    /** One notification of `w` is consumed. */
    method Pull(w: Id)
      requires Valid() && w in counts && counts[w] > 0
      modifies this`counts, this`consumed
      ensures Valid() && counts == old(counts)[w := old(counts)[w] - 1]
    {
      BookPull(counts, consumed, received, w);
      counts := counts[w := counts[w] - 1];
      consumed := consumed[w := consumed[w] + 1];
    }

    /** Handles the next message. */
    method WaitForEvent() returns (r: Handled)
      requires Valid()
      modifies this
      ensures r == Blocked <==> old(inbox) == []
      ensures Valid() && handed == old(handed)
      ensures r != Blocked ==> received == old(received) + [old(inbox)[0]]
      ensures r == Blocked ==> unchanged(this)
      ensures r != Blocked ==>
                var e := old(inbox)[0];
                && inbox == old(inbox)[1..]
                && counts == (if e.Notify? && e.id in old(counts)
                              then old(counts)[e.id := old(counts)[e.id] + 1] else old(counts))
                && userMessages == old(userMessages) + (if e.User? then [e] else [])
                && r == (if e.Notify? && e.id !in old(counts) then Unknown else From(e.id))
    {
      hide Booked, Notifies, Users;
      if inbox == [] { return Blocked; }
      var e := inbox[0];
      inbox := inbox[1..];
      BookNotify(counts, consumed, received, e);
      TakeOne(received, e, 0);
      received := received + [e];
      assert handed + (userMessages + [e]) == (handed + userMessages) + [e];
      match e {
        case Notify(id) =>
          if id !in counts { return Unknown; }
          counts := counts[id := counts[id] + 1];
        case User(_, _) => userMessages := userMessages + [e];
        case Other(_) =>
      }
      return From(e.id);
    }

    /**
     Waits for one notification from each of `n` workers.  It returns exactly when enough
     workers have rung; it has then consumed one notification from each of `n` distinct
     workers and nothing else, and while it blocks no worker it still needs has any left.
     */
    method Wait(n: nat) returns (returned: bool, ghost pulled: set<Id>, ghost taken: seq<Event>)
      requires Valid() && KnownUsers(counts, inbox)
      modifies this
      ensures Valid() && handed == old(handed) && received == old(received) + taken
      ensures old(inbox) == taken + inbox
      ensures Settled(old(counts), taken, pulled, counts)
      ensures userMessages == old(userMessages) + Users(taken)
      ensures var need := if n == ALL then |old(counts)| else n;
              && (returned <==> need <= |Ringing(old(counts), old(inbox))|)
              && (returned ==> |pulled| == need)
              && NoneTooMany(old(counts), taken, need)
              && (!returned ==> inbox == [] && Drained(counts, pulled))
    {
      hide Settled, Ringing, Notifies, Users, Booked, NoneTooMany;
      var need := if n == ALL then |counts| else n;
      taken := [];
      var got := PullRung(need);
      NothingYet(old(counts), userMessages, need);
      NothingTaken(userMessages);
      assert received + taken == received;
      while |got| != need
        invariant Valid() && handed == old(handed) && received == old(received) + taken
        invariant old(inbox) == taken + inbox && KnownUsers(counts, inbox)
        invariant Settled(old(counts), taken, got, counts) && |got| <= need
        invariant userMessages == old(userMessages) + Users(taken)
        invariant |got| < need ==> Drained(counts, got)
        invariant NoneTooMany(old(counts), taken, need)
        decreases |inbox|
      {
        ghost var before, e := counts, if inbox == [] then Other(0) else inbox[0];
        StillShort(old(counts), taken, got, counts, need, e);
        SettledNotify(old(counts), taken, got, before, e);
        TakeOne(taken, e, 0);
        var r := WaitForEvent();
        if r == Blocked {
          assert taken + [] == taken;
          return false, got, taken;
        }
        Regroup(old(received), taken, [e]);
        Regroup(taken, [e], inbox);
        Regroup(old(userMessages), Users(taken), if e.User? then [e] else []);
        taken := taken + [e];
        if r == Unknown { continue; }
        if counts[r.id] > 0 && r.id !in got {
          SettledPull(old(counts), taken, got, counts, r.id);
          Pull(r.id);
          got := got + {r.id};
        }
      }
      ReturnedIsEnough(old(counts), taken, inbox, got, counts);
      return true, got, taken;
    }

    /** Takes what has already arrived, from at most `need` workers. */
    method PullRung(need: nat) returns (got: set<Id>)
      requires Valid()
      modifies this`counts, this`consumed
      ensures Valid() && counts.Keys == old(counts).Keys
      ensures Settled(old(counts), [], got, counts) && |got| <= need
      ensures |got| < need ==> Drained(counts, got)
    {
      hide Booked, Notifies, Users;
      NothingTaken([]);
      StartSettled(counts);
      got := {};
      var rest := counts.Keys;
      while rest != {}
        invariant Valid() && rest <= counts.Keys == old(counts).Keys
        invariant Settled(old(counts), [], got, counts) && |got| <= need && got !! rest
        invariant forall w :: w in counts && w !in got && w !in rest ==> counts[w] == 0
        decreases |rest|
      {
        if |got| == need { break; }
        var w :| w in rest;
        if counts[w] > 0 {
          SettledPull(old(counts), [], got, counts, w);
          Pull(w);
          got := got + {w};
        }
        rest := rest - {w};
      }
    }

    /** The oldest user message; notifications that come first are counted, not lost. */
    method GetUserMessage() returns (m: Handled, message: Event, ghost taken: seq<Event>)
      requires Valid()
      modifies this
      ensures Valid() && received == old(received) + taken
      ensures handed == old(handed) + if m == Blocked then [] else [message]
      ensures old(inbox) == taken + inbox
      ensures Settled(old(counts), taken, {}, counts)
      ensures m == Blocked <==> old(userMessages) == [] && Users(old(inbox)) == []
      ensures NoneBefore(old(userMessages), taken)
      ensures m != Blocked ==> old(userMessages) + Users(taken) == [message] + userMessages
      ensures m == Blocked ==> inbox == [] && userMessages == old(userMessages)
    {
      hide Settled, Booked, Notifies, Users, NoneBefore;
      taken, message := [], Other(0);
      NothingTaken(userMessages);
      NothingYet(counts, userMessages, 0);
      StartSettled(counts);
      while userMessages == []
        invariant Valid() && handed == old(handed) && received == old(received) + taken
        invariant old(inbox) == taken + inbox
        invariant Settled(old(counts), taken, {}, counts)
        invariant userMessages == old(userMessages) + Users(taken)
        invariant NoneBefore(old(userMessages), taken)
        decreases |inbox|
      {
        ghost var before, e := counts, if inbox == [] then Other(0) else inbox[0];
        SettledNotify(old(counts), taken, {}, before, e);
        TakeOne(taken, e, 0);
        var r := WaitForEvent();
        if r == Blocked {
          assert taken + [] == taken;
          return Blocked, message, taken;
        }
        NoneBeforeSnoc(old(userMessages), taken, e);
        taken := taken + [e];
      }
      UsersGrow(taken, inbox);
      message := userMessages[0];
      userMessages := userMessages[1..];
      handed := handed + [message];
      return From(message.id), message, taken;
    }
  }

  /** A worker's side: it counts every notification, whoever it names as its sender. */
  class WorkerContext {
    var notifyCount: nat
    var userMessages: seq<Event>
    var inbox: seq<Event>

    constructor (inbox: seq<Event>)
      ensures notifyCount == 0 && userMessages == [] && this.inbox == inbox
    {
      notifyCount, userMessages, this.inbox := 0, [], inbox;
    }

    /** Handles the next message; tells whether there was one. */
    method WaitForEvent() returns (arrived: bool)
      modifies this
      ensures arrived <==> old(inbox) != []
      ensures !arrived ==> unchanged(this)
      ensures arrived ==>
                var e := old(inbox)[0];
                && inbox == old(inbox)[1..]
                && notifyCount == old(notifyCount) + (if e.Notify? then 1 else 0)
                && userMessages == old(userMessages) + (if e.User? then [e] else [])
    {
      if inbox == [] { return false; }
      var e := inbox[0];
      inbox := inbox[1..];
      if e.Notify? {
        notifyCount := notifyCount + 1;
      } else if e.User? {
        userMessages := userMessages + [e];
      }
      return true;
    }

    /**
     Returns exactly when `n` notifications are or will be there, consumes just these and
     keeps every other message.
     */
    method Wait(n: nat) returns (returned: bool, ghost taken: seq<Event>)
      modifies this
      ensures old(inbox) == taken + inbox
      ensures userMessages == old(userMessages) + Users(taken)
      ensures var need := if n == ALL then 1 else n;
              && (returned <==> need <= old(notifyCount) + Rings(old(inbox)))
              && notifyCount == old(notifyCount) + Rings(taken) - (if returned then need else 0)
              && (taken != [] ==> old(notifyCount) + Rings(taken[..|taken| - 1]) < need)
              && (!returned ==> inbox == [])
    {
      hide Rings, Users;
      var need := if n == ALL then 1 else n;
      taken := [];
      NothingTaken(userMessages);
      while notifyCount < need
        invariant old(inbox) == taken + inbox
        invariant userMessages == old(userMessages) + Users(taken)
        invariant notifyCount == old(notifyCount) + Rings(taken)
        invariant taken != [] ==> old(notifyCount) + Rings(taken[..|taken| - 1]) < need
        decreases |inbox|
      {
        ghost var e := if inbox == [] then Other(0) else inbox[0];
        TakeOne(taken, e, 0);
        var arrived := WaitForEvent();
        if !arrived {
          assert taken + [] == taken;
          return false, taken;
        }
        assert (taken + [e])[..|taken|] == taken;
        taken := taken + [e];
      }
      UsersGrow(taken, inbox);
      notifyCount := notifyCount - need;
      return true, taken;
    }

    method GetUserMessage() returns (ok: bool, message: Event, ghost taken: seq<Event>)
      modifies this
      ensures old(inbox) == taken + inbox
      ensures notifyCount == old(notifyCount) + Rings(taken)
      ensures ok <==> old(userMessages) != [] || Users(old(inbox)) != []
      ensures NoneBefore(old(userMessages), taken)
      ensures if ok then old(userMessages) + Users(taken) == [message] + userMessages
              else userMessages == [] && inbox == []
    {
      hide Rings, Users;
      taken, message := [], Other(0);
      NothingTaken(userMessages);
      while userMessages == []
        invariant old(inbox) == taken + inbox
        invariant userMessages == old(userMessages) + Users(taken)
        invariant notifyCount == old(notifyCount) + Rings(taken)
        invariant NoneBefore(old(userMessages), taken)
        decreases |inbox|
      {
        ghost var e := if inbox == [] then Other(0) else inbox[0];
        TakeOne(taken, e, 0);
        var arrived := WaitForEvent();
        if !arrived {
          assert taken + [] == taken;
          return false, message, taken;
        }
        NoneBeforeSnoc(old(userMessages), taken, e);
        taken := taken + [e];
      }
      UsersGrow(taken, inbox);
      message := userMessages[0];
      userMessages := userMessages[1..];
      return true, message, taken;
    }
  }

  lemma {:induction false} UsersGrow(taken: seq<Event>, rest: seq<Event>)
    ensures |Users(taken)| <= |Users(taken + rest)| && Rings(taken) <= Rings(taken + rest)
    ensures forall w :: Notifies(taken, w) <= Notifies(taken + rest, w)
  {
    if rest == [] {
      assert taken + rest == taken;
    } else {
      var n := |rest| - 1;
      UsersGrow(taken, rest[..n]);
      assert taken + rest == (taken + rest[..n]) + [rest[n]];
      forall w ensures Notifies(taken, w) <= Notifies(taken + rest, w) { TakeOne(taken + rest[..n], rest[n], w); }
      TakeOne(taken + rest[..n], rest[n], 0);
    }
  }

  /** When a wait blocks, fewer workers than needed have rung. */
  lemma BlockedIsShort(before: map<Id, nat>, taken: seq<Event>, got: set<Id>, after: map<Id, nat>, need: nat)
    requires Settled(before, taken, got, after) && |got| < need
    requires Drained(after, got)
    ensures |Ringing(before, taken)| < need
  {
    assert Ringing(before, taken) <= got;
    SubsetSize(Ringing(before, taken), got);
  }

  lemma ReturnedIsEnough(before: map<Id, nat>, taken: seq<Event>, rest: seq<Event>, got: set<Id>, after: map<Id, nat>)
    requires Settled(before, taken, got, after)
    ensures |got| <= |Ringing(before, taken + rest)|
  {
    UsersGrow(taken, rest);
    assert got <= Ringing(before, taken + rest);
    SubsetSize(got, Ringing(before, taken + rest));
  }
}
