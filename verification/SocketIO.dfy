/**
 The socket loops.  The kernel is an oracle: it answers every system call as it likes,
 within what a stream socket promises.
 */
module SocketIO {
  import opened Words
  import opened Codec
  import Collections

  const INITIAL_SYSCALL_SIZE: int := 65536
  const MAX_MTU: int := 8192

  // ------------------------------------------------------------------ sending

  /** Answers to one send: some bytes taken, try again, message too large, or another error. */
  datatype Reply = Taken(n: nat) | TryAgain | TooLarge | Broken

  /** The answer to system call number `i` when it offers `n` bytes. */
  type Kernel = (nat, nat) -> Reply

  /**
   Sends of at most `limit` bytes are never too large, what is taken is at least one byte
   and at most what was offered, and from call number `calm` on nothing has to be retried.
   */
  ghost predicate Fair(kernel: Kernel, limit: nat, calm: nat) {
    && (forall i: nat, n: nat :: n <= limit ==> !kernel(i, n).TooLarge?)
    && (forall i: nat, n: nat :: 0 < n && kernel(i, n).Taken? ==> 1 <= kernel(i, n).n <= n)
    && (forall i: nat, n: nat :: calm <= i ==> !kernel(i, n).TryAgain?)
  }

  predicate InRange(mtu: size_t) { 8000 <= mtu <= MAX_MTU || 1 <= mtu <= 512 }

  function Least(a: nat, b: nat): nat { if a < b then a else b }

  /** What a path that takes sends of `limit` bytes leaves of the size: that many from 8000 on, else at most 512. */
  function Floor(limit: nat): nat { if limit >= 8000 then limit else Least(limit, 512) }

  /** Backing off after a send of `tried` bytes proved too large. */
  function Resize(mtu: size_t, tried: size_t): size_t {
    if tried > mtu then mtu
    else if (mtu <= MAX_MTU && mtu > 8000) || mtu <= 512 then Sub(mtu, 1)
    else 512
  }

  /** From a size in range a back-off leaves the range exactly when a send of at most one byte was refused at size 1. */
  lemma ResizeInRange(mtu: size_t, tried: size_t)
    requires InRange(mtu)
    ensures InRange(Resize(mtu, tried)) <==> !(mtu == 1 && tried <= 1)
  {
  }

  /** The size all sockets share, and one connection's bytes as the peer will see them. */
  class Sender {
    var mtu: size_t
    var wire: seq<byte>

    constructor ()
      ensures mtu == 8192 && wire == []
    {
      mtu, wire := MAX_MTU, [];
    }

    /**
     Backs off after a send of `tried` bytes was refused.  A refusal of more than the present
     size teaches nothing; any other one makes the size smaller, but never smaller than what
     the refusal leaves possible, or than 512.
     */
    method ResizeMTU(tried: size_t)
      modifies this`mtu
      ensures mtu == Resize(old(mtu), tried)
      ensures InRange(old(mtu)) ==> (InRange(mtu) <==> !(old(mtu) == 1 && tried <= 1))
      ensures tried > old(mtu) ==> mtu == old(mtu)
      ensures tried <= old(mtu) && 0 < old(mtu) ==> mtu < old(mtu)
      ensures tried <= old(mtu) && (0 < old(mtu) <= 512 || 8000 < old(mtu) <= MAX_MTU) ==> mtu == old(mtu) - 1
      ensures tried <= old(mtu) && (512 < old(mtu) <= 8000 || MAX_MTU < old(mtu)) ==> mtu == 512
      ensures forall limit: nat :: limit < tried && Least(limit, 512) <= old(mtu) ==> Least(limit, 512) <= mtu
      ensures InRange(old(mtu)) ==>
                forall limit: nat :: limit < tried && Floor(limit) <= old(mtu) ==> Floor(limit) <= mtu
    {
      if tried > mtu { return; }
      var newMTU := mtu;
      if (newMTU <= MAX_MTU && newMTU > 8000) || newMTU <= 512 {
        newMTU := Sub(newMTU, 1);
      } else {
        newMTU := 512;
      }
      mtu := newMTU;
    }

    /**
     Sends all of `data`, or raises after a prefix of it.  A kernel that takes whatever it is
     offered is called once for every 64 kilobytes.
     */
    method Send(data: seq<byte>, kernel: Kernel, ghost limit: nat, ghost calm: nat) returns (ok: bool, ghost calls: nat)
      requires Fair(kernel, limit, calm) && 1 <= limit
      requires InRange(mtu) && Least(limit, 512) <= mtu
      modifies this
      ensures ok ==> wire == old(wire) + data
      ensures !ok ==> exists k :: 0 <= k < |data| && wire == old(wire) + data[..k]
      ensures (forall i: nat, n: nat :: !kernel(i, n).Broken?) ==> ok
      ensures InRange(mtu) && Least(limit, 512) <= mtu <= old(mtu)
      ensures 8000 <= limit <= old(mtu) ==> limit <= mtu
      ensures (forall i: nat, n: nat :: kernel(i, n) == Taken(n)) ==> calls == (|data| + 65535) / 65536
    {
      var maxLen: size_t := INITIAL_SYSCALL_SIZE;
      var pos, i := 0, 0;
      while pos < |data|
        invariant 0 <= pos <= |data| && wire == old(wire) + data[..pos]
        invariant InRange(mtu) && Least(limit, 512) <= mtu <= old(mtu)
        invariant Floor(limit) <= old(mtu) ==> Floor(limit) <= mtu
        invariant maxLen == INITIAL_SYSCALL_SIZE || maxLen == mtu
        invariant (forall i: nat, n: nat :: kernel(i, n) == Taken(n)) ==>
                    maxLen == INITIAL_SYSCALL_SIZE && pos == Least(i * 65536, |data|)
                      && (i > 0 ==> (i - 1) * 65536 < |data|)
        decreases if i < calm then calm - i else 0, |data| - pos, maxLen
      {
        var len := |data| - pos;
        var reply := kernel(i, if len <= maxLen then len else maxLen);
        i := i + 1;
        if reply.Taken? {
          wire := wire + data[pos..pos + reply.n];
          assert data[..pos + reply.n] == data[..pos] + data[pos..pos + reply.n];
          pos := pos + reply.n;
        } else if reply.TryAgain? {
          continue;
        } else if reply.TooLarge? {
          ResizeMTU(maxLen);
          maxLen := mtu;
        } else {
          return false, i;
        }
      }
      assert data[..pos] == data;
      return true, i;
    }
  }

  // ---------------------------------------------------------------- receiving

  /** What the next receive call finds: up to `n` bytes, nothing yet, a signal, or an error. */
  datatype Event = Ready(n: nat) | NotYet | Interrupted | Failed

  datatype Received = Left(n: nat) | EndOfStream | Raised | Blocked

  /** The bytes a receive call takes at this event when that many are wanted and there. */
  function Offer(e: Event): (n: nat)
    ensures n <= INITIAL_SYSCALL_SIZE && (n > 0 <==> e.Ready?)
  {
    if e.Ready? then Least(if e.n == 0 then 1 else e.n, INITIAL_SYSCALL_SIZE) else 0
  }

  /** The events bring `len` bytes before an error, and before a would-block unless that is waited out. */
  predicate Brings(es: seq<Event>, len: nat, patient: bool) {
    len == 0 ||
    (es != [] && !es[0].Failed? && (patient || !es[0].NotYet?)
     && Brings(es[1..], len - Least(Offer(es[0]), len), patient))
  }

  /** The events left when `len` bytes have been brought. */
  function After(es: seq<Event>, len: nat): (rest: seq<Event>)
    ensures |rest| <= |es|
  {
    if len == 0 || es == [] then es else After(es[1..], len - Least(Offer(es[0]), len))
  }

  /** Signals apart, the first event is that nothing is there yet. */
  predicate Asleep(es: seq<Event>) {
    es != [] && (es[0].NotYet? || (es[0].Interrupted? && Asleep(es[1..])))
  }

  /** The events behind that one. */
  function Wake(es: seq<Event>): (rest: seq<Event>)
    requires Asleep(es)
    ensures |rest| < |es|
  {
    if es[0].NotYet? then es[1..] else Wake(es[1..])
  }

  /** A stream that holds `n` more bytes is seen to end: these bytes come, and one more call is answered. */
  predicate Ends(es: seq<Event>, n: nat, patient: bool) {
    Brings(es, n, patient) && Brings(After(es, n), 1, patient)
  }

  function Readies(es: seq<Event>): nat {
    if es == [] then 0 else Collections.One(es[0].Ready?) + Readies(es[1..])
  }

  /** Any `len` ready events bring `len` bytes, and use up no more than `len` of them. */
  lemma {:induction false} ReadiesBring(es: seq<Event>, len: nat, patient: bool)
    requires len <= Readies(es) && Failed !in es && (patient || NotYet !in es)
    ensures Brings(es, len, patient) && Readies(es) <= Readies(After(es, len)) + len
    ensures forall e :: e in After(es, len) ==> e in es
  {
    if len > 0 && es != [] {
      assert es[0] in es;
      ReadiesBring(es[1..], len - Least(Offer(es[0]), len), patient);
    }
  }

  /** How a receive ends, with the bytes taken and the events left. */
  datatype Taking = Taking(r: Received, taken: nat, rest: seq<Event>)

  /** A receive of `len` bytes from a stream that holds `avail`, told event by event. */
  function Receive(es: seq<Event>, avail: nat, len: nat, closed: bool, patient: bool): Taking {
    if len == 0 then Taking(Left(0), 0, es)
    else if es == [] then Taking(Blocked, 0, [])
    else
      var n := Least(Offer(es[0]), Least(len, avail));
      if n > 0 then
        var later := Receive(es[1..], avail - n, len - n, closed, patient);
        later.(taken := n + later.taken)
      else if es[0].Ready? && closed then Taking(EndOfStream, 0, es[1..])
      else if es[0].Failed? then Taking(Raised, 0, es[1..])
      else if es[0].Interrupted? || patient then Receive(es[1..], avail, len, closed, patient)
      else Taking(Left(len), 0, es[1..])
  }

  /**
   How a receive of `len` bytes may end, whose stream held `avail0` bytes and now holds `avail`.
   When the stream holds all bytes wanted, they are got exactly when the events bring them; when
   a closed stream holds fewer, its end is told exactly when the events show it; one that is not
   patient finds nothing at all exactly when the stream is asleep; and no ready event is in vain
   unless there is nothing to get.
   */
  ghost predicate Explains(r: Received, es0: seq<Event>, avail0: nat, len: nat, es: seq<Event>, avail: nat,
      closed: bool, patient: bool) {
    && (len <= avail0 ==> (r == Left(0) <==> Brings(es0, len, patient)))
    && (r == Left(0) ==> es == After(es0, len))
    && (closed && avail0 < len ==> (r.EndOfStream? <==> Ends(es0, avail0, patient)))
    && (!patient && len > 0 && (avail0 > 0 || closed) ==> (r == Left(len) <==> Asleep(es0)))
    && (!patient && len > 0 && (avail0 > 0 || closed) && r == Left(len) ==> es == Wake(es0))
    && (avail > 0 || closed || r == Left(0) ==>
          Readies(es0) <= Readies(es) + avail0 - avail + Collections.One(r.EndOfStream?))
    && (if r.Left? then avail0 - avail == len - r.n else avail0 - avail < len)
    && (r.EndOfStream? ==> avail == 0 && closed)
    && (r.Blocked? ==> es == [])
    && (r.Raised? ==> Failed in es0)
    && (r.Left? && r.n > 0 ==> !patient && (NotYet in es0 || (avail == 0 && !closed)))
    && |es| <= |es0| && es == es0[|es0| - |es|..] && (len > 0 && !r.Blocked? ==> |es| < |es0|)
  }

  lemma Regroup(a: seq<byte>, b: seq<byte>, c: seq<byte>)
    ensures a + b + c == a + (b + c)
  {
  }

  /** One turn of the receive loop. */
  lemma ReceiveTurn(es: seq<Event>, avail: nat, len: nat, closed: bool, patient: bool)
    requires len > 0
    ensures var x := Receive(es, avail, len, closed, patient);
            if es == [] then x == Taking(Blocked, 0, es)
            else
              var n := Least(Offer(es[0]), Least(len, avail));
              if n > 0 then var y := Receive(es[1..], avail - n, len - n, closed, patient);
                x == y.(taken := n + y.taken)
              else if es[0].Ready? && closed then x == Taking(EndOfStream, 0, es[1..])
              else if es[0].Failed? then x == Taking(Raised, 0, es[1..])
              else if es[0].Interrupted? || patient then x == Receive(es[1..], avail, len, closed, patient)
              else x == Taking(Left(len), 0, es[1..])
  {
  }

  lemma ReceiveNothing(es: seq<Event>, avail: nat, closed: bool, patient: bool)
    ensures Receive(es, avail, 0, closed, patient) == Taking(Left(0), 0, es)
  {
  }

  lemma {:induction false} ReceiveEnds(es: seq<Event>, avail: nat, len: nat, closed: bool, patient: bool)
    ensures var x := Receive(es, avail, len, closed, patient);
            && x.taken <= avail && x.taken <= len
            && (if x.r.Left? then x.taken == len - x.r.n else x.taken < len)
            && (x.r.EndOfStream? ==> x.taken == avail && closed)
            && (x.r.Blocked? ==> x.rest == [])
            && (x.r.Raised? ==> Failed in es)
            && (x.r.Left? && x.r.n > 0 ==> !patient && (NotYet in es || (x.taken == avail && !closed)))
  {
    hide Receive;
    if len == 0 {
      ReceiveNothing(es, avail, closed, patient);
    } else {
      ReceiveTurn(es, avail, len, closed, patient);
      if es != [] {
        var n := Least(Offer(es[0]), Least(len, avail));
        ReceiveEnds(es[1..], avail - n, len - n, closed, patient);
        assert es[0] in es && (Failed in es[1..] ==> Failed in es) && (NotYet in es[1..] ==> NotYet in es);
      }
    }
  }

  /** What a receive leaves of the events is their end. */
  lemma {:induction false} ReceiveLeaves(es: seq<Event>, avail: nat, len: nat, closed: bool, patient: bool)
    ensures var x := Receive(es, avail, len, closed, patient);
            && |x.rest| <= |es| && (len > 0 && !x.r.Blocked? ==> |x.rest| < |es|)
            && x.rest == es[|es| - |x.rest|..]
  {
    hide Receive, Offer;
    if len == 0 {
      ReceiveNothing(es, avail, closed, patient);
    } else {
      ReceiveTurn(es, avail, len, closed, patient);
      if es != [] {
        var n := Least(Offer(es[0]), Least(len, avail));
        ReceiveLeaves(es[1..], avail - n, len - n, closed, patient);
        ReceiveLeaves(es[1..], avail, len, closed, patient);
      }
    }
  }

  lemma {:induction false} ReceiveBrings(es: seq<Event>, avail: nat, len: nat, closed: bool, patient: bool)
    ensures var x := Receive(es, avail, len, closed, patient);
            && (len <= avail ==> (x.r == Left(0) <==> Brings(es, len, patient)))
            && (x.r == Left(0) ==> x.rest == After(es, len))
  {
    hide Receive;
    if len == 0 {
      ReceiveNothing(es, avail, closed, patient);
    } else {
      ReceiveTurn(es, avail, len, closed, patient);
      if es != [] {
        var n := Least(Offer(es[0]), Least(len, avail));
        ReceiveBrings(es[1..], avail - n, len - n, closed, patient);
        ReceiveEnds(es[1..], avail, len, closed, patient);
        ReceiveEnds(es[1..], avail - n, len - n, closed, patient);
      }
    }
  }

  lemma {:induction false} ReceiveSeesEnd(es: seq<Event>, avail: nat, len: nat, patient: bool)
    requires avail < len
    ensures Receive(es, avail, len, true, patient).r.EndOfStream? <==> Ends(es, avail, patient)
  {
    hide Receive;
    ReceiveTurn(es, avail, len, true, patient);
    if es != [] {
      var n := Least(Offer(es[0]), Least(len, avail));
      ReceiveSeesEnd(es[1..], avail - n, len - n, patient);
      assert Brings(es[1..], 0, patient) && After(es, 0) == es;
    }
  }

  lemma {:induction false} ReceiveAsleep(es: seq<Event>, avail: nat, len: nat, closed: bool)
    requires len > 0 && (avail > 0 || closed)
    ensures var x := Receive(es, avail, len, closed, false);
            (x.r == Left(len) <==> Asleep(es)) && (x.r == Left(len) ==> x.rest == Wake(es))
  {
    hide Receive;
    ReceiveTurn(es, avail, len, closed, false);
    ReceiveEnds(es, avail, len, closed, false);
    if es != [] && es[0].Interrupted? { ReceiveAsleep(es[1..], avail, len, closed); }
  }

  lemma {:induction false} ReceiveReadies(es: seq<Event>, avail: nat, len: nat, closed: bool, patient: bool)
    ensures var x := Receive(es, avail, len, closed, patient);
            x.taken < avail || closed || x.r == Left(0) ==>
                Readies(es) <= Readies(x.rest) + x.taken + Collections.One(x.r.EndOfStream?)
  {
    hide Receive;
    ReceiveEnds(es, avail, len, closed, patient);
    if len == 0 {
      ReceiveNothing(es, avail, closed, patient);
    } else {
      ReceiveTurn(es, avail, len, closed, patient);
      if es != [] {
        var n := Least(Offer(es[0]), Least(len, avail));
        ReceiveReadies(es[1..], avail - n, len - n, closed, patient);
      }
    }
  }

  /** Patiently receiving more than an open stream holds ends with an error, if there is one, and else not at all. */
  lemma {:induction false} ReceiveShort(es: seq<Event>, avail: nat, len: nat)
    requires avail < len
    ensures Receive(es, avail, len, false, true).r == if Failed in es then Raised else Blocked
  {
    hide Receive;
    ReceiveTurn(es, avail, len, false, true);
    if es != [] {
      var n := Least(Offer(es[0]), Least(len, avail));
      assert es == [es[0]] + es[1..];
      assert Failed in es <==> es[0] == Failed || Failed in es[1..];
      ReceiveShort(es[1..], avail - n, len - n);
    }
  }

  /** The first event that is no signal decides what a receive that does not wait finds on an idle open stream. */
  lemma {:induction false} ReceiveIdle(es: seq<Event>, len: nat, k: nat)
    requires len > 0 && k <= |es| && forall i :: 0 <= i < k ==> es[i].Interrupted?
    requires k < |es| ==> !es[k].Interrupted?
    ensures Receive(es, 0, len, false, false) ==
            if k == |es| then Taking(Blocked, 0, [])
            else Taking(if es[k].Failed? then Raised else Left(len), 0, es[k + 1..])
  {
    hide Receive;
    ReceiveTurn(es, 0, len, false, false);
    if k > 0 {
      ReceiveIdle(es[1..], len, k - 1);
      assert k < |es| ==> es[1..][k - 1] == es[k] && es[1..][k..] == es[k + 1..];
    }
  }

  lemma ReceiveExplained(es: seq<Event>, avail: nat, len: nat, closed: bool, patient: bool)
    ensures var x := Receive(es, avail, len, closed, patient);
            x.taken <= avail && x.taken <= len
              && Explains(x.r, es, avail, len, x.rest, avail - x.taken, closed, patient)
  {
    hide Receive, Brings, After, Ends, Asleep, Wake, Readies;
    ReceiveEnds(es, avail, len, closed, patient);
    ReceiveLeaves(es, avail, len, closed, patient);
    ReceiveBrings(es, avail, len, closed, patient);
    ReceiveReadies(es, avail, len, closed, patient);
    if closed && avail < len { ReceiveSeesEnd(es, avail, len, patient); }
    if len > 0 && (avail > 0 || closed) { ReceiveAsleep(es, avail, len, closed); }
  }

  // ---------------------------------------------------- the loop's progress

  /** A receive that ends as `whole` has taken `taken` bytes and is to go on from here. */
  ghost predicate Continues(whole: Taking, taken: nat, es: seq<Event>, avail: nat, missing: nat,
      closed: bool, patient: bool) {
    var x := Receive(es, avail, missing, closed, patient);
    whole == x.(taken := taken + x.taken)
  }

  lemma Continued(whole: Taking, es: seq<Event>, avail: nat, len: nat, closed: bool, patient: bool)
    requires whole == Receive(es, avail, len, closed, patient)
    ensures Continues(whole, 0, es, avail, len, closed, patient)
  {
    hide Receive;
  }

  lemma Concludes(whole: Taking, taken: nat, es: seq<Event>, avail: nat, closed: bool, patient: bool)
    requires Continues(whole, taken, es, avail, 0, closed, patient)
    ensures whole == Taking(Left(0), taken, es)
  {
    ReceiveNothing(es, avail, closed, patient);
    hide Receive;
  }

  lemma Continue(whole: Taking, taken: nat, es: seq<Event>, avail: nat, missing: nat, closed: bool, patient: bool)
    requires Continues(whole, taken, es, avail, missing, closed, patient) && missing > 0
    ensures if es == [] then whole == Taking(Blocked, taken, es)
            else
              var n := Least(Offer(es[0]), Least(missing, avail));
              if n > 0 then Continues(whole, taken + n, es[1..], avail - n, missing - n, closed, patient)
              else if es[0].Ready? && closed then whole == Taking(EndOfStream, taken, es[1..])
              else if es[0].Failed? then whole == Taking(Raised, taken, es[1..])
              else if es[0].Interrupted? || patient then
                Continues(whole, taken, es[1..], avail, missing, closed, patient)
              else whole == Taking(Left(missing), taken, es[1..])
  {
    hide Receive;
    ReceiveTurn(es, avail, missing, closed, patient);
  }

  /**
   A stream: the bytes still to come, whether the peer closed after them, and the
   events of the coming receive calls; with no event left a call does not return.
   */
  class Receiver {
    var incoming: seq<byte>
    var closed: bool
    var events: seq<Event>

    constructor (incoming: seq<byte>, closed: bool, events: seq<Event>)
      ensures this.incoming == incoming && this.closed == closed && this.events == events
    {
      this.incoming, this.closed, this.events := incoming, closed, events;
    }

    /** One receive call for at most `want` bytes: -1 bytes stand for an error that is `again` or not. */
    method Call(want: nat, event: Event) returns (n: int, again: bool, bytes: seq<byte>)
      requires 0 < want <= INITIAL_SYSCALL_SIZE
      modifies this`incoming
      ensures n == -1 || (n == |bytes| && n <= want && old(incoming) == bytes + incoming)
      ensures n == -1 ==> incoming == old(incoming)
      ensures n == 0 ==> incoming == [] && closed
      ensures n != -1 ==> event.Ready? && n == Least(Offer(event), Least(want, |old(incoming)|))
      ensures n == -1 ==> (again <==> !event.Failed?) && (event.Ready? ==> incoming == [] && !closed)
    {
      match event
      case Ready(k) =>
        if incoming == [] {
          if closed { return 0, false, []; }
          return -1, true, [];
        }
        n := Least(if k == 0 then 1 else k, Least(want, |incoming|));
        bytes, again := incoming[..n], false;
        incoming := incoming[n..];
      case NotYet => return -1, true, [];
      case Interrupted => return -1, true, [];
      case Failed => return -1, false, [];
    }

    /**
     Receives `len` bytes into `dst` from `at` on.  With `returnOnBlock` it gives up, telling
     the bytes missing, as soon as nothing is there yet.  When the stream holds that many, it
     succeeds exactly when the events bring them; when the stream ends before, it tells so
     exactly when the events bring what there is and one more call is answered.
     */
    method Recv(dst: array<byte>, at: nat, len: nat, returnOnBlock: bool) returns (r: Received, ghost got: seq<byte>)
      requires at + len <= dst.Length
      modifies this`incoming, this`events, dst
      ensures |got| <= len && old(incoming) == got + incoming
      ensures dst[..at + |got|] == old(dst[..at]) + got
      ensures Taking(r, |got|, events) == Receive(old(events), |old(incoming)|, len, closed, !returnOnBlock)
      ensures Explains(r, old(events), |old(incoming)|, len, events, |incoming|, closed, !returnOnBlock)
    {
      hide Explains, Offer, Receive, Continues;
      var p, missing := at, len;
      ghost var es0, in0, before := events, incoming, dst[..at];
      ghost var whole := Receive(es0, |in0|, len, closed, !returnOnBlock);
      ReceiveExplained(es0, |in0|, len, closed, !returnOnBlock);
      Continued(whole, es0, |in0|, len, closed, !returnOnBlock);
      got := [];
      while missing > 0
        invariant 0 <= missing <= len && p == at + len - missing && |got| == len - missing
        invariant in0 == got + incoming
        invariant dst[..p] == before + got
        invariant Continues(whole, |got|, events, |incoming|, missing, closed, !returnOnBlock)
        decreases |events|
      {
        Continue(whole, |got|, events, |incoming|, missing, closed, !returnOnBlock);
        if events == [] { return Blocked, got; }
        var event := events[0];
        events := events[1..];
        var n, again, bytes := Call(Least(missing, INITIAL_SYSCALL_SIZE), event);
        if n == 0 {
          return EndOfStream, got;
        } else if n != -1 {
          Store(dst, p, bytes);
          Regroup(got, bytes, incoming);
          Regroup(before, got, bytes);
          got := got + bytes;
          missing, p := missing - n, p + n;
        } else if again && event != Interrupted {
          if returnOnBlock { return Left(missing), got; }
        } else if !again {
          return Raised, got;
        }
      }
      Concludes(whole, |got|, events, |incoming|, closed, !returnOnBlock);
      return Left(0), got;
    }
  }

  /** Copies `bytes` into `dst` from `p` on. */
  method Store(dst: array<byte>, p: nat, bytes: seq<byte>)
    requires p + |bytes| <= dst.Length
    modifies dst
    ensures dst[..p + |bytes|] == old(dst[..p]) + bytes
    ensures dst[p + |bytes|..] == old(dst[p + |bytes|..])
  {
    forall i | 0 <= i < |bytes| { dst[p + i] := bytes[i]; }
  }
}
