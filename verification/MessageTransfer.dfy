/** Messages across one connection: framing over a fragmenting stream, and the typed round trip. */
module MessageTransfer {
  import opened Words
  import opened Codec
  import opened SocketIO
  import opened Messages

  /** What a peer puts on the wire when it sends the payloads one after the other. */
  ghost function Stream(msgs: seq<seq<byte>>): seq<byte> {
    if msgs == [] then [] else Frame(msgs[0]) + Stream(msgs[1..])
  }

  /** A new message has room for each of them; that is so up to nearly 2^64 bytes. */
  ghost predicate Sendable(msgs: seq<seq<byte>>) {
    forall m :: m in msgs ==> HEADER + |m| < W64 - (DEFAULT_BUFFER_SIZE - HEADER)
  }

  /**
   How many of the messages the events let arrive: for each one that the receiver is awake, then
   a header, then its payload.
   */
  ghost function Arriving(es: seq<Event>, msgs: seq<seq<byte>>): (n: nat)
    ensures n <= |msgs|
    decreases |msgs|, |es|
  {
    if msgs == [] then 0
    else if Asleep(es) then Arriving(Wake(es), msgs)
    else if Brings(es, HEADER, false) && Brings(After(es, HEADER), |msgs[0]|, true) then
      1 + Arriving(After(After(es, HEADER), |msgs[0]|), msgs[1..])
    else 0
  }

  lemma ArrivingStep(es: seq<Event>, msgs: seq<seq<byte>>)
    requires msgs != []
    ensures Asleep(es) ==> Arriving(es, msgs) == Arriving(Wake(es), msgs)
    ensures !Asleep(es) && Brings(es, HEADER, false) && Brings(After(es, HEADER), |msgs[0]|, true) ==>
              Arriving(es, msgs) == 1 + Arriving(After(After(es, HEADER), |msgs[0]|), msgs[1..])
    ensures !Asleep(es) && !(Brings(es, HEADER, false) && Brings(After(es, HEADER), |msgs[0]|, true)) ==>
              Arriving(es, msgs) == 0
  {
    hide Brings, After, Asleep, Wake;
  }

  lemma {:induction false} NeverAsleep(es: seq<Event>)
    requires NotYet !in es
    ensures !Asleep(es)
  {
    if es != [] {
      assert es[0] in es;
      NeverAsleep(es[1..]);
    }
  }

  /** Without errors and would-blocks, a ready event per byte makes all of them arrive. */
  lemma {:induction false} AllArrive(es: seq<Event>, msgs: seq<seq<byte>>)
    requires |Stream(msgs)| <= Readies(es) && NotYet !in es && Failed !in es
    ensures Arriving(es, msgs) == |msgs|
    decreases |msgs|
  {
    if msgs != [] {
      NeverAsleep(es);
      ReadiesBring(es, HEADER, false);
      ReadiesBring(After(es, HEADER), |msgs[0]|, true);
      AllArrive(After(After(es, HEADER), |msgs[0]|), msgs[1..]);
    }
  }

  lemma {:induction false} StreamSnoc(msgs: seq<seq<byte>>, m: seq<byte>)
    ensures Stream(msgs + [m]) == Stream(msgs) + Frame(m)
  {
    hide Frame;
    if msgs == [] {
      assert [m][1..] == [];
      assert [] + [m] == [m];
    } else {
      StreamSnoc(msgs[1..], m);
      assert (msgs + [m])[1..] == msgs[1..] + [m];
      Regroup(Frame(msgs[0]), Stream(msgs[1..]), Frame(m));
    }
  }

  lemma HeaderIs(n: size_t, h: seq<byte>)
    requires h == ToBytes(n, HEADER)
    ensures |h| == HEADER && HeaderWord(h) == n
  {
    SizeFits(n);
  }

  /** The first eight bytes tell the first message's length. */
  lemma HeaderTells(msgs: seq<seq<byte>>, incoming: seq<byte>, h: seq<byte>, tail: seq<byte>)
    requires Sendable(msgs) && incoming <= Stream(msgs) && incoming == h + tail && |h| == HEADER
    ensures msgs != [] && Sub(HeaderWord(h), HEADER) == |msgs[0]|
    ensures tail <= msgs[0] + Stream(msgs[1..])
  {
    hide ToBytes, HeaderWord;
    assert msgs != [];
    var n := HEADER + |msgs[0]|;
    assert msgs[0] in msgs;
    var s := Stream(msgs);
    assert s == ToBytes(n, HEADER) + (msgs[0] + Stream(msgs[1..]));
    assert h == s[..HEADER] == ToBytes(n, HEADER);
    HeaderIs(n, h);
    assert tail == incoming[HEADER..] <= s[HEADER..];
  }

  /**
   A receive that took a whole header delivers the first message exactly when the stream
   holds all of it; a stream that ends inside the message has its beginning delivered as
   if it were the message.
   */
  lemma DeliveredIff(msgs: seq<seq<byte>>, incoming: seq<byte>, h: seq<byte>, got: seq<byte>, rest: seq<byte>)
    requires Sendable(msgs) && incoming <= Stream(msgs) && incoming == h + got + rest && |h| == HEADER
    requires |got| <= Sub(HeaderWord(h), HEADER) && (|got| != Sub(HeaderWord(h), HEADER) ==> rest == [])
    ensures msgs != [] && got <= msgs[0]
    ensures got == msgs[0] <==> |Frame(msgs[0])| <= |incoming|
    ensures got == msgs[0] && incoming == Stream(msgs) ==> rest == Stream(msgs[1..])
    ensures incoming == Stream(msgs) ==> got == msgs[0]
    ensures Sendable(msgs[1..])
  {
    hide ToBytes, HeaderWord, Sendable, Stream, Frame;
    Regroup(h, got, rest);
    HeaderTells(msgs, incoming, h, got + rest);
    FirstLength(msgs);
    PayloadTells(msgs[0], Stream(msgs[1..]), got, rest);
  }

  lemma FirstLength(msgs: seq<seq<byte>>)
    requires msgs != [] && Sendable(msgs)
    ensures |Frame(msgs[0])| == HEADER + |msgs[0]| && |Stream(msgs)| == |Frame(msgs[0])| + |Stream(msgs[1..])|
    ensures Sendable(msgs[1..])
  {
    hide ToBytes;
  }

  /** What is taken of a message `p` that is followed by `later`, and cut short only when nothing is left. */
  lemma PayloadTells(p: seq<byte>, later: seq<byte>, got: seq<byte>, rest: seq<byte>)
    requires got + rest <= p + later && |got| <= |p| && (|got| != |p| ==> rest == [])
    ensures got <= p && (got == p <==> |got| == |p|)
    ensures got == p ==> rest <= later
  {
    assert got == (got + rest)[..|got|] == (p + later)[..|got|] == p[..|got|];
    if |got| == |p| {
      assert rest == (got + rest)[|got|..] <= (p + later)[|p|..] == later;
    }
  }

  lemma FirstFrame(msgs: seq<seq<byte>>, h: seq<byte>, tail: seq<byte>)
    requires Sendable(msgs) && msgs != [] && Stream(msgs) == h + tail
    ensures |Stream(msgs)| >= HEADER + |msgs[0]|
    ensures |h| == HEADER ==> Sub(HeaderWord(h), HEADER) == |msgs[0]| && Room(DEFAULT_BUFFER_SIZE, HEADER, |msgs[0]|)
  {
    hide ToBytes, HeaderWord;
    assert msgs[0] in msgs;
    if |h| == HEADER { HeaderTells(msgs, Stream(msgs), h, tail); }
  }

  lemma FrontIsFrame(msgs: seq<seq<byte>>, front: seq<byte>, rest: seq<byte>)
    requires msgs != [] && Stream(msgs) == front + rest && rest == Stream(msgs[1..])
    ensures front == Frame(msgs[0])
  {
    hide Frame;
    assert |front| == |Frame(msgs[0])|;
    assert front == Stream(msgs)[..|front|] == Frame(msgs[0]);
  }

  /** The message has the payload `p` behind its cursor, which is where reading starts. */
  ghost predicate Holds(m: Message, p: seq<byte>)
    reads m, m.buf
  {
    m.hasData && m.pos == HEADER && HEADER + |p| <= m.buf.Length && m.buf[HEADER..HEADER + |p|] == p
  }

  /**
   Successive receives on one connection deliver the messages sent, in order, with nothing
   but "no data yet" between them, and as many as the events let arrive.  They stop raising only
   at the end of the stream, at a socket error, or when a header is cut by a would-block; no wrong
   message is ever delivered, and `part`, what was taken of the next one, is all that is lost.
   */
  method ReceiveAll(conn: Receiver, ghost msgs: seq<seq<byte>>)
    returns (delivered: seq<Message>, end: Outcome, ghost cut: bool, ghost part: seq<byte>)
    requires Sendable(msgs) && conn.incoming == Stream(msgs)
    modifies conn
    ensures |delivered| <= |msgs| && forall i :: 0 <= i < |delivered| ==> Holds(delivered[i], msgs[i])
    ensures |delivered| == Arriving(old(conn.events), msgs)
    ensures old(conn.incoming) == Stream(msgs[..|delivered|]) + part + conn.incoming
    ensures if |delivered| < |msgs| then |part| < HEADER + |msgs[|delivered|]| else part == []
    ensures end.Waits? || end.Throws?
    ensures end.Waits? ==> conn.events == []
    ensures cut ==> end.Throws? && 0 < |part| < HEADER && NotYet in old(conn.events)
    ensures end.Throws? && !cut ==> (|delivered| == |msgs| && conn.closed) || Failed in old(conn.events)
  {
    hide Stream, Frame, Sendable, Arriving;
    delivered, cut, part := [], false, [];
    ghost var left, es0, in0 := msgs, conn.events, conn.incoming;
    EmptyStream();
    while true
      invariant |delivered| <= |msgs| && left == msgs[|delivered|..]
      invariant Sendable(left) && conn.incoming == Stream(left)
      invariant in0 == Stream(msgs[..|delivered|]) + conn.incoming
      invariant Arriving(es0, msgs) == |delivered| + Arriving(conn.events, left)
      invariant forall i :: 0 <= i < |delivered| ==> fresh(delivered[i]) && fresh(delivered[i].buf)
      invariant forall i :: 0 <= i < |delivered| ==> Holds(delivered[i], msgs[i])
      invariant (NotYet in conn.events ==> NotYet in es0) && (Failed in conn.events ==> Failed in es0)
      decreases |conn.events|
    {
      var m;
      ghost var got;
      m, end, got := ReceiveOne(conn, left);
      Regroup(Stream(msgs[..|delivered|]), got, conn.incoming);
      if end.Waits? || end.Throws? {
        part := got;
        cut := end.Throws? && 0 < |got| < HEADER && NotYet in es0;
        return;
      }
      if end.HasData? {
        StreamSnoc(msgs[..|delivered|], left[0]);
        assert msgs[..|delivered| + 1] == msgs[..|delivered|] + [left[0]];
        delivered := delivered + [m];
        left := left[1..];
      }
    }
  }

  /** One receive into a new message, on a connection that still holds the messages of `left`. */
  method ReceiveOne(conn: Receiver, ghost left: seq<seq<byte>>)
    returns (m: Message, end: Outcome, ghost taken: seq<byte>)
    requires Sendable(left) && conn.incoming == Stream(left)
    modifies conn
    ensures fresh(m) && fresh(m.buf) && conn.closed == old(conn.closed) && !end.Overruns?
    ensures old(conn.incoming) == taken + conn.incoming
    ensures end.HasData? ==>
              left != [] && Holds(m, left[0]) && taken == Frame(left[0]) && conn.incoming == Stream(left[1..])
                && Sendable(left[1..])
    ensures end.NoData? ==> taken == []
    ensures Arriving(old(conn.events), left) ==
            if end.HasData? then 1 + Arriving(conn.events, left[1..])
            else if end.NoData? then Arriving(conn.events, left) else 0
    ensures end.Waits? || end.Throws? ==> if left == [] then taken == [] else |taken| < HEADER + |left[0]|
    ensures end.Throws? ==>
              Failed in old(conn.events) || (left == [] && conn.closed)
                || (0 < |taken| < HEADER && NotYet in old(conn.events))
    ensures if end.Waits? then conn.events == [] else |conn.events| < |old(conn.events)|
    ensures (Failed in conn.events ==> Failed in old(conn.events))
            && (NotYet in conn.events ==> NotYet in old(conn.events))
  {
    hide Stream, Frame, Sendable, HeaderWord, ToBytes, Brings, After, Asleep, Wake, Follows, Arriving,
         Readies, Room, Grown;
    m := new Message(DEFAULT_BUFFER_SIZE);
    ghost var es, before := conn.events, conn.incoming;
    ghost var h, got;
    end, h, got := m.Recv(conn);
    taken := h + got;
    if left == [] {
      NothingArrives(es, conn.events);
    } else {
      ArrivingStep(es, left);
      Regroup(h, got, conn.incoming);
      FirstFrame(left, h, got + conn.incoming);
    }
    if end.HasData? {
      DeliveredIff(left, before, h, got, conn.incoming);
      FrontIsFrame(left, h + got, conn.incoming);
    }
  }

  lemma NothingArrives(es: seq<Event>, es': seq<Event>)
    ensures Stream([]) == [] && Arriving(es, []) == 0 && Arriving(es', []) == 0
  {
  }

  lemma EmptyStream()
    ensures forall msgs: seq<seq<byte>> :: Stream(msgs[..0]) == []
  {
  }

  // ---------------------------------------------------------- typed round trip

  method WriteAll(m: Message, p: Payload)
    requires m.Valid() && IsPayload(p) && Fits(m.pos, |EncodeAll(p)|)
    modifies m`buf, m`pos, m.buf
    ensures m.Valid() && (m.buf == old(m.buf) || fresh(m.buf))
    ensures m.pos == old(m.pos) + |EncodeAll(p)| && m.Written() == old(m.Written()) + EncodeAll(p)
  {
    hide Encode, IsValue, EncodeAll, IsPayload;
    ghost var start := m.Written();
    NoPayload(p);
    assert p[0..] == p;
    for i := 0 to |p|
      invariant m.Valid() && (m.buf == old(m.buf) || fresh(m.buf))
      invariant IsPayload(p[..i]) && m.Written() == start + EncodeAll(p[..i])
      invariant IsPayload(p[i..]) && m.pos + |EncodeAll(p[i..])| == old(m.pos) + |EncodeAll(p)|
    {
      NextValue(p, i);
      m.Write(p[i].0, p[i].1);
      Regroup(start, EncodeAll(p[..i]), Encode(p[i].0, p[i].1));
    }
    assert p[..|p|] == p;
    NoPayload(p);
  }

  /** Value number `i` between those before it and those from it on. */
  lemma NextValue(p: Payload, i: nat)
    requires i < |p| && IsPayload(p[..i]) && IsPayload(p[i..])
    ensures IsValue(p[i].0, p[i].1) && IsPayload(p[..i + 1]) && IsPayload(p[i + 1..])
    ensures EncodeAll(p[..i + 1]) == EncodeAll(p[..i]) + Encode(p[i].0, p[i].1)
    ensures |EncodeAll(p[i..])| == |Encode(p[i].0, p[i].1)| + |EncodeAll(p[i + 1..])|
  {
    hide Encode, IsValue;
    assert p[i..][0] in p[i..] && p[i..][1..] == p[i + 1..];
    assert p[..i + 1] == p[..i] + [p[i]];
    EncodeAllSnoc(p[..i], p[i]);
  }

  lemma NoPayload(p: Payload)
    ensures IsPayload(p[..0]) && EncodeAll(p[..0]) == []
    ensures IsPayload(p[|p|..]) && EncodeAll(p[|p|..]) == []
  {
  }

  /** Reads values of the types of `p`; behind the cursor stands what writing `p` put there. */
  method ReadAll(m: Message, kinds: seq<Kind>, ghost p: Payload) returns (values: seq<Value>)
    requires m.Valid() && IsPayload(p) && EncodeAll(p) <= m.buf[m.pos..]
    requires |kinds| == |p| && forall i :: 0 <= i < |p| ==> kinds[i] == p[i].0
    modifies m`pos
    ensures m.Valid() && m.pos == old(m.pos) + |EncodeAll(p)|
    ensures |values| == |p| && forall i :: 0 <= i < |p| ==> values[i] == p[i].1
  {
    hide Encode, IsValue;
    values := [];
    ghost var left := p;
    for i := 0 to |kinds|
      invariant m.Valid() && left == p[i..] && IsPayload(left) && EncodeAll(left) <= m.buf[m.pos..]
      invariant m.pos + |EncodeAll(left)| == old(m.pos) + |EncodeAll(p)|
      invariant |values| == i && forall j :: 0 <= j < i ==> values[j] == p[j].1
    {
      ghost var at := m.pos;
      assert p[i] in left && left[0] == p[i];
      DropPrefix(Encode(left[0].0, left[0].1), EncodeAll(left[1..]), m.buf[m.pos..]);
      var v := m.Read(kinds[i], left[0].1);
      assert m.buf[at..][m.pos - at..] == m.buf[m.pos..];
      values := values + [v];
      left := left[1..];
    }
  }

  /** Writes the values into a new message and sends it. */
  method SendValues(p: Payload, socket: Sender, kernel: Kernel, ghost limit: nat, ghost calm: nat) returns (sent: bool)
    requires IsPayload(p) && Fits(HEADER, |EncodeAll(p)|)
    requires Fair(kernel, limit, calm) && 1 <= limit && InRange(socket.mtu) && Least(limit, 512) <= socket.mtu
    modifies socket
    ensures (forall i: nat, n: nat :: !kernel(i, n).Broken?) ==> sent
    ensures sent ==> socket.wire == old(socket.wire) + Frame(EncodeAll(p))
  {
    hide IsPayload, EncodeAll, Frame, Fair;
    var out := new Message(DEFAULT_BUFFER_SIZE);
    WriteAll(out, p);
    assert [] + EncodeAll(p) == EncodeAll(p);
    sent := out.Send(socket, kernel, limit, calm);
  }

  /** Receives one message that holds the values of `p` and reads them back. */
  method ReceiveValues(conn: Receiver, kinds: seq<Kind>, ghost p: Payload)
    returns (r: Outcome, values: seq<Value>, end: nat)
    requires IsPayload(p) && Fits(HEADER, |EncodeAll(p)|) && conn.incoming == Frame(EncodeAll(p))
    requires |kinds| == |p| && forall i :: 0 <= i < |p| ==> kinds[i] == p[i].0
    modifies conn
    ensures r.HasData? <==>
              Brings(old(conn.events), HEADER, false) && Brings(After(old(conn.events), HEADER), |EncodeAll(p)|, true)
    ensures r.HasData? ==> |values| == |p| && (forall i :: 0 <= i < |p| ==> values[i] == p[i].1)
    ensures r.HasData? ==> end == HEADER + |EncodeAll(p)|
  {
    hide IsPayload, EncodeAll, Frame, HeaderWord, Sendable, Stream, Brings, After, Asleep, Wake, Follows,
         Readies, Room, Grown;
    ghost var payload := EncodeAll(p);
    OneMessage(payload);
    var m := new Message(DEFAULT_BUFFER_SIZE);
    ghost var h, got;
    r, h, got := m.Recv(conn);
    values, end := [], 0;
    Regroup(h, got, conn.incoming);
    FirstFrame([payload], h, got + conn.incoming);
    if r.HasData? {
      DeliveredIff([payload], Frame(payload), h, got, conn.incoming);
      assert m.buf[m.pos..m.pos + |got|] == m.buf[m.pos..][..|got|];
      values := ReadAll(m, kinds, p);
      end := m.pos;
    }
  }

  /**
   Values written, framed, sent over a socket that may take them piecemeal, received in any
   fragmentation and read back at the same types are the values written, and reading ends
   at the end of the payload.  They come exactly when the events bring the header before a
   would-block or an error, and then the payload before an error.
   */
  method Exchange(p: Payload, kinds: seq<Kind>, kernel: Kernel, ghost limit: nat, ghost calm: nat, events: seq<Event>)
    returns (sent: bool, r: Outcome, values: seq<Value>, end: nat)
    requires IsPayload(p) && Fits(HEADER, |EncodeAll(p)|)
    requires |kinds| == |p| && forall i :: 0 <= i < |p| ==> kinds[i] == p[i].0
    requires Fair(kernel, limit, calm) && 1 <= limit
    ensures (forall i: nat, n: nat :: !kernel(i, n).Broken?) ==> sent
    ensures r.HasData? <==> sent && Brings(events, HEADER, false) && Brings(After(events, HEADER), |EncodeAll(p)|, true)
    ensures r.HasData? ==> |values| == |p| && (forall i :: 0 <= i < |p| ==> values[i] == p[i].1)
    ensures r.HasData? ==> end == HEADER + |EncodeAll(p)|
  {
    hide IsPayload, EncodeAll, Frame, Fair, Brings, After, Fits;
    var socket := new Sender();
    sent := SendValues(p, socket, kernel, limit, calm);
    r, values, end := NoData, [], 0;
    if sent {
      assert [] + Frame(EncodeAll(p)) == Frame(EncodeAll(p));
      var conn := new Receiver(socket.wire, false, events);
      r, values, end := ReceiveValues(conn, kinds, p);
    }
  }

  lemma OneMessage(payload: seq<byte>)
    requires Fits(HEADER, |payload|)
    ensures Sendable([payload]) && Stream([payload]) == Frame(payload)
  {
    assert [payload][1..] == [];
    assert Frame(payload) + [] == Frame(payload);
  }

  /**
   A peer that closes in the middle of a message: the receive answers "data", and the message
   holds only a beginning of the payload, as soon as the events show the end of the stream.
   */
  method ReceiveCut(p: seq<byte>, k: nat, events: seq<Event>) returns (r: Outcome, m: Message)
    requires Sendable([p]) && k < |p|
    ensures r.HasData? <==> Brings(events, HEADER, false) && Ends(After(events, HEADER), k, true)
    ensures r.HasData? ==> Holds(m, p[..k]) && p[..k] != p
    ensures HEADER + k < Readies(events) && NotYet !in events && Failed !in events ==> r.HasData?
  {
    hide Frame, HeaderWord, Sendable, Stream, Brings, After, Asleep, Wake, Follows, Readies, Room, Grown;
    CutStream(p, k);
    var conn := new Receiver(Frame(p)[..HEADER + k], true, events);
    m := new Message(DEFAULT_BUFFER_SIZE);
    ghost var h, got;
    ghost var sent := conn.incoming;
    r, h, got := m.Recv(conn);
    Regroup(h, got, conn.incoming);
    if |h| == HEADER { HeaderTells([p], sent, h, got + conn.incoming); }
    if r.HasData? {
      DeliveredIff([p], sent, h, got, conn.incoming);
    }
    if HEADER + k < Readies(events) && NotYet !in events && Failed !in events {
      ReadiesBring(events, HEADER, false);
      ReadiesBring(After(events, HEADER), k, true);
      ReadiesBring(After(After(events, HEADER), k), 1, true);
    }
  }

  /**
   A peer that sends the header word `w`: once the header is there, the receive asks for more
   than the allocation holds exactly when the word is below eight or within 1016 of 2^64.
   For the word 0 the allocation even shrinks.
   */
  method ReceiveHeader(w: size_t, tail: seq<byte>, closed: bool, events: seq<Event>) returns (r: Outcome, m: Message)
    ensures r.Overruns? <==> Brings(events, HEADER, false) && !(8 <= w < W64 - 1016)
    ensures r.Overruns? && w == 0 ==> m.buf.Length == 1016
  {
    hide HeaderWord, ToBytes, Brings, After, Asleep, Wake, Follows, Readies, PayloadEnds;
    var conn := new Receiver(ToBytes(w, HEADER) + tail, closed, events);
    m := new Message(DEFAULT_BUFFER_SIZE);
    ghost var h, got;
    r, h, got := m.Recv(conn);
    Regroup(h, got, conn.incoming);
    WordIs(w, tail, h, got + conn.incoming);
  }

  lemma WordIs(w: size_t, tail: seq<byte>, h: seq<byte>, rest: seq<byte>)
    requires ToBytes(w, HEADER) + tail == h + rest
    ensures |h| == HEADER ==> HeaderWord(h) == w
  {
    if |h| == HEADER {
      assert h == (ToBytes(w, HEADER) + tail)[..HEADER] == ToBytes(w, HEADER);
      HeaderIs(w, h);
    }
  }

  lemma CutStream(p: seq<byte>, k: nat)
    requires Sendable([p]) && k < |p|
    ensures Stream([p]) == Frame(p) && |Frame(p)| == HEADER + |p| && Room(DEFAULT_BUFFER_SIZE, HEADER, |p|)
  {
    hide ToBytes;
    assert p in [p] && [p][1..] == [];
    assert Frame(p) + [] == Frame(p);
  }
}
