/**
 Messages: a growing buffer with a cursor, whose first eight bytes are kept for the
 frame length, written and read value by value and sent as one frame.
 */
module Messages {
  import opened Words
  import opened Codec
  import opened SocketIO

  const DEFAULT_BUFFER_SIZE: int := 1024
  const HEADER: int := 8

  /** A frame: its own length, header included, and the payload. */
  function Frame(payload: seq<byte>): seq<byte> {
    ToBytes(HEADER + |payload|, HEADER) + payload
  }

  lemma {:induction false} BytesBound(s: seq<byte>)
    ensures FromBytes(s) < Power256(|s|)
  {
    if s != [] { BytesBound(s[1..]); }
  }

  /** Eight bytes read as a machine word. */
  function HeaderWord(h: seq<byte>): size_t
    requires |h| == HEADER
  {
    BytesBound(h);
    SizeFits(0);
    FromBytes(h)
  }

  // ----------------------------------------------------------- the allocation

  /** The allocation length after asking for `sz` bytes at the cursor; both sums are machine words. */
  function Grown(alloc: size_t, pos: size_t, sz: size_t): size_t {
    if Sub(alloc, pos) < sz then Add(alloc, if sz < DEFAULT_BUFFER_SIZE then DEFAULT_BUFFER_SIZE else sz) else alloc
  }

  /** The cursor is inside and there is room already, or the grown length does not wrap. */
  predicate Room(alloc: size_t, pos: size_t, sz: size_t) {
    pos <= alloc && (sz <= alloc - pos || alloc + Max(sz, DEFAULT_BUFFER_SIZE) < W64)
  }

  /** Asking for bytes makes room for them exactly then. */
  lemma RoomIff(alloc: size_t, pos: size_t, sz: size_t)
    ensures pos + sz <= Grown(alloc, pos, sz) <==> Room(alloc, pos, sz)
  {
  }

  lemma SplitAt(b: array<byte>, before: seq<byte>, got: seq<byte>)
    requires |before| + |got| <= b.Length && b[..|before| + |got|] == before + got
    ensures b[..|before|] == before && b[|before|..|before| + |got|] == got
  {
    assert b[..|before|] == b[..|before| + |got|][..|before|];
    assert b[|before|..|before| + |got|] == b[..|before| + |got|][|before|..];
  }

  lemma PayloadExplained(c: Received, es0: seq<Event>, avail0: nat, need: nat, es: seq<Event>, avail: nat, closed: bool)
    requires Explains(c, es0, avail0, need, es, avail, closed, true) && avail0 - need <= avail <= avail0
    ensures c == Left(0) || c.EndOfStream? <==> PayloadEnds(es0, need, avail0, closed)
    ensures c.Left? ==> c.n == 0
    ensures c == Left(0) || c.EndOfStream? ==> avail0 - avail == Least(need, avail0)
    ensures avail0 - avail == need ==> c == Left(0)
    ensures c == Left(0) ==> avail0 - avail == need && es == After(es0, need)
    ensures c.Blocked? ==> es == []
    ensures c.Raised? ==> Failed in es0
    ensures |es| <= |es0| && (Failed in es ==> Failed in es0) && (NotYet in es ==> NotYet in es0)
    ensures avail > 0 ==> Readies(es0) <= Readies(es) + avail0 - avail
  {
    hide Brings, After, Ends, Readies;
  }

  lemma HeaderExplained(c: Received, es0: seq<Event>, avail0: nat, es: seq<Event>, avail: nat, closed: bool)
    requires Explains(c, es0, avail0, HEADER, es, avail, closed, false) && avail0 - HEADER <= avail <= avail0
    ensures avail0 - avail == HEADER <==> HEADER <= avail0 && Brings(es0, HEADER, false)
    ensures avail0 - avail == HEADER <==> c == Left(0)
    ensures c.Left? ==> c.n <= HEADER && avail0 - avail == HEADER - c.n
    ensures c == Left(0) ==> es == After(es0, HEADER)
    ensures avail0 > 0 || closed ==> (c == Left(HEADER) <==> Asleep(es0)) && (c == Left(HEADER) ==> es == Wake(es0))
    ensures c.Blocked? ==> es == []
    ensures !c.Blocked? ==> |es| < |es0|
    ensures c.Raised? ==> Failed in es0
    ensures c.EndOfStream? ==> avail == 0 && closed
    ensures c.Left? && c.n > 0 ==> NotYet in es0 || (avail == 0 && !closed)
    ensures |es| <= |es0| && (Failed in es ==> Failed in es0) && (NotYet in es ==> NotYet in es0)
    ensures avail > 0 ==> Readies(es0) <= Readies(es) + avail0 - avail
  {
    hide Brings, After, Ends, Readies;
  }

  /**
   Enough for writing `n` more bytes in any pieces: the allocation grows only when it is
   too short, and then by no more than is written or by the default size.
   */
  predicate Fits(pos: nat, n: nat) {
    pos + 2 * n + DEFAULT_BUFFER_SIZE <= W64
  }

  // --------------------------------------------------------------- the message

  /**
   What a receive does: no data, data, an exception, waiting on, or asking the socket for
   more bytes than the allocation has room for, after which nothing is known.
   */
  datatype Outcome = NoData | HasData | Throws | Waits | Overruns

  /** A stream that still holds `avail` bytes is read until `need` bytes have come or until it is seen to end. */
  predicate PayloadEnds(es: seq<Event>, need: nat, avail: nat, closed: bool) {
    if need <= avail then Brings(es, need, true) else closed && Ends(es, avail, true)
  }

  /** What the header bytes received, or missing, decide; and then the payload bytes. */
  function HeaderOutcome(c: Received): Outcome
    requires c != Left(0)
  {
    if c.Blocked? then Waits else if c == Left(HEADER) then NoData else Throws
  }

  function PayloadOutcome(c: Received): Outcome {
    if c.Blocked? then Waits else if c.Raised? then Throws else HasData
  }

  /** A whole receive, told from the coming events; `need` is what the header announces. */
  ghost predicate Follows(r: Outcome, header: nat, payload: nat, es0: seq<Event>, avail: nat, es: seq<Event>,
      closed: bool, need: nat) {
    var x := Receive(es0, avail, HEADER, closed, false);
    && header == x.taken <= avail
    && (x.r != Left(0) ==> r == HeaderOutcome(x.r) && payload == 0 && es == x.rest)
    && (x.r == Left(0) && !r.Overruns? ==>
          var y := Receive(x.rest, avail - header, need, closed, true);
          r == PayloadOutcome(y.r) && payload == y.taken && es == y.rest)
  }

  /** The number a receive loop returns. */
  function Code(r: Received): size_t
    requires (r.Left? && r.n < W64) || r.EndOfStream?
  {
    if r.Left? then r.n else W64 - 1
  }

  class Message {
    var buf: array<byte>
    var pos: nat
    var hasData: bool

    ghost predicate Sized()
      reads this
    {
      HEADER <= pos < W64 && buf.Length < W64
    }

    ghost predicate Valid()
      reads this
    {
      Sized() && pos <= buf.Length
    }

    /** The payload written so far, or already read. */
    ghost function Written(): seq<byte>
      requires Valid()
      reads this, buf
    {
      buf[HEADER..pos]
    }

    /** With fewer than eight bytes the cursor starts outside the allocation. */
    constructor (len: size_t)
      ensures Sized() && fresh(buf) && buf.Length == len && pos == HEADER && !hasData
      ensures Valid() <==> len >= HEADER
      ensures Valid() ==> Written() == []
    {
      buf := new byte[len](_ => 0);
      pos, hasData := HEADER, false;
    }

    /** Asks for room for `sz` bytes at the cursor; when that does not wrap, everything before the cursor is kept. */
    method Fit(sz: size_t)
      requires Sized()
      modifies this`buf
      ensures Sized() && (buf == old(buf) || fresh(buf))
      ensures buf.Length == Grown(old(buf.Length), pos, sz)
      ensures Sub(old(buf.Length), pos) >= sz ==> buf == old(buf)
      ensures Sub(old(buf.Length), pos) < sz ==> buf.Length == (old(buf.Length) + if sz < 1024 then 1024 else sz) % W64
      ensures pos + sz <= buf.Length <==> Room(old(buf.Length), pos, sz)
      ensures buf[..Least(old(buf.Length), buf.Length)] == old(buf[..])[..Least(old(buf.Length), buf.Length)]
      ensures Room(old(buf.Length), pos, sz) ==> Valid() && buf[..pos] == old(buf[..])[..pos]
    {
      RoomIff(buf.Length, pos, sz);
      var rem := Sub(buf.Length, pos);
      if rem < sz {
        var allocLen := Add(buf.Length, if sz < DEFAULT_BUFFER_SIZE then DEFAULT_BUFFER_SIZE else sz);
        var grown := new byte[allocLen](_ => 0);
        var kept := Least(buf.Length, allocLen);
        Store(grown, 0, buf[..kept]);
        assert grown[..kept] == buf[..kept] == buf[..][..kept];
        assert pos <= kept ==> grown[..pos] == grown[..kept][..pos];
        buf := grown;
      }
    }

    method Put(data: seq<byte>)
      requires Valid() && |data| < W64 && Room(buf.Length, pos, |data|)
      modifies this`buf, this`pos, buf
      ensures Valid() && (buf == old(buf) || fresh(buf))
      ensures pos == old(pos) + |data| && Written() == old(Written()) + data
    {
      ghost var before := buf[..pos];
      Fit(|data|);
      Store(buf, pos, data);
      pos := pos + |data|;
      assert buf[..pos] == before + data;
      assert buf[HEADER..pos] == buf[..pos][HEADER..];
    }

    method WriteAtom(e: Elem, a: Atom)
      requires Valid() && IsAtom(e, a) && Fits(pos, |EncodeAtom(e, a)|)
      modifies this`buf, this`pos, buf
      ensures Valid() && (buf == old(buf) || fresh(buf))
      ensures pos == old(pos) + |EncodeAtom(e, a)| && Written() == old(Written()) + EncodeAtom(e, a)
    {
      match e
      case Scalar(w) => Put(ToBytes(a.n, w));
      case Text => Put(a.s + [0]);
    }

    method WriteAtoms(e: Elem, xs: seq<Atom>)
      requires Valid() && (forall a :: a in xs ==> IsAtom(e, a)) && Fits(pos, |EncodeAtoms(e, xs)|)
      modifies this`buf, this`pos, buf
      ensures Valid() && (buf == old(buf) || fresh(buf))
      ensures pos == old(pos) + |EncodeAtoms(e, xs)| && Written() == old(Written()) + EncodeAtoms(e, xs)
    {
      hide EncodeAtom, IsAtom;
      ghost var lead := Written();
      for i := 0 to |xs|
        invariant Valid() && (buf == old(buf) || fresh(buf))
        invariant Written() == lead + EncodeAtoms(e, xs[..i])
        invariant pos + |EncodeAtoms(e, xs[i..])| == old(pos) + |EncodeAtoms(e, xs)|
      {
        assert xs[i..][1..] == xs[i + 1..];
        WriteAtom(e, xs[i]);
        EncodeAtomsSnoc(e, xs[..i], xs[i]);
        Regroup(lead, EncodeAtoms(e, xs[..i]), EncodeAtom(e, xs[i]));
        assert xs[..i + 1] == xs[..i] + [xs[i]];
      }
      assert xs[..|xs|] == xs;
    }

    method Write(k: Kind, v: Value)
      requires Valid() && IsValue(k, v) && Fits(pos, |Encode(k, v)|)
      modifies this`buf, this`pos, buf
      ensures Valid() && (buf == old(buf) || fresh(buf))
      ensures pos == old(pos) + |Encode(k, v)| && Written() == old(Written()) + Encode(k, v)
    {
      hide EncodeAtom, EncodeAtoms, IsAtom, ToBytes;
      match k
      case One(e) => WriteAtom(e, v.a);
      case Many(e) =>
        ghost var start := Written();
        Put(ToBytes(|v.xs|, 8));
        WriteAtoms(e, v.xs);
        Regroup(start, ToBytes(|v.xs|, 8), EncodeAtoms(e, v.xs));
    }

    /** Puts the length into the header and sends the frame; the payload is kept, so it can be sent again. */
    method Send(socket: Sender, kernel: Kernel, ghost limit: nat, ghost calm: nat) returns (ok: bool)
      requires Valid() && pos < W64
      requires Fair(kernel, limit, calm) && 1 <= limit
      requires InRange(socket.mtu) && Least(limit, 512) <= socket.mtu
      modifies buf, socket
      ensures Valid() && Written() == old(Written())
      ensures ok ==> socket.wire == old(socket.wire) + Frame(Written())
      ensures (forall i: nat, n: nat :: !kernel(i, n).Broken?) ==> ok
      ensures InRange(socket.mtu) && Least(limit, 512) <= socket.mtu <= old(socket.mtu)
    {
      var len := pos;
      Store(buf, 0, ToBytes(len, HEADER));
      assert buf[HEADER..pos] == old(buf[HEADER..pos]) by {
        assert buf[HEADER..pos] == buf[HEADER..][..pos - HEADER];
        assert old(buf[HEADER..pos]) == old(buf[HEADER..])[..pos - HEADER];
      }
      assert buf[..len] == buf[..HEADER] + buf[HEADER..len];
      assert buf[..len] == Frame(Written());
      ghost var calls;
      ok, calls := socket.Send(buf[..len], kernel, limit, calm);
    }

    /** The second half of a receive: the `len` payload bytes that the header announced. */
    method RecvPayload(conn: Receiver, len: size_t) returns (r: Outcome, ghost got: seq<byte>)
      requires Valid()
      modifies this`buf, this`hasData, buf, conn
      ensures pos == old(pos) && conn.closed == old(conn.closed) && (buf == old(buf) || fresh(buf))
      ensures |got| <= len && old(conn.incoming) == got + conn.incoming
      ensures r.Overruns? <==> !Room(old(buf.Length), pos, len)
      ensures !r.Overruns? ==>
                var x := Receive(old(conn.events), |old(conn.incoming)|, len, conn.closed, true);
                r == PayloadOutcome(x.r) && |got| == x.taken && conn.events == x.rest
      ensures r.Overruns? ==>
                got == [] && conn.events == old(conn.events) && buf.Length == Grown(old(buf.Length), pos, len)
      ensures !r.Overruns? ==> Valid() && buf[..pos] == old(buf[..])[..pos]
      ensures r.HasData? ==> hasData && pos + |got| <= buf.Length && buf[pos..pos + |got|] == got
      ensures !r.HasData? ==> hasData == old(hasData)
      ensures !r.Overruns? ==> (r.HasData? <==> PayloadEnds(old(conn.events), len, |old(conn.incoming)|, conn.closed))
      ensures r.HasData? ==> |got| == Least(len, |old(conn.incoming)|)
      ensures r.HasData? && |got| == len ==> conn.events == After(old(conn.events), len)
      ensures !r.HasData? && !r.Overruns? ==> |got| < len
      ensures !r.NoData? && (r.Throws? ==> Failed in old(conn.events)) && (r.Waits? ==> conn.events == [])
      ensures |conn.events| <= |old(conn.events)|
      ensures (Failed in conn.events ==> Failed in old(conn.events))
              && (NotYet in conn.events ==> NotYet in old(conn.events))
      ensures conn.incoming != [] ==> Readies(old(conn.events)) <= Readies(conn.events) + |got|
    {
      hide After, Readies, Receive, Room, Grown, Explains, PayloadEnds;
      got := [];
      Fit(len);
      if pos + len > buf.Length { return Overruns, got; } // the source writes on
      ghost var es, in0, before := conn.events, conn.incoming, buf[..pos];
      var c;
      c, got := conn.Recv(buf, pos, len, false);
      PayloadExplained(c, es, |in0|, len, conn.events, |conn.incoming|, conn.closed);
      SplitAt(buf, before, got);
      if c.Blocked? { return Waits, got; }
      if c.Raised? { return Throws, got; }
      if Code(c) == 0xffff_ffff { return Throws, got; }
      hasData := true;
      return HasData, got;
    }

    /**
     Receives one frame behind the cursor.  `h` are the header bytes taken from the stream
     and `got` the payload bytes.
     */
    method Recv(conn: Receiver) returns (r: Outcome, ghost h: seq<byte>, ghost got: seq<byte>)
      requires Valid()
      modifies this`buf, this`hasData, buf, conn
      ensures pos == old(pos) && conn.closed == old(conn.closed) && (buf == old(buf) || fresh(buf))
      ensures |h| <= HEADER && old(conn.incoming) == h + got + conn.incoming
      ensures |h| == HEADER <==> HEADER <= |old(conn.incoming)| && Brings(old(conn.events), HEADER, false)
      ensures Follows(r, |h|, |got|, old(conn.events), |old(conn.incoming)|, conn.events, conn.closed,
                      if |h| == HEADER then Sub(HeaderWord(h), HEADER) else 0)
      ensures |h| < HEADER ==> got == [] && buf == old(buf) && buf[..] == old(buf[..])
      ensures r.Overruns? <==> |h| == HEADER && !Room(old(buf.Length), pos, Sub(HeaderWord(h), HEADER))
      ensures r.Overruns? ==> got == [] && buf.Length == Grown(old(buf.Length), pos, Sub(HeaderWord(h), HEADER))
      ensures !r.Overruns? ==> Valid() && buf[..pos] == old(buf[..])[..pos]
      ensures r.HasData? ==> hasData && |h| == HEADER && pos + |got| <= buf.Length && buf[pos..pos + |got|] == got
      ensures !r.HasData? ==> hasData == old(hasData)
      ensures |h| == HEADER && !r.Overruns? ==>
                (r.HasData? <==>
                   PayloadEnds(After(old(conn.events), HEADER), Sub(HeaderWord(h), HEADER),
                               |old(conn.incoming)| - HEADER, conn.closed))
      ensures r.HasData? ==> |got| == Least(Sub(HeaderWord(h), HEADER), |old(conn.incoming)| - HEADER)
      ensures r.HasData? && |got| == Sub(HeaderWord(h), HEADER) ==>
                conn.events == After(After(old(conn.events), HEADER), |got|)
      ensures |h| == HEADER && !r.HasData? && !r.Overruns? ==> |got| < Sub(HeaderWord(h), HEADER)
      ensures old(conn.incoming) != [] || conn.closed ==> (r.NoData? <==> Asleep(old(conn.events)))
      ensures r.NoData? ==> h == []
      ensures r.NoData? && (old(conn.incoming) != [] || conn.closed) ==> conn.events == Wake(old(conn.events))
      ensures r.Throws? ==> Failed in old(conn.events) || (conn.incoming == [] && conn.closed && |h| < HEADER)
                            || (0 < |h| < HEADER && (NotYet in old(conn.events) || conn.incoming == []))
      ensures r.Waits? ==> conn.events == []
      ensures !r.Waits? ==> |conn.events| < |old(conn.events)|
      ensures (Failed in conn.events ==> Failed in old(conn.events))
              && (NotYet in conn.events ==> NotYet in old(conn.events))
      ensures conn.incoming != [] ==> Readies(old(conn.events)) <= Readies(conn.events) + |h| + |got|
    {
      hide Receive, Brings, After, Wake, Asleep, Ends, Readies, HeaderWord, Room, Grown, ToBytes, FromBytes,
           Explains, PayloadEnds, Sub;
      var header := new byte[HEADER];
      var c;
      ghost var es0, in0 := conn.events, conn.incoming;
      c, h := conn.Recv(header, 0, HEADER, true);
      HeaderExplained(c, es0, |in0|, conn.events, |conn.incoming|, conn.closed);
      got := [];
      if c.Blocked? { return Waits, h, got; }
      if c.Raised? { return Throws, h, got; }
      if Code(c) == 0 {
        assert header[..] == header[..0] + h == h;
        var len := HeaderWord(header[..]);
        len := Sub(len, HEADER);
        r, got := RecvPayload(conn, len);
        Regroup(h, got, conn.incoming);
        return r, h, got;
      } else if Code(c) == W64 - 1 || Code(c) != HEADER {
        return Throws, h, got;
      }
      return NoData, h, got;
    }

    // ------------------------------------------------------------ reading back

    method ReadAtom(e: Elem, ghost a: Atom) returns (r: Atom)
      requires Valid() && IsAtom(e, a) && EncodeAtom(e, a) <= buf[pos..]
      modifies this`pos
      ensures Valid() && r == a && pos == old(pos) + |EncodeAtom(e, a)|
    {
      ghost var code := EncodeAtom(e, a);
      assert buf[pos..][..|code|] == code;
      match e
      case Scalar(w) =>
        WordRoundTrip(a.n, w);
        assert buf[pos..pos + w] == code;
        r := Num(FromBytes(buf[pos..pos + w]));
        pos := pos + w;
      case Text =>
        var end := pos;
        assert forall i :: 0 <= i < |code| ==> buf[pos + i] == code[i];
        assert forall i :: 0 <= i < |a.s| ==> code[i] == a.s[i] && a.s[i] in a.s;
        while buf[end] != 0
          invariant pos <= end <= pos + |a.s| < buf.Length
          decreases buf.Length - end
        {
          assert buf[end] == code[end - pos];
          end := end + 1;
        }
        assert buf[pos..end] == a.s;
        r := Str(buf[pos..end]);
        pos := pos + |buf[pos..end]| + 1;
    }

    method ReadAtoms(e: Elem, size: nat, ghost vs: seq<Atom>) returns (xs: seq<Atom>)
      requires Valid() && |vs| == size && (forall a :: a in vs ==> IsAtom(e, a)) && EncodeAtoms(e, vs) <= buf[pos..]
      modifies this`pos
      ensures Valid() && xs == vs && pos == old(pos) + |EncodeAtoms(e, vs)|
    {
      hide EncodeAtom, IsAtom;
      xs := [];
      for i := 0 to size
        invariant Valid() && xs == vs[..i]
        invariant EncodeAtoms(e, vs[i..]) <= buf[pos..]
        invariant pos + |EncodeAtoms(e, vs[i..])| == old(pos) + |EncodeAtoms(e, vs)|
      {
        ghost var at := pos;
        assert vs[i..][1..] == vs[i + 1..];
        DropPrefix(EncodeAtom(e, vs[i]), EncodeAtoms(e, vs[i + 1..]), buf[pos..]);
        var a := ReadAtom(e, vs[i]);
        assert buf[at..][|EncodeAtom(e, vs[i])|..] == buf[pos..];
        xs := xs + [a];
      }
    }

    method Read(k: Kind, ghost v: Value) returns (r: Value)
      requires Valid() && IsValue(k, v) && Encode(k, v) <= buf[pos..]
      modifies this`pos
      ensures Valid() && r == v && pos == old(pos) + |Encode(k, v)|
    {
      hide EncodeAtom, EncodeAtoms, IsAtom, ToBytes, FromBytes;
      match k
      case One(e) =>
        var a := ReadAtom(e, v.a);
        r := Single(a);
      case Many(e) =>
        ghost var start := pos;
        DropPrefix(ToBytes(|v.xs|, 8), EncodeAtoms(e, v.xs), buf[pos..]);
        SizeFits(|v.xs|);
        assert buf[pos..pos + 8] == buf[pos..][..8] == ToBytes(|v.xs|, 8);
        var size := FromBytes(buf[pos..pos + 8]);
        pos := pos + 8;
        assert buf[start..][8..] == buf[pos..];
        var xs := ReadAtoms(e, size, v.xs);
        r := Several(xs);
    }
  }
}
