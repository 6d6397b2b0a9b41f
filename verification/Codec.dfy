/**
 The wire format of message values: scalars as little-endian words, strings with a
 terminating zero, vectors and lists as a 64-bit count followed by their elements.
 */
module Codec {
  import opened Words

  type byte = x: int | 0 <= x < 256

  function Power256(w: nat): nat {
    if w == 0 then 1 else 256 * Power256(w - 1)
  }

  /** The `w` low bytes of `n`, lowest first. */
  function ToBytes(n: nat, w: nat): (s: seq<byte>)
    ensures |s| == w
  {
    if w == 0 then [] else [n % 256] + ToBytes(n / 256, w - 1)
  }

  /** The lowest byte comes first. */
  lemma {:induction false} LowestFirst(n: nat, w: nat, i: nat)
    requires i < w
    ensures Power256(i) > 0 && ToBytes(n, w)[i] == n / Power256(i) % 256
  {
    PowerPositive(i);
    if i > 0 {
      PowerPositive(i - 1);
      LowestFirst(n / 256, w - 1, i - 1);
      DivideTwice(n, 256, Power256(i - 1));
    }
  }

  lemma {:induction false} PowerPositive(w: nat)
    ensures Power256(w) > 0
  {
    if w > 0 { PowerPositive(w - 1); }
  }

  lemma DivideTwice(n: nat, a: nat, b: nat)
    requires a > 0 && b > 0
    ensures a * b > 0 && n / a / b == n / (a * b)
  {
    var m := n / a;
    Multiple(b, a);
    SmallRemainder(a, b, m % b, n % a);
    Distribute(a, b, m / b, m % b);
    UniqueQuotient(n, a * b, m / b, a * (m % b) + n % a);
  }

  lemma SmallRemainder(a: int, b: int, r: int, s: int)
    requires 0 <= r < b && 0 <= s < a
    ensures 0 <= a * r + s < a * b
  {
    Multiple(b - r, a);
    SubtractMultiples(a, b, r);
    if r > 0 { Multiple(r, a); }
  }

  lemma Distribute(a: int, b: int, q: int, r: int)
    ensures a * (b * q + r) == a * b * q + a * r
  {
  }

  lemma Multiple(k: int, d: int)
    requires k >= 1 && d > 0
    ensures d * k >= d
  {
    assert d * (k - 1) >= 0;
  }

  lemma UniqueQuotient(n: int, d: int, q: int, r: int)
    requires d > 0 && n == d * q + r && 0 <= r < d
    ensures n / d == q
  {
    var p, s := n / d, n % d;
    SubtractMultiples(d, p, q);
    if p > q { Multiple(p - q, d); }
    if q > p { Multiple(q - p, d); SubtractMultiples(d, q, p); }
  }

  lemma SubtractMultiples(d: int, p: int, q: int)
    ensures d * (p - q) == d * p - d * q
  {
  }

  function FromBytes(s: seq<byte>): nat {
    if s == [] then 0 else s[0] + 256 * FromBytes(s[1..])
  }

  lemma {:induction false} WordRoundTrip(n: nat, w: nat)
    requires n < Power256(w)
    ensures FromBytes(ToBytes(n, w)) == n
  {
    if w > 0 {
      assert n / 256 < Power256(w - 1);
      WordRoundTrip(n / 256, w - 1);
      assert ToBytes(n, w)[1..] == ToBytes(n / 256, w - 1);
    }
  }

  lemma SizeFits(n: size_t)
    ensures n < Power256(8) == W64
    ensures FromBytes(ToBytes(n, 8)) == n
  {
    assert Power256(2) == 0x1_0000;
    assert Power256(4) == 0x1_0000_0000;
    assert Power256(6) == 0x1_0000_0000_0000;
    assert Power256(8) == W64;
    WordRoundTrip(n, 8);
  }

  // ------------------------------------------------------------------ values

  datatype Elem = Scalar(width: nat) | Text

  datatype Atom = Num(n: nat) | Str(s: seq<byte>)

  datatype Kind = One(e: Elem) | Many(e: Elem)

  datatype Value = Single(a: Atom) | Several(xs: seq<Atom>)

  /** The atoms of an element type: words that fit, and strings without a zero byte. */
  predicate IsAtom(e: Elem, a: Atom) {
    match e
    case Scalar(w) => a.Num? && a.n < Power256(w)
    case Text => a.Str? && 0 !in a.s
  }

  ghost predicate IsValue(k: Kind, v: Value) {
    match k
    case One(e) => v.Single? && IsAtom(e, v.a)
    case Many(e) => v.Several? && |v.xs| < W64 && forall a :: a in v.xs ==> IsAtom(e, a)
  }

  function EncodeAtom(e: Elem, a: Atom): seq<byte>
    requires IsAtom(e, a)
  {
    match e
    case Scalar(w) => ToBytes(a.n, w)
    case Text => a.s + [0]
  }

  function EncodeAtoms(e: Elem, xs: seq<Atom>): seq<byte>
    requires forall a :: a in xs ==> IsAtom(e, a)
  {
    if xs == [] then [] else EncodeAtom(e, xs[0]) + EncodeAtoms(e, xs[1..])
  }

  function Encode(k: Kind, v: Value): seq<byte>
    requires IsValue(k, v)
  {
    match k
    case One(e) => EncodeAtom(e, v.a)
    case Many(e) => ToBytes(|v.xs|, 8) + EncodeAtoms(e, v.xs)
  }

  /** A payload: values written one after the other, each with its type. */
  type Payload = seq<(Kind, Value)>

  ghost predicate IsPayload(p: Payload) {
    forall x :: x in p ==> IsValue(x.0, x.1)
  }

  ghost function EncodeAll(p: Payload): seq<byte>
    requires IsPayload(p)
  {
    if p == [] then [] else Encode(p[0].0, p[0].1) + EncodeAll(p[1..])
  }

  lemma EncodeAllCons(x: (Kind, Value), p: Payload)
    requires IsPayload(p) && IsValue(x.0, x.1)
    ensures IsPayload([x] + p) && EncodeAll([x] + p) == Encode(x.0, x.1) + EncodeAll(p)
  {
    hide Encode, IsValue;
    assert ([x] + p)[1..] == p;
  }

  lemma {:induction false} EncodeAllSnoc(p: Payload, x: (Kind, Value))
    requires IsPayload(p) && IsValue(x.0, x.1)
    ensures IsPayload(p + [x]) && EncodeAll(p + [x]) == EncodeAll(p) + Encode(x.0, x.1)
  {
    hide Encode, IsValue;
    if p == [] {
      assert [x][1..] == [] && p + [x] == [x];
    } else {
      EncodeAllSnoc(p[1..], x);
      EncodeAllCons(p[0], p[1..] + [x]);
      assert p + [x] == [p[0]] + (p[1..] + [x]);
    }
  }

  lemma {:induction false} EncodeAtomsSnoc(e: Elem, xs: seq<Atom>, a: Atom)
    requires IsAtom(e, a) && forall b :: b in xs ==> IsAtom(e, b)
    ensures EncodeAtoms(e, xs + [a]) == EncodeAtoms(e, xs) + EncodeAtom(e, a)
  {
    hide EncodeAtom, IsAtom;
    if xs == [] {
      assert [a][1..] == [] && xs + [a] == [a];
    } else {
      EncodeAtomsSnoc(e, xs[1..], a);
      assert (xs + [a])[1..] == xs[1..] + [a];
    }
  }

  // ------------------------------------------------------ unique readability

  /** Two atoms of a type whose encodings start the same bytes are equal. */
  lemma AtomPrefix(e: Elem, a: Atom, b: Atom, s: seq<byte>)
    requires IsAtom(e, a) && IsAtom(e, b) && EncodeAtom(e, a) <= s && EncodeAtom(e, b) <= s
    ensures a == b
  {
    match e
    case Scalar(w) =>
      assert ToBytes(a.n, w) == s[..w] == ToBytes(b.n, w);
      WordRoundTrip(a.n, w);
      WordRoundTrip(b.n, w);
    case Text =>
      ZeroEnds(a.s, b.s, s);
      ZeroEnds(b.s, a.s, s);
      assert a.s == s[..|a.s|] && b.s == s[..|b.s|];
  }

  /** The first string ends no earlier than the second: its zero is not inside it. */
  lemma ZeroEnds(x: seq<byte>, y: seq<byte>, s: seq<byte>)
    requires 0 !in y && x + [0] <= s && y + [0] <= s
    ensures |x| >= |y|
  {
    assert s[|x|] == (x + [0])[|x|] == 0;
    assert forall i :: 0 <= i < |y| ==> s[i] == (y + [0])[i] == y[i] && y[i] in y;
  }

  lemma DropPrefix(x: seq<byte>, y: seq<byte>, s: seq<byte>)
    requires x + y <= s
    ensures x <= s && y <= s[|x|..]
  {
  }

  lemma {:induction false} AtomsPrefix(e: Elem, xs: seq<Atom>, ys: seq<Atom>, s: seq<byte>)
    requires |xs| == |ys| && (forall a :: a in xs ==> IsAtom(e, a)) && (forall a :: a in ys ==> IsAtom(e, a))
    requires EncodeAtoms(e, xs) <= s && EncodeAtoms(e, ys) <= s
    ensures xs == ys
  {
    if xs != [] {
      DropPrefix(EncodeAtom(e, xs[0]), EncodeAtoms(e, xs[1..]), s);
      DropPrefix(EncodeAtom(e, ys[0]), EncodeAtoms(e, ys[1..]), s);
      AtomPrefix(e, xs[0], ys[0], s);
      AtomsPrefix(e, xs[1..], ys[1..], s[|EncodeAtom(e, xs[0])|..]);
      assert xs == [xs[0]] + xs[1..] && ys == [ys[0]] + ys[1..];
    }
  }

  /** Bytes determine the value that was written: no other value of the type encodes to a prefix of them. */
  lemma ValuePrefix(k: Kind, v: Value, w: Value, s: seq<byte>)
    requires IsValue(k, v) && IsValue(k, w) && Encode(k, v) <= s && Encode(k, w) <= s
    ensures v == w
  {
    match k
    case One(e) => AtomPrefix(e, v.a, w.a, s);
    case Many(e) =>
      DropPrefix(ToBytes(|v.xs|, 8), EncodeAtoms(e, v.xs), s);
      DropPrefix(ToBytes(|w.xs|, 8), EncodeAtoms(e, w.xs), s);
      SizeFits(|v.xs|);
      SizeFits(|w.xs|);
      assert ToBytes(|v.xs|, 8) == s[..8] == ToBytes(|w.xs|, 8);
      AtomsPrefix(e, v.xs, w.xs, s[8..]);
  }
}
