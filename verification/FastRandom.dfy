/** The thread-local random generator: a multiplicative step with one fold instead of a full reduction. */
module FastRandom {

  const MULTIPLIER: int := 48271
  const MODULUS: int := 0x7fff_ffff
  const INVERSE: int := 1899818559  // of MULTIPLIER modulo MODULUS

  type uint32 = x: int | 0 <= x < 0x1_0000_0000

  /** Low 31 bits of the product plus the rest of it. */
  function Fold(s: uint32): (x: uint32)
    ensures s > 0 ==> 1 <= x <= MODULUS + 96541
  {
    var product := s * 48271;
    product % 0x8000_0000 + product / 0x8000_0000
  }

  /** The state after `k` draws. */
  function Orbit(s: uint32, k: nat): uint32 {
    if k == 0 then s else Fold(Orbit(s, k - 1))
  }

  function Power(k: nat): nat {
    if k == 0 then 1 else Power(k - 1) * MULTIPLIER
  }

  /** `x` and `y` leave the same remainder: `w` moduli lie between them. */
  ghost predicate Congruent(x: int, y: int) {
    exists w: int :: Apart(x, y, w)
  }

  ghost predicate Apart(x: int, y: int, w: int) {
    x == y + w * MODULUS
  }

  class Generator {
    var state: uint32

    constructor ()
      ensures state == 0
    {
      state := 0;
    }

    /** Seeds from the clock while the state is 0, then steps. */
    method Draw(clock: uint32) returns (r: real)
      modifies this
      ensures state == Fold(if old(state) == 0 then clock else old(state))
      ensures r == if state as real > 2147483648.0 then 1.0 else state as real / 2147483648.0
      ensures old(state) != 0 || clock != 0 ==> state != 0 && 0.0 < r <= 1.0
    {
      if state == 0 { state := clock; }
      var product := state * 48271;
      var x := product % 0x8000_0000 + product / 0x8000_0000;
      state := x;
      r := x as real / 2147483648.0;
      if r > 1.0 { r := 1.0; }
    }
  }

  /** Folding takes away whole moduli only. */
  lemma FoldCongruent(s: uint32)
    ensures Congruent(Fold(s), s * MULTIPLIER)
  {
    var q := s * 48271 / 0x8000_0000;
    assert Apart(Fold(s), s * MULTIPLIER, -q);
  }

  /**
   It takes away as many moduli as 2^31 goes into the product, which may be one too few: then the
   value is not below the modulus.
   */
  lemma FoldTakes(s: uint32)
    ensures Fold(s) == s * MULTIPLIER - s * MULTIPLIER / 0x8000_0000 * MODULUS
    ensures Fold(s) >= MODULUS <==> s * MULTIPLIER / 0x8000_0000 < s * MULTIPLIER / MODULUS
  {
  }

  lemma CongruentTimes(x: int, y: int, z: int, m: int)
    requires Congruent(x, y * m) && Congruent(y, z)
    ensures Congruent(x, z * m)
  {
    var v :| Apart(x, y * m, v);
    var w :| Apart(y, z, w);
    assert x == (z + w * MODULUS) * m + v * MODULUS == z * m + (w * m + v) * MODULUS;
    assert Apart(x, z * m, w * m + v);
  }

  /**
   From a non-zero seed the state after `k` draws is congruent to the seed times the
   `k`-th power of the multiplier, and is never 0, so the generator never reseeds.
   */
  lemma {:induction false} OrbitCongruent(s: uint32, k: nat)
    requires s > 0
    ensures Congruent(Orbit(s, k), s * Power(k))
    ensures 1 <= Orbit(s, k)
    ensures k > 0 ==> Orbit(s, k) <= MODULUS + 96541
  {
    hide Congruent, Power;
    PowerTimes(s, k);
    if k > 0 {
      OrbitCongruent(s, k - 1);
      FoldCongruent(Orbit(s, k - 1));
      hide Fold;
      CongruentTimes(Orbit(s, k), Orbit(s, k - 1), s * Power(k - 1), MULTIPLIER);
    }
  }

  lemma PowerTimes(s: int, k: nat)
    ensures if k == 0 then Congruent(s, s * Power(k)) else s * Power(k - 1) * MULTIPLIER == s * Power(k)
  {
    if k == 0 { assert Apart(s, s * 1, 0); }
  }

  /** The multiplier can be undone modulo the modulus. */
  lemma Divide(x: int, y: int)
    requires Congruent(y, x * MULTIPLIER) && Congruent(y, 0)
    ensures Congruent(x, 0)
  {
    var v :| Apart(y, x * MULTIPLIER, v);
    var w :| Apart(y, 0, w);
    assert x * MULTIPLIER == (w - v) * MODULUS;
    assert MULTIPLIER * INVERSE == 1 + 42704 * MODULUS;
    assert x * (MULTIPLIER * INVERSE) == (w - v) * MODULUS * INVERSE;
    assert x * (1 + 42704 * MODULUS) == x + x * 42704 * MODULUS;
    assert x == ((w - v) * INVERSE - x * 42704) * MODULUS;
    assert Apart(x, 0, (w - v) * INVERSE - x * 42704);
  }

  /** A state in range that is a multiple of the modulus is the modulus. */
  lemma OnlyMultiple(x: int)
    requires 1 <= x <= MODULUS + 96541
    ensures Congruent(x, 0) <==> x == MODULUS
  {
    assert Apart(MODULUS, 0, 1);
    if Congruent(x, 0) {
      var w :| Apart(x, 0, w);
    }
  }

  /**
   The generator is stuck at the modulus exactly for seeds that are multiples of it;
   from any other seed no draw ever yields that state.
   */
  lemma {:induction false} StuckIffMultiple(s: uint32, k: nat)
    requires s > 0 && k > 0
    ensures Orbit(s, k) == MODULUS <==> Congruent(s, 0)
  {
    OrbitCongruent(s, k);
    OrbitCongruent(s, k - 1);
    OnlyMultiple(Orbit(s, k));
    FoldCongruent(Orbit(s, k - 1));
    var y := Orbit(s, k - 1);
    if Congruent(y, 0) {
      CongruentTimes(Orbit(s, k), y, 0, MULTIPLIER);
    } else if Congruent(Orbit(s, k), 0) {
      Divide(y, Orbit(s, k));
    }
    if k > 1 {
      StuckIffMultiple(s, k - 1);
      OnlyMultiple(y);
    }
  }
}
