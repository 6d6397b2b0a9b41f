/** Fixed-width unsigned arithmetic: `size_t` is 64 bits wide and wraps. */
module Words {

  const W64: int := 0x1_0000_0000_0000_0000

  type size_t = x: int | 0 <= x < W64

  /** Unsigned `a + b`: a carry out of the word is lost. */
  function Add(a: size_t, b: size_t): size_t {
    if a + b < W64 then a + b else a + b - W64
  }

  /** Unsigned `a - b`: a borrow comes from outside the word. */
  function Sub(a: size_t, b: size_t): size_t {
    if b <= a then a - b else a - b + W64
  }

  lemma AddAssociates(a: size_t, b: size_t, c: size_t)
    ensures Add(Add(a, b), c) == Add(a, Add(b, c))
  {
  }

  function Max(a: size_t, b: size_t): size_t { if a < b then b else a }

  /** The value a word keeps of the true integer `x`. */
  function Wrap(x: int): size_t { x % W64 }

  /** Word arithmetic on kept values keeps the true sum and the true difference. */
  lemma WrapAdd(x: int, y: int)
    ensures Wrap(x + y) == Add(Wrap(x), Wrap(y))
  {
  }

  lemma WrapSub(x: int, y: int)
    ensures Wrap(x - y) == Sub(Wrap(x), Wrap(y))
  {
  }

  lemma WrapSmall(x: size_t)
    ensures Wrap(x) == x
  {
  }
}
