/** Sequences without repeats, their elements, and sizes of finite sets. */
module Collections {

  ghost function Pick<X>(s: set<X>): (x: X)
    requires s != {}
    ensures x in s
  {
    var x :| x in s; x
  }

  ghost function Elements<X>(s: seq<X>): set<X> {
    set x | x in s
  }

  ghost predicate NoRepeats<X>(s: seq<X>) {
    forall i, j :: 0 <= i < j < |s| ==> s[i] != s[j]
  }

  function One(b: bool): nat { if b then 1 else 0 }

  lemma NoElements<X>()
    ensures Elements<X>([]) == {}
  {
  }

  lemma ElementsSnoc<X>(xs: seq<X>, x: X)
    ensures Elements(xs + [x]) == Elements(xs) + {x}
  {
  }

  /** A sequence without repeats is as long as the set of its elements. */
  lemma {:induction false} ElementsSize<X>(s: seq<X>)
    requires NoRepeats(s)
    ensures |Elements(s)| == |s|
  {
    if s != [] {
      var rest, x := s[..|s| - 1], s[|s| - 1];
      ElementsSize(rest);
      assert s == rest + [x];
      assert Elements(s) == Elements(rest) + {x};
    }
  }

  lemma SubsetSize<X>(a: set<X>, b: set<X>)
    requires a <= b
    ensures |b - a| == |b| - |a| && |a| <= |b|
  {
    assert b == a + (b - a);
  }

  lemma SubsetOfSameSize<X>(a: set<X>, b: set<X>)
    requires a <= b && |a| == |b|
    ensures a == b
  {
    SubsetSize(a, b);
  }

  // ------------------------------------------------------------------- sums

  ghost function Sum<X(!new)>(a: set<X>, f: X -> nat): nat {
    if a == {} then 0 else var x := Pick(a); f(x) + Sum(a - {x}, f)
  }

  /** Functions that differ at `x` alone have sums that differ as they do there. */
  lemma {:induction false} SumChange<X(!new)>(a: set<X>, f: X -> nat, g: X -> nat, x: X)
    requires forall y :: y in a && y != x ==> f(y) == g(y)
    ensures if x in a then Sum(a, f) + g(x) == Sum(a, g) + f(x) else Sum(a, f) == Sum(a, g)
  {
    if a != {} { SumChange(a - {Pick(a)}, f, g, x); }
  }

  lemma {:induction false} SumRemove<X(!new)>(a: set<X>, f: X -> nat, x: X)
    requires x in a
    ensures Sum(a, f) == f(x) + Sum(a - {x}, f)
  {
    var y := Pick(a);
    if y != x {
      SumRemove(a - {y}, f, x);
      SumRemove(a - {x}, f, y);
      assert a - {y} - {x} == a - {x} - {y};
    }
  }

  lemma {:induction false} SumConstant<X(!new)>(a: set<X>, f: X -> nat, c: nat)
    requires forall x :: x in a ==> f(x) == c
    ensures Sum(a, f) == c * |a|
  {
    if a != {} { SumConstant(a - {Pick(a)}, f, c); }
  }
}
