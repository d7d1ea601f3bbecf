/** Repeated application of a map and maps that respect a binary operation.
    The element type stays abstract, so the proofs here never look at bits. */
module Algebra {

  function Iterate<T>(f: T -> T, n: nat, x: T): T {
    if n == 0 then x else Iterate(f, n - 1, f(x))
  }

  ghost predicate HomAt<T>(f: T -> T, plus: (T, T) -> T, a: T, b: T) {
    f(plus(a, b)) == plus(f(a), f(b))
  }

  ghost predicate SumAt<T>(h: T -> T, g: T -> T, f: T -> T, plus: (T, T) -> T, a: T) {
    f(a) == plus(h(a), g(a))
  }

  lemma {:induction false} IterateHom<T(!new)>(f: T -> T, plus: (T, T) -> T, n: nat, x: T, y: T)
    requires forall a, b :: HomAt(f, plus, a, b)
    ensures Iterate(f, n, plus(x, y)) == plus(Iterate(f, n, x), Iterate(f, n, y))
  {
    if n > 0 {
      assert HomAt(f, plus, x, y);
      IterateHom(f, plus, n - 1, f(x), f(y));
    }
  }

  lemma {:induction false} IterateInjective<T(!new)>(f: T -> T, n: nat, x: T, y: T)
    requires forall a, b :: f(a) == f(b) ==> a == b
    requires Iterate(f, n, x) == Iterate(f, n, y)
    ensures x == y
  {
    if n > 0 {
      IterateInjective(f, n - 1, f(x), f(y));
    }
  }

  lemma {:induction false} IterateAdd<T>(f: T -> T, m: nat, n: nat, x: T)
    ensures Iterate(f, m + n, x) == Iterate(f, n, Iterate(f, m, x))
  {
    if m > 0 {
      IterateAdd(f, m - 1, n, f(x));
    }
  }

  /** A map that is the pointwise sum of two homomorphisms is one itself. */
  lemma SumHom<T>(h: T -> T, g: T -> T, f: T -> T, plus: (T, T) -> T, a: T, b: T)
    requires HomAt(h, plus, a, b) && HomAt(g, plus, a, b)
    requires SumAt(h, g, f, plus, a) && SumAt(h, g, f, plus, b) && SumAt(h, g, f, plus, plus(a, b))
    requires plus(plus(h(a), h(b)), plus(g(a), g(b))) == plus(plus(h(a), g(a)), plus(h(b), g(b)))
    ensures HomAt(f, plus, a, b)
  {}
}
