/** Products of byte counts and strides, kept apart from the solver's
    nonlinear arithmetic: the buffer layouts are reasoned about through the
    lemmas below, and `MulIsProduct` ties `Mul` back to `*`. */
module Arith {

  /** The product `a * b`, defined by repeated addition. */
  function Mul(a: nat, b: nat): nat
  {
    if a == 0 then 0 else Mul(a - 1, b) + b
  }

  lemma {:induction false} MulIsProduct(a: nat, b: nat)
    ensures Mul(a, b) == a * b
  {
    if 0 < a {
      MulIsProduct(a - 1, b);
    }
  }

  lemma {:induction false} MulZero(a: nat)
    ensures Mul(a, 0) == 0
  {
    if 0 < a {
      MulZero(a - 1);
    }
  }

  lemma {:induction false} MulMono(a: nat, b: nat, s: nat)
    requires a <= b
    ensures Mul(a, s) <= Mul(b, s)
  {
    if a < b {
      MulMono(a, b - 1, s);
    }
  }

  /** A smaller factor leaves room for at least one more `s`. */
  lemma MulStrict(a: nat, b: nat, s: nat)
    requires a < b
    ensures Mul(a, s) + s <= Mul(b, s)
  {
    MulMono(a + 1, b, s);
  }
}
