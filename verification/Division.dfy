/**
 Quotients, remainders and products by a factor that is not a constant.

 Quot and Rem are x / m and x % m of unsigned numbers, and Times is i * m, each
 written as a recursion that keeps the proofs about table indexes linear.
 */
module Division {

  function Quot(x: nat, m: nat): nat
    requires m > 0
  {
    if x < m then 0 else Quot(x - m, m) + 1
  }

  function Rem(x: nat, m: nat): (r: nat)
    requires m > 0
    ensures r < m
  {
    if x < m then x else Rem(x - m, m)
  }

  lemma {:induction false} RemAtMost(x: nat, m: nat)
    requires m > 0
    ensures Rem(x, m) <= x
  {
    if x >= m {
      RemAtMost(x - m, m);
    }
  }

  function Times(i: nat, m: nat): nat {
    if i == 0 then 0 else Times(i - 1, m) + m
  }

  /** The recursions are the operators. */
  lemma {:induction false} Operators(x: nat, i: nat, m: nat)
    requires m > 0
    ensures Quot(x, m) == x / m && Rem(x, m) == x % m && Times(i, m) == i * m
  {
    Product(i, m);
    Recompose(x, m);
    Product(Quot(x, m), m);
    DivMod(x, m);
    Unique(x / m, x % m, Quot(x, m), Rem(x, m), m);
  }

  lemma {:induction false} Product(i: nat, m: nat)
    ensures Times(i, m) == i * m
  {
    if i > 0 {
      Product(i - 1, m);
      assert i * m == (i - 1) * m + m;
    }
  }

  lemma {:induction false} Recompose(x: nat, m: nat)
    requires m > 0
    ensures x == Times(Quot(x, m), m) + Rem(x, m)
  {
    if x >= m {
      Recompose(x - m, m);
    }
  }

  lemma {:induction false} Decompose(k: nat, r: nat, m: nat)
    requires r < m
    ensures Quot(Times(k, m) + r, m) == k && Rem(Times(k, m) + r, m) == r
  {
    if k > 0 {
      Decompose(k - 1, r, m);
    }
  }

  lemma Digits(x: nat, y: nat, m: nat)
    requires m > 0 && Quot(x, m) == Quot(y, m) && Rem(x, m) == Rem(y, m)
    ensures x == y
  {
  }

  /** The quotient of a number below a product is a valid index. */
  lemma {:induction false} Below(x: nat, a: nat, m: nat)
    requires m > 0 && x < Times(a, m)
    ensures Quot(x, m) < a
  {
    Recompose(x, m);
    if Quot(x, m) >= a {
      Monotone(a, Quot(x, m), m);
    }
  }

  lemma {:induction false} Monotone(a: nat, b: nat, m: nat)
    requires a <= b
    ensures Times(a, m) <= Times(b, m)
  {
    if a < b {
      Monotone(a, b - 1, m);
    }
  }

  lemma DivMod(x: nat, m: nat)
    requires m > 0
    ensures x == (x / m) * m + x % m
  {
  }

  lemma AtLeastOnce(d: int, m: nat)
    requires d >= 1
    ensures d * m >= m
  {
  }

  /** A quotient and a remainder are unique. */
  lemma Unique(q: int, rem: nat, k: int, r: nat, m: nat)
    requires rem < m && r < m
    requires q * m + rem == k * m + r
    ensures q == k && rem == r
  {
    assert (k - q) * m == rem - r;
    assert (q - k) * m == r - rem;
    if k > q {
      AtLeastOnce(k - q, m);
    } else if q > k {
      AtLeastOnce(q - k, m);
    }
  }
}
