/** Facts about division and remainder that the solver does not find on its own. */
module Modular {
  lemma MulMono(a: nat, b: nat, n: nat)
    requires a <= b
    ensures a * n <= b * n
  {
  }

  lemma Decompose(x: nat, n: nat)
    requires n > 0
    ensures x == (x / n) * n + x % n
  {
  }

  /** Quotient and remainder are unique. */
  lemma DivMod(x: nat, q: nat, r: nat, n: nat)
    requires r < n && x == q * n + r
    ensures x / n == q && x % n == r
  {
    Decompose(x, n);
    if x / n > q {
      MulMono(q + 1, x / n, n);
    } else if x / n < q {
      MulMono(x / n + 1, q, n);
    }
  }

  /** Numbers less than the modulus apart have different remainders. */
  lemma CloseDiffer(a: nat, b: nat, n: nat)
    requires n > 0 && a <= b < a + n && a % n == b % n
    ensures a == b
  {
    Decompose(a, n);
    Decompose(b, n);
    if b / n > a / n {
      MulMono(a / n + 1, b / n, n);
    } else if b / n < a / n {
      MulMono(b / n + 1, a / n, n);
    }
  }

  /** One more, on a wrapping counter. */
  lemma AddOne(a: nat, n: nat)
    requires n > 0
    ensures (a % n + 1) % n == (a + 1) % n
  {
    Decompose(a, n);
    var q, r := a / n, a % n;
    if r + 1 == n {
      DivMod(a + 1, q + 1, 0, n);
      DivMod(n, 1, 0, n);
    } else {
      DivMod(a + 1, q, r + 1, n);
      DivMod(r + 1, 0, r + 1, n);
    }
  }

  lemma Assoc(a: nat, b: nat, c: nat)
    ensures a * b * c == a * (b * c)
  {
  }

  /** Remainders by a divisor of the modulus can be taken at once. */
  lemma ModMod(x: nat, n: nat, k: nat)
    requires n > 0 && k > 0
    ensures k * n > 0 && (x % (k * n)) % n == x % n
  {
    MulMono(1, k, n);
    var m := k * n;
    Decompose(x, m);
    var y := x % m;
    Decompose(y, n);
    var q := (x / m) * k + y / n;
    assert (x / m) * k * n == (x / m) * m by { Assoc(x / m, k, n); }
    assert q * n == (x / m) * k * n + (y / n) * n;
    DivMod(x, q, y % n, n);
  }

  /** A summand can be reduced first. */
  lemma AddReduced(a: nat, b: nat, n: nat)
    requires n > 0
    ensures (a % n + b) % n == (a + b) % n
  {
    Decompose(a, n);
    Decompose(a % n + b, n);
    var q := a / n + (a % n + b) / n;
    assert a + b == (a / n) * n + ((a % n + b) / n) * n + (a % n + b) % n;
    assert q * n == (a / n) * n + ((a % n + b) / n) * n;
    DivMod(a + b, q, (a % n + b) % n, n);
  }
}
