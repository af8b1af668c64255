/** The integer square root of the market-maker contract: Newton steps on two
    64-bit words until they are at most one apart. */
module SquareRoots {
  import opened StorageTypes

  function Halve(a: uint64, b: uint64): uint64 { ((a + b) % TWO_64) / 2 }

  function Quotient(p: nat, d: uint64): uint64
    requires d > 0
  {
    (p / d) % TWO_64
  }

  predicate Close(a: int, b: int) { Max(a, b) - Min(a, b) <= 1 }

  /** The square, as a sum of odd numbers. */
  function Square(n: nat): nat { if n == 0 then 0 else Square(n - 1) + 2 * n - 1 }

  lemma {:induction false} SquareIs(n: nat)
    ensures Square(n) == n * n
  {
    if n > 0 {
      SquareIs(n - 1);
      assert (n - 1) * (n - 1) == n * n - 2 * n + 1;
    }
  }

  lemma SquareMonotone(a: nat, b: nat)
    requires a <= b
    ensures a * a <= b * b
  {
    assert b * b - a * a == (b - a) * (b + a);
  }

  /** The geometric mean is at most the arithmetic one. */
  lemma FourTimes(a: int, b: int)
    ensures 4 * (a * b) <= (a + b) * (a + b)
  {
    assert (a + b) * (a + b) - 4 * (a * b) == (a - b) * (a - b);
  }

  lemma QuotientBounds(p: nat, r: nat)
    requires r > 0
    ensures (p / r) * r <= p < (p / r + 1) * r
  {
    assert p == p / r * r + p % r;
  }

  /** A Newton step never lands below the root. */
  lemma NewtonAbove(p: nat, r: nat)
    requires r > 0
    ensures var n := (p / r + r) / 2; p < (n + 1) * (n + 1)
  {
    var q := p / r;
    var n := (q + r) / 2;
    QuotientBounds(p, r);
    FourTimes(q + 1, r);
    SquareMonotone(q + 1 + r, 2 * n + 2);
    assert (2 * n + 2) * (2 * n + 2) == 4 * ((n + 1) * (n + 1));
  }

  /** The one way up: from the root `r` of r*r + 2r the step goes to r + 1, whose
      quotient is `r` again. */
  lemma UpStep(p: nat, r: nat)
    requires r > 0 && p < (r + 1) * (r + 1) && p / r > r + 1
    ensures p == r * r + 2 * r && p / r == r + 2 && p / (r + 1) == r
  {
    var q := p / r;
    QuotientBounds(p, r);
    assert (r + 1) * (r + 1) == r * r + 2 * r + 1;
    assert (r + 2) * r == r * r + 2 * r;
    SquareQuotient(r, q, p);
    QuotientIs(p, r + 1, r);
  }

  lemma SquareQuotient(r: nat, q: nat, p: nat)
    requires r > 0 && q >= r + 2 && q * r <= p <= r * r + 2 * r
    ensures q == r + 2 && p == r * r + 2 * r
  {
    assert (r + 3) * r == r * r + 3 * r && (r + 2) * r == r * r + 2 * r;
    if q >= r + 3 {
      ProductMonotone(r + 3, q, r);
    }
  }

  lemma QuotientIs(p: nat, d: nat, q: nat)
    requires d > 0 && q * d <= p < (q + 1) * d
    ensures p / d == q
  {
    QuotientBounds(p, d);
    var m := p / d;
    if m < q {
      ProductMonotone(m + 1, q, d);
    } else if m > q {
      ProductMonotone(q + 1, m, d);
    }
  }

  lemma ProductMonotone(a: nat, b: nat, d: nat)
    requires a <= b
    ensures a * d <= b * d
  {
    assert b * d - a * d == (b - a) * d;
  }

  lemma CloseIsTight(p: nat, r1: nat, r2: nat)
    requires r1 * r2 <= p < (r2 + 1) * (r2 + 1)
    ensures Min(r1, r2) * Min(r1, r2) <= p < (Max(r1, r2) + 1) * (Max(r1, r2) + 1)
  {
    var low, high := Min(r1, r2), Max(r1, r2);
    SquareMonotone(r2 + 1, high + 1);
    ProductMonotone(low, r1, low);
    ProductMonotone(low, r2, r1);
  }

  lemma StartIsAbove(p: nat)
    requires p >= 2
    ensures p < (p / 2 + 1) * (p / 2 + 1)
  {
    var h := p / 2;
    assert (h + 1) * (h + 1) == h * h + 2 * h + 1;
    ProductMonotone(1, h, h);
  }

  lemma QuotientBelow(p: nat, d: nat, k: nat)
    requires d > 0 && p < k * d
    ensures p / d < k
  {
    QuotientBounds(p, d);
    if p / d >= k {
      ProductMonotone(k, p / d, d);
    }
  }

  /** What an iteration leaves behind. */
  predicate Stepped(p: nat, n: nat, q: int) {
    n > 0 && q == p / n && p < Square(n + 1) && q + n <= UINT64_MAX && 2 * n <= UINT64_MAX
  }

  lemma FirstStep(p: nat)
    requires p / 2 + 2 <= UINT64_MAX && !Close(2, p / 2)
    ensures var n := (2 + p / 2) / 2;
      Stepped(p, n, p / n) && (2 > p / 2 ==> Close(p / n, n)) && (2 < p / 2 ==> n < p / 2)
  {
    var n := (2 + p / 2) / 2;
    NewtonAbove(p, 2);
    SquareIs(n + 1);
    QuotientBelow(p, n, 4);
    if p < 2 {
      QuotientBelow(p, 1, 2);
    }
  }

  lemma DownStep(p: nat, r: nat)
    requires r > 0 && p / r + 1 < r && 2 * r <= UINT64_MAX
    ensures var n := (p / r + r) / 2; Stepped(p, n, p / n) && n < r
  {
    var n := (p / r + r) / 2;
    NewtonAbove(p, r);
    SquareIs(n + 1);
    assert (n + 1) * (n + 1) == n * n + 2 * n + 1 && (n + 3) * n == n * n + 3 * n;
    QuotientBelow(p, n, n + 3);
  }

  predicate LoopInv(p: nat, first: bool, r1: int, r2: nat) {
    if first then r1 == 2 && r2 == p / 2 && p / 2 + 2 <= UINT64_MAX else Stepped(p, r2, r1)
  }

  function Rank(r1: int, r2: nat): nat { if Close(r1, r2) then 0 else if r1 > r2 then 1 else r2 + 2 }

  lemma UpStepStays(p: nat, r: nat)
    requires p == r * r + 2 * r
    ensures p < (r + 2) * (r + 2)
  {
    assert (r + 2) * (r + 2) == r * r + 4 * r + 4;
  }

  lemma UpIterates(p: nat, r: nat, q: nat)
    requires Stepped(p, r, q) && q > r + 1
    ensures q == r + 2 && Stepped(p, r + 1, r)
  {
    SquareIs(r + 1);
    UpStep(p, r);
    UpStepStays(p, r);
    SquareIs(r + 2);
  }

  lemma MachineStep(p: nat, r1: uint64, r2: uint64, n: nat)
    requires r1 + r2 <= UINT64_MAX && n == (r1 + r2) / 2 && n > 0 && p / n <= UINT64_MAX
    ensures Halve(r1, r2) == n && Quotient(p, n) == p / n
  {
  }

  lemma Iterate(p: nat, first: bool, r1: uint64, r2: uint64)
    requires LoopInv(p, first, r1, r2) && !Close(r1, r2)
    ensures var n := Halve(r1, r2);
      n > 0 && LoopInv(p, false, Quotient(p, n), n) && Rank(Quotient(p, n), n) < Rank(r1, r2)
  {
    if first {
      FirstStep(p);
    } else if r1 > r2 {
      UpIterates(p, r2, r1);
    } else {
      DownStep(p, r2);
    }
    MachineStep(p, r1, r2, (r1 + r2) / 2);
  }

  lemma Encloses(p: nat, first: bool, r1: nat, r2: nat)
    requires LoopInv(p, first, r1, r2) && Close(r1, r2)
    ensures Min(r1, r2) * Min(r1, r2) <= p < (Max(r1, r2) + 1) * (Max(r1, r2) + 1)
  {
    if first {
      StartIsAbove(p);
    } else {
      SquareIs(r2 + 1);
      QuotientBounds(p, r2);
    }
    CloseIsTight(p, r1, r2);
  }

  /** Terminates, divides by no zero and wraps nowhere for every product whose
      half leaves room for the first sum; the two results enclose the root. */
  method BabylonianSqrt(prod: nat) returns (r1: uint64, r2: uint64)
    requires prod / 2 + 2 <= UINT64_MAX
    ensures Close(r1, r2)
    ensures Min(r1, r2) * Min(r1, r2) <= prod < (Max(r1, r2) + 1) * (Max(r1, r2) + 1)
  {
    r1 := 2;
    r2 := Quotient(prod, r1);
    ghost var first := true;
    while !Close(r1, r2)
      invariant LoopInv(prod, first, r1, r2)
      decreases Rank(r1, r2)
    {
      Iterate(prod, first, r1, r2);
      r2 := Halve(r1, r2);
      r1 := Quotient(prod, r2);
      first := false;
    }
    Encloses(prod, first, r1, r2);
  }

  // ---- where the loop stops being safe ----

  /** The first `n` iterations divide by no zero. */
  predicate SafeFor(p: nat, r1: uint64, r2: uint64, n: nat)
    decreases n
  {
    || Close(r1, r2) || n == 0
    || (Halve(r1, r2) > 0 && SafeFor(p, Quotient(p, Halve(r1, r2)), Halve(r1, r2), n - 1))
  }

  lemma {:induction false} StaysSafe(p: nat, first: bool, r1: uint64, r2: uint64, n: nat)
    requires LoopInv(p, first, r1, r2)
    ensures SafeFor(p, r1, r2, n)
    decreases n
  {
    if n > 0 && !Close(r1, r2) {
      Iterate(p, first, r1, r2);
      StaysSafe(p, false, Quotient(p, Halve(r1, r2)), Halve(r1, r2), n - 1);
    }
  }

  /** For the last four products whose half still fits a word the first sum
      wraps to zero or one. */
  lemma FirstSumWraps(p: nat)
    requires p / 2 <= UINT64_MAX < p / 2 + 2
    ensures Quotient(p, 2) == p / 2 && !Close(2, p / 2) && Halve(2, p / 2) == 0
  {
  }

  /** The exact boundary: as long as half the product fits a word, the loop is
      safe if and only if adding two to that half does not wrap; otherwise its
      first iteration divides by zero. */
  lemma SafeExactlyBelow(p: nat)
    requires p / 2 <= UINT64_MAX
    ensures (forall n: nat :: SafeFor(p, 2, Quotient(p, 2), n)) <==> p / 2 + 2 <= UINT64_MAX
    ensures p / 2 + 2 > UINT64_MAX ==> !SafeFor(p, 2, Quotient(p, 2), 1)
  {
    if p / 2 + 2 <= UINT64_MAX {
      forall n: nat
        ensures SafeFor(p, 2, Quotient(p, 2), n)
      {
        StaysSafe(p, true, 2, Quotient(p, 2), n);
      }
    } else {
      FirstSumWraps(p);
      assert !SafeFor(p, 2, Quotient(p, 2), 1);
    }
  }
}
