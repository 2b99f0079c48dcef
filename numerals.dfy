/**
 * Fixed-width positional numerals: the arithmetic shared by every codec of
 * the model (base-16 and base-62 text, big-endian bytes).
 *
 * A numeral is a digit sequence, most significant digit first. `Horner`
 * reads one, `Digits` writes the k least significant digits of a number,
 * and the lemmas below show that the two are inverse at a fixed width.
 */
module Numerals {

  /** b raised to the power e. */
  function Pow(b: nat, e: nat): (r: nat)
    ensures b > 0 ==> r > 0
  {
    if e == 0 then 1 else b * Pow(b, e - 1)
  }

  /** The value of a digit sequence in `base`, most significant digit first. */
  function Horner(ds: seq<nat>, base: nat): nat
  {
    if |ds| == 0 then 0 else Horner(ds[..|ds| - 1], base) * base + ds[|ds| - 1]
  }

  /** The k least significant digits of n in `base`, most significant first. */
  function Digits(n: nat, base: nat, k: nat): (ds: seq<nat>)
    requires base >= 2
    decreases k
    ensures |ds| == k
    ensures forall i :: 0 <= i < k ==> ds[i] < base
  {
    if k == 0 then [] else Digits(n / base, base, k - 1) + [n % base]
  }

  /** Exponents add. */
  lemma {:induction false} PowAdd(b: nat, e1: nat, e2: nat)
    ensures Pow(b, e1 + e2) == Pow(b, e1) * Pow(b, e2)
  {
    if e2 > 0 {
      PowAdd(b, e1, e2 - 1);
      var x, y := Pow(b, e1), Pow(b, e2 - 1);
      assert Pow(b, e1 + e2) == b * (x * y);
      assert Pow(b, e2) == b * y;
      MulLeftComm(b, x, y);
    }
  }

  /** A factor can move across a product. */
  lemma MulLeftComm(a: nat, x: nat, y: nat)
    ensures a * (x * y) == x * (a * y)
  {
  }

  // ---------------------------------------------------------------------
  // Division facts the solver does not find on its own
  // ---------------------------------------------------------------------

  /** Multiplication by a natural number is monotone. */
  lemma MulLe(a: nat, b: nat, m: nat)
    requires a <= b
    ensures a * m <= b * m
  {
    var c := b - a;
    assert b * m == a * m + c * m;
  }

  /** Quotient and remainder are unique. */
  lemma DivModUnique(n: nat, m: nat, q: nat, r: nat)
    requires m > 0 && r < m && n == q * m + r
    ensures n / m == q && n % m == r
  {
    var q', r' := n / m, n % m;
    assert n == q' * m + r';
    if q' < q {
      MulLe(q' + 1, q, m);
    } else if q' > q {
      MulLe(q + 1, q', m);
    }
  }

  /**
   * Mixed radix: the digit below b and the b-th part of n, taken modulo p,
   * together give n modulo b * p.
   */
  lemma MixedRadix(n: nat, b: nat, p: nat)
    requires b > 0 && p > 0
    ensures n / b / p == n / (b * p)
    ensures n % (b * p) == (n / b % p) * b + n % b
  {
    var q, r := n / b, n % b;
    var q1, r1 := q / p, q % p;
    var bp, low := b * p, r1 * b + r;
    assert n == q * b + r;
    assert q == q1 * p + r1;
    Regroup(n, q, q1, r1, p, b, r);
    assert n == q1 * bp + low;
    DigitBound(r1, r, b, p);
    DivModUnique(n, bp, q1, low);
  }

  /** Regrouping a two-level quotient. */
  lemma Regroup(n: nat, q: nat, q1: nat, r1: nat, p: nat, b: nat, r: nat)
    requires n == q * b + r && q == q1 * p + r1
    ensures n == q1 * (b * p) + (r1 * b + r)
  {
    assert q * b == q1 * p * b + r1 * b;
  }

  /** A low digit below b and a middle digit below p stay below b * p. */
  lemma DigitBound(r1: nat, r: nat, b: nat, p: nat)
    requires r1 < p && r < b
    ensures r1 * b + r < b * p
  {
    MulLe(r1 + 1, p, b);
  }

  /** Adding a multiple of m does not change a remainder modulo m. */
  lemma ModAddMultiple(x: nat, k: nat, m: nat)
    requires m > 0
    ensures (x + k * m) % m == x % m
  {
    var q, r := x / m, x % m;
    assert x + k * m == (q + k) * m + r by {
      assert x == q * m + r;
      Distribute(q, k, m);
    }
    DivModUnique(x + k * m, m, q + k, r);
  }

  /** Multiplication distributes over addition. */
  lemma Distribute(x: nat, y: nat, m: nat)
    ensures (x + y) * m == x * m + y * m
  {
  }

  /** Scaling a quotient-remainder split of a by b. */
  lemma ScaleSplit(a: nat, q: nat, m: nat, r: nat, b: nat)
    requires a == q * m + r
    ensures a * b == (q * b) * m + r * b
  {
  }

  /** Reducing the left operand of a sum first does not change the remainder. */
  lemma ModAddLeft(x: nat, d: nat, m: nat)
    requires m > 0
    ensures (x % m + d) % m == (x + d) % m
  {
    var q, r := x / m, x % m;
    assert x + d == (r + d) + q * m;
    ModAddMultiple(r + d, q, m);
  }

  /** Reducing the left factor of a product first does not change the remainder. */
  lemma ModMulLeft(a: nat, b: nat, m: nat)
    requires m > 0
    ensures (a % m) * b % m == a * b % m
  {
    var q, r := a / m, a % m;
    ScaleSplit(a, q, m, r, b);
    ModAddMultiple(r * b, q * b, m);
  }

  /**
   * One wrapping Horner step: multiplying and adding with a reduction
   * modulo m after each operation gives the same as reducing once at the end.
   */
  lemma WrapStep(a: nat, b: nat, d: nat, m: nat)
    requires m > 0
    ensures ((a % m) * b % m + d) % m == (a * b + d) % m
  {
    ModMulLeft(a, b, m);
    ModAddLeft(a * b, d, m);
  }

  /** The wrapping step for an accumulator n that holds a modulo m, giving next modulo m. */
  lemma AccumulateStep(a: nat, n: nat, b: nat, d: nat, next: nat, m: nat)
    requires m > 0 && n == a % m && next == a * b + d
    ensures ((n * b) % m + d) % m == next % m
  {
    WrapStep(a, b, d, m);
  }

  // ---------------------------------------------------------------------
  // Reading and writing fixed-width numerals
  // ---------------------------------------------------------------------

  /** Appending a digit multiplies the value by the base and adds the digit. */
  lemma HornerSnoc(ds: seq<nat>, d: nat, base: nat)
    ensures Horner(ds + [d], base) == Horner(ds, base) * base + d
  {
    assert (ds + [d])[..|ds|] == ds;
  }

  /** Writing k digits and reading them back gives n modulo base^k. */
  lemma {:induction false} HornerDigits(n: nat, base: nat, k: nat)
    requires base >= 2
    decreases k
    ensures Horner(Digits(n, base, k), base) == n % Pow(base, k)
  {
    if k > 0 {
      HornerDigits(n / base, base, k - 1);
      HornerSnoc(Digits(n / base, base, k - 1), n % base, base);
      MixedRadix(n, base, Pow(base, k - 1));
    }
  }

  /** Reading digits that are all below the base and writing them back is the identity. */
  lemma {:induction false} DigitsHorner(ds: seq<nat>, base: nat)
    requires base >= 2
    requires forall i :: 0 <= i < |ds| ==> ds[i] < base
    ensures Digits(Horner(ds, base), base, |ds|) == ds
  {
    if |ds| > 0 {
      var init, last := ds[..|ds| - 1], ds[|ds| - 1];
      var h := Horner(init, base);
      assert ds == init + [last];
      DivModUnique(Horner(ds, base), base, h, last);
      DigitsHorner(init, base);
    }
  }

  /** A numeral of k digits below the base has a value below base^k. */
  lemma HornerBound(ds: seq<nat>, base: nat)
    requires base >= 2
    requires forall i :: 0 <= i < |ds| ==> ds[i] < base
    ensures Horner(ds, base) < Pow(base, |ds|)
  {
    DigitsHorner(ds, base);
    HornerDigits(Horner(ds, base), base, |ds|);
  }

  /** Dividing by the base and then by base^(k-1) is dividing by base^k. */
  lemma DivPow(n: nat, base: nat, k: nat)
    requires base >= 2 && k > 0
    ensures n / base / Pow(base, k - 1) == n / Pow(base, k)
  {
    MixedRadix(n, base, Pow(base, k - 1));
  }

  /** Dividing by base^k and then by the base is dividing by base^(k+1). */
  lemma DivPowSucc(n: nat, base: nat, k: nat)
    requires base >= 2
    ensures n / Pow(base, k) / base == n / Pow(base, k + 1)
  {
    var p := Pow(base, k);
    MixedRadix(n, p, base);
    assert Pow(base, k + 1) == base * p;
    assert p * base == base * p;
  }

  /** Digit k of a numeral of width len, counted from the most significant. */
  lemma {:induction false} DigitsAt(n: nat, base: nat, len: nat, k: nat)
    requires base >= 2 && k < len
    decreases len
    ensures Digits(n, base, len)[k] == (n / Pow(base, len - 1 - k)) % base
  {
    if k < len - 1 {
      DigitsAt(n / base, base, len - 1, k);
      DivPow(n, base, len - 1 - k);
    }
  }

  /** The digits of zero are all zero. */
  lemma {:induction false} DigitsZero(base: nat, k: nat)
    requires base >= 2
    ensures Digits(0, base, k) == seq(k, _ => 0)
  {
    if k > 0 {
      DigitsZero(base, k - 1);
      assert seq(k, _ => 0) == seq(k - 1, _ => 0) + [0];
    }
  }

  /** A single-digit number is written as leading zeros and that digit. */
  lemma DigitsSingle(n: nat, base: nat, k: nat)
    requires base >= 2 && n < base && k > 0
    ensures Digits(n, base, k) == seq(k - 1, _ => 0) + [n]
  {
    DivModUnique(n, base, 0, n);
    DigitsZero(base, k - 1);
  }

  /** Two numbers below base^k with the same k digits are equal. */
  lemma DigitsInjective(n: nat, n': nat, base: nat, k: nat)
    requires base >= 2
    requires n < Pow(base, k) && n' < Pow(base, k)
    requires Digits(n, base, k) == Digits(n', base, k)
    ensures n == n'
  {
    var p := Pow(base, k);
    HornerDigits(n, base, k);
    HornerDigits(n', base, k);
    DivModUnique(n, p, 0, n);
    DivModUnique(n', p, 0, n');
  }
}
