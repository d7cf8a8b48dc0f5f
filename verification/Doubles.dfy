/** What `JSON.parse` makes of an integer: the nearest double, ties to the even one. */
module Doubles {

  /** Up to here every integer is a double of its own. */
  const EXACT: int := 0x20_0000_0000_0000

  /** The multiple of `q` nearest to `k * q + rem`; halfway, the even one. */
  function Choose(k: nat, rem: nat, q: nat): nat {
    if 2 * rem < q || (2 * rem == q && k % 2 == 0) then k * q else (k + 1) * q
  }

  function Nearest(n: nat, q: nat): nat
    requires 1 <= q
  {
    Choose(n / q, n % q, q)
  }

  /** Doubles of this size are `q` apart, or further. */
  function Rounded(n: nat, q: nat): nat
    requires 1 <= q
    decreases n - q
  {
    if n < EXACT * q then Nearest(n, q) else Rounded(n, 2 * q)
  }

  function AsDouble(x: int): int
    decreases x < 0
  {
    if x < 0 then -AsDouble(-x) else Rounded(x, 1)
  }

  // ---- rounding keeps order ---------------------------------------------------------

  lemma ChooseBetween(k: nat, rem: nat, q: nat)
    requires rem < q
    ensures k * q <= Choose(k, rem, q) <= (k + 1) * q == k * q + q
    ensures rem == 0 ==> Choose(k, rem, q) == k * q
  {}

  lemma NearestBetween(n: nat, q: nat, k: nat)
    requires 1 <= q
    ensures k * q <= n ==> k * q <= Nearest(n, q)
    ensures n <= k * q ==> Nearest(n, q) <= k * q
  {
    var j := n / q;
    assert n == j * q + n % q;
    ChooseBetween(j, n % q, q);
    if k <= j { LessTimes(k, j, q); } else { LessTimes(j + 1, k, q); }
  }

  lemma LessTimes(a: nat, b: nat, q: nat)
    requires a <= b || a * q < b * q
    ensures a * q <= b * q
  {
    if a <= b { assert (b - a) * q >= 0; }
  }

  lemma ChooseKeepsOrder(j: nat, r: nat, k: nat, s: nat, q: nat)
    requires r < q && s < q && j * q + r <= k * q + s
    ensures Choose(j, r, q) <= Choose(k, s, q)
  {
    ChooseBetween(j, r, q);
    ChooseBetween(k, s, q);
    if j < k { LessTimes(j + 1, k, q); } else if k < j { LessTimes(k + 1, j, q); }
  }

  lemma NearestKeepsOrder(m: nat, n: nat, q: nat)
    requires 1 <= q && m <= n
    ensures Nearest(m, q) <= Nearest(n, q)
  {
    assert m == m / q * q + m % q && n == n / q * q + n % q;
    ChooseKeepsOrder(m / q, m % q, n / q, n % q, q);
  }

  lemma {:induction false} RoundedIsLarge(n: nat, q: nat, half: nat)
    requires 1 <= half && q == 2 * half && EXACT * half <= n
    ensures EXACT * half <= Rounded(n, q)
    decreases n - q
  {
    if n < EXACT * q { NearestBetween(n, q, EXACT / 2); } else { RoundedIsLarge(n, 2 * q, q); }
  }

  lemma {:induction false} RoundedKeepsOrder(m: nat, n: nat, q: nat)
    requires 1 <= q && m <= n
    ensures Rounded(m, q) <= Rounded(n, q)
    decreases n - q
  {
    if n < EXACT * q {
      NearestKeepsOrder(m, n, q);
    } else if m < EXACT * q {
      NearestBetween(m, q, EXACT);
      RoundedIsLarge(n, 2 * q, q);
    } else {
      RoundedKeepsOrder(m, n, 2 * q);
    }
  }

  /** The browser may read two numbers as one, but never turns them round. */
  lemma AsDoubleKeepsOrder(x: int, y: int)
    requires x <= y
    ensures AsDouble(x) <= AsDouble(y)
  {
    if 0 <= x { RoundedKeepsOrder(x, y, 1); } else if y < 0 { RoundedKeepsOrder(-y, -x, 1); }
  }

  lemma AsDoubleIsExact(x: int)
    requires -EXACT <= x <= EXACT
    ensures AsDouble(x) == x
  {
    assert Rounded(EXACT, 2) == Nearest(EXACT, 2);
  }

  /** The first number that is not a double of its own. */
  lemma FirstInexact()
    ensures AsDouble(EXACT + 1) == AsDouble(EXACT) == EXACT
  {
    assert Rounded(EXACT + 1, 2) == Nearest(EXACT + 1, 2);
    assert Rounded(EXACT, 2) == Nearest(EXACT, 2);
  }

  // ---- rounding is to the nearest -----------------------------------------------------

  predicate PowerOfTwo(q: nat)
    decreases q
  {
    q == 1 || (q > 1 && q % 2 == 0 && PowerOfTwo(q / 2))
  }

  function Apart(a: int, b: int): nat {
    if a < b then b - a else a - b
  }

  /** `d` is the multiple of `q` nearest to `n`, the even one of two equally near. */
  ghost predicate NearestMultiple(d: int, n: int, q: nat) {
    exists k: nat :: d == k * q && NoNearer(k, n, q)
  }

  ghost predicate NoNearer(k: nat, n: int, q: nat) {
    forall j: nat :: Apart(k * q, n) <= Apart(j * q, n) && (j != k && Apart(k * q, n) == Apart(j * q, n) ==> k % 2 == 0)
  }

  lemma ChooseIsNearest(k: nat, rem: nat, q: nat, j: nat)
    requires rem < q
    ensures var c := if 2 * rem < q || (2 * rem == q && k % 2 == 0) then k else k + 1;
      var n := k * q + rem;
      && Choose(k, rem, q) == c * q && Apart(c * q, n) <= Apart(j * q, n)
      && (j != c && Apart(c * q, n) == Apart(j * q, n) ==> c % 2 == 0)
  {
    ChooseBetween(k, rem, q);
    if j < k { LessTimes(j + 1, k, q); } else if k + 1 < j { LessTimes(k + 2, j, q); }
    assert (j + 1) * q == j * q + q && (k + 2) * q == k * q + 2 * q;
  }

  lemma NearestIsNearest(n: nat, q: nat)
    requires 1 <= q
    ensures NearestMultiple(Nearest(n, q), n, q)
  {
    var k, rem := n / q, n % q;
    assert n == k * q + rem;
    var c := if 2 * rem < q || (2 * rem == q && k % 2 == 0) then k else k + 1;
    forall j: nat
      ensures Apart(c * q, n) <= Apart(j * q, n) && (j != c && Apart(c * q, n) == Apart(j * q, n) ==> c % 2 == 0)
    {
      ChooseIsNearest(k, rem, q, j);
    }
    ChooseIsNearest(k, rem, q, 0);
    assert NoNearer(c, n, q);
  }

  /** The doubles next to `n` lie `q` apart: the least power of two that leaves `n` below
      53 bits of them. */
  predicate Spacing(n: nat, q: nat) {
    PowerOfTwo(q) && n < EXACT * q && (q == 1 || EXACT * q <= 2 * n)
  }

  lemma {:induction false} RoundedIsNearest(n: nat, q: nat) returns (r: nat)
    requires PowerOfTwo(q) && (q == 1 || EXACT * q <= 2 * n)
    ensures Spacing(n, r) && NearestMultiple(Rounded(n, q), n, r)
    decreases n - q
  {
    if n < EXACT * q {
      NearestIsNearest(n, q);
      r := q;
    } else {
      r := RoundedIsNearest(n, 2 * q);
    }
  }

  /** What the browser reads a number as is the double nearest to it, in either sign. */
  lemma AsDoubleIsNearest(x: int) returns (q: nat)
    requires 0 <= x
    ensures Spacing(x, q) && NearestMultiple(AsDouble(x), x, q) && AsDouble(-x) == -AsDouble(x)
  {
    q := RoundedIsNearest(x, 1);
    assert Rounded(0, 1) == 0;
  }
}
