/**
 Random numbers below a bound, by drawing words until one is not below a threshold. The threshold is what 2^31
 leaves when divided by the bound, where 2^32 was meant. What that does to the results is proved for words of any
 width: half is half the number of words there are.
 */
module Uniform {
  import opened Bytes

  function Threshold(half: nat, bound: nat): (t: nat)
    requires bound > 0
    ensures t < bound && t <= half
  {
    half % bound
  }

  // ---- Drawing ----

  /** The words are those the generator will give; None when none of them was accepted. */
  method DrawBelow(bound: nat, words: seq<nat>) returns (r: Option<nat>, used: nat)
    requires forall w <- words :: w < TWO_TO_32
    ensures bound < 2 ==> r == Some(0) && used == 0
    ensures bound >= 2 && r.Some? ==>
      && 0 < used <= |words| && words[used - 1] >= Threshold(TWO_TO_31, bound)
      && r.value == words[used - 1] % bound < bound
      && forall i :: 0 <= i < used - 1 ==> words[i] < Threshold(TWO_TO_31, bound)
    ensures bound >= 2 && r.None? ==> forall w <- words :: w < Threshold(TWO_TO_31, bound)
  {
    if bound < 2 {
      return Some(0), 0;
    }
    var min := TWO_TO_31 % bound;
    used := 0;
    while used < |words|
      invariant used <= |words| && forall i :: 0 <= i < used ==> words[i] < min
    {
      var word := words[used];
      used := used + 1;
      if word >= min {
        return Some(word % bound), used;
      }
    }
    r := None;
  }

  // ---- How many words give each result ----

  /** The words below n that leave c. */
  function CountBelow(n: nat, bound: nat, c: nat): nat
    requires bound > 0
  {
    if n == 0 then 0 else CountBelow(n - 1, bound, c) + if (n - 1) % bound == c then 1 else 0
  }

  lemma NextQuotient(n: nat, bound: nat)
    requires bound > 0
    ensures (n + 1) / bound == (if n % bound == bound - 1 then n / bound + 1 else n / bound)
    ensures (n + 1) % bound == (if n % bound == bound - 1 then 0 else n % bound + 1)
  {
    var q, r := n / bound, n % bound;
    assert n == q * bound + r;
    if r == bound - 1 {
      assert n + 1 == (q + 1) * bound;
      DivideExact(n + 1, bound, q + 1, 0);
    } else {
      DivideExact(n + 1, bound, q, r + 1);
    }
  }

  lemma {:induction false} MultiplesAreApart(a: nat, b: nat, m: nat)
    requires a < b
    ensures a * m + m <= b * m
    decreases b
  {
    assert (b - 1) * m + m == b * m;
    if a < b - 1 {
      MultiplesAreApart(a, b - 1, m);
    }
  }

  lemma DivideExact(n: nat, bound: nat, q: nat, r: nat)
    requires r < bound && n == q * bound + r
    ensures n / bound == q && n % bound == r
  {
    var q', r' := n / bound, n % bound;
    if q' < q {
      MultiplesAreApart(q', q, bound);
    } else if q < q' {
      MultiplesAreApart(q, q', bound);
    }
  }

  lemma {:induction false} CountIsQuotient(n: nat, bound: nat, c: nat)
    requires c < bound
    ensures CountBelow(n, bound, c) == n / bound + if c < n % bound then 1 else 0
  {
    if n > 0 {
      CountIsQuotient(n - 1, bound, c);
      NextQuotient(n - 1, bound);
    }
  }

  /** How many of the words that are accepted at a threshold give c. */
  function Accepted(words: nat, threshold: nat, bound: nat, c: nat): int
    requires bound > 0
  {
    CountBelow(words, bound, c) - CountBelow(threshold, bound, c)
  }

  predicate Even(words: nat, threshold: nat, bound: nat)
    requires bound > 0
  {
    forall c, d :: 0 <= c < bound && 0 <= d < bound ==>
      Accepted(words, threshold, bound, c) == Accepted(words, threshold, bound, d)
  }

  lemma AcceptedIsQuotient(words: nat, threshold: nat, bound: nat, c: nat)
    requires c < bound && threshold < bound && threshold <= words
    ensures Accepted(words, threshold, bound, c) ==
      words / bound + (if c < words % bound then 1 else 0) - if c < threshold then 1 else 0
  {
    CountIsQuotient(words, bound, c);
    CountIsQuotient(threshold, bound, c);
    DivideExact(threshold, bound, 0, threshold);
  }

  /** Twice a remainder, reduced. */
  lemma DoubledRemainder(half: nat, bound: nat)
    requires bound > 0
    ensures var t := Threshold(half, bound);
      (2 * half) % bound == if 2 * t < bound then 2 * t else 2 * t - bound
  {
    var q, t := half / bound, half % bound;
    assert half == q * bound + t;
    assert (2 * q) * bound == 2 * (q * bound);
    if 2 * t < bound {
      DivideExact(2 * half, bound, 2 * q, 2 * t);
    } else {
      assert (2 * q + 1) * bound == (2 * q) * bound + bound;
      DivideExact(2 * half, bound, 2 * q + 1, 2 * t - bound);
    }
  }

  /** As written, no two results differ by more than one word. */
  lemma NearlyEven(half: nat, bound: nat, c: nat, d: nat)
    requires c < bound && d < bound
    ensures -1 <= Accepted(2 * half, Threshold(half, bound), bound, c)
                  - Accepted(2 * half, Threshold(half, bound), bound, d) <= 1
  {
    hide Accepted;
    DoubledRemainder(half, bound);
    AcceptedIsQuotient(2 * half, Threshold(half, bound), bound, c);
    AcceptedIsQuotient(2 * half, Threshold(half, bound), bound, d);
  }

  lemma EvenWhen(words: nat, bound: nat, threshold: nat)
    requires bound > 0 && threshold == words % bound && threshold <= words
    ensures Even(words, threshold, bound)
  {
    hide Accepted;
    forall c: nat | c < bound ensures Accepted(words, threshold, bound, c) == words / bound {
      AcceptedIsQuotient(words, threshold, bound, c);
    }
  }

  lemma UnevenWhen(words: nat, bound: nat, threshold: nat, c: nat, d: nat)
    requires c < bound && d < bound
    requires Accepted(words, threshold, bound, c) != Accepted(words, threshold, bound, d)
    ensures !Even(words, threshold, bound)
  {
  }

  /** As written, the results are equally likely exactly when the bound divides half the number of words. */
  lemma EvenIffDivides(half: nat, bound: nat)
    requires bound > 0
    ensures Even(2 * half, Threshold(half, bound), bound) <==> half % bound == 0
  {
    hide Accepted, Even;
    var t := Threshold(half, bound);
    DoubledRemainder(half, bound);
    if t == 0 {
      EvenWhen(2 * half, bound, t);
    } else if 2 * t < bound {
      AcceptedIsQuotient(2 * half, t, bound, t);
      AcceptedIsQuotient(2 * half, t, bound, 0);
      UnevenWhen(2 * half, bound, t, t, 0);
    } else {
      AcceptedIsQuotient(2 * half, t, bound, t - 1);
      AcceptedIsQuotient(2 * half, t, bound, t);
      UnevenWhen(2 * half, bound, t, t - 1, t);
    }
  }

  /** With the threshold that was meant, the results are equally likely for every bound. */
  lemma IntendedThresholdIsEven(words: nat, bound: nat)
    requires bound > 0
    ensures Even(words, words % bound, bound)
  {
    EvenWhen(words, bound, words % bound);
  }

  /** Above half the number of words there are results that no word gives. */
  lemma LargeBoundsMissResults(half: nat, bound: nat, c: nat)
    requires half < bound < 2 * half && 2 * half - bound <= c < half
    ensures Accepted(2 * half, Threshold(half, bound), bound, c) == 0
  {
    hide Accepted;
    DivideExact(half, bound, 0, half);
    DivideExact(2 * half, bound, 1, 2 * half - bound);
    AcceptedIsQuotient(2 * half, half, bound, c);
  }

  // ---- The bounds that divide 2^31 ----

  function Power(k: nat): (p: nat)
    ensures p >= 1
  {
    if k == 0 then 1 else 2 * Power(k - 1)
  }

  lemma HalfOfProduct(d: nat, q: nat)
    requires d % 2 == 0
    ensures d * q == 2 * ((d / 2) * q)
  {
    var e := d / 2;
    assert d == 2 * e;
  }

  lemma OddProduct(d: nat, q: nat)
    requires d % 2 == 1 && q % 2 == 1
    ensures (d * q) % 2 == 1
  {
    var e, m := d / 2, (d / 2) * q;
    assert d * q == 2 * m + q by {
      assert d == 2 * e + 1;
    }
  }

  lemma ProductOne(d: nat, q: nat)
    requires d * q == 1
    ensures d == 1
  {
    if d > 1 && q > 0 {
      MultiplesAreApart(1, d, q);
    }
  }

  lemma {:induction false} DivisorIsPower(n: nat, d: nat, q: nat) returns (k: nat)
    requires Power(n) == d * q
    ensures k <= n && d == Power(k)
  {
    if n == 0 {
      ProductOne(d, q);
      k := 0;
    } else if d % 2 == 0 {
      HalfOfProduct(d, q);
      k := DivisorIsPower(n - 1, d / 2, q);
      k := k + 1;
    } else if q % 2 == 0 {
      HalfOfProduct(q, d);
      assert (q / 2) * d == d * (q / 2);
      k := DivisorIsPower(n - 1, d, q / 2);
    } else {
      OddProduct(d, q);
      assert false;
    }
  }

  lemma {:induction false} PowerDivides(n: nat, k: nat) returns (q: nat)
    requires k <= n
    ensures Power(n) == Power(k) * q
  {
    if k == n {
      q := 1;
    } else {
      q := PowerDivides(n - 1, k);
      assert 2 * (Power(k) * q) == Power(k) * (2 * q);
      q := 2 * q;
    }
  }

  lemma PowerOf31()
    ensures Power(31) == TWO_TO_31
  {
    assert Power(8) == 256;
    assert Power(16) == 0x1_0000;
    assert Power(24) == 0x100_0000;
  }

  /** So the generator is even exactly for the powers of two up to 2^31. */
  lemma EvenIffPowerOfTwo(bound: nat)
    requires bound > 0
    ensures Even(2 * TWO_TO_31, Threshold(TWO_TO_31, bound), bound) <==> exists k: nat :: k <= 31 && bound == Power(k)
  {
    hide Even, Power;
    PowerOf31();
    EvenIffDivides(TWO_TO_31, bound);
    var q := TWO_TO_31 / bound;
    if TWO_TO_31 % bound == 0 {
      assert TWO_TO_31 == bound * q;
      var k := DivisorIsPower(31, bound, q);
    }
    if k: nat :| k <= 31 && bound == Power(k) {
      q := PowerDivides(31, k);
      DivideExact(TWO_TO_31, bound, q, 0);
    }
  }
}
