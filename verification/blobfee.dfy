/** The blob base fee of EIP-4844: the integer exponential of evm-common/src/block.rs, with its u128
    arithmetic. */
module BlobFee {
  import opened Types
  import opened GasRules

  const U128_MAX: nat := 0xffff_ffff_ffff_ffff_ffff_ffff_ffff_ffff
  const UPDATE_FRACTION: nat := 3338477

  function SatMul(a: nat, b: nat): nat {
    if a * b < U128_MAX then a * b else U128_MAX
  }

  /** The term after `term`, the i-th. */
  function NextTerm(factor: nat, denominator: nat, term: nat, i: nat): nat
    requires denominator > 0 && i > 0
  {
    Positive(denominator, i);
    SatMul(term, factor) / SatMul(denominator, i)
  }

  lemma Positive(a: nat, b: nat)
    requires a > 0 && b > 0
    ensures SatMul(a, b) > 0
  {
    assert a * b >= 1;
  }

  lemma CancelFactor(d: nat, x: nat, y: nat)
    requires d * x < d * (y + 1)
    ensures x <= y
  {
  }

  lemma DivMonotone(a: nat, b: nat, d: nat)
    requires a <= b && d > 0
    ensures a / d <= b / d
  {
    assert d * (a / d) <= a <= b < d * (b / d) + d == d * (b / d + 1);
    CancelFactor(d, a / d, b / d);
  }

  lemma DivShrinks(n: nat, f: nat, d: nat, m: nat)
    requires n > 0 && f < d && m <= n * f
    ensures m / d < n
  {
    assert d * (m / d) <= m <= n * f < n * d == d * n;
    CancelFactor(d, m / d, n - 1);
  }

  /** Once denominator * i has passed the factor, terms fall strictly. */
  lemma TermsFall(factor: nat, denominator: nat, term: nat, i: nat)
    requires denominator > 0 && i > 0 && factor < U128_MAX && denominator * i > factor && term > 0
    ensures NextTerm(factor, denominator, term, i) < term
  {
    DivShrinks(term, factor, SatMul(denominator, i), SatMul(term, factor));
  }

  /** Steps until denominator * i passes the factor; terms may grow until then. */
  function Climb(factor: nat, denominator: nat, i: nat): nat
    requires denominator > 0 && i > 0
  {
    if denominator * i <= factor then assert i <= denominator * i; factor + 1 - i else 0
  }

  lemma ClimbFalls(factor: nat, denominator: nat, i: nat)
    requires denominator > 0 && i > 0 && denominator * i <= factor
    ensures Climb(factor, denominator, i + 1) < Climb(factor, denominator, i)
  {
    assert i <= denominator * i;
  }

  /** The sum of `term` and everything after it. */
  function Series(factor: nat, denominator: nat, term: nat, i: nat): (sum: nat)
    requires denominator > 0 && i > 0 && factor < U128_MAX
    ensures sum >= term
    decreases Climb(factor, denominator, i), term
  {
    if term == 0 then 0
    else
      if denominator * i <= factor then
        ClimbFalls(factor, denominator, i);
        term + Series(factor, denominator, NextTerm(factor, denominator, term, i), i + 1)
      else
        assert denominator * (i + 1) > factor by { assert denominator * (i + 1) == denominator * i + denominator; }
        TermsFall(factor, denominator, term, i);
        term + Series(factor, denominator, NextTerm(factor, denominator, term, i), i + 1)
  }

  /** With the largest factor no term ever reaches zero. */
  lemma LargestFactorNeverEnds(denominator: nat, term: nat, i: nat)
    requires denominator > 0 && i > 0 && term > 0
    ensures NextTerm(U128_MAX, denominator, term, i) > 0
  {
    Positive(denominator, i);
    assert term * U128_MAX >= U128_MAX;
    DivMonotone(SatMul(denominator, i), U128_MAX, SatMul(denominator, i));
  }

  // ----- the terms of the loop ----------------------------------------------------------

  /** `q` is the quotient of `n` by `d`, rounded down. */
  predicate Quotient(n: nat, d: nat, q: nat) {
    q * d <= n < (q + 1) * d
  }

  /** The numerators the loop goes through: it starts from the denominator, each is the one before times the factor over
      the denominator times its number, u128 products stopping at the largest u128, and the last is the first zero. */
  ghost predicate Expansion(factor: nat, denominator: nat, terms: seq<nat>) {
    && terms != [] && terms[0] == denominator
    && (forall k :: 0 <= k < |terms| - 1 ==>
          && terms[k] > 0
          && Quotient(Min(terms[k] * factor, U128_MAX), Min(denominator * (k + 1), U128_MAX), terms[k + 1]))
  }

  function Sum(terms: seq<nat>): nat {
    if terms == [] then 0 else Sum(terms[..|terms| - 1]) + terms[|terms| - 1]
  }

  lemma NextTermIsQuotient(factor: nat, denominator: nat, term: nat, i: nat)
    requires denominator > 0 && i > 0
    ensures Quotient(Min(term * factor, U128_MAX), Min(denominator * i, U128_MAX),
                     NextTerm(factor, denominator, term, i))
  {
    Positive(denominator, i);
    var n, d := SatMul(term, factor), SatMul(denominator, i);
    assert n == d * (n / d) + n % d;
  }

  lemma ExpansionGrows(factor: nat, denominator: nat, terms: seq<nat>)
    requires denominator > 0 && Expansion(factor, denominator, terms) && terms[|terms| - 1] > 0
    ensures Expansion(factor, denominator, terms + [NextTerm(factor, denominator, terms[|terms| - 1], |terms|)])
  {
    NextTermIsQuotient(factor, denominator, terms[|terms| - 1], |terms|);
    hide Quotient, NextTerm;
  }

  /** `fake_exponential`; `None` when the u128 sum overflows.  That happens exactly when the series does not
      fit, or does not end at all. */
  method FakeExponential(factor: nat, denominator: nat) returns (r: Option<Word>, ghost terms: seq<nat>)
    requires factor <= U128_MAX && 0 < denominator <= U128_MAX
    ensures r.Some? <==> factor < U128_MAX && Series(factor, denominator, denominator, 1) <= U128_MAX
    ensures r.Some? ==> r.value == Series(factor, denominator, denominator, 1) / denominator >= 1
    ensures r.Some? ==> Expansion(factor, denominator, terms) && terms[|terms| - 1] == 0
    ensures r.Some? ==> r.value == Sum(terms) / denominator
  {
    hide NextTerm, Expansion, Quotient;
    var output, numerator, i := 0, denominator, 1;
    terms := [denominator];
    ghost var sum := 0;
    FirstTerm(factor, denominator);
    while numerator > 0
      invariant i > 0 && 0 <= output <= U128_MAX && numerator >= 0
      invariant factor == U128_MAX ==> numerator > 0
      invariant factor < U128_MAX ==>
        output + Series(factor, denominator, numerator, i) == Series(factor, denominator, denominator, 1)
      invariant |terms| == i && terms[i - 1] == numerator && output + numerator == Sum(terms)
      invariant Expansion(factor, denominator, terms)
      decreases U128_MAX - output
    {
      if output + numerator > U128_MAX { return None, terms; }
      output := output + numerator;
      if factor == U128_MAX { LargestFactorNeverEnds(denominator, numerator, i); }
      ExpansionGrows(factor, denominator, terms);
      numerator := NextTerm(factor, denominator, numerator, i);
      assert (terms + [numerator])[..|terms|] == terms;
      terms := terms + [numerator];
      i := i + 1;
    }
    DivMonotone(denominator, output, denominator);
    r := Some(output / denominator);
  }

  lemma FirstTerm(factor: nat, denominator: nat)
    ensures Expansion(factor, denominator, [denominator]) && Sum([denominator]) == denominator
  {
    assert [denominator][..0] == [];
  }

  // ----- the exponential ----------------------------------------------------------------

  function Scaled(x: real, f: nat, b: nat): real
    requires b > 0
  {
    x * f as real / b as real
  }

  function Product(d: nat, k: nat): (b: nat)
    ensures d > 0 && k > 0 ==> b > 0
  {
    d * k
  }

  /** d (f/d)^k / k!, the k-th term of d e^(f/d). */
  function Exact(f: nat, d: nat, k: nat): real
    requires d > 0
  {
    if k == 0 then d as real else Scaled(Exact(f, d, k - 1), f, Product(d, k))
  }

  /** What rounding down at every step can have cost the k-th term. */
  function Rounding(f: nat, d: nat, k: nat): real
    requires d > 0
  {
    if k == 0 then 0.0 else Scaled(Rounding(f, d, k - 1), f, Product(d, k)) + 1.0
  }

  function Factorial(k: nat): nat {
    if k == 0 then 1 else Product(k, Factorial(k - 1))
  }

  /** No product up to the last term reaches the largest u128. */
  ghost predicate Unsaturated(f: nat, d: nat, terms: seq<nat>) {
    forall k :: 0 <= k < |terms| - 1 ==> terms[k] * f <= U128_MAX && d * (k + 1) <= U128_MAX
  }

  lemma {:induction false} CastProduct(a: nat, b: nat)
    ensures (a * b) as real == a as real * b as real
  {
    if a > 0 {
      CastProduct(a - 1, b);
      assert a * b == (a - 1) * b + b;
    }
  }

  lemma AtMostQuotient(n: real, c: real, q: real)
    requires c > 0.0 && q * c <= n
    ensures q <= n / c
  {
    var x := n / c;
    assert x * c == n;
  }

  lemma AboveQuotient(n: real, c: real, q: real)
    requires c > 0.0 && n < q * c
    ensures n / c < q
  {
    var x := n / c;
    assert x * c == n;
  }

  lemma ScaledMonotone(x: real, y: real, f: nat, b: nat)
    requires b > 0 && x <= y
    ensures Scaled(x, f, b) <= Scaled(y, f, b)
  {
    MonotoneReals(x, y, f as real, b as real);
  }

  lemma MonotoneReals(x: real, y: real, g: real, c: real)
    requires c > 0.0 && g >= 0.0 && x <= y
    ensures x * g / c <= y * g / c
  {
    assert x * g <= y * g;
    var u := x * g / c;
    assert u * c == x * g;
    AtMostQuotient(y * g, c, u);
  }

  lemma ScaledSplit(x: real, y: real, f: nat, b: nat)
    requires b > 0
    ensures Scaled(x + y, f, b) == Scaled(x, f, b) + Scaled(y, f, b)
  {
  }

  lemma ScaledBracket(t: nat, f: nat, b: nat, q: nat)
    requires b > 0 && Quotient(t * f, b, q)
    ensures q as real <= Scaled(t as real, f, b) < q as real + 1.0
  {
    CastBracket(t, f, b, q);
    BracketReals(t as real * f as real, b as real, q as real);
  }

  lemma BracketReals(n: real, c: real, q: real)
    requires c > 0.0 && q * c <= n < (q + 1.0) * c
    ensures q <= n / c < q + 1.0
  {
    AtMostQuotient(n, c, q);
    AboveQuotient(n, c, q + 1.0);
  }

  lemma CastBracket(t: nat, f: nat, b: nat, q: nat)
    requires Quotient(t * f, b, q)
    ensures q as real * b as real <= t as real * f as real < (q as real + 1.0) * b as real
  {
    CastProduct(t, f);
    CastProduct(q, b);
    CastProduct(q + 1, b);
    assert (q + 1) as real == q as real + 1.0;
  }

  lemma ScaledTimes(e: real, f: nat, b: nat, m: nat, n: nat)
    requires b > 0 && e * m as real == n as real
    ensures Scaled(e, f, b) * Product(b, m) as real == Product(f, n) as real
  {
    CastProduct(b, m);
    CastProduct(f, n);
    RegroupReals(e, f as real, b as real, m as real, n as real);
  }

  lemma RegroupReals(e: real, g: real, h: real, m: real, n: real)
    requires h > 0.0 && e * m == n
    ensures e * g / h * (h * m) == g * n
  {
    var x := e * g / h;
    assert x * h == e * g;
    assert x * (h * m) == (x * h) * m;
    assert (e * g) * m == g * (e * m);
  }

  /** The exact terms are those of the exponential series: d f^k / (k! d^k). */
  lemma {:induction false} ExactClosedForm(f: nat, d: nat, k: nat)
    requires d > 0
    ensures Exact(f, d, k) * Product(Factorial(k), Pow(d, k)) as real == Product(d, Pow(f, k)) as real
  {
    hide Scaled, Product, Pow;
    if k > 0 {
      ExactClosedForm(f, d, k - 1);
      var m, n := Product(Factorial(k - 1), Pow(d, k - 1)), Product(d, Pow(f, k - 1));
      ScaledTimes(Exact(f, d, k - 1), f, Product(d, k), m, n);
      RegroupNats(k, Factorial(k - 1), d, Pow(d, k - 1));
      RegroupPowers(d, f, Pow(f, k - 1));
      PowStep(d, k);
      PowStep(f, k);
    } else {
      PowZero(d);
      PowZero(f);
    }
  }

  lemma PowZero(b: nat)
    ensures Pow(b, 0) == 1 && Product(1, 1) == 1 && forall d :: Product(d, 1) == d
  {
  }

  lemma PowStep(b: nat, k: nat)
    requires k > 0
    ensures Pow(b, k) == Product(b, Pow(b, k - 1))
  {
  }

  lemma RegroupNats(k: nat, a: nat, d: nat, p: nat)
    ensures Product(Product(k, a), Product(d, p)) == Product(Product(d, k), Product(a, p))
  {
    assert (k * a) * (d * p) == k * (a * (d * p));
    assert a * (d * p) == d * (a * p);
    assert k * (d * (a * p)) == (d * k) * (a * p);
  }

  lemma RegroupPowers(d: nat, f: nat, p: nat)
    ensures Product(d, Product(f, p)) == Product(f, Product(d, p))
  {
    assert d * (f * p) == f * (d * p);
  }

  /** While nothing saturates, the k-th term of the loop is the exact term rounded down, short of it by no more than the
      roundings along the way. */
  lemma {:induction false} TermsBracketed(f: nat, d: nat, terms: seq<nat>, k: nat)
    requires d > 0 && Expansion(f, d, terms) && Unsaturated(f, d, terms) && k < |terms|
    ensures terms[k] as real <= Exact(f, d, k) <= terms[k] as real + Rounding(f, d, k)
  {
    hide Expansion, Unsaturated, Scaled, Product, Quotient;
    if k > 0 {
      TermsBracketed(f, d, terms, k - 1);
      var t, e, x, b := terms[k - 1] as real, Exact(f, d, k - 1), Rounding(f, d, k - 1), Product(d, k);
      TermScaled(f, d, terms, k);
      ScaledMonotone(t, e, f, b);
      ScaledMonotone(e, t + x, f, b);
      ScaledSplit(t, x, f, b);
    } else {
      StartsAtDenominator(f, d, terms);
    }
  }

  lemma StartsAtDenominator(f: nat, d: nat, terms: seq<nat>)
    requires Expansion(f, d, terms)
    ensures terms[0] == d
  {
  }

  lemma TermScaled(f: nat, d: nat, terms: seq<nat>, k: nat)
    requires d > 0 && Expansion(f, d, terms) && Unsaturated(f, d, terms) && 0 < k < |terms|
    ensures terms[k] as real <= Scaled(terms[k - 1] as real, f, Product(d, k)) < terms[k] as real + 1.0
  {
    hide Scaled, Quotient;
    TermQuotient(f, d, terms, k);
    ScaledBracket(terms[k - 1], f, Product(d, k), terms[k]);
  }

  lemma TermQuotient(f: nat, d: nat, terms: seq<nat>, k: nat)
    requires Expansion(f, d, terms) && Unsaturated(f, d, terms) && 0 < k < |terms|
    ensures Quotient(terms[k - 1] * f, Product(d, k), terms[k])
  {
    hide Quotient;
    var i := k - 1;
    assert i + 1 == k && d * (i + 1) == Product(d, k);
    var t := terms[i];
    assert t * f <= U128_MAX && d * (i + 1) <= U128_MAX;
    assert Quotient(Min(t * f, U128_MAX), Min(d * (i + 1), U128_MAX), terms[i + 1]);
  }

  function ExactSum(f: nat, d: nat, n: nat): real
    requires d > 0
  {
    if n == 0 then 0.0 else ExactSum(f, d, n - 1) + Exact(f, d, n - 1)
  }

  function RoundingSum(f: nat, d: nat, n: nat): real
    requires d > 0
  {
    if n == 0 then 0.0 else RoundingSum(f, d, n - 1) + Rounding(f, d, n - 1)
  }

  lemma {:induction false} SumBracketed(f: nat, d: nat, terms: seq<nat>, n: nat)
    requires d > 0 && Expansion(f, d, terms) && Unsaturated(f, d, terms) && n <= |terms|
    ensures Sum(terms[..n]) as real <= ExactSum(f, d, n) <= Sum(terms[..n]) as real + RoundingSum(f, d, n)
  {
    hide Expansion, Unsaturated;
    if n > 0 {
      SumBracketed(f, d, terms, n - 1);
      TermsBracketed(f, d, terms, n - 1);
      assert terms[..n][..n - 1] == terms[..n - 1];
    }
  }

  /** So the answer is the partial sum of e^(f/d), rounded down and short of it by no more than the roundings. */
  lemma ExponentialBracket(f: nat, d: nat, terms: seq<nat>, value: nat)
    requires d > 0 && Expansion(f, d, terms) && Unsaturated(f, d, terms) && value == Sum(terms) / d
    ensures var n := |terms|;
            && value as real <= ExactSum(f, d, n) / d as real
            && ExactSum(f, d, n) / d as real < value as real + 1.0 + RoundingSum(f, d, n) / d as real
  {
    hide Expansion, Unsaturated, Exact, Rounding;
    SumBracketed(f, d, terms, |terms|);
    assert terms[..|terms|] == terms;
    DivideBracket(Sum(terms), d, ExactSum(f, d, |terms|), RoundingSum(f, d, |terms|));
  }

  lemma DivideBracket(sum: nat, d: nat, exact: real, x: real)
    requires d > 0 && sum as real <= exact <= sum as real + x
    ensures (sum / d) as real <= exact / d as real < (sum / d) as real + 1.0 + x / d as real
  {
    var value, c := sum / d, d as real;
    CastProduct(value, d);
    CastProduct(value + 1, d);
    assert value * d <= sum < (value + 1) * d;
    AtMostQuotient(exact, c, value as real);
    Distribute(value as real + 1.0, x, c);
    AboveQuotient(exact, c, value as real + 1.0 + x / c);
  }

  lemma Distribute(v: real, x: real, c: real)
    requires c > 0.0
    ensures (v + x / c) * c == v * c + x
  {
    assert x / c * c == x;
  }

  // ----- monotonicity -------------------------------------------------------------------

  lemma TermMonotone(f: nat, f': nat, denominator: nat, term: nat, term': nat, i: nat)
    requires denominator > 0 && i > 0 && f <= f' && term <= term'
    ensures NextTerm(f, denominator, term, i) <= NextTerm(f', denominator, term', i)
  {
    assert term * f <= term' * f' by {
      assert term * f <= term' * f;
      assert term' * f <= term' * f';
    }
    Positive(denominator, i);
    DivMonotone(SatMul(term, f), SatMul(term', f'), SatMul(denominator, i));
  }

  /** More excess blob gas never costs less. */
  lemma {:induction false} SeriesMonotone(f: nat, f': nat, denominator: nat, term: nat, term': nat, i: nat)
    requires denominator > 0 && i > 0 && f <= f' < U128_MAX && term <= term'
    ensures Series(f, denominator, term, i) <= Series(f', denominator, term', i)
    decreases Climb(f', denominator, i), term'
  {
    if term > 0 {
      TermMonotone(f, f', denominator, term, term', i);
      if denominator * i <= f' {
        ClimbFalls(f', denominator, i);
      } else {
        assert denominator * (i + 1) == denominator * i + denominator;
        TermsFall(f', denominator, term', i);
      }
      SeriesMonotone(f, f', denominator, NextTerm(f, denominator, term, i), NextTerm(f', denominator, term', i), i + 1);
    }
  }

  /** The fee for an excess of blob gas, where the sum fits. */
  function Price(excess: nat): nat
    requires excess < U128_MAX
  {
    Series(excess, UPDATE_FRACTION, UPDATE_FRACTION, 1) / UPDATE_FRACTION
  }

  /** `blob_gas_price`: the shortcut for no excess is the value of the series. */
  method BlobGasPrice(excess: nat) returns (r: Option<Word>, ghost terms: seq<nat>)
    requires excess < 0x1_0000_0000_0000_0000
    ensures r.Some? <==> Series(excess, UPDATE_FRACTION, UPDATE_FRACTION, 1) <= U128_MAX
    ensures r.Some? ==> r.value == Price(excess) >= 1
    ensures r.Some? ==> Expansion(excess, 3338477, terms) && terms[|terms| - 1] == 0 && r.value == Sum(terms) / 3338477
  {
    if excess == 0 {
      assert NextTerm(0, UPDATE_FRACTION, UPDATE_FRACTION, 1) == 0;
      FirstTerm(0, UPDATE_FRACTION);
      assert [UPDATE_FRACTION, 0][..1] == [UPDATE_FRACTION];
      assert Sum([UPDATE_FRACTION, 0]) == UPDATE_FRACTION + 0;
      return Some(1), [UPDATE_FRACTION, 0];
    }
    r, terms := FakeExponential(excess, UPDATE_FRACTION);
  }

  lemma PriceMonotone(excess: nat, more: nat)
    requires excess <= more < U128_MAX
    ensures 1 <= Price(excess) <= Price(more)
  {
    var d := UPDATE_FRACTION;
    SeriesMonotone(excess, more, d, d, d, 1);
    DivMonotone(Series(excess, d, d, 1), Series(more, d, d, 1), d);
    DivMonotone(d, Series(excess, d, d, 1), d);
  }
}
