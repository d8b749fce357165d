/** Gas arithmetic of src/executor.rs: the gas counter, memory expansion, the 63/64 forwarding rule
    with its stipend, and what that rule implies for call depth. */
module GasRules {
  import opened Types

  const CALL_DEPTH_LIMIT: nat := 1024
  const STIPEND: nat := 2300
  const VALUE_COST: nat := 9000

  datatype Gas = Gas(limit: int, used: int, refund: int) {
    function Remaining(): int {
      limit - used
    }

    function Charge(cost: int): Gas {
      this.(used := used + cost)
    }

    /** Gas billed for the transaction; a fifth of it at most can be refunded. */
    function Finalized(callCost: int, reverted: bool): int {
      var total := used + callCost;
      if reverted then total else total - Min(refund, total / 5)
    }
  }

  lemma FinalizedBounds(g: Gas, callCost: int, reverted: bool)
    requires g.used + callCost >= 0 && g.refund >= 0
    ensures var total := g.used + callCost;
            total - total / 5 <= g.Finalized(callCost, reverted) <= total
  {
  }

  // ----- memory -------------------------------------------------------------------------

  /** Total price of a memory of `words` words. */
  function MemoryPrice(words: nat): nat {
    words * words / 512 + 3 * words
  }

  function RoundUp(end: nat): (len: nat)
    ensures len % 32 == 0 && end <= len < end + 32
  {
    (end + 31) / 32 * 32
  }

  /** The source pads with `32 - end % 32` taken modulo 32. */
  lemma PaddingRoundsUp(end: nat)
    ensures end + (32 - end % 32) % 32 == RoundUp(end)
  {
  }

  function Resized(len: nat, end: nat): nat {
    if end > len then RoundUp(end) else len
  }

  lemma MemoryPriceMonotone(u: nat, v: nat)
    requires u <= v
    ensures MemoryPrice(u) <= MemoryPrice(v)
  {
    assert u * u <= v * v by {
      assert u * u <= u * v;
      assert u * v <= v * v;
    }
  }

  /** Memory length after a run of accesses, each given by the end of its range. */
  function LengthAfter(len: nat, ends: seq<nat>): nat {
    if ends == [] then len else Resized(LengthAfter(len, ends[..|ends| - 1]), ends[|ends| - 1])
  }

  /** Sum of the expansion charges along the run. */
  function ChargesAlong(len: nat, ends: seq<nat>): int {
    if ends == [] then 0
    else
      var before := LengthAfter(len, ends[..|ends| - 1]);
      ChargesAlong(len, ends[..|ends| - 1])
        + MemoryPrice(Resized(before, ends[|ends| - 1]) / 32) - MemoryPrice(before / 32)
  }

  /** Charges telescope: the total is the price of the final length, whatever the path. */
  lemma {:induction false} ChargesTelescope(len: nat, ends: seq<nat>)
    requires len % 32 == 0
    ensures LengthAfter(len, ends) % 32 == 0 && len <= LengthAfter(len, ends)
    ensures ChargesAlong(len, ends) == MemoryPrice(LengthAfter(len, ends) / 32) - MemoryPrice(len / 32) >= 0
  {
    if ends != [] {
      ChargesTelescope(len, ends[..|ends| - 1]);
    }
    MemoryPriceMonotone(len / 32, LengthAfter(len, ends) / 32);
  }

  lemma RoundUpIsLeast(end: nat, bound: nat)
    requires bound % 32 == 0
    ensures end <= bound <==> RoundUp(end) <= bound
  {
  }

  ghost predicate Covers(bound: nat, ends: seq<nat>) {
    forall i :: 0 <= i < |ends| ==> ends[i] <= bound
  }

  /** The final length is the smallest multiple of 32 that covers every access. */
  lemma {:induction false} LengthIsLeastCover(len: nat, ends: seq<nat>, bound: nat)
    requires bound % 32 == 0
    ensures LengthAfter(len, ends) <= bound <==> len <= bound && Covers(bound, ends)
  {
    if ends != [] {
      var front, last := ends[..|ends| - 1], ends[|ends| - 1];
      LengthIsLeastCover(len, front, bound);
      RoundUpIsLeast(last, bound);
      assert forall i :: 0 <= i < |front| ==> front[i] == ends[i];
      assert Covers(bound, ends) <==> Covers(bound, front) && last <= bound;
    }
  }

  /** Hence the order of accesses does not matter, nor do repetitions. */
  lemma ChargesIgnoreOrder(len: nat, one: seq<nat>, other: seq<nat>)
    requires len % 32 == 0
    requires forall e :: e in one <==> e in other
    ensures ChargesAlong(len, one) == ChargesAlong(len, other)
  {
    hide ChargesAlong, LengthAfter, MemoryPrice;
    ChargesTelescope(len, one);
    ChargesTelescope(len, other);
    LengthIsLeastCover(len, one, LengthAfter(len, other));
    LengthIsLeastCover(len, other, LengthAfter(len, one));
    LengthIsLeastCover(len, one, LengthAfter(len, one));
    LengthIsLeastCover(len, other, LengthAfter(len, other));
    assert forall i :: 0 <= i < |one| ==> one[i] in one;
    assert forall i :: 0 <= i < |other| ==> other[i] in other;
  }

  // ----- forwarding ---------------------------------------------------------------------

  /** All but one 64th of what is left after the base cost. */
  function AllButOne64th(rest: nat): nat {
    rest - rest / 64
  }

  /** Gas handed to a child frame. */
  function Forwarded(remaining: int, base: int, asked: nat, stipend: nat): int {
    Min(asked, (remaining - base) - (remaining - base) / 64) + stipend
  }

  /** The base cost of a call covers both the rounding of the 64th and the stipend. */
  predicate CallBase(base: int, stipend: nat) {
    base >= 100 && (stipend == 0 || (stipend == STIPEND && base >= VALUE_COST + 100))
  }

  lemma ChildLimit(remaining: int, base: int, asked: nat, stipend: nat)
    requires CallBase(base, stipend) && base <= remaining
    ensures var child := Forwarded(remaining, base, asked, stipend);
            0 <= child < remaining && 64 * child <= 63 * remaining
  {
  }

  /** Without the stipend a child gets what was asked for, or as much as the 63/64 rule leaves if that is less. */
  lemma ForwardedIsGreatest(remaining: int, base: int, asked: nat, stipend: nat)
    requires base <= remaining
    ensures var x, rest := Forwarded(remaining, base, asked, stipend) - stipend, remaining - base;
            && 0 <= x <= asked && 64 * x <= 63 * rest + 63
            && (x == asked || forall y: int :: 64 * y <= 63 * rest + 63 ==> y <= x)
  {
  }

  /** Whatever the child used, the caller can still pay its base cost afterwards and has strictly
      less gas than before: the check the source leaves as a TODO is not needed. */
  lemma CallerCanStillPay(remaining: int, base: int, asked: nat, stipend: nat, childUsed: nat)
    requires CallBase(base, stipend) && base <= remaining
    requires childUsed <= Forwarded(remaining, base, asked, stipend)
    ensures 0 < childUsed - stipend + base <= remaining
  {
  }

  // ----- depth --------------------------------------------------------------------------

  function Pow(b: nat, n: nat): nat {
    if n == 0 then 1 else b * Pow(b, n - 1)
  }

  /** A frame `levels` below the top has at most (63/64)^levels of the top frame's gas. */
  predicate DepthBudget(top: nat, levels: nat, gas: int) {
    Pow(64, levels) * gas <= Pow(63, levels) * top
  }

  lemma BudgetShrinks(top: nat, levels: nat, gas: int, less: int)
    requires DepthBudget(top, levels, gas) && less <= gas
    ensures DepthBudget(top, levels, less)
  {
    assert Pow(64, levels) * less <= Pow(64, levels) * gas;
  }

  lemma BudgetDeepens(top: nat, levels: nat, remaining: int, child: int)
    requires DepthBudget(top, levels, remaining) && 64 * child <= 63 * remaining
    ensures DepthBudget(top, levels + 1, child)
  {
    var a, b := Pow(64, levels), Pow(63, levels);
    calc {
      Pow(64, levels + 1) * child;
      a * (64 * child);
    <=
      a * (63 * remaining);
      63 * (a * remaining);
    <=
      63 * (b * top);
      Pow(63, levels + 1) * top;
    }
  }

  /** (64/63)^n is at least `p` millionths. */
  predicate Ratio(n: nat, p: nat) {
    Pow(64, n) * 1_000_000 >= Pow(63, n) * p
  }

  lemma {:induction false} PowDouble(b: nat, n: nat, k: nat)
    ensures Pow(b, n + k) == Pow(b, n) * Pow(b, k)
  {
    if k > 0 {
      PowDouble(b, n, k - 1);
      assert b * (Pow(b, n) * Pow(b, k - 1)) == Pow(b, n) * (b * Pow(b, k - 1));
    }
  }

  lemma SquareMonotone(x: nat, y: nat)
    requires y <= x
    ensures y * y <= x * x
  {
    assert y * y <= y * x;
    assert y * x <= x * x;
  }

  lemma ScaledSquares(s: nat, b: nat, p: nat, p': nat)
    requires 63 * p' * 1_000_000 <= 64 * p * p
    requires s * 1_000_000_000_000 >= (b * p) * (b * p)
    ensures 64 * s * 1_000_000 >= 63 * (b * b) * p'
  {
    var q, u := b * b, p * p;
    assert (b * p) * (b * p) == q * u;
    assert q * (64 * u) >= q * (63 * p' * 1_000_000);
    assert q * (63 * p' * 1_000_000) == 1_000_000 * (63 * q * p');
    assert q * (64 * u) == 64 * (q * u);
  }

  lemma SquareGap(a: nat, b: nat, p: nat, p': nat)
    requires a * 1_000_000 >= b * p
    requires 63 * p' * 1_000_000 <= 64 * p * p
    ensures 64 * (a * a) * 1_000_000 >= 63 * (b * b) * p'
  {
    SquareMonotone(a * 1_000_000, b * p);
    assert (a * 1_000_000) * (a * 1_000_000) == (a * a) * 1_000_000_000_000;
    ScaledSquares(a * a, b, p, p');
  }

  lemma RatioStep(n: nat, p: nat, p': nat) returns (m: nat)
    requires Ratio(n, p)
    requires 63 * p' * 1_000_000 <= 64 * p * p
    ensures m == 2 * n + 1 && Ratio(m, p')
  {
    PowDouble(64, n, n);
    PowDouble(63, n, n);
    SquareGap(Pow(64, n), Pow(63, n), p, p');
    m := 2 * n + 1;
  }

  lemma RatioOfOne() returns (n: nat)
    ensures n == 1 && Ratio(n, 1_015_873)
  {
    n := 1;
    assert Pow(64, 0) == Pow(63, 0) == 1;
  }

  /** (64/63)^1023 exceeds 9.9 million. */
  lemma RatioTower() returns (n: nat)
    ensures n <= 1023 && Ratio(n, 9_900_000_000_000)
  {
    n := RatioOfOne();
    n := RatioStep(n, 1_015_873, 1_048_378);
    n := RatioStep(n, 1_048_378, 1_116_542);
    n := RatioStep(n, 1_116_542, 1_266_454);
    n := RatioStep(n, 1_266_454, 1_629_364);
    n := RatioStep(n, 1_629_364, 2_696_967);
    n := RatioStep(n, 2_696_967, 7_389_085);
    n := RatioStep(n, 7_389_085, 55_465_221);
    n := RatioStep(n, 55_465_221, 3_125_222_339);
    n := RatioStep(n, 3_125_222_339, 9_900_000_000_000);
  }

  lemma {:induction false} RatioGrows(n: nat, m: nat, p: nat)
    requires Ratio(n, p) && n <= m
    ensures Ratio(m, p)
  {
    if n < m {
      RatioGrows(n, m - 1, p);
    }
  }

  /** A frame at the depth limit cannot afford another call (whose base cost is at least 100) unless
      the transaction started with 990 million gas or more. */
  lemma DepthLimitNeedsGas(top: nat, levels: nat, remaining: int)
    requires levels >= 1023
    requires DepthBudget(top, levels, remaining) && remaining >= 100
    ensures top >= 990_000_000
  {
    var n := RatioTower();
    RatioGrows(n, levels, 9_900_000_000_000);
    PowPositive(63, levels);
    CompareProducts(Pow(64, levels), Pow(63, levels), top, remaining);
  }

  lemma CompareProducts(a: nat, b: nat, top: nat, remaining: int)
    requires b > 0 && remaining >= 100
    requires a * 1_000_000 >= b * 9_900_000_000_000
    requires a * remaining <= b * top
    ensures top >= 990_000_000
  {
    assert a * 100 <= a * remaining;
    assert b * 990_000_000 <= b * top;
  }

  lemma {:induction false} PowPositive(b: nat, n: nat)
    requires b > 0
    ensures Pow(b, n) > 0
  {
    if n > 0 {
      PowPositive(b, n - 1);
    }
  }
}
