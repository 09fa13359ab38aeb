/** Kelly sizing, and why its stake is the best one. */
module Kelly {
  import opened Prelude
  import opened Floats
  import opened RealProducts

  predicate InOpenUnit(x: Float) {
    Less(Fin(0.0), x) && Less(x, Fin(1.0))
  }

  predicate ValidFraction(x: Float) {
    Less(Fin(0.0), x) && AtMost(x, Fin(1.0))
  }

  /** The stake as a share of bankroll, or the exception for an argument out of range. */
  function KellyFraction(pWin: Float, price: Float, conservativeFraction: Float)
    : Result<real, Error>
  {
    if !ValidFraction(conservativeFraction) then Failure(ValueError("conservative_fraction"))
    else if !pWin.Fin? then Success(0.0)
    else if !InOpenUnit(pWin) then Failure(ValueError("p_win"))
    else if !price.Fin? then Success(0.0)
    else if !InOpenUnit(price) then Failure(ValueError("price"))
    else Success(Sized(pWin.r, price.r, conservativeFraction.r))
  }

  /** The documented exceptions: a fraction out of range, or any finite argument out of range. */
  predicate DocumentedFailure(pWin: Float, price: Float, conservativeFraction: Float) {
    || !ValidFraction(conservativeFraction)
    || (pWin.Fin? && !InOpenUnit(pWin))
    || (price.Fin? && !InOpenUnit(price))
  }

  /** They are raised as documented unless a win probability that is not finite hides a bad price. */
  lemma RaisesAsDocumentedIff(pWin: Float, price: Float, c: Float)
    ensures (KellyFraction(pWin, price, c).Failure? <==> DocumentedFailure(pWin, price, c))
       <==> !(ValidFraction(c) && !pWin.Fin? && price.Fin? && !InOpenUnit(price))
    ensures KellyFraction(NaN, Fin(2.0), Fin(1.0)) == Success(0.0)
    ensures DocumentedFailure(NaN, Fin(2.0), Fin(1.0))
  {
  }

  /** In plain figures: the fraction is checked first, then the win probability, then the price;
      the first of the last two that is NaN or infinite gives 0, the first out of range raises. */
  lemma KellyOnFigures(pWin: Float, price: Float, c: Float)
    ensures var r := KellyFraction(pWin, price, c);
            if !c.Fin? || c.r <= 0.0 || c.r > 1.0 then
              r == Failure(ValueError("conservative_fraction"))
            else if !pWin.Fin? then r == Success(0.0)
            else if pWin.r <= 0.0 || pWin.r >= 1.0 then r == Failure(ValueError("p_win"))
            else if !price.Fin? then r == Success(0.0)
            else if price.r <= 0.0 || price.r >= 1.0 then r == Failure(ValueError("price"))
            else r == Success(Stake(pWin.r, price.r, c.r))
  {
    if c.Fin? && 0.0 < c.r <= 1.0 && pWin.Fin? && 0.0 < pWin.r < 1.0
       && price.Fin? && 0.0 < price.r < 1.0 {
      StakeIsScaledPeak(pWin.r, price.r, c.r);
    }
  }

  /** With a NaN or infinite input the documented 0 is returned unless a check comes first. */
  lemma NonFiniteGivesZeroIff(pWin: Float, price: Float, c: Float)
    requires !pWin.Fin? || !price.Fin? || !c.Fin?
    ensures KellyFraction(pWin, price, c) == Success(0.0)
       <==> ValidFraction(c) && (!pWin.Fin? || InOpenUnit(pWin))
    ensures KellyFraction(Fin(0.6), Fin(0.5), NaN).Failure?
    ensures KellyFraction(Fin(2.0), NaN, Fin(1.0)).Failure?
  {
  }

  /** The formula proper, once the arguments are in range. */
  function Sized(pWin: real, price: real, conservativeFraction: real): real
    requires 0.0 < price < 1.0
  {
    var pLoss := 1.0 - pWin;
    var b := Odds(price);
    var edge := pWin * b - pLoss;
    if edge <= 0.0 then 0.0
    else
      var fStar := edge / b;
      var fraction := fStar * conservativeFraction;
      Max(0.0, Min(1.0, fraction))
  }

  function Odds(price: real): (b: real)
    requires 0.0 < price < 1.0
    ensures b > 0.0
  {
    (1.0 - price) / price
  }

  // ----- The closed form -----

  lemma LargerFactor(a: real, r: real, a': real, r': real)
    requires a' * r' <= a * r && r <= r' && a >= 0.0 && r' > 0.0
    ensures a' <= a
  {
  }

  /** The stake at which growth peaks, negative when the price is too high. */
  ghost function Peak(p: real, price: real): real
    requires price < 1.0
  {
    (p - price) / (1.0 - price)
  }

  lemma EdgeOverOdds(p: real, price: real)
    requires 0.0 < p < 1.0 && 0.0 < price < 1.0
    ensures (p * Odds(price) - (1.0 - p)) / Odds(price) == Peak(p, price)
    ensures p * Odds(price) - (1.0 - p) <= 0.0 <==> p <= price
    ensures Peak(p, price) < 1.0
    ensures Peak(p, price) <= 0.0 <==> p <= price
  {
    var b, f := Odds(price), Peak(p, price);
    assert b * price == 1.0 - price;
    assert f * (1.0 - price) == p - price;
    var edge := p * b - (1.0 - p);
    assert edge * price == p * (b * price) - (1.0 - p) * price == p - price;
    assert f * b * price == f * (b * price) == p - price;
    assert (edge - f * b) * price == 0.0;
    assert edge == f * b;
  }

  /** The peak's positive part, scaled. */
  ghost function Stake(p: real, price: real, c: real): real
    requires price < 1.0
  {
    Max(0.0, Peak(p, price)) * c
  }

  lemma ScaledOrder(f: real, c: real, c': real)
    requires f >= 0.0 && 0.0 < c <= c' <= 1.0
    ensures 0.0 <= f * c <= f * c' <= f
  {
  }

  lemma StakeOrder(p: real, price: real, c: real, c': real)
    requires 0.0 < p < 1.0 && 0.0 < price < 1.0 && 0.0 < c <= c' <= 1.0
    ensures 0.0 <= Stake(p, price, c) <= Stake(p, price, c') <= Max(0.0, Peak(p, price)) < 1.0
    ensures Stake(p, price, 1.0) == Max(0.0, Peak(p, price))
  {
    EdgeOverOdds(p, price);
    ScaledOrder(Max(0.0, Peak(p, price)), c, c');
  }

  lemma SizedIsStake(p: real, price: real, c: real)
    requires 0.0 < p < 1.0 && 0.0 < price < 1.0 && 0.0 < c <= 1.0
    ensures Sized(p, price, c) == Stake(p, price, c)
  {
    EdgeOverOdds(p, price);
    StakeOrder(p, price, c, c);
    var b := Odds(price);
    var edge := p * b - (1.0 - p);
    if edge > 0.0 {
      assert edge / b * c == Stake(p, price, c);
    }
  }

  /** Neither clamp bites: the returned stake is the scaled positive part of the peak. */
  lemma StakeIsScaledPeak(p: real, price: real, c: real)
    requires 0.0 < p < 1.0 && 0.0 < price < 1.0 && 0.0 < c <= 1.0
    ensures KellyFraction(Fin(p), Fin(price), Fin(c)) == Success(Stake(p, price, c))
  {
    SizedIsStake(p, price, c);
  }

  lemma PeakMonotone(p: real, p': real, price: real, price': real)
    requires 0.0 < p <= p' < 1.0 && 0.0 < price' <= price < 1.0
    ensures Peak(p, price) <= Peak(p', price')
  {
    var f, f' := Peak(p, price), Peak(p', price');
    assert (1.0 - f) * (1.0 - price) == 1.0 - p by {
      assert f * (1.0 - price) == p - price;
    }
    assert (1.0 - f') * (1.0 - price') == 1.0 - p' by {
      assert f' * (1.0 - price') == p' - price';
    }
    EdgeOverOdds(p, price);
    LargerFactor(1.0 - f, 1.0 - price, 1.0 - f', 1.0 - price');
  }

  lemma StakeOfPeaks(p: real, p': real, price: real, price': real, c: real)
    requires price < 1.0 && price' < 1.0 && c > 0.0 && Peak(p, price) <= Peak(p', price')
    ensures Stake(p, price, c) <= Stake(p', price', c)
  {
    ProductMonotone(Max(0.0, Peak(p, price)), Max(0.0, Peak(p', price')), c);
  }

  /** A likelier win never lowers the stake and a higher price never raises it. */
  lemma StakeMonotone(p: real, p': real, price: real, price': real, c: real)
    requires 0.0 < p <= p' < 1.0 && 0.0 < price' <= price < 1.0 && 0.0 < c <= 1.0
    ensures KellyFraction(Fin(p), Fin(price), Fin(c)).Success?
    ensures KellyFraction(Fin(p'), Fin(price'), Fin(c)).Success?
    ensures KellyFraction(Fin(p), Fin(price), Fin(c)).value
         <= KellyFraction(Fin(p'), Fin(price'), Fin(c)).value
  {
    StakeIsScaledPeak(p, price, c);
    StakeIsScaledPeak(p', price', c);
    PeakMonotone(p, p', price, price');
    StakeOfPeaks(p, p', price, price', c);
  }

  // ----- Powers -----

  function Pow(x: real, n: nat): real {
    if n == 0 then 1.0 else x * Pow(x, n - 1)
  }

  lemma {:induction false} PowRange(x: real, n: nat)
    requires x >= 0.0
    ensures Pow(x, n) >= 0.0
    ensures x <= 1.0 ==> Pow(x, n) <= 1.0
    ensures x == 1.0 ==> Pow(x, n) == 1.0
  {
    if n > 0 {
      PowRange(x, n - 1);
      var q := Pow(x, n - 1);
      assert x * q >= 0.0;
      if x <= 1.0 {
        assert x * q <= q;
      }
    }
  }

  lemma {:induction false} PowProduct(x: real, y: real, n: nat)
    ensures Pow(x * y, n) == Pow(x, n) * Pow(y, n)
  {
    if n > 0 {
      PowProduct(x, y, n - 1);
      var a, b := Pow(x, n - 1), Pow(y, n - 1);
      assert x * y * (a * b) == (x * a) * (y * b);
    }
  }

  // ----- Weighted AM-GM -----

  ghost function Weighted(x: real, m: nat, y: real, k: nat): real {
    Pow(x, m) * Pow(y, k)
  }

  ghost function Triple(x: real, m: nat, y: real, k: nat, z: real): real {
    Weighted(x, m, y, k) * z
  }

  lemma PullOut(p: real, a: real, q: real)
    ensures p * (a * q) == a * (p * q)
    ensures (a * q) * p == a * (q * p)
  {
  }

  lemma WeightedStep(x: real, m: nat, y: real, k: nat)
    ensures k > 0 ==> Weighted(x, m, y, k) == y * Weighted(x, m, y, k - 1)
    ensures m > 0 ==> Weighted(x, m, y, k) == x * Weighted(x, m - 1, y, k)
  {
    if k > 0 {
      PullOut(Pow(x, m), y, Pow(y, k - 1));
    }
    if m > 0 {
      PullOut(Pow(y, k), x, Pow(x, m - 1));
    }
  }

  lemma WeightedRange(x: real, m: nat, y: real, k: nat)
    requires x >= 0.0 && y >= 0.0
    ensures Weighted(x, m, y, k) >= 0.0
    ensures Weighted(x, m, y, k) == Weighted(y, k, x, m)
    ensures Pow(x, m) <= 1.0 && Pow(y, k) <= 1.0 ==> Weighted(x, m, y, k) <= 1.0
  {
    PowRange(x, m);
    PowRange(y, k);
    ProductNonNegative(Pow(x, m), Pow(y, k));
    if Pow(x, m) <= 1.0 && Pow(y, k) <= 1.0 {
      ProductAtMostOne(Pow(x, m), Pow(y, k), Weighted(x, m, y, k));
    }
  }

  /** Merging two factors on opposite sides of 1 into 1 and the remainder does not lower it. */
  lemma Merge(w: real, a: real, c: real, aw: real, whole: real, merged: real)
    requires (a - 1.0) * (c - 1.0) <= 0.0 && w >= 0.0
    requires aw == a * w && whole == aw * c && merged == w * (a + c - 1.0)
    ensures whole <= merged
  {
    assert a * c <= a + c - 1.0;
    ProductMonotone(a * c, a + c - 1.0, w);
  }

  /** Replacing a pair on both sides of 1 by 1 and the remainder keeps the sum, not the product. */
  lemma {:induction false} Balance(x: real, m: nat, y: real, k: nat, z: real)
    requires 0.0 <= y <= 1.0 <= x && 0.0 <= z
    requires Times(m, x) + Times(k, y) + z <= m as real + k as real + 1.0
    ensures Triple(x, m, y, k, z) <= 1.0
    decreases m + k
  {
    if z >= 1.0 && k > 0 {
      Balance(x, m, y, k - 1, y + z - 1.0);
      MergeBelow(x, m, y, k, z);
    } else if z >= 1.0 {
      AllAtMean(x, m, z);
      FactorsAtMostOne(x, m, y, k, z);
    } else if m > 0 {
      Balance(x, m - 1, y, k, x + z - 1.0);
      MergeAbove(x, m, y, k, z);
    } else {
      PowRange(y, k);
      FactorsAtMostOne(x, m, y, k, z);
    }
  }

  lemma FactorsAtMostOne(x: real, m: nat, y: real, k: nat, z: real)
    requires x >= 0.0 && y >= 0.0 && 0.0 <= z <= 1.0
    requires Pow(x, m) <= 1.0 && Pow(y, k) <= 1.0
    ensures Triple(x, m, y, k, z) <= 1.0
  {
    WeightedRange(x, m, y, k);
    ProductAtMostOne(Weighted(x, m, y, k), z, Triple(x, m, y, k, z));
  }

  lemma MergeBelow(x: real, m: nat, y: real, k: nat, z: real)
    requires 0.0 <= y <= 1.0 <= x && 1.0 <= z && k > 0
    ensures Triple(x, m, y, k, z) <= Triple(x, m, y, k - 1, y + z - 1.0)
  {
    var w := Weighted(x, m, y, k - 1);
    WeightedStep(x, m, y, k);
    WeightedRange(x, m, y, k - 1);
    ProductNonNegative(1.0 - y, z - 1.0);
    Merge(w, y, z, Weighted(x, m, y, k),
          Triple(x, m, y, k, z), Triple(x, m, y, k - 1, y + z - 1.0));
  }

  lemma MergeAbove(x: real, m: nat, y: real, k: nat, z: real)
    requires 0.0 <= y <= 1.0 <= x && 0.0 <= z <= 1.0 && m > 0
    ensures Triple(x, m, y, k, z) <= Triple(x, m - 1, y, k, x + z - 1.0)
  {
    var w := Weighted(x, m - 1, y, k);
    WeightedStep(x, m, y, k);
    WeightedRange(x, m - 1, y, k);
    ProductNonNegative(x - 1.0, 1.0 - z);
    Merge(w, x, z, Weighted(x, m, y, k),
          Triple(x, m, y, k, z), Triple(x, m - 1, y, k, x + z - 1.0));
  }

  /** `n * x` as a sum. */
  ghost function Times(n: nat, x: real): real {
    if n == 0 then 0.0 else x + Times(n - 1, x)
  }

  lemma {:induction false} TimesIsProduct(n: nat, x: real)
    ensures Times(n, x) == n as real * x
  {
    if n > 0 {
      TimesIsProduct(n - 1, x);
    }
  }

  lemma AllAtMean(x: real, m: nat, z: real)
    requires x >= 1.0 && z >= 1.0 && Times(m, x) + z <= m as real + 1.0
    ensures z == 1.0 && Pow(x, m) == 1.0
  {
    TimesIsProduct(m, x);
    ProductNonNegative(m as real, x - 1.0);
    if m > 0 {
      FactorSign(x - 1.0, m as real);
      assert x == 1.0;
    }
    PowRange(x, m);
  }

  lemma NoneAboveMean(x: real, m: nat, y: real, k: nat)
    requires x > 1.0 && y > 1.0
    requires Times(m, x) + Times(k, y) <= m as real + k as real
    ensures m == 0 && k == 0
  {
    TimesIsProduct(m, x);
    TimesIsProduct(k, y);
    ProductMonotone(1.0, x, m as real);
    ProductMonotone(1.0, y, k as real);
    FactorSign(m as real, x - 1.0);
    FactorSign(k as real, y - 1.0);
  }

  lemma TripleByOne(x: real, m: nat, y: real, k: nat)
    ensures Triple(x, m, y, k, 1.0) == Weighted(x, m, y, k)
  {
  }

  /** Weighted AM-GM for two values whose weighted mean is at most 1. */
  lemma WeightedMean(x: real, m: nat, y: real, k: nat)
    requires x >= 0.0 && y >= 0.0
    requires Times(m, x) + Times(k, y) <= m as real + k as real
    ensures Weighted(x, m, y, k) <= 1.0
  {
    WeightedRange(x, m, y, k);
    if y <= 1.0 <= x {
      Balance(x, m, y, k, 1.0);
      TripleByOne(x, m, y, k);
    } else if x <= 1.0 <= y {
      Balance(y, k, x, m, 1.0);
      TripleByOne(y, k, x, m);
    } else if x <= 1.0 {
      PowRange(x, m);
      PowRange(y, k);
    } else {
      NoneAboveMean(x, m, y, k);
    }
  }

  lemma ProductsInOrder(x: real, y: real, a: real, b: real)
    requires 0.0 <= x <= y && 0.0 <= a <= b
    ensures x * a <= y * b
    ensures x < y && b > 0.0 ==> x * a < y * b
  {
    ProductMonotone(a, b, x);
    ProductMonotone(x, y, b);
  }

  lemma {:induction false} PowMonotone(x: real, y: real, n: nat)
    requires 0.0 <= x <= y
    ensures Pow(x, n) <= Pow(y, n)
    ensures x < y && n > 0 ==> Pow(x, n) < Pow(y, n)
  {
    if n > 0 {
      PowMonotone(x, y, n - 1);
      PowPositive(x, n - 1);
      PowPositive(y, n - 1);
      ProductsInOrder(x, y, Pow(x, n - 1), Pow(y, n - 1));
    }
  }

  lemma {:induction false} PowPositive(x: real, n: nat)
    requires x >= 0.0
    ensures Pow(x, n) >= 0.0
    ensures x > 0.0 ==> Pow(x, n) > 0.0
  {
    if n > 0 {
      PowPositive(x, n - 1);
      ProductNonNegative(x, Pow(x, n - 1));
      if x > 0.0 {
        FactorSign(Pow(x, n - 1), x);
      }
    }
  }

  // Products are named here, so that each step is linear in the names.

  lemma PositiveNamed(a: real, b: real, c: real)
    requires a > 0.0 && b > 0.0 && c == a * b
    ensures c > 0.0
  {
    ProductPositive(a, b);
  }

  lemma SquareNamed(d: real, e: real, dd: real)
    requires d != 0.0 && dd == d * d && e == -d
    ensures dd > 0.0
  {
    if d > 0.0 {
      PositiveNamed(d, d, dd);
    } else {
      PositiveNamed(e, e, dd);
    }
  }

  lemma SquareGap(x: real, h: real, d: real, hh: real, dd: real)
    requires x == 2.0 * h - 1.0 && d == h - 1.0 && hh == h * h && dd == d * d
    ensures hh - x == dd
  {
  }

  /** Halfway to 1 the square exceeds the number, unless the number is 1. */
  lemma SquareAbove(x: real, h: real, d: real, hh: real, dd: real)
    requires x == 2.0 * h - 1.0 && d == h - 1.0 && hh == h * h && dd == d * d
    ensures x <= hh
    ensures x != 1.0 ==> x < hh
  {
    SquareGap(x, h, d, hh, dd);
    if d != 0.0 {
      SquareNamed(d, -d, dd);
    }
  }

  lemma {:induction false} PowDouble(h: real, n: nat)
    ensures Pow(h, 2 * n) == Pow(h * h, n)
  {
    if n > 0 {
      PowDouble(h, n - 1);
      var rest := Pow(h, 2 * n - 2);
      assert Pow(h, 2 * n) == h * Pow(h, 2 * n - 1) == h * (h * rest);
      assert h * (h * rest) == (h * h) * rest;
    }
  }

  lemma {:induction false} TimesDouble(x: real, h: real, n: nat)
    requires x == 2.0 * h - 1.0
    ensures Times(2 * n, h) == Times(n, x) + n as real
  {
    if n > 0 {
      TimesDouble(x, h, n - 1);
      assert Times(2 * n, h) == h + Times(2 * n - 1, h) == h + (h + Times(2 * n - 2, h));
    }
  }

  lemma Halfway(x: real, h: real, hh: real, n: nat)
    requires x >= 0.0 && x == 2.0 * h - 1.0 && hh == h * h
    ensures 0.0 <= Pow(x, n) <= Pow(h, 2 * n) && Pow(h, 2 * n) > 0.0
    ensures x != 1.0 && n > 0 ==> Pow(x, n) < Pow(h, 2 * n)
  {
    var d := h - 1.0;
    SquareAbove(x, h, d, hh, d * d);
    PowPositive(x, n);
    PowPositive(h, 2 * n);
    PowDouble(h, n);
    PowMonotone(x, hh, n);
  }

  lemma BelowProduct(a: real, b: real, p: real, q: real)
    requires 0.0 <= a <= p && 0.0 <= b <= q && p > 0.0 && q > 0.0 && (a < p || b < q)
    ensures a * b < p * q
  {
    if a < p {
      ProductsInOrder(a, p, b, q);
    } else {
      ProductsInOrder(b, q, a, p);
    }
  }

  lemma BelowOne(a: real, b: real, ab: real, p: real, q: real, pq: real)
    requires 0.0 <= a <= p && 0.0 <= b <= q && p > 0.0 && q > 0.0 && (a < p || b < q)
    requires ab == a * b && pq == p * q && pq <= 1.0
    ensures ab < 1.0
  {
    BelowProduct(a, b, p, q);
  }

  /** The induction is TimesDouble's; the solver must not try another one here. */
  lemma {:induction false} HalfwaySum(x: real, m: nat, y: real, k: nat, h: real, l: real)
    requires x == 2.0 * h - 1.0 && y == 2.0 * l - 1.0
    requires Times(m, x) + Times(k, y) <= m as real + k as real
    ensures Times(2 * m, h) + Times(2 * k, l) <= (2 * m) as real + (2 * k) as real
  {
    TimesDouble(x, h, m);
    TimesDouble(y, l, k);
    assert (2 * m) as real == m as real + m as real && (2 * k) as real == k as real + k as real;
  }

  lemma {:induction false} HalfwayMean(x: real, m: nat, y: real, k: nat, h: real, l: real)
    requires x >= 0.0 && y >= 0.0 && x == 2.0 * h - 1.0 && y == 2.0 * l - 1.0
    requires Times(m, x) + Times(k, y) <= m as real + k as real
    ensures Weighted(h, 2 * m, l, 2 * k) <= 1.0
  {
    HalfwaySum(x, m, y, k, h, l);
    WeightedMean(h, 2 * m, l, 2 * k);
  }

  lemma StrictMeanAt(x: real, m: nat, y: real, k: nat, h: real, l: real)
    requires x >= 0.0 && y >= 0.0 && m > 0 && k > 0 && (x != 1.0 || y != 1.0)
    requires x == 2.0 * h - 1.0 && y == 2.0 * l - 1.0 && Weighted(h, 2 * m, l, 2 * k) <= 1.0
    ensures Weighted(x, m, y, k) < 1.0
  {
    Halfway(x, h, h * h, m);
    Halfway(y, l, l * l, k);
    BelowOne(Pow(x, m), Pow(y, k), Weighted(x, m, y, k),
             Pow(h, 2 * m), Pow(l, 2 * k), Weighted(h, 2 * m, l, 2 * k));
  }

  /** The inequality is strict unless both values are 1. */
  lemma StrictMean(x: real, m: nat, y: real, k: nat)
    requires x >= 0.0 && y >= 0.0 && m > 0 && k > 0 && (x != 1.0 || y != 1.0)
    requires Times(m, x) + Times(k, y) <= m as real + k as real
    ensures Weighted(x, m, y, k) < 1.0
  {
    var h, l := (x + 1.0) / 2.0, (y + 1.0) / 2.0;
    HalfwayMean(x, m, y, k, h, l);
    StrictMeanAt(x, m, y, k, h, l);
  }

  // ----- Growth -----

  /** Wealth after `wins` won and `losses` lost bets of share `f` at odds `b`. */
  ghost function Wealth(b: real, f: real, wins: nat, losses: nat): real {
    Weighted(1.0 + f * b, wins, 1.0 - f, losses)
  }

  /** The share of won bets. */
  ghost function WinRate(wins: nat, losses: nat): real
    requires wins + losses > 0
  {
    wins as real / (wins + losses) as real
  }

  lemma WinRateInUnit(wins: nat, losses: nat)
    requires wins > 0 && losses > 0
    ensures 0.0 < WinRate(wins, losses) < 1.0
  {
  }

  /** The weighted mean of the two relative returns is at most 1 when `g` is nearer the peak. */
  lemma RelativeReturns(
    m: real, k: real, b: real, f: real, g: real, x: real, y: real)
    requires 1.0 + g * b > 0.0 && 1.0 - g > 0.0
    requires x * (1.0 + g * b) == 1.0 + f * b
    requires y * (1.0 - g) == 1.0 - f
    requires var slope := m * b * (1.0 - g) - k * (1.0 + g * b);
             (f <= g && slope >= 0.0) || (g <= f && slope <= 0.0)
    ensures m * x + k * y <= m + k
  {
    var u, v := 1.0 + g * b, 1.0 - g;
    var gap, slope := m * (x - 1.0) + k * (y - 1.0), m * b * v - k * u;
    assert (x - 1.0) * u == (f - g) * b;
    assert (y - 1.0) * v == -(f - g);
    Expand(m, x - 1.0, k, y - 1.0, u, v, b, f - g);
    if f <= g && slope >= 0.0 {
      ProductNonNegative(g - f, slope);
    } else {
      ProductNonNegative(f - g, -slope);
    }
    assert u * v > 0.0;
    FactorSign(gap, u * v);
  }

  lemma Expand(m: real, a: real, k: real, c: real, u: real, v: real, b: real, d: real)
    requires a * u == d * b && c * v == -d
    ensures (m * a + k * c) * (u * v) == d * (m * b * v - k * u)
  {
  }

  /** The growth rate's slope at `g` has the sign of the distance to the peak. */
  lemma Slope(price: real, wins: nat, losses: nat, g: real)
    requires 0.0 < price < 1.0 && wins > 0 && losses > 0
    ensures var b, top := Odds(price), Peak(WinRate(wins, losses), price);
            var slope := wins as real * b * (1.0 - g) - losses as real * (1.0 + g * b);
            (g <= top ==> slope >= 0.0) && (top <= g ==> slope <= 0.0)
  {
  }

  /** Wealth rises strictly up to the peak and falls strictly beyond it. */
  lemma WealthUnimodal(price: real, wins: nat, losses: nat, f: real, g: real)
    requires 0.0 < price < 1.0 && wins > 0 && losses > 0
    requires 0.0 <= f <= 1.0 && 0.0 <= g <= 1.0
    requires var top := Peak(WinRate(wins, losses), price); f <= g <= top || top <= g <= f
    ensures f != g ==>
      Wealth(Odds(price), f, wins, losses) < Wealth(Odds(price), g, wins, losses)
  {
    WinRateInUnit(wins, losses);
    EdgeOverOdds(WinRate(wins, losses), price);
    if g == 1.0 {
      assert f == 1.0;
    } else {
      Slope(price, wins, losses, g);
      WealthCompared(Odds(price), wins, losses, f, g);
    }
  }

  lemma WealthCompared(b: real, wins: nat, losses: nat, f: real, g: real)
    requires b > 0.0 && wins > 0 && losses > 0 && 0.0 <= f <= 1.0 && 0.0 <= g < 1.0
    requires var slope := wins as real * b * (1.0 - g) - losses as real * (1.0 + g * b);
             (f <= g && slope >= 0.0) || (g <= f && slope <= 0.0)
    ensures f != g ==> Wealth(b, f, wins, losses) < Wealth(b, g, wins, losses)
  {
    if f != g {
      var x, y := Returns(b, wins, losses, f, g);
      var u, v := 1.0 + g * b, 1.0 - g;
      StrictMean(x, wins, y, losses);
      Rescale(x, u, 1.0 + f * b, wins, y, v, 1.0 - f, losses);
    }
  }

  /** Scaling both values by positive factors scales the weighted product below theirs. */
  lemma Rescale(
    x: real, u: real, a: real, m: nat, y: real, v: real, c: real, k: nat)
    requires x * u == a && y * v == c && u > 0.0 && v > 0.0
    requires Weighted(x, m, y, k) < 1.0
    ensures Weighted(a, m, c, k) < Weighted(u, m, v, k)
  {
    PowQuotient(x, u, a, m);
    PowQuotient(y, v, c, k);
    Regroup(Pow(x, m), Pow(u, m), Pow(y, k), Pow(v, k), Pow(a, m), Pow(c, k),
            Weighted(x, m, y, k), Weighted(u, m, v, k), Weighted(a, m, c, k));
  }

  /** The returns of `f` relative to those of `g`. */
  lemma Returns(b: real, wins: nat, losses: nat, f: real, g: real) returns (x: real, y: real)
    requires b > 0.0 && 0.0 <= f <= 1.0 && 0.0 <= g < 1.0
    requires var slope := wins as real * b * (1.0 - g) - losses as real * (1.0 + g * b);
             (f <= g && slope >= 0.0) || (g <= f && slope <= 0.0)
    ensures 1.0 + g * b > 0.0 && x >= 0.0 && y >= 0.0
    ensures x * (1.0 + g * b) == 1.0 + f * b && y * (1.0 - g) == 1.0 - f
    ensures Times(wins, x) + Times(losses, y) <= wins as real + losses as real
    ensures f != g ==> y != 1.0
  {
    ProductNonNegative(f, b);
    ProductNonNegative(g, b);
    x := Quotient(1.0 + f * b, 1.0 + g * b);
    y := Quotient(1.0 - f, 1.0 - g);
    RelativeReturns(wins as real, losses as real, b, f, g, x, y);
    TimesIsProduct(wins, x);
    TimesIsProduct(losses, y);
  }

  lemma PowQuotient(q: real, d: real, a: real, n: nat)
    requires q * d == a && d > 0.0
    ensures Pow(a, n) == Pow(q, n) * Pow(d, n) && Pow(d, n) > 0.0
  {
    PowProduct(q, d, n);
    PowPositive(d, n);
  }

  lemma Regroup(xs: real, us: real, ys: real, vs: real, wf: real, lf: real,
                xy: real, uv: real, all: real)
    requires us > 0.0 && vs > 0.0 && wf == xs * us && lf == ys * vs
    requires xy == xs * ys && uv == us * vs && all == wf * lf && xy < 1.0
    ensures all < uv
  {
    PositiveNamed(us, vs, uv);
    Interchange(xs, us, ys, vs, xy, uv);
    ScaledBelow(xy, uv, all);
  }

  lemma Interchange(xs: real, us: real, ys: real, vs: real, xy: real, uv: real)
    requires xy == xs * ys && uv == us * vs
    ensures (xs * us) * (ys * vs) == xy * uv
  {
  }

  lemma ScaledBelow(r: real, uv: real, all: real)
    requires r < 1.0 && uv > 0.0 && all == r * uv
    ensures all < uv
  {
    var gap := 1.0 - r;
    PositiveNamed(gap, uv, gap * uv);
  }

  /** Full Kelly: every other stake in [0, 1] grows wealth strictly less over such bets. */
  lemma KellyOptimal(price: real, wins: nat, losses: nat, f: real)
    requires 0.0 < price < 1.0 && wins > 0 && losses > 0 && 0.0 <= f <= 1.0
    ensures var stake := KellyFraction(Fin(WinRate(wins, losses)), Fin(price), Fin(1.0));
            && stake.Success?
            && (f != stake.value ==>
                  Wealth(Odds(price), f, wins, losses)
                  < Wealth(Odds(price), stake.value, wins, losses))
  {
    var p := WinRate(wins, losses);
    WinRateInUnit(wins, losses);
    StakeIsScaledPeak(p, price, 1.0);
    StakeOrder(p, price, 1.0, 1.0);
    WealthUnimodal(price, wins, losses, f, Max(0.0, Peak(p, price)));
  }

  lemma NothingStaked(price: real, wins: nat, losses: nat)
    requires 0.0 < price < 1.0
    ensures Wealth(Odds(price), 0.0, wins, losses) == 1.0
  {
    PowRange(1.0, wins);
    PowRange(1.0, losses);
    assert 0.0 * Odds(price) == 0.0;
  }

  /** Fractional Kelly: any positive stake grows wealth, and a larger fraction grows it more. */
  lemma FractionalKellySafe(price: real, wins: nat, losses: nat, c: real, c': real)
    requires 0.0 < price < 1.0 && wins > 0 && losses > 0 && 0.0 < c <= c' <= 1.0
    ensures var p := Fin(WinRate(wins, losses));
            var stake, stake' := KellyFraction(p, Fin(price), Fin(c)),
                                 KellyFraction(p, Fin(price), Fin(c'));
            && stake.Success? && stake'.Success?
            && 0.0 <= stake.value <= stake'.value
            && (if stake.value == 0.0 then Wealth(Odds(price), stake.value, wins, losses) == 1.0
                else Wealth(Odds(price), stake.value, wins, losses) > 1.0)
            && (stake.value < stake'.value ==>
                  Wealth(Odds(price), stake.value, wins, losses)
                  < Wealth(Odds(price), stake'.value, wins, losses))
  {
    var p := WinRate(wins, losses);
    WinRateInUnit(wins, losses);
    StakeIsScaledPeak(p, price, c);
    StakeIsScaledPeak(p, price, c');
    EdgeOverOdds(p, price);
    StakeOrder(p, price, c, c');
    NothingStaked(price, wins, losses);
    if Peak(p, price) > 0.0 {
      WealthUnimodal(price, wins, losses, 0.0, Stake(p, price, c));
      WealthUnimodal(price, wins, losses, Stake(p, price, c), Stake(p, price, c'));
    }
  }
}
