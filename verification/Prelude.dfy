/** Failure-compatible results, Python's float and datetime values, and counting. */
module Prelude {
  datatype Option<+T> = None | Some(value: T)

  datatype Result<+T, +E> = Success(value: T) | Failure(error: E)

  /** The exceptions the modelled code raises on its own account. */
  datatype Error =
    | ValueError(field: string)
    | SensitiveField(key: string)

  /** How many elements of `s` satisfy `p`. */
  ghost function Count<T(!new)>(p: T -> bool, s: seq<T>): (n: nat)
    ensures n <= |s|
  {
    if s == [] then 0
    else Count(p, s[..|s| - 1]) + if p(s[|s| - 1]) then 1 else 0
  }

  lemma {:induction false} CountAppend<T(!new)>(p: T -> bool, a: seq<T>, b: seq<T>)
    ensures Count(p, a + b) == Count(p, a) + Count(p, b)
  {
    if b == [] {
      assert a + b == a;
    } else {
      var n := |b| - 1;
      assert (a + b)[..|a + b| - 1] == a + b[..n];
      CountAppend(p, a, b[..n]);
    }
  }

  /** Counting does not depend on the order of the elements. */
  lemma {:induction false} CountPermuted<T(!new)>(p: T -> bool, a: seq<T>, b: seq<T>)
    requires multiset(a) == multiset(b)
    ensures Count(p, a) == Count(p, b)
  {
    if a == [] {
      assert |multiset(b)| == 0;
    } else {
      var n := |a| - 1;
      var x := a[n];
      assert x in multiset(b);
      var i :| 0 <= i < |b| && b[i] == x;
      var rest := b[..i] + b[i + 1..];
      assert a == a[..n] + [x];
      assert b == b[..i] + [x] + b[i + 1..];
      assert multiset(a[..n]) == multiset(a) - multiset{x};
      assert multiset(rest) == multiset(b) - multiset{x};
      CountPermuted(p, a[..n], rest);
      CountAppend(p, b[..i] + [x], b[i + 1..]);
      CountAppend(p, b[..i], [x]);
      CountAppend(p, b[..i], b[i + 1..]);
    }
  }

  /** Two predicates that agree on every element count alike. */
  lemma {:induction false} CountAgrees<T(!new)>(p: T -> bool, q: T -> bool, s: seq<T>)
    requires forall x | x in s :: p(x) == q(x)
    ensures Count(p, s) == Count(q, s)
  {
    if s != [] {
      CountAgrees(p, q, s[..|s| - 1]);
    }
  }

  /** The positions of the elements that satisfy `p`. */
  ghost function Positions<T(!new)>(p: T -> bool, s: seq<T>): set<nat> {
    set i: nat | i < |s| && p(s[i])
  }

  /** Counting elements is counting the positions that hold one. */
  lemma {:induction false} CountPositions<T(!new)>(p: T -> bool, s: seq<T>)
    ensures |Positions(p, s)| == Count(p, s)
  {
    if s == [] {
      assert Positions(p, s) == {};
    } else {
      var n := |s| - 1;
      CountPositions(p, s[..n]);
      assert Positions(p, s)
          == if p(s[n]) then Positions(p, s[..n]) + {n} else Positions(p, s[..n]);
    }
  }

  /** The distinct values of an injective sequence number as many as its positions. */
  lemma {:induction false} DistinctCount<T>(s: seq<T>)
    requires forall i, j | 0 <= i < j < |s| :: s[i] != s[j]
    ensures |set x | x in s| == |s|
  {
    var all := set x | x in s;
    if s == [] {
      assert all == {};
    } else {
      var n := |s| - 1;
      var t := s[..n];
      DistinctCount(t);
      var before := set x | x in t;
      assert s == t + [s[n]];
      assert all == before + {s[n]};
      assert s[n] !in t;
    }
  }

  lemma SubsetCount<T>(a: set<T>, b: set<T>)
    requires a <= b
    ensures |a| <= |b|
  {
    assert b == a + (b - a);
  }
}

/** Products and quotients of reals, one step at a time. */
module RealProducts {
  function Min(a: real, b: real): real { if a <= b then a else b }

  function Max(a: real, b: real): real { if a >= b then a else b }

  lemma ProductNonNegative(a: real, b: real)
    requires a >= 0.0 && b >= 0.0
    ensures a * b >= 0.0
  {
  }

  lemma ProductPositive(a: real, b: real)
    requires a > 0.0 && b > 0.0
    ensures a * b > 0.0
  {
  }

  lemma ProductMonotone(a: real, b: real, c: real)
    requires a <= b && c >= 0.0
    ensures a * c <= b * c
  {
  }

  lemma FactorSign(a: real, b: real)
    requires b > 0.0
    ensures a * b >= 0.0 <==> a >= 0.0
    ensures a * b <= 0.0 <==> a <= 0.0
  {
  }

  lemma ProductShrinks(a: real, b: real)
    requires a <= 1.0 && b >= 0.0
    ensures a * b <= b
  {
  }

  /** The product is named, so that the step is linear in the names. */
  lemma ProductAtMostOne(a: real, b: real, ab: real)
    requires 0.0 <= a <= 1.0 && 0.0 <= b <= 1.0 && ab == a * b
    ensures 0.0 <= ab <= 1.0
  {
    ProductNonNegative(a, b);
    ProductShrinks(a, b);
  }

  lemma Quotient(a: real, d: real) returns (q: real)
    requires a >= 0.0 && d > 0.0
    ensures q * d == a && q >= 0.0
  {
    q := a / d;
    FactorSign(q, d);
  }
}

/** IEEE special values over exact reals: rounding is not modelled. */
module Floats {
  datatype Float = Fin(r: real) | NaN | PosInf | NegInf

  /** Any Python value a caller may hand over where a float is expected. */
  datatype Number = PyFloat(f: Float) | PyInt(i: int) | PyBool(b: bool) | NotANumber

  /** `a < b`; a comparison with NaN is false. */
  predicate Less(a: Float, b: Float) {
    match a
    case NaN => false
    case PosInf => false
    case NegInf => b.Fin? || b.PosInf?
    case Fin(x) => b.PosInf? || (b.Fin? && x < b.r)
  }

  /** `a <= b`; a comparison with NaN is false. */
  predicate AtMost(a: Float, b: Float) {
    Less(a, b) || (a == b && a != NaN)
  }

  function Plus(a: Float, b: Float): Float {
    match (a, b)
    case (Fin(x), Fin(y)) => Fin(x + y)
    case (NaN, _) => NaN
    case (_, NaN) => NaN
    case (PosInf, NegInf) => NaN
    case (NegInf, PosInf) => NaN
    case (PosInf, _) => PosInf
    case (_, PosInf) => PosInf
    case (NegInf, _) => NegInf
    case (_, NegInf) => NegInf
  }

  /** Multiplication by a positive constant. */
  function Scale(a: Float, k: real): Float
    requires k > 0.0
  {
    if a.Fin? then Fin(a.r * k) else a
  }

  /** The gates' own finite test: only a real `float` passes, an `int` does not. */
  predicate IsFinite(x: Number) {
    x.PyFloat? && x.f.Fin?
  }

  /** A finite float below zero. */
  predicate IsLoss(x: Number) {
    IsFinite(x) && x.f.r < 0.0
  }
}

/** Datetimes in microseconds; only datetimes of one mode can be compared or subtracted. */
module Clock {
  datatype Mode = Naive | Aware

  datatype Timestamp = Timestamp(mode: Mode, us: int)

  /** `later - earlier`, which Python refuses across modes. */
  function Since(later: Timestamp, earlier: Timestamp): int
    requires later.mode == earlier.mode
  {
    later.us - earlier.us
  }

  /** Rounding to the nearest integer, ties to even, as timedelta rounds to microseconds. */
  function RoundHalfEven(x: real): (n: int)
    ensures -0.5 <= x - n as real <= 0.5
    ensures x - n as real == 0.5 || x - n as real == -0.5 ==> n % 2 == 0
  {
    var down := x.Floor;
    var rest := x - down as real;
    if rest < 0.5 || (rest == 0.5 && down % 2 == 0) then down else down + 1
  }

  /** `timedelta(hours=hours)` in microseconds. */
  function HoursToUs(hours: real): int {
    RoundHalfEven(hours * 3600000000.0)
  }
}
