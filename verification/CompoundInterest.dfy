/** The per-slot compounding of src/classes/reserve.ts: exact powers for up to four slots and a
    binomial cut off after its cubic term from five slots on. */
module CompoundInterest {
  import opened RealArithmetic

  const SLOTS_PER_YEAR: real := 63072000.0

  /** The growth factor the reserve applies to its debt; `rate` is a yearly rate. */
  function ApproximateCompoundedInterest(rate: real, elapsedSlots: nat): real {
    Compound(rate / SLOTS_PER_YEAR, elapsedSlots)
  }

  /** The same, given the per-slot rate `base`. */
  function Compound(base: real, slots: nat): real {
    match slots
    case 0 => 1.0
    case 1 => base + 1.0
    case 2 => (base + 1.0) * (base + 1.0)
    case 3 => (base + 1.0) * (base + 1.0) * (base + 1.0)
    case 4 => var pow2 := (base + 1.0) * (base + 1.0); pow2 * pow2
    case _ => Cubic(base, slots as real)
  }

  /** 1 + n*b + n(n-1)/2 * b^2 + n(n-1)(n-2)/6 * b^3 */
  function Cubic(b: real, n: real): real {
    var b2 := b * b;
    var b3 := b2 * b;
    1.0 + b * n + b2 * n * (n - 1.0) / 2.0 + b3 * n * (n - 1.0) * (n - 2.0) / 6.0
  }

  // ---------------------------------------------------------------- reference definitions

  /** Compounding slot by slot: the simple form the approximation stands in for. */
  function Pow(x: real, n: nat): real {
    if n == 0 then 1.0 else Times(x, Pow(x, n - 1))
  }

  /** Pascal's triangle. */
  function Choose(n: nat, k: nat): nat {
    if k == 0 then 1 else if n == 0 then 0 else Choose(n - 1, k - 1) + Choose(n - 1, k)
  }

  /** (1 + b)^n with every term of degree above k dropped, built by multiplying by 1 + b one
      slot at a time. */
  function Binomial(b: real, n: nat, k: nat): real {
    if n == 0 || k == 0 then 1.0 else Binomial(b, n - 1, k) + Times(b, Binomial(b, n - 1, k - 1))
  }

  // ---------------------------------------------------------------- arithmetic helpers

  lemma {:induction false} PowAtLeastOne(x: real, n: nat)
    requires x >= 1.0
    ensures Pow(x, n) >= 1.0
  {
    if n > 0 {
      PowAtLeastOne(x, n - 1);
      TimesMono(1.0, x, 1.0, Pow(x, n - 1));
    }
  }

  lemma {:induction false} PowAdd(x: real, m: nat, n: nat)
    ensures Pow(x, m + n) == Times(Pow(x, m), Pow(x, n))
  {
    if m > 0 {
      PowAdd(x, m - 1, n);
      TimesAssociative(x, Pow(x, m - 1), Pow(x, n));
    }
  }

  // ---------------------------------------------------------------- the cut-off binomial

  /** From slot m to m + 1, f grows by b times the cut-off at degree k. */
  ghost predicate Grows(b: real, f: nat -> real, k: nat, m: nat) {
    f(m + 1) == f(m) + Times(b, Binomial(b, m, k))
  }

  /** That recurrence has one solution: the cut-off of the next degree. */
  lemma {:induction false} BinomialRecurrence(b: real, k: nat, f: nat -> real, n: nat)
    requires f(0) == 1.0
    requires forall m: nat :: Grows(b, f, k, m)
    ensures f(n) == Binomial(b, n, k + 1)
  {
    if n > 0 {
      BinomialRecurrence(b, k, f, n - 1);
      assert Grows(b, f, k, n - 1);
    }
  }

  function Linear(b: real, n: real): real { 1.0 + b * n }

  function Quadratic(b: real, n: real): real { 1.0 + b * n + b * b * n * (n - 1.0) / 2.0 }

  lemma QuadraticStep(b: real, m: real)
    ensures Quadratic(b, m + 1.0) == Quadratic(b, m) + Times(b, Linear(b, m))
  {}

  lemma CubicStep(b: real, m: real)
    ensures Cubic(b, m + 1.0) == Cubic(b, m) + Times(b, Quadratic(b, m))
  {}

  lemma {:induction false} LinearIsBinomial(b: real, n: nat)
    ensures Linear(b, n as real) == Binomial(b, n, 1)
  {
    var f := (m: nat) => Linear(b, m as real);
    forall m: nat ensures Grows(b, f, 0, m) {
      assert b * ((m + 1) as real) == b * (m as real) + b;
    }
    BinomialRecurrence(b, 0, f, n);
  }

  lemma {:induction false} QuadraticGrows(b: real, m: nat)
    ensures Quadratic(b, (m + 1) as real) == Quadratic(b, m as real) + Times(b, Binomial(b, m, 1))
  {
    LinearIsBinomial(b, m);
    QuadraticStep(b, m as real);
  }

  lemma {:induction false} QuadraticIsBinomial(b: real, n: nat)
    ensures Quadratic(b, n as real) == Binomial(b, n, 2)
  {
    var f := (m: nat) => Quadratic(b, m as real);
    forall m: nat ensures Grows(b, f, 1, m) { QuadraticGrows(b, m); }
    BinomialRecurrence(b, 1, f, n);
  }

  lemma {:induction false} CubicGrows(b: real, m: nat)
    ensures Cubic(b, (m + 1) as real) == Cubic(b, m as real) + Times(b, Binomial(b, m, 2))
  {
    QuadraticIsBinomial(b, m);
    CubicStep(b, m as real);
  }

  /** The polynomial in the source is (1 + b)^n cut off after degree three. */
  lemma {:induction false} CubicIsBinomial(b: real, n: nat)
    ensures Cubic(b, n as real) == Binomial(b, n, 3)
  {
    var f := (m: nat) => Cubic(b, m as real);
    forall m: nat ensures Grows(b, f, 2, m) { CubicGrows(b, m); }
    BinomialRecurrence(b, 2, f, n);
  }

  lemma {:induction false} BinomialAtLeastOne(b: real, n: nat, k: nat)
    requires b >= 0.0
    ensures Binomial(b, n, k) >= 1.0
  {
    if n > 0 && k > 0 {
      BinomialAtLeastOne(b, n - 1, k);
      BinomialAtLeastOne(b, n - 1, k - 1);
      TimesNonNeg(b, Binomial(b, n - 1, k - 1));
    }
  }

  /** Keeping one more degree never lowers the cut-off. */
  lemma {:induction false} BinomialMonoDegree(b: real, n: nat, k: nat)
    requires b >= 0.0
    ensures Binomial(b, n, k) <= Binomial(b, n, k + 1)
  {
    if n > 0 {
      if k == 0 {
        BinomialAtLeastOne(b, n, 1);
      } else {
        BinomialMonoDegree(b, n - 1, k);
        BinomialMonoDegree(b, n - 1, k - 1);
        BinomialAtLeastOne(b, n - 1, k - 1);
        TimesMono(b, b, Binomial(b, n - 1, k - 1), Binomial(b, n - 1, k));
      }
    }
  }

  /** A larger rate never lowers the cut-off. */
  lemma {:induction false} BinomialMonoRate(h: real, a: real, n: nat, k: nat)
    requires 0.0 <= h <= a
    ensures Binomial(h, n, k) <= Binomial(a, n, k)
  {
    if n > 0 && k > 0 {
      BinomialMonoRate(h, a, n - 1, k);
      BinomialMonoRate(h, a, n - 1, k - 1);
      BinomialAtLeastOne(h, n - 1, k - 1);
      TimesMono(h, a, Binomial(h, n - 1, k - 1), Binomial(a, n - 1, k - 1));
    }
  }

  /** Cutting two stretches separately keeps at least what cutting their sum keeps. */
  lemma {:induction false} BinomialSplit(b: real, m: nat, n: nat, k: nat)
    requires b >= 0.0
    ensures Binomial(b, m + n, k) <= Times(Binomial(b, m, k), Binomial(b, n, k))
  {
    if m == 0 || k == 0 {
    } else {
      var l := k - 1;
      var p, q := Binomial(b, m - 1, k), Binomial(b, m - 1, l);
      var x, y := Binomial(b, n, k), Binomial(b, n, l);
      var s, t := Binomial(b, m - 1 + n, k), Binomial(b, m - 1 + n, l);
      assert s <= Times(p, x) by { BinomialSplit(b, m - 1, n, k); }
      assert t <= Times(q, y) by { BinomialSplit(b, m - 1, n, l); }
      assert y <= x by { BinomialMonoDegree(b, n, l); }
      assert 0.0 <= y by { BinomialAtLeastOne(b, n, l); }
      assert 0.0 <= q by { BinomialAtLeastOne(b, m - 1, l); }
      SplitStep(b, p, q, x, y, s, t);
    }
  }

  lemma SplitStep(b: real, p: real, q: real, x: real, y: real, s: real, t: real)
    requires b >= 0.0 && s <= Times(p, x) && t <= Times(q, y) && 0.0 <= y <= x && 0.0 <= q
    ensures s + Times(b, t) <= Times(p + Times(b, q), x)
  {
    TimesMono(q, q, y, x);
    TimesNonNeg(b, q * x - t);
    assert (p + b * q) * x == p * x + b * (q * x);
  }

  // ---------------------------------------------------------------- the fast form against true compounding

  lemma {:induction false} BinomialBelowPow(b: real, n: nat, k: nat)
    requires b >= 0.0
    ensures Binomial(b, n, k) <= Pow(1.0 + b, n)
  {
    if n == 0 || k == 0 {
      PowAtLeastOne(1.0 + b, n);
    } else {
      BinomialBelowPow(b, n - 1, k);
      BinomialBelowPow(b, n - 1, k - 1);
      BelowStep(b, Binomial(b, n - 1, k), Binomial(b, n - 1, k - 1), Pow(1.0 + b, n - 1));
    }
  }

  lemma BelowStep(b: real, x: real, y: real, p: real)
    requires b >= 0.0 && x <= p && y <= p
    ensures x + Times(b, y) <= Times(1.0 + b, p)
  {
    TimesNonNeg(b, p - y);
  }

  /** The terms of (1 + b)^n of degree d and above. */
  function Tail(b: real, n: nat, d: nat): real {
    if d == 0 then Pow(1.0 + b, n) else if n == 0 then 0.0 else Tail(b, n - 1, d) + Times(b, Tail(b, n - 1, d - 1))
  }

  lemma {:induction false} BinomialPlusTail(b: real, n: nat, k: nat)
    ensures Binomial(b, n, k) + Tail(b, n, k + 1) == Pow(1.0 + b, n)
  {
    if n > 0 {
      BinomialPlusTail(b, n - 1, k);
      if k > 0 {
        BinomialPlusTail(b, n - 1, k - 1);
        SumStep(b, Binomial(b, n - 1, k), Binomial(b, n - 1, k - 1), Tail(b, n - 1, k + 1), Tail(b, n - 1, k),
                Pow(1.0 + b, n - 1));
      } else {
        SumStep(b, 1.0, 0.0, Tail(b, n - 1, 1), Pow(1.0 + b, n - 1), Pow(1.0 + b, n - 1));
      }
    }
  }

  lemma SumStep(b: real, x: real, y: real, t: real, u: real, p: real)
    requires x + t == p && y + u == p
    ensures x + Times(b, y) + (t + Times(b, u)) == Times(1.0 + b, p)
  {
    assert b * y + b * u == b * (y + u);
  }

  lemma {:induction false} TailEmpty(b: real, n: nat, d: nat)
    requires n < d
    ensures Tail(b, n, d) == 0.0 && Choose(n, d) == 0
  {
    if n > 0 {
      TailEmpty(b, n - 1, d);
      TailEmpty(b, n - 1, d - 1);
    }
  }

  function Term(c: real, q: real, r: real): real { c * q * r }

  /** The term of degree d, compounded over the slots that remain. */
  function FirstDropped(b: real, n: nat, d: nat): real
    requires d <= n
  {
    Term(Choose(n, d) as real, Pow(b, d), Pow(1.0 + b, n - d))
  }

  /** The dropped terms are at most the first of them, compounded over the remaining slots. */
  lemma {:induction false} TailBound(b: real, n: nat, d: nat)
    requires b >= 0.0 && d <= n
    ensures Tail(b, n, d) <= FirstDropped(b, n, d)
  {
    if d > 0 {
      TailBound(b, n - 1, d - 1);
      if n == d {
        TailEmpty(b, n - 1, d);
      } else {
        TailBound(b, n - 1, d);
      }
      TailBoundStep(b, n, d);
    }
  }

  /** The hypothesis of the induction on n and on d. */
  ghost predicate BoundBefore(b: real, n: nat, d: nat)
    requires 0 < d <= n
  {
    && (if d == n then Tail(b, n - 1, d) == 0.0 && Choose(n - 1, d) == 0
        else Tail(b, n - 1, d) <= FirstDropped(b, n - 1, d))
    && Tail(b, n - 1, d - 1) <= FirstDropped(b, n - 1, d - 1)
  }

  lemma {:induction false} TailBoundStep(b: real, n: nat, d: nat)
    requires b >= 0.0 && 0 < d <= n && BoundBefore(b, n, d)
    ensures Tail(b, n, d) <= FirstDropped(b, n, d)
  {
    TailBoundCarry(b, n, d);
    var q, q', r := Pow(b, d - 1), Pow(b, d), Pow(1.0 + b, n - d);
    var c, e, k := Choose(n - 1, d) as real, Choose(n - 1, d - 1) as real, Choose(n, d) as real;
    PowStep(b, d);
    TailStep(b, Tail(b, n - 1, d), Tail(b, n - 1, d - 1), c, e, k, q, q', r);
  }

  lemma {:induction false} TailBoundCarry(b: real, n: nat, d: nat)
    requires b >= 0.0 && 0 < d <= n && BoundBefore(b, n, d)
    ensures Tail(b, n - 1, d) <= Term(Choose(n - 1, d) as real, Pow(b, d), Pow(1.0 + b, n - d))
  {
    if d < n {
      PowNonNeg(b, d);
      PowNonNeg(1.0 + b, n - 1 - d);
      var x := 1.0 + b;
      var r, r' := Pow(x, n - d), Pow(x, n - 1 - d);
      PowStep(x, n - d);
      TailCarry(b, Choose(n - 1, d) as real, Pow(b, d), r, r', Tail(b, n - 1, d));
    }
  }

  lemma TailCarry(b: real, c: real, q: real, r: real, r': real, t: real)
    requires b >= 0.0 && c >= 0.0 && q >= 0.0 && r' >= 0.0
    requires r == Times(1.0 + b, r')
    requires t <= Term(c, q, r')
    ensures t <= Term(c, q, r)
  {
    TimesNonNeg(c, q);
    TimesNonNeg(b, r');
    TimesMono(c * q, c * q, r', (1.0 + b) * r');
  }

  lemma TailStep(b: real, x: real, y: real, c: real, e: real, k: real, q: real, q': real, r: real)
    requires b >= 0.0 && x <= Term(c, q', r) && y <= Term(e, q, r)
    requires k == e + c && q' == Times(b, q)
    ensures x + Times(b, y) <= Term(k, q', r)
  {
    TimesNonNeg(b, e * q * r - y);
    assert (e + c) * (b * q) * r == c * (b * q) * r + b * (e * q * r);
  }

  lemma {:induction false} PowStep(x: real, n: nat)
    requires n > 0
    ensures Pow(x, n) == Times(x, Pow(x, n - 1))
  {}

  lemma {:induction false} PowNonNeg(x: real, n: nat)
    requires x >= 0.0
    ensures Pow(x, n) >= 0.0
  {
    if n > 0 { PowNonNeg(x, n - 1); }
  }

  // ---------------------------------------------------------------- main results

  lemma SmallPowers(x: real)
    ensures Pow(x, 0) == 1.0 && Pow(x, 1) == x && Pow(x, 2) == x * x
    ensures Pow(x, 3) == x * x * x && Pow(x, 4) == (x * x) * (x * x)
  {
    PowStep(x, 1);
    PowStep(x, 2);
    PowStep(x, 3);
    PowStep(x, 4);
  }

  /** Four slots and fewer are exact; from five on the source keeps degree three. */
  lemma {:induction false} CompoundCases(b: real, n: nat)
    ensures n <= 4 ==> Compound(b, n) == Pow(1.0 + b, n)
    ensures n >= 5 ==> Compound(b, n) == Binomial(b, n, 3)
  {
    if n <= 4 {
      SmallPowers(1.0 + b);
    } else {
      CubicIsBinomial(b, n);
    }
  }

  /** The fast form refines true compounding: exact up to four slots, then short by at most the
      quartic term compounded over the remaining slots. */
  lemma {:induction false} RefinesCompounding(b: real, n: nat)
    requires b >= 0.0
    ensures n <= 4 ==> Compound(b, n) == Pow(1.0 + b, n)
    ensures n >= 5 ==> 0.0 <= Pow(1.0 + b, n) - Compound(b, n) <= FirstDropped(b, n, 4)
  {
    CompoundCases(b, n);
    if n >= 5 {
      BinomialBelowPow(b, n, 3);
      BinomialPlusTail(b, n, 3);
      TailBound(b, n, 4);
    }
  }

  lemma {:induction false} CompoundBetween(b: real, n: nat)
    requires b >= 0.0
    ensures 1.0 <= Binomial(b, n, 3) <= Compound(b, n) <= Pow(1.0 + b, n)
  {
    CompoundCases(b, n);
    BinomialBelowPow(b, n, 3);
    BinomialAtLeastOne(b, n, 3);
  }

  lemma {:induction false} CompoundSplit(b: real, m: nat, n: nat)
    requires b >= 0.0
    ensures Compound(b, m + n) <= Times(Compound(b, m), Compound(b, n))
  {
    CompoundCases(b, m + n);
    CompoundCases(b, m);
    CompoundCases(b, n);
    if m + n <= 4 {
      PowAdd(1.0 + b, m, n);
    } else {
      BinomialSplit(b, m, n, 3);
      CompoundBetween(b, m);
      CompoundBetween(b, n);
      TimesMono(Binomial(b, m, 3), Compound(b, m), Binomial(b, n, 3), Compound(b, n));
    }
  }

  function Total(parts: seq<nat>): nat {
    if parts == [] then 0 else parts[0] + Total(parts[1..])
  }

  /** Compounding over each stretch in turn. */
  function CompoundOver(b: real, parts: seq<nat>): real {
    if parts == [] then 1.0 else Times(Compound(b, parts[0]), CompoundOver(b, parts[1..]))
  }

  /** Refreshing more often never lowers the interest, and never exceeds true compounding. */
  lemma {:induction false} SplittingNeverLowers(b: real, parts: seq<nat>)
    requires b >= 0.0
    ensures Compound(b, Total(parts)) <= CompoundOver(b, parts) <= Pow(1.0 + b, Total(parts))
  {
    if parts == [] {
    } else {
      var n, rest := parts[0], Total(parts[1..]);
      SplittingNeverLowers(b, parts[1..]);
      CompoundSplit(b, n, rest);
      CompoundBetween(b, n);
      CompoundBetween(b, rest);
      TimesMono(Compound(b, n), Compound(b, n), Compound(b, rest), CompoundOver(b, parts[1..]));
      TimesMono(Compound(b, n), Pow(1.0 + b, n), CompoundOver(b, parts[1..]), Pow(1.0 + b, rest));
      PowAdd(1.0 + b, n, rest);
    }
  }

  lemma {:induction false} CompoundMonoRate(h: real, a: real, n: nat)
    requires 0.0 <= h <= a
    ensures Compound(h, n) <= Compound(a, n)
  {
    CompoundCases(h, n);
    CompoundCases(a, n);
    if n <= 4 {
      PowMonoBase(1.0 + h, 1.0 + a, n);
    } else {
      BinomialMonoRate(h, a, n, 3);
    }
  }

  lemma {:induction false} PowMonoBase(x: real, y: real, n: nat)
    requires 1.0 <= x <= y
    ensures Pow(x, n) <= Pow(y, n)
  {
    if n > 0 {
      PowMonoBase(x, y, n - 1);
      PowAtLeastOne(x, n - 1);
      TimesMono(x, y, Pow(x, n - 1), Pow(y, n - 1));
    }
  }

  /** The growth from slot n to slot n + 1. */
  function Increment(b: real, n: nat): real {
    Compound(b, n + 1) - Compound(b, n)
  }

  /** The step from the exact fourth slot to the truncated fifth. */
  function AwkwardStep(b: real): real {
    b + 4.0 * (b * b) + 6.0 * (b * b * b) - b * b * b * b
  }

  lemma {:induction false} IncrementCases(b: real, n: nat)
    ensures n < 4 ==> Increment(b, n) == Times(b, Pow(1.0 + b, n))
    ensures n == 4 ==> Increment(b, n) == AwkwardStep(b)
    ensures n > 4 ==> Increment(b, n) == Times(b, Binomial(b, n, 2))
  {
    CompoundCases(b, n);
    CompoundCases(b, n + 1);
    if n < 4 {
      PowStep(1.0 + b, n + 1);
      assert Times(1.0 + b, Pow(1.0 + b, n)) == Pow(1.0 + b, n) + Times(b, Pow(1.0 + b, n));
    } else if n == 4 {
      AwkwardStepExpanded(b);
    }
  }

  lemma AwkwardStepExpanded(b: real)
    ensures Cubic(b, 5.0) - ((b + 1.0) * (b + 1.0)) * ((b + 1.0) * (b + 1.0)) == AwkwardStep(b)
  {}

  /** Except for that one step, a larger rate grows at least as much in every slot. */
  lemma {:induction false} IncrementMono(h: real, a: real, n: nat)
    requires 0.0 <= h <= a && n != 4
    ensures 0.0 <= Increment(h, n) <= Increment(a, n)
  {
    IncrementCases(h, n);
    IncrementCases(a, n);
    if n < 4 {
      PowMonoBase(1.0 + h, 1.0 + a, n);
      PowAtLeastOne(1.0 + h, n);
      TimesMono(h, a, Pow(1.0 + h, n), Pow(1.0 + a, n));
      TimesNonNeg(h, Pow(1.0 + h, n));
    } else {
      BinomialMonoRate(h, a, n, 2);
      BinomialAtLeastOne(h, n, 2);
      TimesMono(h, a, Binomial(h, n, 2), Binomial(a, n, 2));
      TimesNonNeg(h, Binomial(h, n, 2));
    }
  }

  /** The guard for the awkward step with rates h <= a; with h == 0 it reads
      a^3 <= 1 + 4a + 6a^2. It holds for every pair of rates up to 1 per slot. */
  predicate StepSafe(h: real, a: real) {
    StepMargin(h, a) >= 0.0
  }

  function StepMargin(h: real, a: real): real {
    1.0 + 4.0 * (a + h) + 6.0 * (a * a + a * h + h * h) - (a * a * a + a * a * h + a * h * h + h * h * h)
  }

  lemma SmallRatesAreSafe(h: real, a: real)
    requires 0.0 <= h <= a <= 1.0
    ensures StepSafe(h, a)
  {
    ShrinkProduct(a, a, a);
    ShrinkProduct(a, a, h);
    ShrinkProduct(a, h, h);
    ShrinkProduct(h, h, h);
    SquaresNonNeg(h, a);
  }

  lemma ShrinkProduct(x: real, y: real, z: real)
    requires 0.0 <= x <= 1.0 && 0.0 <= y && 0.0 <= z
    ensures x * y * z <= y * z
  {
    TimesNonNeg(y, z);
    TimesMono(x, 1.0, y * z, y * z);
  }

  lemma SquaresNonNeg(h: real, a: real)
    requires 0.0 <= h && 0.0 <= a
    ensures 0.0 <= h * h && 0.0 <= a * a && 0.0 <= a * h
  {}

  /** What the debt gains on top of the host's fixed part: the two growth factors' difference. */
  function Spread(h: real, a: real, n: nat): real {
    Compound(a, n) - Compound(h, n)
  }

  /** The net growth never shrinks from one slot to the next exactly when the two rates are equal
      or pass the guard. */
  lemma SpreadMonotoneIff(h: real, a: real)
    requires 0.0 <= h <= a
    ensures (forall n: nat :: Spread(h, a, n) <= Spread(h, a, n + 1)) <==> (h == a || StepSafe(h, a))
  {
    AwkwardStepIff(h, a);
    forall n: nat | n != 4 ensures Spread(h, a, n) <= Spread(h, a, n + 1) {
      IncrementMono(h, a, n);
    }
    assert Spread(h, a, 4) <= Spread(h, a, 4 + 1) <==> Increment(h, 4) <= Increment(a, 4);
  }

  lemma AwkwardStepIff(h: real, a: real)
    requires 0.0 <= h <= a
    ensures Increment(h, 4) <= Increment(a, 4) <==> (h == a || StepSafe(h, a))
  {
    IncrementCases(h, 4);
    IncrementCases(a, 4);
    AwkwardStepSign(h, a);
  }

  /** The difference of the two steps is (a - h) times the margin. */
  lemma AwkwardStepSign(h: real, a: real)
    requires 0.0 <= h <= a
    ensures AwkwardStep(h) <= AwkwardStep(a) <==> (h == a || StepSafe(h, a))
  {
    AwkwardStepSignExpanded(h, a);
  }

  lemma AwkwardStepSignExpanded(h: real, a: real)
    requires 0.0 <= h <= a
    ensures (h + 4.0 * (h * h) + 6.0 * (h * h * h) - h * h * h * h
             <= a + 4.0 * (a * a) + 6.0 * (a * a * a) - a * a * a * a)
       <==> (h == a
             || 1.0 + 4.0 * (a + h) + 6.0 * (a * a + a * h + h * h) - (a * a * a + a * a * h + a * h * h + h * h * h)
                >= 0.0)
  {
    SignOfProduct(a - h, 1.0 + 4.0 * (a + h) + 6.0 * (a * a + a * h + h * h)
                         - (a * a * a + a * a * h + a * h * h + h * h * h));
  }

  lemma {:induction false} SpreadMonotone(h: real, a: real, m: nat, n: nat)
    requires 0.0 <= h <= a && m <= n && (h == a || StepSafe(h, a))
    ensures Spread(h, a, m) <= Spread(h, a, n)
  {
    if m < n {
      SpreadMonotone(h, a, m, n - 1);
      SpreadMonotoneIff(h, a);
      assert Spread(h, a, n - 1) <= Spread(h, a, n - 1 + 1);
    }
  }

  /** One rate alone: waiting longer never lowers the growth factor exactly when
      b^3 <= 1 + 4b + 6b^2. */
  lemma GrowthMonotoneIff(b: real)
    requires b >= 0.0
    ensures (forall n: nat :: Compound(b, n) <= Compound(b, n + 1)) <==> b * b * b <= 1.0 + 4.0 * b + 6.0 * (b * b)
  {
    SpreadMonotoneIff(0.0, b);
    forall n: nat ensures Spread(0.0, b, n) == Compound(b, n) - 1.0 {
      CompoundAtZero(n);
    }
    assert forall n: nat :: Spread(0.0, b, n) <= Spread(0.0, b, n + 1) <==> Compound(b, n) <= Compound(b, n + 1);
  }

  lemma {:induction false} CompoundAtZero(n: nat)
    ensures Compound(0.0, n) == 1.0
  {}

  /** At ten times the debt per slot, the fifth slot owes less than the fourth. */
  lemma GrowthCanDrop()
    ensures Compound(10.0, 5) < Compound(10.0, 4)
  {}
}
