/** The rate-monotonic admission test of sched_policy (proc.c): its table of utilisation
    bounds, and what the accepted processes satisfy together. */
module RateMonotonic {

  // The bounds n (2^(1/n) - 1) of Liu and Layland (1973), in thousandths and rounded down,
  // that process number l = pid - 2 is tested against.
  function Bound(l: int): int {
    if l < 1 then 696
    else if l == 1 then 1000
    else if l == 2 then 828
    else if l == 3 then 779
    else if l == 4 then 756
    else if l == 5 then 743
    else if l == 6 then 734
    else if l == 7 then 728
    else if l == 8 then 724
    else if l == 9 then 720
    else if l == 10 then 717
    else if l == 11 then 715
    else if l == 12 then 713
    else if l == 13 then 711
    else if l == 14 then 710
    else if l == 15 then 709
    else if l == 16 then 708
    else if l == 17 then 707
    else if l == 18 then 706
    else if l <= 20 then 705
    else if l <= 22 then 704
    else if l <= 24 then 703
    else if l <= 27 then 702
    else if l <= 30 then 701
    else if l <= 35 then 700
    else if l <= 41 then 699
    else if l <= 49 then 698
    else if l <= 62 then 697
    else if l == 63 then 696
    else 696
  }

  // An accepted process: its pid, and execution_time * rate, its utilisation in percent.
  datatype Task = Task(pid: int, percent: nat)

  function Total(ts: seq<Task>): nat {
    if ts == [] then 0 else Total(ts[..|ts| - 1]) + ts[|ts| - 1].percent
  }

  // Accepted one after the other, in pid order, the user processes having pids from 3 on.
  ghost predicate Accepted(ts: seq<Task>)
  {
    ts != [] ==>
      var n := |ts|;
      && Accepted(ts[..n - 1])
      && ts[n - 1].pid >= 3
      && (n >= 2 ==> ts[n - 2].pid < ts[n - 1].pid)
      && 10 * Total(ts) <= Bound(ts[n - 1].pid - 2)
  }

  // ----- Products and powers

  function Pow(x: real, n: nat): real {
    if n == 0 then 1.0 else x * Pow(x, n - 1)
  }

  function Product(xs: seq<real>): real {
    if xs == [] then 1.0 else Product(xs[..|xs| - 1]) * xs[|xs| - 1]
  }

  function Sum(xs: seq<real>): real {
    if xs == [] then 0.0 else Sum(xs[..|xs| - 1]) + xs[|xs| - 1]
  }

  lemma {:induction false} PowNonNegative(x: real, n: nat)
    requires x >= 0.0
    ensures Pow(x, n) >= 0.0
  {
    if n > 0 {
      PowNonNegative(x, n - 1);
    }
  }

  lemma {:induction false} PowMonotone(x: real, y: real, n: nat)
    requires 0.0 <= x <= y
    ensures Pow(x, n) <= Pow(y, n)
  {
    if n > 0 {
      PowMonotone(x, y, n - 1);
      PowNonNegative(x, n - 1);
      MulMonotone(x, Pow(x, n - 1), y, Pow(y, n - 1));
    }
  }

  lemma MulMonotone(a: real, b: real, c: real, d: real)
    requires 0.0 <= a <= c && 0.0 <= b <= d
    ensures a * b <= c * d
  {
  }

  lemma {:induction false} PowMul(x: real, y: real, n: nat)
    ensures Pow(x * y, n) == Pow(x, n) * Pow(y, n)
  {
    if n > 0 {
      PowMul(x, y, n - 1);
      var a, b := Pow(x, n - 1), Pow(y, n - 1);
      assert (x * y) * (a * b) == (x * a) * (y * b);
    }
  }

  lemma MulLe(c: real, a: real, b: real)
    requires c >= 0.0 && a <= b
    ensures c * a <= c * b
  {
  }

  lemma BernoulliStep(d: real, m: real, p: real)
    requires 1.0 + d >= 0.0 && m >= 0.0 && p >= 1.0 + m * d
    ensures (1.0 + d) * p >= 1.0 + (m + 1.0) * d
  {
    var low := 1.0 + m * d;
    MulLe(1.0 + d, low, p);
    calc {
      (1.0 + d) * low;
      low + d * low;
      1.0 + m * d + (d + d * (m * d));
      { assert d * (m * d) == m * (d * d); }
      1.0 + (m + 1.0) * d + m * (d * d);
    }
    assert d * d >= 0.0;
    assert m * (d * d) >= 0.0;
  }

  // Bernoulli's inequality.
  lemma {:induction false} Bernoulli(y: real, n: nat)
    requires y >= 0.0
    ensures Pow(y, n) >= 1.0 + n as real * (y - 1.0)
  {
    if n > 0 {
      Bernoulli(y, n - 1);
      BernoulliStep(y - 1.0, (n - 1) as real, Pow(y, n - 1));
    }
  }

  // Bernoulli's lower bound for the mean b = a y of n + 1 numbers, scaled back by a.
  lemma MeanLow(a: real, y: real, b: real, x: real, r: real, m: real)
    requires a * y == b && m == r + 1.0 && m * b == r * a + x
    ensures a * (1.0 + m * (y - 1.0)) == x
  {
    assert a * (m * y) == m * (a * y);
    calc {
      a * (1.0 + m * (y - 1.0));
      a + a * (m * y) - a * m;
      a + m * b - a * m;
      a + r * a + x - a * (r + 1.0);
      x;
    }
  }

  lemma Reassociate(a: real, p: real, l: real)
    ensures (a * p) * l == p * (a * l)
  {
  }

  // The inductive step of the inequality of the means: a is the mean of n numbers, b the
  // mean of those and x.
  lemma MeanStep(a: real, x: real, b: real, n: nat)
    requires a > 0.0 && x >= 0.0 && (n + 1) as real * b == n as real * a + x
    ensures Pow(a, n) * x <= Pow(b, n + 1)
  {
    var r, m, p := n as real, (n + 1) as real, Pow(a, n);
    Cancel(m, 0.0, b);
    var y := Quotient(b, a);
    Cancel(a, 0.0, y);
    var low := 1.0 + m * (y - 1.0);
    calc {
      Pow(b, n + 1);
      { PowMul(a, y, n + 1); }
      Pow(a, n + 1) * Pow(y, n + 1);
    >=
      { Bernoulli(y, n + 1); PowNonNegative(a, n + 1); MulLe(Pow(a, n + 1), low, Pow(y, n + 1)); }
      Pow(a, n + 1) * low;
      (a * p) * low;
      { Reassociate(a, p, low); }
      p * (a * low);
      { MeanLow(a, y, b, x, r, m); }
      p * x;
    }
  }

  lemma MeanStepScaled(p: real, a: real, x: real, b: real, n: nat)
    requires a > 0.0 && x > 0.0 && (n + 1) as real * b == n as real * a + x
    requires p <= Pow(a, n)
    ensures b > 0.0 && p * x <= Pow(b, n + 1)
  {
    MeanStep(a, x, b, n);
    MulLe(x, p, Pow(a, n));
  }

  // The geometric mean is at most the arithmetic mean.
  lemma {:induction false} MeansInequality(xs: seq<real>, mean: real)
    requires xs != [] && (forall i :: 0 <= i < |xs| ==> xs[i] > 0.0)
    requires |xs| as real * mean == Sum(xs)
    ensures mean > 0.0 && Product(xs) <= Pow(mean, |xs|)
  {
    var n := |xs| - 1;
    var init, x := xs[..n], xs[n];
    if n == 0 {
      assert Product(xs) == Product([]) * x == x;
      assert Pow(x, 1) == x * Pow(x, 0) == x;
    } else {
      var a := Quotient(Sum(init), n as real);
      MeansInequality(init, a);
      assert (n + 1) as real * mean == n as real * a + x;
      MeanStepScaled(Product(init), a, x, mean, n);
    }
  }

  // Numbers whose sum is at most n x have a product of at most x^n.
  lemma ProductBound(xs: seq<real>, x: real)
    requires xs != [] && (forall i :: 0 <= i < |xs| ==> xs[i] > 0.0)
    requires Sum(xs) <= |xs| as real * x
    ensures Product(xs) <= Pow(x, |xs|)
  {
    var mean := Quotient(Sum(xs), |xs| as real);
    MeansInequality(xs, mean);
    Cancel(|xs| as real, mean, x);
    PowMonotone(mean, x, |xs|);
  }

  lemma Quotient(a: real, r: real) returns (q: real)
    requires r > 0.0
    ensures r * q == a
  {
    q := a / r;
  }

  lemma Cancel(r: real, a: real, b: real)
    requires r > 0.0 && r * a <= r * b
    ensures a <= b
  {
  }

  // ----- The accepted set

  function Factor(percent: nat): real {
    1.0 + percent as real / 100.0
  }

  function Factors(ts: seq<Task>): (xs: seq<real>)
    ensures |xs| == |ts| && forall i :: 0 <= i < |xs| ==> xs[i] >= 1.0
  {
    seq(|ts|, i requires 0 <= i < |ts| => Factor(ts[i].percent))
  }

  lemma {:induction false} FactorsSum(ts: seq<Task>)
    ensures Sum(Factors(ts)) == |ts| as real + Total(ts) as real / 100.0
  {
    if ts != [] {
      var n := |ts| - 1;
      assert Factors(ts)[..n] == Factors(ts[..n]);
      FactorsSum(ts[..n]);
    }
  }

  // Whole percents: a product of factors is at most a power of 1.01.
  lemma {:induction false} FactorsPower(ts: seq<Task>)
    ensures Product(Factors(ts)) <= Pow(1.01, Total(ts))
  {
    if ts != [] {
      var n := |ts| - 1;
      var k := ts[n].percent;
      assert Factors(ts)[..n] == Factors(ts[..n]);
      FactorsPower(ts[..n]);
      Bernoulli(1.01, k);
      ProductPositive(Factors(ts[..n]));
      MulMonotone(Product(Factors(ts[..n])), Factor(k), Pow(1.01, Total(ts[..n])), Pow(1.01, k));
      PowAdd(1.01, Total(ts[..n]), k);
    }
  }

  lemma {:induction false} ProductPositive(xs: seq<real>)
    requires forall i :: 0 <= i < |xs| ==> xs[i] >= 1.0
    ensures Product(xs) >= 1.0
  {
    if xs != [] {
      var n := |xs| - 1;
      ProductPositive(xs[..n]);
      MulMonotone(1.0, 1.0, Product(xs[..n]), xs[n]);
    }
  }

  lemma {:induction false} PowAdd(x: real, m: nat, n: nat)
    ensures Pow(x, m + n) == Pow(x, m) * Pow(x, n)
  {
    if m > 0 {
      PowAdd(x, m - 1, n);
      assert x * (Pow(x, m - 1) * Pow(x, n)) == (x * Pow(x, m - 1)) * Pow(x, n);
    }
  }

  // Upper bounds of powers, by repeated squaring.
  lemma Twice(x: real, n: nat, b: real, c: real)
    requires x >= 0.0 && Pow(x, n) <= b && b * b <= c
    ensures Pow(x, 2 * n) <= c
  {
    PowAdd(x, n, n);
    PowNonNegative(x, n);
    MulMonotone(Pow(x, n), Pow(x, n), b, b);
  }

  lemma Once(x: real, n: nat, b: real, c: real)
    requires x >= 0.0 && Pow(x, n) <= b && x * b <= c
    ensures Pow(x, n + 1) <= c
  {
  }

  lemma SmallPowers()
    ensures Pow(2.0, 1) <= 2.0
    ensures Pow(1.41, 2) <= 2.0
    ensures Pow(1.0 + 77.0 / 300.0, 3) <= 2.0
    ensures Pow(1.1875, 4) <= 2.0
    ensures Pow(1.148, 5) <= 2.0
    ensures Pow(1.0 + 73.0 / 600.0, 6) <= 2.0
    ensures Pow(1.08, 9) <= 2.0
    ensures Pow(1.0 + 71.0 / 1400.0, 14) <= 2.0
  {
  }

  lemma Power35()
    ensures Pow(1.02, 35) <= 2.0
  {
    var x := 1.02;
    Once(x, 0, 1.0, 1.020000000);
    Twice(x, 1, 1.020000000, 1.040400000);
    Twice(x, 2, 1.040400000, 1.082432160);
    Twice(x, 4, 1.082432160, 1.171659382);
    Twice(x, 8, 1.171659382, 1.372785708);
    Once(x, 16, 1.372785708, 1.400241423);
    Twice(x, 17, 1.400241423, 1.960676043);
    Once(x, 34, 1.960676043, 1.999889564);
  }

  lemma Power69()
    ensures Pow(1.01, 69) <= 2.0
  {
    Once(1.01, 0, 1.0, 1.010000000);
    Twice(1.01, 1, 1.010000000, 1.020100000);
    Twice(1.01, 2, 1.020100000, 1.040604010);
    Twice(1.01, 4, 1.040604010, 1.082856706);
    Twice(1.01, 8, 1.082856706, 1.172578646);
    Once(1.01, 16, 1.172578646, 1.184304433);
    Twice(1.01, 17, 1.184304433, 1.402576991);
    Twice(1.01, 34, 1.402576991, 1.967222216);
    Once(1.01, 68, 1.967222216, 1.986894439);
  }

  // ----- The theorem

  // Idle tasks change neither side.
  lemma {:induction false} Pad(ts: seq<Task>, n: nat)
    ensures var all := ts + seq(n, _ => Task(0, 0));
            Product(Factors(all)) == Product(Factors(ts)) && Total(all) == Total(ts)
  {
    var all := ts + seq(n, _ => Task(0, 0));
    if n == 0 {
      assert all == ts;
    } else {
      Pad(ts, n - 1);
      assert all[..|all| - 1] == ts + seq(n - 1, _ => Task(0, 0));
      assert Factors(all)[..|all| - 1] == Factors(all[..|all| - 1]);
    }
  }

  // The factors of at most n tasks, as exactly n numbers.
  lemma Padded(ts: seq<Task>, n: nat) returns (xs: seq<real>)
    requires |ts| <= n
    ensures |xs| == n && (forall i :: 0 <= i < n ==> xs[i] > 0.0)
    ensures Product(xs) == Product(Factors(ts)) && Sum(xs) == n as real + Total(ts) as real / 100.0
  {
    var all := ts + seq(n - |ts|, _ => Task(0, 0));
    Pad(ts, n - |ts|);
    FactorsSum(all);
    xs := Factors(all);
  }

  lemma LimitBound(n: real, total: nat, limit: nat, x: real)
    requires total <= limit && n * x == n + limit as real / 100.0
    ensures n + total as real / 100.0 <= n * x
  {
  }

  // At most n tasks of at most limit percent together; x is 1 + limit / (100 n).
  lemma MeanBound(ts: seq<Task>, n: nat, limit: nat, x: real)
    requires 0 < n && |ts| <= n && Total(ts) <= limit
    requires n as real * x == n as real + limit as real / 100.0
    ensures Product(Factors(ts)) <= Pow(x, n)
  {
    LimitBound(n as real, Total(ts), limit, x);
    var xs := Padded(ts, n);
    ProductBound(xs, x);
  }

  lemma {:induction false} PidsCount(ts: seq<Task>)
    requires Accepted(ts) && ts != []
    ensures |ts| <= ts[|ts| - 1].pid - 2
  {
    if |ts| > 1 {
      PidsCount(ts[..|ts| - 1]);
    }
  }

  lemma BoundCeilings(l: int)
    ensures 1 <= l ==> Bound(l) < 1010
    ensures 2 <= l ==> Bound(l) < 830
    ensures 3 <= l ==> Bound(l) < 780
    ensures 4 <= l ==> Bound(l) < 760
    ensures 5 <= l ==> Bound(l) < 750
    ensures 6 <= l ==> Bound(l) < 740
    ensures 7 <= l ==> Bound(l) < 730
    ensures 10 <= l ==> Bound(l) < 720
    ensures 15 <= l ==> Bound(l) < 710
    ensures 36 <= l ==> Bound(l) < 700
  {
  }

  // The accepted processes satisfy the product bound: for every one of them,
  // the product of (1 + utilisation) is at most 2.
  lemma AcceptedProduct(ts: seq<Task>)
    requires Accepted(ts)
    ensures Product(Factors(ts)) <= 2.0
  {
    if ts != [] {
      var l := ts[|ts| - 1].pid - 2;
      PidsCount(ts);
      BoundCeilings(l);
      if l >= 36 {
        FactorsPower(ts);
        PowIncreasing(1.01, Total(ts), 69);
        Power69();
      } else {
        SmallBound(ts, l);
      }
    }
  }

  lemma SmallBound(ts: seq<Task>, l: nat)
    requires 1 <= l < 36 && |ts| <= l && 10 * Total(ts) <= Bound(l)
    ensures Product(Factors(ts)) <= 2.0
  {
    BoundCeilings(l);
    SmallPowers();
    if l == 1 { MeanBound(ts, 1, 100, 2.0); }
    else if l == 2 { MeanBound(ts, 2, 82, 1.41); }
    else if l == 3 { MeanBound(ts, 3, 77, 1.0 + 77.0 / 300.0); }
    else if l == 4 { MeanBound(ts, 4, 75, 1.1875); }
    else if l == 5 { MeanBound(ts, 5, 74, 1.148); }
    else if l == 6 { MeanBound(ts, 6, 73, 1.0 + 73.0 / 600.0); }
    else if l <= 9 { MeanBound(ts, 9, 72, 1.08); }
    else if l <= 14 { MeanBound(ts, 14, 71, 1.0 + 71.0 / 1400.0); }
    else { MeanBound(ts, 35, 70, 1.02); Power35(); }
  }

  lemma {:induction false} PowIncreasing(x: real, m: nat, n: nat)
    requires x >= 1.0 && m <= n
    ensures 1.0 <= Pow(x, m) <= Pow(x, n)
  {
    if m > 0 {
      PowIncreasing(x, m - 1, n - 1);
      MulMonotone(1.0, 1.0, x, Pow(x, m - 1));
      MulLe(x, Pow(x, m - 1), Pow(x, n - 1));
    } else if n > 0 {
      PowIncreasing(x, 0, n - 1);
      MulMonotone(1.0, 1.0, x, Pow(x, n - 1));
    }
  }
}
