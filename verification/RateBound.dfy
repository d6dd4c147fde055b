/** The table of sched_policy is exact: in whole percents, and for every number of processes, it
    admits a total just when Liu and Layland's condition (1973) does. */
module RateBound {
  import opened RateMonotonic

  // One plus the utilisation of each of l processes that share percent evenly. The condition
  // total <= l (2^(1/l) - 1) says that its l-th power is at most 2.
  function Even(l: nat, percent: nat): (x: real)
    requires 0 < l
    ensures x >= 1.0
  {
    1.0 + percent as real / (100 * l) as real
  }

  lemma EvenIs(l: nat, percent: nat)
    requires 0 < l
    ensures l as real * Even(l, percent) == l as real + percent as real / 100.0
  {
    var r, p := l as real, percent as real;
    assert (100 * l) as real == 100.0 * r;
    ShareOf(r, p);
  }

  lemma ShareOf(r: real, p: real)
    requires r > 0.0
    ensures r * (1.0 + p / (100.0 * r)) == r + p / 100.0
  {
    var q := p / (100.0 * r);
    assert q * (100.0 * r) == p;
    assert r * (1.0 + q) == r + r * q;
    assert 100.0 * (r * q) == p;
  }

  // ----- More processes can use more

  lemma EvenStep(l: nat, percent: nat)
    requires 0 < l
    ensures Pow(Even(l, percent), l) <= Pow(Even(l + 1, percent), l + 1)
  {
    EvenIs(l, percent);
    EvenIs(l + 1, percent);
    MeanStep(Even(l, percent), 1.0, Even(l + 1, percent), l);
  }

  lemma {:induction false} EvenGrows(l: nat, m: nat, percent: nat)
    requires 0 < l <= m
    ensures Pow(Even(l, percent), l) <= Pow(Even(m, percent), m)
    decreases m - l
  {
    if l < m {
      EvenStep(l, percent);
      EvenGrows(l + 1, m, percent);
    }
  }

  lemma LargerShare(r: real, x: real, y: real, a: real, b: real)
    requires r > 0.0 && r * x == r + a && r * y == r + b && a <= b
    ensures x <= y
  {
    Cancel(r, x, y);
  }

  lemma MorePercent(l: nat, p: nat, q: nat)
    requires 0 < l && p <= q
    ensures Pow(Even(l, p), l) <= Pow(Even(l, q), l)
  {
    EvenIs(l, p);
    EvenIs(l, q);
    LargerShare(l as real, Even(l, p), Even(l, q), p as real / 100.0, q as real / 100.0);
    PowMonotone(Even(l, p), Even(l, q), l);
  }

  // ----- Lower bounds of powers

  lemma TwiceLow(x: real, n: nat, b: real, c: real)
    requires x >= 0.0 && 0.0 <= b <= Pow(x, n) && c <= b * b
    ensures c <= Pow(x, 2 * n)
  {
    PowAdd(x, n, n);
    MulMonotone(b, b, Pow(x, n), Pow(x, n));
  }

  lemma OnceLow(x: real, n: nat, b: real, c: real)
    requires x >= 0.0 && 0.0 <= b <= Pow(x, n) && c <= x * b
    ensures c <= Pow(x, n + 1)
  {
    MulLe(x, b, Pow(x, n));
  }

  lemma SmallExcess()
    ensures Pow(2.01, 1) > 2.0
    ensures Pow(1.415, 2) > 2.0
    ensures Pow(1.26, 3) > 2.0
    ensures Pow(1.19, 4) > 2.0
    ensures Pow(1.15, 5) > 2.0
    ensures Pow(1.0 + 74.0 / 600.0, 6) > 2.0
    ensures Pow(1.0 + 73.0 / 700.0, 7) > 2.0
    ensures Pow(1.072, 10) > 2.0
  {
  }

  lemma Excess15()
    ensures Pow(1.0 + 71.0 / 1500.0, 15) > 2.0
  {
    var x := 1.0 + 71.0 / 1500.0;
    OnceLow(x, 0, 1.0000000000, 1.0473333333);
    TwiceLow(x, 1, 1.0473333333, 1.0969071110);
    OnceLow(x, 2, 1.0969071110, 1.1488273809);
    TwiceLow(x, 3, 1.1488273809, 1.3198043511);
    OnceLow(x, 6, 1.3198043511, 1.3822750903);
    TwiceLow(x, 7, 1.3822750903, 1.9106844252);
    OnceLow(x, 14, 1.9106844252, 2.0011234879);
  }

  lemma Excess36()
    ensures Pow(1.0 + 70.0 / 3600.0, 36) > 2.0
  {
    var x := 1.0 + 70.0 / 3600.0;
    OnceLow(x, 0, 1.0000000000, 1.0194444444);
    TwiceLow(x, 1, 1.0194444444, 1.0392669752);
    TwiceLow(x, 2, 1.0392669752, 1.0800758457);
    TwiceLow(x, 4, 1.0800758457, 1.1665638324);
    OnceLow(x, 8, 1.1665638324, 1.1892470180);
    TwiceLow(x, 9, 1.1892470180, 1.4143084698);
    TwiceLow(x, 18, 1.4143084698, 2.0002684477);
  }

  // ----- 69 percent, for any number of processes

  function Short(l: nat): (x: real)
    requires 0 < l
    ensures x > 0.0
  {
    1.0 - 69.0 / (100 * l) as real
  }

  lemma ShortIs(l: nat)
    requires 0 < l
    ensures l as real * Short(l) == l as real - 0.69
  {
    assert (100 * l) as real == 100.0 * l as real;
    ShareOf(l as real, -69.0);
  }

  lemma {:induction false} ShortGrows(l: nat, m: nat)
    requires 0 < l <= m
    ensures Pow(Short(l), l) <= Pow(Short(m), m)
    decreases m - l
  {
    if l < m {
      ShortIs(l);
      ShortIs(l + 1);
      MeanStep(Short(l), 1.0, Short(l + 1), l);
      ShortGrows(l + 1, m);
    }
  }

  lemma Short80()
    ensures Pow(Short(80), 80) >= 0.5
  {
    var x := 1.0 - 69.0 / 8000.0;
    OnceLow(x, 0, 1.0000000000, 0.9913750000);
    TwiceLow(x, 1, 0.9913750000, 0.9828243906);
    TwiceLow(x, 2, 0.9828243906, 0.9659437827);
    OnceLow(x, 4, 0.9659437827, 0.9576125175);
    TwiceLow(x, 5, 0.9576125175, 0.9170217336);
    TwiceLow(x, 10, 0.9170217336, 0.8409288598);
    TwiceLow(x, 20, 0.8409288598, 0.7071613472);
    TwiceLow(x, 40, 0.7071613472, 0.5000771709);
  }

  lemma {:induction false} PowAtMostOne(x: real, n: nat)
    requires 0.0 <= x <= 1.0
    ensures Pow(x, n) <= 1.0
  {
    if n > 0 {
      PowAtMostOne(x, n - 1);
      PowNonNegative(x, n - 1);
      MulMonotone(x, Pow(x, n - 1), 1.0, 1.0);
    }
  }

  lemma Opposite(d: real)
    ensures (1.0 + d) * (1.0 - d) == 1.0 - d * d
    ensures d * d >= 0.0
  {
  }

  lemma HalfOf(a: real, b: real)
    requires a >= 0.0 && b >= 0.5 && a * b <= 1.0
    ensures a <= 2.0
  {
    MulLe(a, 0.5, b);
  }

  // (1 + d)^l (1 - d)^l is at most 1, and the second factor at least a half.
  lemma ManyFit(l: nat)
    requires 80 <= l
    ensures Pow(Even(l, 69), l) <= 2.0
  {
    var x, y := Even(l, 69), Short(l);
    Opposite(69.0 / (100 * l) as real);
    PowMul(x, y, l);
    assert 0.0 <= x * y <= 1.0;
    PowAtMostOne(x * y, l);
    ShortGrows(80, l);
    Short80();
    PowNonNegative(x, l);
    HalfOf(Pow(x, l), Pow(y, l));
  }

  // ----- The theorem

  lemma Fits(l: nat, percent: nat)
    requires 0 < l && 10 * percent <= Bound(l)
    ensures Pow(Even(l, percent), l) <= 2.0
  {
    var m, limit := FullGroup(l);
    MorePercent(l, percent, limit);
    EvenGrows(l, m, limit);
  }

  // The most processes, from l on, that may use as many percent as l may; at least 80 of them
  // where the number does not matter any more.
  lemma FullGroup(l: nat) returns (m: nat, limit: nat)
    requires 0 < l
    ensures l <= m && Bound(l) < 10 * (limit + 1) && Pow(Even(m, limit), m) <= 2.0
  {
    SmallPowers();
    BoundCeilings(l);
    if l == 1 { m, limit := 1, 100; }
    else if l == 2 { m, limit := 2, 82; }
    else if l == 3 { m, limit := 3, 77; }
    else if l == 4 { m, limit := 4, 75; }
    else if l == 5 { m, limit := 5, 74; }
    else if l == 6 { m, limit := 6, 73; }
    else if l <= 9 { m, limit := 9, 72; }
    else if l <= 14 { m, limit := 14, 71; }
    else if l <= 35 { m, limit := 35, 70; Power35(); }
    else {
      m, limit := if l < 80 then 80 else l, 69;
      ManyFit(m);
    }
  }

  lemma Exceeds(l: nat, percent: nat)
    requires 0 < l && 10 * percent > Bound(l)
    ensures Pow(Even(l, percent), l) > 2.0
  {
    var m, excess := FirstOfGroup(l);
    EvenGrows(m, l, excess);
    MorePercent(l, excess, percent);
  }

  lemma FirstOfGroup(l: nat) returns (m: nat, excess: nat)
    requires 0 < l
    ensures 0 < m <= l && 0 < excess && 10 * (excess - 1) <= Bound(l) && Pow(Even(m, excess), m) > 2.0
  {
    SmallExcess();
    if l == 1 { m, excess := 1, 101; }
    else if l == 2 { m, excess := 2, 83; }
    else if l == 3 { m, excess := 3, 78; }
    else if l == 4 { m, excess := 4, 76; }
    else if l == 5 { m, excess := 5, 75; }
    else if l == 6 { m, excess := 6, 74; }
    else if l <= 9 { m, excess := 7, 73; }
    else if l <= 14 { m, excess := 10, 72; }
    else if l <= 35 { m, excess := 15, 71; Excess15(); }
    else { m, excess := 36, 70; Excess36(); }
  }

  // A total is within the table's entry for l processes if and only if it is within
  // l (2^(1/l) - 1): the test neither admits too much nor refuses what the condition allows.
  lemma BoundExact(l: nat, percent: nat)
    requires 0 < l
    ensures 10 * percent <= Bound(l) <==> Pow(Even(l, percent), l) <= 2.0
  {
    if 10 * percent <= Bound(l) {
      Fits(l, percent);
    } else {
      Exceeds(l, percent);
    }
  }
}
