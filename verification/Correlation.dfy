/** The lagged Pearson scorer (internal/metrics/correlation.go) over exact reals. The coefficient
    r = num / sqrt(vx*vy) is carried as its signed square r*|r| = num*|num| / (vx*vy), which orders
    and bounds exactly like r and needs no square root. */
module Correlation {
  import opened Options
  import opened Reals

  // ----- moments -----

  function Sum(a: seq<real>, n: nat): real
    requires n <= |a|
  {
    if n == 0 then 0.0 else Sum(a, n - 1) + a[n - 1]
  }

  function Dot(a: seq<real>, b: seq<real>, n: nat): real
    requires n <= |a| && n <= |b|
  {
    if n == 0 then 0.0 else Dot(a, b, n - 1) + a[n - 1] * b[n - 1]
  }

  /** The products of distances from (x, y). */
  function Distances(a: seq<real>, b: seq<real>, x: real, y: real, k: nat): seq<real>
    requires k <= |a| && k <= |b|
  {
    seq(k, i requires 0 <= i < k => (a[i] - x) * (b[i] - y))
  }

  /** The co-movement of each earlier pair relative to pair j. */
  function Terms(a: seq<real>, b: seq<real>, j: nat): seq<real>
    requires j < |a| && j < |b|
  {
    Distances(a, b, a[j], b[j], j)
  }

  function Crosses(a: seq<real>, b: seq<real>, n: nat): seq<real>
    requires n <= |a| && n <= |b|
  {
    seq(n, j requires 0 <= j < n => Sum(Terms(a, b, j), j))
  }

  /** The co-movement of two series: over all i < j < n, the sum of (a[i]-a[j])*(b[i]-b[j]). With
      a = b it is the variance term. */
  function Cov(a: seq<real>, b: seq<real>, n: nat): real
    requires n <= |a| && n <= |b|
  {
    Sum(Crosses(a, b, n), n)
  }

  /** What the code computes in a single pass. */
  function SinglePass(n: real, sx: real, sy: real, sxy: real): real {
    n * sxy - sx * sy
  }

  // ----- sums -----

  lemma {:induction false} SumSame(s: seq<real>, t: seq<real>, n: nat)
    requires n <= |s| && n <= |t| && forall i :: 0 <= i < n ==> s[i] == t[i]
    ensures Sum(s, n) == Sum(t, n)
    decreases n
  {
    if n > 0 {
      SumSame(s, t, n - 1);
    }
  }

  predicate Scaled(s: seq<real>, t: seq<real>, p: real, n: nat) {
    n <= |s| && n <= |t| && forall i :: 0 <= i < n ==> t[i] == p * s[i]
  }

  lemma {:induction false} SumScaled(s: seq<real>, t: seq<real>, p: real, n: nat)
    requires Scaled(s, t, p, n)
    ensures Sum(t, n) == p * Sum(s, n)
    decreases n
  {
    if n > 0 {
      SumScaled(s, t, p, n - 1);
      Distribute(p, Sum(s, n - 1), s[n - 1], Sum(s, n));
    }
  }

  lemma TotalsScaled(s: seq<real>, t: seq<real>, p: real, n: nat, c: real, d: real)
    requires Scaled(s, t, p, n) && c == Sum(s, n) && d == Sum(t, n)
    ensures d == p * c
  {
    SumScaled(s, t, p, n);
  }

  predicate Mixed(c: seq<real>, s: seq<real>, t: seq<real>, r: seq<real>, u: real, v: real, w: real, n: nat) {
    n <= |c| && n <= |s| && n <= |t| && n <= |r| && forall i :: 0 <= i < n ==> c[i] == u * s[i] + v * t[i] + w * r[i]
  }

  lemma {:induction false} SumMixed(
    c: seq<real>, s: seq<real>, t: seq<real>, r: seq<real>, u: real, v: real, w: real, n: nat)
    requires Mixed(c, s, t, r, u, v, w, n)
    ensures Sum(c, n) == u * Sum(s, n) + v * Sum(t, n) + w * Sum(r, n)
    decreases n
  {
    if n > 0 {
      SumMixed(c, s, t, r, u, v, w, n - 1);
      Distribute(u, Sum(s, n - 1), s[n - 1], Sum(s, n));
      Distribute(v, Sum(t, n - 1), t[n - 1], Sum(t, n));
      Distribute(w, Sum(r, n - 1), r[n - 1], Sum(r, n));
    }
  }

  lemma {:induction false} SumNonNegative(s: seq<real>, n: nat)
    requires n <= |s| && forall i :: 0 <= i < n ==> s[i] >= 0.0
    ensures Sum(s, n) >= 0.0
    ensures Sum(s, n) == 0.0 <==> forall i :: 0 <= i < n ==> s[i] == 0.0
    decreases n
  {
    if n > 0 {
      SumNonNegative(s, n - 1);
      assert (forall i :: 0 <= i < n ==> s[i] == 0.0) <==>
             (forall i :: 0 <= i < n - 1 ==> s[i] == 0.0) && s[n - 1] == 0.0;
    }
  }

  // ----- the single pass computes the co-movement -----

  lemma CrossTerm(u: real, v: real, x: real, y: real, xy: real, uv: real, z: real)
    requires z == (u - x) * (v - y) && uv == u * v && xy == x * y
    ensures z == uv + -y * u + -x * v + xy
  {
  }

  predicate OpenedTerms(ts: seq<real>, ab: seq<real>, a: seq<real>, b: seq<real>, p: real, q: real, xy: real, n: nat) {
    n <= |ts| && n <= |ab| && n <= |a| && n <= |b| &&
    forall i :: 0 <= i < n ==> ts[i] == ab[i] + p * a[i] + q * b[i] + xy
  }

  lemma {:induction false} SumOpened(
    ts: seq<real>, ab: seq<real>, a: seq<real>, b: seq<real>, p: real, q: real, xy: real, n: nat)
    requires OpenedTerms(ts, ab, a, b, p, q, xy, n)
    ensures Sum(ts, n) == Sum(ab, n) + p * Sum(a, n) + q * Sum(b, n) + n as real * xy
    decreases n
  {
    if n > 0 {
      SumOpened(ts, ab, a, b, p, q, xy, n - 1);
      Distribute(p, Sum(a, n - 1), a[n - 1], Sum(a, n));
      Distribute(q, Sum(b, n - 1), b[n - 1], Sum(b, n));
      Distribute(xy, (n - 1) as real, 1.0, n as real);
    }
  }

  lemma {:induction false} DotIsSum(a: seq<real>, b: seq<real>, ab: seq<real>, n: nat)
    requires n <= |a| && n <= |b| && n <= |ab| && forall i :: 0 <= i < n ==> ab[i] == a[i] * b[i]
    ensures Dot(a, b, n) == Sum(ab, n)
    decreases n
  {
    if n > 0 {
      DotIsSum(a, b, ab, n - 1);
    }
  }

  function Products(a: seq<real>, b: seq<real>, k: nat): seq<real>
    requires k <= |a| && k <= |b|
  {
    seq(k, i requires 0 <= i < k => a[i] * b[i])
  }

  lemma DistanceOpened(a: seq<real>, b: seq<real>, x: real, y: real, xy: real, k: nat, i: nat, p: real, q: real)
    requires i < k <= |a| && k <= |b| && xy == x * y && p == -y && q == -x
    ensures Distances(a, b, x, y, k)[i] == Products(a, b, k)[i] + p * a[i] + q * b[i] + xy
  {
    CrossTerm(a[i], b[i], x, y, xy, Products(a, b, k)[i], Distances(a, b, x, y, k)[i]);
  }

  /** cross is the sum of (a[i]-x)*(b[i]-y) over the first k pairs, opened up. */
  predicate Opened(a: seq<real>, b: seq<real>, x: real, y: real, xy: real, k: nat, cross: real)
    requires k <= |a| && k <= |b|
  {
    xy == x * y && cross == Dot(a, b, k) + -y * Sum(a, k) + -x * Sum(b, k) + k as real * xy
  }

  lemma CrossTerms(a: seq<real>, b: seq<real>, x: real, y: real, xy: real, k: nat, p: real, q: real)
    requires k <= |a| && k <= |b| && xy == x * y && p == -y && q == -x
    ensures OpenedTerms(Distances(a, b, x, y, k), Products(a, b, k), a, b, p, q, xy, k)
  {
    forall i | 0 <= i < k
      ensures Distances(a, b, x, y, k)[i] == Products(a, b, k)[i] + p * a[i] + q * b[i] + xy
    {
      DistanceOpened(a, b, x, y, xy, k, i, p, q);
    }
  }

  lemma CrossSum(a: seq<real>, b: seq<real>, x: real, y: real, xy: real, k: nat)
    requires k <= |a| && k <= |b| && xy == x * y
    ensures Sum(Distances(a, b, x, y, k), k) ==
            Sum(Products(a, b, k), k) + -y * Sum(a, k) + -x * Sum(b, k) + k as real * xy
  {
    CrossTerms(a, b, x, y, xy, k, -y, -x);
    SumOpened(Distances(a, b, x, y, k), Products(a, b, k), a, b, -y, -x, xy, k);
  }

  lemma CrossExpands(a: seq<real>, b: seq<real>, x: real, y: real, xy: real, k: nat)
    requires k <= |a| && k <= |b| && xy == x * y
    ensures Opened(a, b, x, y, xy, k, Sum(Distances(a, b, x, y, k), k))
  {
    DotIsSum(a, b, Products(a, b, k), k);
    CrossSum(a, b, x, y, xy, k);
  }

  lemma SinglePassStep(m: real, s: real, t: real, d: real, x: real, y: real, xy: real, cross: real,
                       n: real, s': real, t': real, d': real)
    requires xy == x * y && cross == d + -y * s + -x * t + m * xy
    requires n == m + 1.0 && s' == s + x && t' == t + y && d' == d + xy
    ensures SinglePass(n, s', t', d') == SinglePass(m, s, t, d) + cross
  {
  }

  lemma CovLast(a: seq<real>, b: seq<real>, n: nat)
    requires 0 < n <= |a| && n <= |b|
    ensures Cov(a, b, n) == Cov(a, b, n - 1) + Sum(Distances(a, b, a[n - 1], b[n - 1], n - 1), n - 1)
  {
    SumSame(Crosses(a, b, n), Crosses(a, b, n - 1), n - 1);
  }

  function SinglePassOf(a: seq<real>, b: seq<real>, n: nat): real
    requires n <= |a| && n <= |b|
  {
    SinglePass(n as real, Sum(a, n), Sum(b, n), Dot(a, b, n))
  }

  lemma SinglePassGrows(a: seq<real>, b: seq<real>, n: nat, xy: real, cross: real)
    requires 0 < n <= |a| && n <= |b| && Opened(a, b, a[n - 1], b[n - 1], xy, n - 1, cross)
    ensures SinglePassOf(a, b, n) == SinglePassOf(a, b, n - 1) + cross
  {
    SinglePassStep((n - 1) as real, Sum(a, n - 1), Sum(b, n - 1), Dot(a, b, n - 1), a[n - 1], b[n - 1], xy, cross,
                   n as real, Sum(a, n), Sum(b, n), Dot(a, b, n));
  }

  /** One more pair adds its co-movement with all earlier ones. */
  lemma SinglePassPair(a: seq<real>, b: seq<real>, n: nat, xy: real)
    requires 0 < n <= |a| && n <= |b| && xy == a[n - 1] * b[n - 1]
    ensures SinglePassOf(a, b, n) == SinglePassOf(a, b, n - 1) + Sum(Distances(a, b, a[n - 1], b[n - 1], n - 1), n - 1)
  {
    CrossExpands(a, b, a[n - 1], b[n - 1], xy, n - 1);
    SinglePassGrows(a, b, n, xy, Sum(Distances(a, b, a[n - 1], b[n - 1], n - 1), n - 1));
  }

  /** The single pass n*Sum(ab) - Sum(a)*Sum(b) computes exactly the co-movement. */
  lemma {:induction false} SinglePassIsCov(a: seq<real>, b: seq<real>, n: nat)
    requires n <= |a| && n <= |b|
    ensures SinglePassOf(a, b, n) == Cov(a, b, n)
    decreases n
  {
    if n > 0 {
      CovLast(a, b, n);
      SinglePassPair(a, b, n, a[n - 1] * b[n - 1]);
      SinglePassIsCov(a, b, n - 1);
    }
  }

  // ----- variance -----

  predicate Constant(a: seq<real>, n: nat)
    requires n <= |a|
  {
    forall i, j :: 0 <= i < j < n ==> a[i] == a[j]
  }

  lemma SquareTerms(a: seq<real>, j: nat)
    requires j < |a|
    ensures var ts := Terms(a, a, j);
            && Sum(ts, j) >= 0.0
            && (Sum(ts, j) == 0.0 <==> forall i :: 0 <= i < j ==> a[i] == a[j])
  {
    var ts := Terms(a, a, j);
    forall i | 0 <= i < j ensures ts[i] >= 0.0 && (ts[i] == 0.0 <==> a[i] == a[j]) {
      Square(a[i] - a[j], ts[i]);
    }
    SumNonNegative(ts, j);
  }

  /** The variance term is never negative, and zero exactly for a constant series. */
  lemma VarNonNegative(a: seq<real>, n: nat)
    requires n <= |a|
    ensures Cov(a, a, n) >= 0.0
    ensures Cov(a, a, n) == 0.0 <==> Constant(a, n)
  {
    var cs := Crosses(a, a, n);
    forall j | 0 <= j < n ensures cs[j] >= 0.0 && (cs[j] == 0.0 <==> forall i :: 0 <= i < j ==> a[i] == a[j]) {
      SquareTerms(a, j);
    }
    SumNonNegative(cs, n);
  }

  // ----- Cauchy-Schwarz -----

  function Mix(a: seq<real>, b: seq<real>, p: real, q: real): seq<real>
    requires |a| == |b|
  {
    seq(|a|, i requires 0 <= i < |a| => p * a[i] + q * b[i])
  }

  lemma MixTerm(a0: real, a1: real, b0: real, b1: real, p: real, q: real, u: real, v: real, w: real, c0: real, c1: real)
    requires u == p * p && v == 2.0 * (p * q) && w == q * q && c0 == p * a0 + q * b0 && c1 == p * a1 + q * b1
    ensures (c0 - c1) * (c0 - c1) ==
            u * ((a0 - a1) * (a0 - a1)) + v * ((a0 - a1) * (b0 - b1)) + w * ((b0 - b1) * (b0 - b1))
  {
    var x, y, z := a0 - a1, b0 - b1, c0 - c1;
    var f, g := p * x, q * y;
    assert z == f + g;
    assert z * z == (f + g) * (f + g) == f * f + 2.0 * (f * g) + g * g;
    assert f * f == p * p * (x * x) && g * g == q * q * (y * y) && f * g == (p * q) * (x * y);
  }

  lemma MixTerms(a: seq<real>, b: seq<real>, p: real, q: real, u: real, v: real, w: real, j: nat)
    requires j < |a| == |b| && u == p * p && v == 2.0 * (p * q) && w == q * q
    ensures var c := Mix(a, b, p, q); Mixed(Terms(c, c, j), Terms(a, a, j), Terms(a, b, j), Terms(b, b, j), u, v, w, j)
  {
    var c := Mix(a, b, p, q);
    forall i | 0 <= i < j
      ensures Terms(c, c, j)[i] == u * Terms(a, a, j)[i] + v * Terms(a, b, j)[i] + w * Terms(b, b, j)[i]
    {
      MixTerm(a[i], a[j], b[i], b[j], p, q, u, v, w, c[i], c[j]);
    }
  }

  lemma MixCross(a: seq<real>, b: seq<real>, p: real, q: real, u: real, v: real, w: real, n: nat, j: nat)
    requires j < n <= |a| == |b| && u == p * p && v == 2.0 * (p * q) && w == q * q
    ensures var c := Mix(a, b, p, q);
            Crosses(c, c, n)[j] == u * Crosses(a, a, n)[j] + v * Crosses(a, b, n)[j] + w * Crosses(b, b, n)[j]
  {
    var c := Mix(a, b, p, q);
    MixTerms(a, b, p, q, u, v, w, j);
    SumMixed(Terms(c, c, j), Terms(a, a, j), Terms(a, b, j), Terms(b, b, j), u, v, w, j);
  }

  lemma MixCrosses(a: seq<real>, b: seq<real>, p: real, q: real, u: real, v: real, w: real, n: nat)
    requires n <= |a| == |b| && u == p * p && v == 2.0 * (p * q) && w == q * q
    ensures var c := Mix(a, b, p, q);
            Mixed(Crosses(c, c, n), Crosses(a, a, n), Crosses(a, b, n), Crosses(b, b, n), u, v, w, n)
  {
    var c := Mix(a, b, p, q);
    forall j | 0 <= j < n
      ensures Crosses(c, c, n)[j] == u * Crosses(a, a, n)[j] + v * Crosses(a, b, n)[j] + w * Crosses(b, b, n)[j]
    {
      MixCross(a, b, p, q, u, v, w, n, j);
    }
  }

  lemma MixVariance(a: seq<real>, b: seq<real>, p: real, q: real, u: real, v: real, w: real, n: nat)
    requires |a| == |b| && n <= |a| && u == p * p && v == 2.0 * (p * q) && w == q * q
    ensures var c := Mix(a, b, p, q);
            Cov(c, c, n) == u * Cov(a, a, n) + v * Cov(a, b, n) + w * Cov(b, b, n)
  {
    var c := Mix(a, b, p, q);
    MixCrosses(a, b, p, q, u, v, w, n);
    SumMixed(Crosses(c, c, n), Crosses(a, a, n), Crosses(a, b, n), Crosses(b, b, n), u, v, w, n);
  }

  lemma FlatSeries(a: seq<real>, b: seq<real>, n: nat)
    requires |a| == |b| && n <= |a| && Constant(b, n)
    ensures Cov(a, b, n) == 0.0
  {
    forall j | 0 <= j < n ensures Crosses(a, b, n)[j] == 0.0 {
      forall i | 0 <= i < j ensures Terms(a, b, j)[i] == 0.0 {
        assert b[i] == b[j];
      }
      SumNonNegative(Terms(a, b, j), j);
    }
    SumNonNegative(Crosses(a, b, n), n);
  }

  /** num^2 <= vx*vy. */
  lemma CauchySchwarz(a: seq<real>, b: seq<real>, n: nat)
    requires |a| == |b| && n <= |a|
    ensures Cov(a, b, n) * Cov(a, b, n) <= Cov(a, a, n) * Cov(b, b, n)
  {
    VarNonNegative(b, n);
    var va, vb, c := Cov(a, a, n), Cov(b, b, n), Cov(a, b, n);
    if vb > 0.0 {
      VarNonNegative(Mix(a, b, vb, -c), n);
      MixVariance(a, b, vb, -c, vb * vb, 2.0 * (vb * -c), -c * -c, n);
      Discriminant(va, vb, c);
    } else {
      FlatSeries(a, b, n);
    }
  }

  lemma Discriminant(va: real, vb: real, c: real)
    requires vb > 0.0 && vb * vb * va + 2.0 * (vb * -c) * c + -c * -c * vb >= 0.0
    ensures c * c <= va * vb
  {
    var d := va * vb - c * c;
    assert vb * d == vb * vb * va + 2.0 * (vb * -c) * c + -c * -c * vb by {
      assert vb * d == vb * (va * vb) - vb * (c * c);
      assert vb * (va * vb) == vb * vb * va;
      assert 2.0 * (vb * -c) * c == -2.0 * (vb * (c * c));
      assert -c * -c * vb == vb * (c * c);
    }
    if d < 0.0 {
      Positive(vb, -d, -(vb * d));
    }
  }

  // ----- the signed square of r -----

  function Abs(x: real): real {
    if x < 0.0 then -x else x
  }

  /** r*|r| for r = num/sqrt(vx*vy); 0 when a series has no shape. */
  function Rho(num: real, vx: real, vy: real): real {
    if vx <= 0.0 || vy <= 0.0 then 0.0
    else
      var d := vx * vy;
      Positive(vx, vy, d);
      num * Abs(num) / d
  }

  lemma SignedSquare(x: real)
    ensures x * Abs(x) == if x < 0.0 then -(x * x) else x * x
  {
  }

  lemma DivBound(x: real, d: real, q: real)
    requires d > 0.0 && -d <= x <= d && x == q * d
    ensures -1.0 <= q <= 1.0
  {
    if q > 1.0 { Positive(q - 1.0, d, x - d); }
    if q < -1.0 { Positive(-1.0 - q, d, -d - x); }
  }

  lemma RhoBound(num: real, vx: real, vy: real)
    requires num * num <= vx * vy
    ensures -1.0 <= Rho(num, vx, vy) <= 1.0
  {
    if vx > 0.0 && vy > 0.0 {
      var d, x := vx * vy, num * Abs(num);
      Positive(vx, vy, d);
      SignedSquare(num);
      Square(num, num * num);
      Quotient(x, d, x / d);
      DivBound(x, d, x / d);
    }
  }

  /** Scaling one series by p > 0 scales num by p and its variance by p^2, and leaves the score. */
  lemma RhoScale(num: real, vx: real, vy: real, num': real, vx': real, p: real, pp: real)
    requires p > 0.0 && pp == p * p && num' == p * num && vx' == pp * vx
    ensures Rho(num', vx', vy) == Rho(num, vx, vy)
  {
    Positive(p, p, pp);
    if vx > 0.0 {
      Positive(pp, vx, vx');
      if vy > 0.0 {
        var d, d', x, x' := vx * vy, vx' * vy, num * Abs(num), num' * Abs(num');
        Positive(vx, vy, d);
        Positive(vx', vy, d');
        ScaleTerms(num, vx, vy, num', vx', p, pp);
        var q := x / d;
        Quotient(x, d, q);
        assert pp * x == pp * (q * d) == q * (pp * d);
        Quotient(x', d', q);
      }
    } else if vx < 0.0 {
      Positive(pp, -vx, -vx');
    }
  }

  lemma ScaleTerms(num: real, vx: real, vy: real, num': real, vx': real, p: real, pp: real)
    requires p > 0.0 && pp == p * p && num' == p * num && vx' == pp * vx
    ensures vx' * vy == pp * (vx * vy) && num' * Abs(num') == pp * (num * Abs(num))
  {
    SignedSquare(num);
    SignedSquare(num');
    assert num' * num' == pp * (num * num);
    if num < 0.0 {
      Positive(p, -num, -num');
      assert pp * -(num * num) == -(pp * (num * num));
    } else if num > 0.0 {
      Positive(p, num, num');
    }
  }

  /** r itself: the number whose square is num^2/(vx*vy) and whose sign is num's. */
  predicate IsPearson(r: real, num: real, vx: real, vy: real) {
    vx > 0.0 && vy > 0.0 && r * r * (vx * vy) == num * num && (num >= 0.0 ==> r >= 0.0) && (num <= 0.0 ==> r <= 0.0)
  }

  /** Rho is the signed square of r. */
  lemma RhoIsSignedSquare(r: real, num: real, vx: real, vy: real)
    requires IsPearson(r, num, vx, vy)
    ensures Rho(num, vx, vy) == r * Abs(r)
  {
    var d, x, y := vx * vy, num * Abs(num), r * Abs(r);
    Positive(vx, vy, d);
    SignedSquare(num);
    SignedSquare(r);
    SameSign(r, num, d);
    assert x == y * d by {
      if num < 0.0 { assert -(r * r) * d == -(r * r * d); }
    }
    Quotient(x, d, y);
  }

  lemma SameSign(r: real, num: real, d: real)
    requires d > 0.0 && r * r * d == num * num && (num >= 0.0 ==> r >= 0.0) && (num <= 0.0 ==> r <= 0.0)
    ensures num < 0.0 <==> r < 0.0
  {
    Square(num, num * num);
    if r == 0.0 {
      assert r * r == 0.0;
      assert num * num == 0.0;
    }
  }

  /** The signed square orders and bounds exactly like the number itself. */
  lemma SignedSquareOrders(r: real, s: real)
    ensures r < s <==> r * Abs(r) < s * Abs(s)
    ensures -1.0 <= r <= 1.0 <==> -1.0 <= r * Abs(r) <= 1.0
  {
    SignedSquareMonotone(r, s);
    SignedSquareMonotone(s, r);
    SignedSquareMonotone(r, 1.0);
    SignedSquareMonotone(1.0, r);
    SignedSquareMonotone(r, -1.0);
    SignedSquareMonotone(-1.0, r);
  }

  lemma SignedSquareMonotone(r: real, s: real)
    ensures r < s ==> r * Abs(r) < s * Abs(s)
  {
    if r < s {
      SignedSquare(r);
      SignedSquare(s);
      Square(r, r * r);
      Square(s, s * s);
      if 0.0 <= r {
        Positive(s - r, s + r, s * s - r * r);
      } else if s <= 0.0 {
        Positive(s - r, -s - r, r * r - s * s);
      }
    }
  }

  // ----- lag search -----

  predicate Overlaps(x: seq<real>, lag: int) {
    0 <= lag && |x| - lag >= 3
  }

  /** The score at one lag: x[i] against y[i+lag]. */
  function RhoAt(x: seq<real>, y: seq<real>, lag: int): real
    requires |x| == |y| && Overlaps(x, lag)
  {
    var n := |x| - lag;
    var a, b := x[..n], y[lag..];
    Rho(Cov(a, b, n), Cov(a, a, n), Cov(b, b, n))
  }

  /** One overlap: vx and vy are never negative, num^2 <= vx*vy, and a variance term vanishes exactly
      for a constant series. */
  predicate WellBehaved(a: seq<real>, b: seq<real>, n: nat)
    requires |a| == |b| == n
  {
    Cov(a, a, n) >= 0.0 && Cov(b, b, n) >= 0.0 &&
    Cov(a, b, n) * Cov(a, b, n) <= Cov(a, a, n) * Cov(b, b, n) &&
    (Cov(a, a, n) <= 0.0 <==> Constant(a, n)) && (Cov(b, b, n) <= 0.0 <==> Constant(b, n))
  }

  lemma OverlapBounded(a: seq<real>, b: seq<real>, n: nat)
    requires |a| == |b| == n
    ensures WellBehaved(a, b, n) && -1.0 <= Rho(Cov(a, b, n), Cov(a, a, n), Cov(b, b, n)) <= 1.0
  {
    VarNonNegative(a, n);
    VarNonNegative(b, n);
    CauchySchwarz(a, b, n);
    RhoBound(Cov(a, b, n), Cov(a, a, n), Cov(b, b, n));
  }

  /** Every score lies in [-1, 1], and the early return of 0 is taken exactly when a series is constant
      over the overlap. */
  lemma RhoAtBounded(x: seq<real>, y: seq<real>, lag: int)
    requires |x| == |y| && Overlaps(x, lag)
    ensures -1.0 <= RhoAt(x, y, lag) <= 1.0 && WellBehaved(x[..|x| - lag], y[lag..], |x| - lag)
  {
    OverlapBounded(x[..|x| - lag], y[lag..], |x| - lag);
  }

  /** The accumulator loop over the overlap. */
  method Moments(x: seq<real>, y: seq<real>, lag: nat, n: nat)
    returns (sx: real, sy: real, sxy: real, sxx: real, syy: real)
    requires n <= |x| && lag + n == |y|
    ensures var a, b := x[..n], y[lag..];
            && sx == Sum(a, n) && sy == Sum(b, n)
            && sxy == Dot(a, b, n) && sxx == Dot(a, a, n) && syy == Dot(b, b, n)
  {
    ghost var a, b := x[..n], y[lag..];
    sx, sy, sxy, sxx, syy := 0.0, 0.0, 0.0, 0.0, 0.0;
    for i := 0 to n
      invariant sx == Sum(a, i) && sy == Sum(b, i)
      invariant sxy == Dot(a, b, i) && sxx == Dot(a, a, i) && syy == Dot(b, b, i)
    {
      var xi, yi := x[i], y[i + lag];
      assert a[i] == xi && b[i] == yi;
      sx := sx + xi;
      sy := sy + yi;
      sxy := sxy + xi * yi;
      sxx := sxx + xi * xi;
      syy := syy + yi * yi;
    }
  }

  method PearsonLagged(x: seq<real>, y: seq<real>, lag: int) returns (r: real, n: int)
    requires |x| == |y| && lag >= 0
    ensures n == |x| - lag
    ensures r == if Overlaps(x, lag) then RhoAt(x, y, lag) else 0.0
  {
    n := |x| - lag;
    if n < 3 {
      return 0.0, n;
    }
    var sx, sy, sxy, sxx, syy := Moments(x, y, lag, n);
    var fn := n as real;
    var num := SinglePass(fn, sx, sy, sxy);
    var vx := SinglePass(fn, sx, sx, sxx);
    var vy := SinglePass(fn, sy, sy, syy);
    SinglePassIsCov(x[..n], y[lag..], n);
    SinglePassIsCov(x[..n], x[..n], n);
    SinglePassIsCov(y[lag..], y[lag..], n);
    r := Rho(num, vx, vy);
  }

  datatype Config = Config(maxLag: int, minActive: int, activeFloor: real, varianceFloor: real)

  datatype Verdict = Verdict(rho: real, lag: int, active: int, gated: bool)

  function ActiveCount(xs: seq<real>, floor: real, n: nat): nat
    requires n <= |xs|
  {
    if n == 0 then 0 else ActiveCount(xs, floor, n - 1) + if xs[n - 1] > floor then 1 else 0
  }

  /** The active buckets of the weaker side. */
  function ActiveSide(x: seq<real>, y: seq<real>, floor: real): nat {
    if |x| != |y| then 0
    else
      var a, b := ActiveCount(x, floor, |x|), ActiveCount(y, floor, |y|);
      if a < b then a else b
  }

  method CountActive(xs: seq<real>, floor: real) returns (n: nat)
    ensures n == ActiveCount(xs, floor, |xs|)
  {
    n := 0;
    for i := 0 to |xs|
      invariant n == ActiveCount(xs, floor, i)
    {
      if xs[i] > floor {
        n := n + 1;
      }
    }
  }

  /** Squared distances from t. */
  function Spread(a: seq<real>, t: real, n: nat): real
    requires n <= |a|
  {
    if n == 0 then 0.0 else Spread(a, t, n - 1) + (a[n - 1] - t) * (a[n - 1] - t)
  }

  lemma {:induction false} SpreadIsCross(a: seq<real>, t: real, ts: seq<real>, n: nat)
    requires n <= |a| && n <= |ts| && forall i :: 0 <= i < n ==> ts[i] == (a[i] - t) * (a[i] - t)
    ensures Spread(a, t, n) == Sum(ts, n)
    decreases n
  {
    if n > 0 {
      SpreadIsCross(a, t, ts, n - 1);
    }
  }

  /** Population variance: the mean squared distance from the mean. */
  function VarianceOf(xs: seq<real>): real {
    if |xs| == 0 then 0.0
    else Spread(xs, Sum(xs, |xs|) / |xs| as real, |xs|) / |xs| as real
  }

  method Variance(xs: seq<real>) returns (v: real)
    ensures v == VarianceOf(xs)
  {
    if |xs| == 0 {
      return 0.0;
    }
    var sum := 0.0;
    for i := 0 to |xs|
      invariant sum == Sum(xs, i)
    {
      sum := sum + xs[i];
    }
    var mean := sum / |xs| as real;
    var ss := 0.0;
    for i := 0 to |xs|
      invariant ss == Spread(xs, mean, i)
    {
      var d := xs[i] - mean;
      ss := ss + d * d;
    }
    return ss / |xs| as real;
  }

  /** The two-pass variance and the single-pass variance term agree: n^2 * variance = vx. */
  lemma TwoPassMeetsSinglePass(xs: seq<real>)
    ensures |xs| as real * |xs| as real * VarianceOf(xs) == Cov(xs, xs, |xs|)
  {
    if |xs| > 0 {
      SinglePassIsCov(xs, xs, |xs|);
      VarianceScaled(xs);
    }
  }

  lemma SpreadOpened(xs: seq<real>, mean: real, n: nat)
    requires n == |xs|
    ensures Opened(xs, xs, mean, mean, mean * mean, n, Spread(xs, mean, n))
  {
    SpreadIsCross(xs, mean, Distances(xs, xs, mean, mean, n), n);
    CrossExpands(xs, xs, mean, mean, mean * mean, n);
  }

  lemma VarianceParts(xs: seq<real>) returns (mean: real, sp: real)
    requires |xs| > 0
    ensures mean == Sum(xs, |xs|) / |xs| as real && VarianceOf(xs) == sp / |xs| as real
    ensures sp == Spread(xs, mean, |xs|)
  {
    mean := Sum(xs, |xs|) / |xs| as real;
    sp := Spread(xs, mean, |xs|);
  }

  lemma VarianceScaled(xs: seq<real>)
    requires |xs| > 0
    ensures |xs| as real * |xs| as real * VarianceOf(xs) == SinglePassOf(xs, xs, |xs|)
  {
    var mean, sp := VarianceParts(xs);
    SpreadOpened(xs, mean, |xs|);
    MeanOpened(xs, mean, sp, VarianceOf(xs));
  }

  lemma MeanOpened(xs: seq<real>, mean: real, sp: real, v: real)
    requires |xs| > 0 && Opened(xs, xs, mean, mean, mean * mean, |xs|, sp)
    requires mean == Sum(xs, |xs|) / |xs| as real && v == sp / |xs| as real
    ensures |xs| as real * |xs| as real * v == SinglePassOf(xs, xs, |xs|)
  {
    MeanAlgebra(|xs| as real, Sum(xs, |xs|), Dot(xs, xs, |xs|), mean, sp, v);
  }

  lemma MeanAlgebra(n: real, s: real, d: real, mean: real, sp: real, v: real)
    requires n > 0.0 && mean == s / n && v == sp / n && sp == d + -mean * s + -mean * s + n * (mean * mean)
    ensures n * n * v == SinglePass(n, s, s, d)
  {
    Quotient(s, n, mean);
    Quotient(sp, n, v);
    assert n * n * v == n * sp;
    assert n * (mean * mean) == mean * s;
    assert sp == d - mean * s;
    assert n * (mean * s) == s * s;
    assert n * sp == n * d - n * (mean * s);
  }

  predicate Passes(x: seq<real>, y: seq<real>, cfg: Config) {
    |x| == |y| && Overlaps(x, 0) && 0 <= cfg.maxLag &&
    ActiveCount(x, cfg.activeFloor, |x|) >= cfg.minActive && ActiveCount(y, cfg.activeFloor, |y|) >= cfg.minActive &&
    (cfg.varianceFloor > 0.0 ==> VarianceOf(x) >= cfg.varianceFloor && VarianceOf(y) >= cfg.varianceFloor)
  }

  /** lag is the smallest lag in [0, maxLag] with at least three pairs at which the score is largest. */
  predicate IsBest(x: seq<real>, y: seq<real>, maxLag: int, rho: real, lag: int)
    requires |x| == |y|
  {
    lag <= maxLag && Overlaps(x, lag) && rho == RhoAt(x, y, lag) &&
    (forall l :: 0 <= l <= maxLag && Overlaps(x, l) ==> RhoAt(x, y, l) <= rho) &&
    (forall l :: 0 <= l < lag && Overlaps(x, l) ==> RhoAt(x, y, l) < rho)
  }

  lemma BestExtends(x: seq<real>, y: seq<real>, lag: int, best: real, bestLag: int, r: real)
    requires |x| == |y| && Overlaps(x, lag) && r == RhoAt(x, y, lag)
    requires lag > 0 ==> IsBest(x, y, lag - 1, best, bestLag)
    ensures if lag == 0 || r > best then IsBest(x, y, lag, r, lag) else IsBest(x, y, lag, best, bestLag)
  {
  }

  /** Lags without overlap change nothing. */
  lemma BestStays(x: seq<real>, y: seq<real>, lag: int, maxLag: int, best: real, bestLag: int)
    requires |x| == |y| && 0 < lag <= maxLag + 1 && (lag <= maxLag ==> !Overlaps(x, lag))
    requires IsBest(x, y, lag - 1, best, bestLag)
    ensures IsBest(x, y, maxLag, best, bestLag)
  {
  }

  /** The lag loop, early exit included: longer lags only shrink the overlap further. */
  method SearchLags(x: seq<real>, y: seq<real>, maxLag: int) returns (best: Option<real>, bestLag: int)
    requires |x| == |y|
    ensures best.None? <==> maxLag < 0 || !Overlaps(x, 0)
    ensures best.Some? ==> IsBest(x, y, maxLag, best.value, bestLag)
  {
    best, bestLag := None, 0;
    var lag := 0;
    while lag <= maxLag
      invariant 0 <= lag && (lag > 0 ==> lag <= maxLag + 1 && Overlaps(x, 0))
      invariant best.None? <==> lag == 0
      invariant best.Some? ==> IsBest(x, y, lag - 1, best.value, bestLag)
      decreases maxLag - lag
    {
      var r, n := PearsonLagged(x, y, lag);
      if n < 3 {
        break;
      }
      BestExtends(x, y, lag, if best.Some? then best.value else 0.0, bestLag, r);
      if best.None? || r > best.value {
        best, bestLag := Some(r), lag;
      }
      lag := lag + 1;
    }
    if best.Some? {
      BestStays(x, y, lag, maxLag, best.value, bestLag);
    }
  }

  method Correlate(x: seq<real>, y: seq<real>, cfg: Config) returns (v: Verdict)
    ensures v.active == ActiveSide(x, y, cfg.activeFloor)
    ensures v.gated <==> TooLittle(x, y, cfg)
    ensures v.gated ==> v.rho == 0.0 && v.lag == 0
    ensures !v.gated ==> IsBest(x, y, cfg.maxLag, v.rho, v.lag) && -1.0 <= v.rho <= 1.0
  {
    GateExactly(x, y, cfg);
    if |x| != |y| || |x| == 0 {
      return Verdict(0.0, 0, 0, true);
    }
    var offActive := CountActive(x, cfg.activeFloor);
    var vicActive := CountActive(y, cfg.activeFloor);
    var active := if offActive < vicActive then offActive else vicActive;
    if active < cfg.minActive {
      return Verdict(0.0, 0, active, true);
    }
    if cfg.varianceFloor > 0.0 {
      var vx := Variance(x);
      var vy := Variance(y);
      if vx < cfg.varianceFloor || vy < cfg.varianceFloor {
        return Verdict(0.0, 0, active, true);
      }
    }
    var best, bestLag := SearchLags(x, y, cfg.maxLag);
    if best.None? {
      return Verdict(0.0, 0, active, true);
    }
    RhoAtBounded(x, y, bestLag);
    return Verdict(best.value, bestLag, active, false);
  }

  // ----- busy is not guilty -----

  function Affine(x: seq<real>, p: real, q: real): seq<real> {
    seq(|x|, i requires 0 <= i < |x| => p * x[i] + q)
  }

  lemma AffineTerm(z0: real, z1: real, p: real, q: real, s: real, t: real, v: real, e: real, f: real)
    requires z0 == p * s + q && z1 == p * t + q && e == (z0 - z1) * v && f == (s - t) * v
    ensures e == p * f
  {
    assert z0 - z1 == p * (s - t);
  }

  lemma TermAt(a: seq<real>, b: seq<real>, j: nat, i: nat, e: real)
    requires i < j < |a| && j < |b| && e == Terms(a, b, j)[i]
    ensures e == (a[i] - a[j]) * (b[i] - b[j])
  {
  }

  lemma AffineAt(x: seq<real>, p: real, q: real, i: nat, z: real)
    requires i < |x| && z == Affine(x, p, q)[i]
    ensures z == p * x[i] + q
  {
  }

  lemma AffineDistance(x: seq<real>, b: seq<real>, p: real, q: real, j: nat, i: nat)
    requires i < j < |x| && j < |b|
    ensures Terms(Affine(x, p, q), b, j)[i] == p * Terms(x, b, j)[i]
  {
    var z := Affine(x, p, q);
    var e, f := Terms(z, b, j)[i], Terms(x, b, j)[i];
    TermAt(z, b, j, i, e);
    TermAt(x, b, j, i, f);
    AffineAt(x, p, q, i, z[i]);
    AffineAt(x, p, q, j, z[j]);
    AffineTerm(z[i], z[j], p, q, x[i], x[j], b[i] - b[j], e, f);
  }

  lemma AffineTerms(x: seq<real>, b: seq<real>, p: real, q: real, j: nat)
    requires j < |x| && j < |b|
    ensures Scaled(Terms(x, b, j), Terms(Affine(x, p, q), b, j), p, j)
  {
    forall i | 0 <= i < j ensures Terms(Affine(x, p, q), b, j)[i] == p * Terms(x, b, j)[i] {
      AffineDistance(x, b, p, q, j, i);
    }
  }

  lemma CrossesAt(a: seq<real>, b: seq<real>, n: nat, j: nat, s: real)
    requires j < n <= |a| && n <= |b| && s == Crosses(a, b, n)[j]
    ensures s == Sum(Terms(a, b, j), j)
  {
  }

  lemma AffineCross(x: seq<real>, b: seq<real>, p: real, q: real, n: nat, j: nat, s: real, t: real)
    requires j < n <= |x| && n <= |b| && s == Crosses(x, b, n)[j] && t == Crosses(Affine(x, p, q), b, n)[j]
    ensures t == p * s
  {
    CrossesAt(x, b, n, j, s);
    CrossesAt(Affine(x, p, q), b, n, j, t);
    AffineTerms(x, b, p, q, j);
    TotalsScaled(Terms(x, b, j), Terms(Affine(x, p, q), b, j), p, j, s, t);
  }

  lemma AffineCrosses(x: seq<real>, b: seq<real>, p: real, q: real, n: nat)
    requires n <= |x| && n <= |b|
    ensures Scaled(Crosses(x, b, n), Crosses(Affine(x, p, q), b, n), p, n)
  {
    forall j | 0 <= j < n ensures Crosses(Affine(x, p, q), b, n)[j] == p * Crosses(x, b, n)[j] {
      AffineCross(x, b, p, q, n, j, Crosses(x, b, n)[j], Crosses(Affine(x, p, q), b, n)[j]);
    }
  }

  /** Cov(p*x+q, b) = p*Cov(x, b). */
  lemma AffineCov(x: seq<real>, b: seq<real>, p: real, q: real, n: nat, c: real, d: real)
    requires n <= |x| && n <= |b| && c == Cov(x, b, n) && d == Cov(Affine(x, p, q), b, n)
    ensures d == p * c
  {
    AffineCrosses(x, b, p, q, n);
    TotalsScaled(Crosses(x, b, n), Crosses(Affine(x, p, q), b, n), p, n, c, d);
  }

  lemma CovSymmetric(a: seq<real>, b: seq<real>, n: nat)
    requires n <= |a| && n <= |b|
    ensures Cov(a, b, n) == Cov(b, a, n)
  {
    forall j | 0 <= j < n ensures Crosses(a, b, n)[j] == Crosses(b, a, n)[j] {
      SumSame(Terms(a, b, j), Terms(b, a, j), j);
    }
    SumSame(Crosses(a, b, n), Crosses(b, a, n), n);
  }

  lemma AffineVariance(x: seq<real>, p: real, q: real, pp: real, n: nat, c: real, e: real)
    requires n <= |x| && pp == p * p && c == Cov(x, x, n) && e == Cov(Affine(x, p, q), Affine(x, p, q), n)
    ensures e == pp * c
  {
    var z := Affine(x, p, q);
    var d := Cov(z, x, n);
    CovSymmetric(x, z, n);
    AffineCov(x, x, p, q, n, c, d);
    AffineCov(x, z, p, q, n, d, e);
    TwiceScaled(p, pp, c, d, e);
  }

  lemma TwiceScaled(p: real, pp: real, c: real, d: real, e: real)
    requires pp == p * p && d == p * c && e == p * d
    ensures e == pp * c
  {
  }

  lemma AffinePrefix(x: seq<real>, p: real, q: real, n: nat)
    requires n <= |x|
    ensures Affine(x, p, q)[..n] == Affine(x[..n], p, q)
  {
    forall i | 0 <= i < n ensures Affine(x, p, q)[i] == Affine(x[..n], p, q)[i] {
      assert x[i] == x[..n][i];
    }
  }

  /** Scaling and shifting the offender's series leaves the score at every lag. */
  lemma AffineInvariant(x: seq<real>, y: seq<real>, p: real, q: real, lag: int)
    requires |x| == |y| && Overlaps(x, lag) && p > 0.0
    ensures RhoAt(Affine(x, p, q), y, lag) == RhoAt(x, y, lag)
  {
    var n := |x| - lag;
    var a, b := x[..n], y[lag..];
    var a' := Affine(a, p, q);
    AffinePrefix(x, p, q, n);
    var num, vx, num', vx' := Cov(a, b, n), Cov(a, a, n), Cov(a', b, n), Cov(a', a', n);
    AffineCov(a, b, p, q, n, num, num');
    AffineVariance(a, p, q, p * p, n, vx, vx');
    RhoScale(num, vx, Cov(b, b, n), num', vx', p, p * p);
  }

  /** The best score and lag of a pair are unique. */
  lemma BestUnique(x: seq<real>, y: seq<real>, maxLag: int, rho: real, lag: int, rho': real, lag': int)
    requires |x| == |y| && IsBest(x, y, maxLag, rho, lag) && IsBest(x, y, maxLag, rho', lag')
    ensures rho' == rho && lag' == lag
  {
  }

  /** Busy is not guilty: scaling and shifting the offender's series leaves the best score and its lag,
      so whenever both inputs pass the gates the two verdicts agree. */
  lemma BusyIsNotGuilty(x: seq<real>, y: seq<real>, p: real, q: real, maxLag: int, rho: real, lag: int)
    requires |x| == |y| && p > 0.0
    ensures IsBest(Affine(x, p, q), y, maxLag, rho, lag) <==> IsBest(x, y, maxLag, rho, lag)
  {
    var z := Affine(x, p, q);
    assert forall l :: Overlaps(z, l) <==> Overlaps(x, l);
    forall l | Overlaps(x, l) ensures RhoAt(z, y, l) == RhoAt(x, y, l) {
      AffineInvariant(x, y, p, q, l);
    }
  }

  // ----- which series leads -----

  /** The score at a lag looks at x without its last lag buckets and at y without its first: what x does
      too late, or y too early, to be cause and effect at that lag does not matter. */
  lemma ScoreIsLocal(x: seq<real>, y: seq<real>, x': seq<real>, y': seq<real>, lag: int)
    requires |x| == |y| == |x'| == |y'| && Overlaps(x, lag)
    requires x'[..|x| - lag] == x[..|x| - lag] && y'[lag..] == y[lag..]
    ensures RhoAt(x', y', lag) == RhoAt(x, y, lag)
  {
  }

  /** From lag on y repeats x, scaled by p and shifted by q. */
  predicate Follows(x: seq<real>, y: seq<real>, lag: int, p: real, q: real)
    requires |x| == |y|
  {
    0 <= lag && forall i :: 0 <= i && i + lag < |x| ==> y[i + lag] == p * x[i] + q
  }

  lemma FollowsIsAffine(x: seq<real>, y: seq<real>, lag: int, p: real, q: real)
    requires |x| == |y| && Overlaps(x, lag)
    ensures Follows(x, y, lag, p, q) <==> y[lag..] == Affine(x[..|x| - lag], p, q)
  {
    var n := |x| - lag;
    var a, b := x[..n], y[lag..];
    assert forall i :: 0 <= i < n ==> a[i] == x[i] && b[i] == y[i + lag];
    if Follows(x, y, lag, p, q) {
      forall i | 0 <= i < n ensures b[i] == Affine(a, p, q)[i] {
        AffineAt(a, p, q, i, Affine(a, p, q)[i]);
      }
    }
    if b == Affine(a, p, q) {
      forall i | 0 <= i && i + lag < |x| ensures y[i + lag] == p * x[i] + q {
        AffineAt(a, p, q, i, b[i]);
      }
    }
  }

  lemma ScaledRho(v: real, p: real, num: real, vy: real)
    requires v > 0.0 && p > 0.0 && num == p * v && vy == p * num
    ensures Rho(num, v, vy) == 1.0
  {
    Positive(p, v, num);
    Positive(p, num, vy);
    var d := v * vy;
    Positive(v, vy, d);
    assert num * Abs(num) == num * num;
    assert num * num == num * (p * v) == v * (p * num) == d;
    Quotient(num * num, d, 1.0);
  }

  /** A victim that follows the offender at a lag scores exactly 1 there. */
  lemma FollowerScores(x: seq<real>, y: seq<real>, lag: int, p: real, q: real)
    requires |x| == |y| && Overlaps(x, lag) && p > 0.0 && Follows(x, y, lag, p, q)
    requires !Constant(x[..|x| - lag], |x| - lag)
    ensures RhoAt(x, y, lag) == 1.0
  {
    var n := |x| - lag;
    var a, b := x[..n], y[lag..];
    FollowsIsAffine(x, y, lag, p, q);
    VarNonNegative(a, n);
    CovSymmetric(a, b, n);
    var v, num, vy := Cov(a, a, n), Cov(a, b, n), Cov(b, b, n);
    AffineCov(a, a, p, q, n, v, num);
    AffineCov(a, b, p, q, n, num, vy);
    ScaledRho(v, p, num, vy);
  }

  /** The verdict finds a victim that follows the offender: the score is 1, at that lag or an earlier one. */
  lemma FollowerFound(x: seq<real>, y: seq<real>, maxLag: int, rho: real, lag: int, delay: int, p: real, q: real)
    requires |x| == |y| && IsBest(x, y, maxLag, rho, lag)
    requires Overlaps(x, delay) && delay <= maxLag && p > 0.0 && Follows(x, y, delay, p, q)
    requires !Constant(x[..|x| - delay], |x| - delay)
    ensures rho == 1.0 && lag <= delay
  {
    FollowerScores(x, y, delay, p, q);
    RhoAtBounded(x, y, lag);
  }

  /** A perfect score: num is positive and its square is vx*vy. */
  lemma RhoOne(num: real, vx: real, vy: real)
    requires Rho(num, vx, vy) == 1.0
    ensures vx > 0.0 && vy > 0.0 && num > 0.0 && num * num == vx * vy
  {
    var d := vx * vy;
    Positive(vx, vy, d);
    Quotient(num * Abs(num), d, 1.0);
    SignedSquare(num);
    Square(num, num * num);
  }

  lemma NoDiscriminant(va: real, vb: real, c: real, u: real, v: real, w: real)
    requires c * c == va * vb && u == vb * vb && v == 2.0 * (vb * -c) && w == -c * -c
    ensures u * va + v * c + w * vb == 0.0
  {
    var e := vb * (c * c);
    assert u * va == vb * (va * vb) == e;
    assert v * c == -2.0 * e;
    assert w * vb == e;
  }

  lemma SolveLine(a: real, b: real, k: real, vb: real, c: real, m: real, p: real, q: real)
    requires c > 0.0 && m == -c && vb * a + m * b == k && p == vb / c && q == -k / c
    ensures b == p * a + q
  {
    Quotient(vb, c, p);
    Quotient(-k, c, q);
    var r := p * a + q;
    assert c * r == (p * c) * a + q * c;
    assert c * r == c * b;
    if r > b { Positive(c, r - b, c * r - c * b); }
    if r < b { Positive(c, b - r, c * b - c * r); }
  }

  lemma PositiveQuotient(x: real, d: real, q: real)
    requires x > 0.0 && d > 0.0 && q == x / d
    ensures q > 0.0
  {
    Quotient(x, d, q);
    if q <= 0.0 { NonNegative(-q, d, -x); }
  }

  /** Equality in Cauchy-Schwarz: a mix of the two series is flat. */
  lemma MixIsFlat(a: seq<real>, b: seq<real>, n: nat, va: real, vb: real, c: real)
    requires |a| == |b| == n && va == Cov(a, a, n) && vb == Cov(b, b, n) && c == Cov(a, b, n) && c * c == va * vb
    ensures Constant(Mix(a, b, vb, -c), n)
  {
    MixVariance(a, b, vb, -c, vb * vb, 2.0 * (vb * -c), -c * -c, n);
    NoDiscriminant(va, vb, c, vb * vb, 2.0 * (vb * -c), -c * -c);
    VarNonNegative(Mix(a, b, vb, -c), n);
  }

  lemma FitAt(a: seq<real>, b: seq<real>, n: nat, vb: real, c: real, m: real, p: real, q: real, i: nat)
    requires |a| == |b| == n && i < n && c > 0.0 && m == -c && Constant(Mix(a, b, vb, m), n)
    requires p == vb / c && q == -Mix(a, b, vb, m)[0] / c
    ensures b[i] == p * a[i] + q
  {
    FlatMix(a, b, vb, m, n, i);
    SolveLine(a[i], b[i], Mix(a, b, vb, m)[0], vb, c, m, p, q);
  }

  /** One series is then the other, scaled and shifted. */
  lemma ExactFit(a: seq<real>, b: seq<real>, n: nat, va: real, vb: real, c: real) returns (p: real, q: real)
    requires |a| == |b| == n && n > 0 && va == Cov(a, a, n) && vb == Cov(b, b, n) && c == Cov(a, b, n)
    requires vb > 0.0 && c > 0.0 && c * c == va * vb
    ensures p > 0.0 && forall i :: 0 <= i < n ==> b[i] == p * a[i] + q
  {
    MixIsFlat(a, b, n, va, vb, c);
    p, q := vb / c, -Mix(a, b, vb, -c)[0] / c;
    PositiveQuotient(vb, c, p);
    forall i | 0 <= i < n ensures b[i] == p * a[i] + q {
      FitAt(a, b, n, vb, c, -c, p, q, i);
    }
  }

  lemma FlatMix(a: seq<real>, b: seq<real>, p: real, q: real, n: nat, i: nat)
    requires |a| == |b| == n && i < n && Constant(Mix(a, b, p, q), n)
    ensures p * a[i] + q * b[i] == Mix(a, b, p, q)[0]
  {
    var z := Mix(a, b, p, q);
    assert z[i] == p * a[i] + q * b[i];
    assert i > 0 ==> z[0] == z[i];
  }

  /** The score at a lag is 1 if and only if the offender's overlap is not flat and the victim follows it,
      lag buckets later, scaled by a positive factor and shifted. */
  lemma PerfectScoreExactly(x: seq<real>, y: seq<real>, lag: int)
    requires |x| == |y| && Overlaps(x, lag)
    ensures RhoAt(x, y, lag) == 1.0 <==>
            !Constant(x[..|x| - lag], |x| - lag) && exists p, q :: p > 0.0 && Follows(x, y, lag, p, q)
  {
    var n := |x| - lag;
    var a, b := x[..n], y[lag..];
    if RhoAt(x, y, lag) == 1.0 {
      RhoOne(Cov(a, b, n), Cov(a, a, n), Cov(b, b, n));
      VarNonNegative(a, n);
      var p, q := ExactFit(a, b, n, Cov(a, a, n), Cov(b, b, n), Cov(a, b, n));
      forall i | 0 <= i && i + lag < |x| ensures y[i + lag] == p * x[i] + q {
        assert b[i] == y[i + lag] && a[i] == x[i];
      }
      assert Follows(x, y, lag, p, q);
    }
    if !Constant(a, n) && exists p, q :: p > 0.0 && Follows(x, y, lag, p, q) {
      var p, q :| p > 0.0 && Follows(x, y, lag, p, q);
      FollowerScores(x, y, lag, p, q);
    }
  }

  // ----- the gate, from the series alone -----

  /** The buckets strictly above the floor. */
  function Active(xs: seq<real>, floor: real, n: nat): set<int>
    requires n <= |xs|
  {
    set i | 0 <= i < n && xs[i] > floor
  }

  lemma {:induction false} ActiveCountIsSize(xs: seq<real>, floor: real, n: nat)
    requires n <= |xs|
    ensures ActiveCount(xs, floor, n) == |Active(xs, floor, n)|
    decreases n
  {
    if n > 0 {
      ActiveCountIsSize(xs, floor, n - 1);
      var before, all := Active(xs, floor, n - 1), Active(xs, floor, n);
      assert all == if xs[n - 1] > floor then before + {n - 1} else before;
    }
  }

  /** The population variance is below the floor: n^2 times it, which is the variance term, is. */
  predicate Flat(xs: seq<real>, floor: real) {
    Cov(xs, xs, |xs|) < |xs| as real * |xs| as real * floor
  }

  lemma FlatExactly(xs: seq<real>, floor: real)
    requires |xs| > 0
    ensures VarianceOf(xs) < floor <==> Flat(xs, floor)
  {
    var n := |xs| as real;
    var nn, v := n * n, VarianceOf(xs);
    TwoPassMeetsSinglePass(xs);
    Positive(n, n, nn);
    assert Cov(xs, xs, |xs|) == nn * v;
    if v < floor {
      Distribute(nn, v, floor - v, floor);
      Positive(nn, floor - v, nn * (floor - v));
    } else {
      Scale(nn, floor, v, nn * floor, nn * v);
    }
  }

  /** Too little to judge: series that do not line up or are too short, too few active buckets on either
      side, or a side that is nearly flat. */
  predicate TooLittle(x: seq<real>, y: seq<real>, cfg: Config) {
    || |x| != |y| || |x| < 3 || cfg.maxLag < 0
    || |Active(x, cfg.activeFloor, |x|)| < cfg.minActive || |Active(y, cfg.activeFloor, |y|)| < cfg.minActive
    || (cfg.varianceFloor > 0.0 && (Flat(x, cfg.varianceFloor) || Flat(y, cfg.varianceFloor)))
  }

  lemma GateExactly(x: seq<real>, y: seq<real>, cfg: Config)
    ensures Passes(x, y, cfg) <==> !TooLittle(x, y, cfg)
    ensures |x| == |y| ==>
              var a, b := |Active(x, cfg.activeFloor, |x|)|, |Active(y, cfg.activeFloor, |y|)|;
              ActiveSide(x, y, cfg.activeFloor) == if a < b then a else b
  {
    ActiveCountIsSize(x, cfg.activeFloor, |x|);
    ActiveCountIsSize(y, cfg.activeFloor, |y|);
    if |x| == |y| >= 3 {
      FlatExactly(x, cfg.varianceFloor);
      FlatExactly(y, cfg.varianceFloor);
    }
  }
}
