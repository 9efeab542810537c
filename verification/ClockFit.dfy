/** Shared-packet clock fit (research/dual_radio_probe.py): wrap-safe tick differences and the
    least-squares line between two radios' clocks. Arithmetic is over the reals. */
module ClockFit {
  import opened Wire

  // ---------------------------------------------------------------- tick differences

  function Delta32(value: int, origin: int): (d: int)
    ensures -0x8000_0000 <= d < 0x8000_0000
  {
    (value - origin + 0x8000_0000) % 0x1_0000_0000 - 0x8000_0000
  }

  /** Between two 32-bit stamps of true times, the difference is the true one exactly when that
      fits in 31 bits and a sign, whether or not either stamp wrapped. */
  lemma {:induction false} DeltaIsTrue(value: int, origin: int)
    ensures Delta32(value % 0x1_0000_0000, origin % 0x1_0000_0000) == value - origin <==>
            -0x8000_0000 <= value - origin < 0x8000_0000
  {
    var v, o := value % 0x1_0000_0000, origin % 0x1_0000_0000;
    var k := value / 0x1_0000_0000 - origin / 0x1_0000_0000;
    assert value - origin == v - o + 0x1_0000_0000 * k;
  }

  // ---------------------------------------------------------------- least squares

  datatype Line = Line(slope: real, intercept: real)

  function Sum(v: seq<real>): real {
    if v == [] then 0.0 else Sum(v[1..]) + v[0]
  }

  function Dot(v: seq<real>, w: seq<real>): real
    requires |v| == |w|
  {
    if v == [] then 0.0 else Dot(v[1..], w[1..]) + v[0] * w[0]
  }

  function Mean(v: seq<real>): real
    requires v != []
  {
    Sum(v) / |v| as real
  }

  function Ones(n: nat): (v: seq<real>)
    ensures |v| == n && forall i :: 0 <= i < n ==> v[i] == 1.0
  {
    seq(n, _ => 1.0)
  }

  /** v + s * w. */
  function Plus(v: seq<real>, s: real, w: seq<real>): (m: seq<real>)
    requires |v| == |w|
    ensures Combines(m, v, s, w)
  {
    seq(|v|, i requires 0 <= i < |v| => v[i] + s * w[i])
  }

  predicate Combines(m: seq<real>, v: seq<real>, s: real, w: seq<real>) {
    |m| == |v| == |w| && forall i :: 0 <= i < |m| ==> m[i] == v[i] + s * w[i]
  }

  function Shift(v: seq<real>, origin: real): (w: seq<real>)
    ensures |w| == |v|
  {
    Plus(v, -origin, Ones(|v|))
  }

  function Residual(x: real, y: real, line: Line): real {
    y - line.slope * x - line.intercept
  }

  function Residuals(x: seq<real>, y: seq<real>, line: Line): (r: seq<real>)
    requires |x| == |y|
    ensures |r| == |x| && forall i :: 0 <= i < |r| ==> r[i] == Residual(x[i], y[i], line)
  {
    seq(|x|, i requires 0 <= i < |x| => Residual(x[i], y[i], line))
  }

  function SquaredError(x: seq<real>, y: seq<real>, line: Line): real
    requires |x| == |y|
  {
    Dot(Residuals(x, y, line), Residuals(x, y, line))
  }

  /** The inner `fit`: mean-centred, undefined when the x values do not spread. */
  function Fit(x: seq<real>, y: seq<real>): Option<Line>
    requires |x| == |y| && x != []
  {
    var dx, dy := Shift(x, Mean(x)), Shift(y, Mean(y));
    if Dot(dx, dx) == 0.0 then None
    else
      var slope := Dot(dx, dy) / Dot(dx, dx);
      Some(Line(slope, Mean(y) - slope * Mean(x)))
  }

  lemma {:induction false} Distribute(a: real, b: real, c: real)
    ensures a * (b + c) == a * b + a * c
  {
  }

  lemma {:induction false} ProductSign(a: real, b: real, q: real)
    requires q == a * b && ((a > 0.0 && b > 0.0) || (a < 0.0 && b < 0.0))
    ensures q > 0.0
  {
  }

  lemma {:induction false} SquareSign(t: real, q: real)
    requires q == t * t
    ensures q >= 0.0 && (q == 0.0 <==> t == 0.0)
  {
    if t != 0.0 {
      ProductSign(t, t, q);
    }
  }

  predicate AllZero(v: seq<real>) {
    forall i :: 0 <= i < |v| ==> v[i] == 0.0
  }

  lemma {:induction false} AllZeroTail(v: seq<real>)
    requires v != []
    ensures AllZero(v) <==> v[0] == 0.0 && AllZero(v[1..])
  {
    assert forall i :: 0 < i < |v| ==> v[i] == v[1..][i - 1];
  }

  lemma {:induction false} DotSign(v: seq<real>)
    ensures Dot(v, v) >= 0.0
    ensures Dot(v, v) == 0.0 <==> AllZero(v)
  {
    if v != [] {
      DotSign(v[1..]);
      SquareSign(v[0], v[0] * v[0]);
      AllZeroTail(v);
    }
  }

  lemma {:induction false} DotSymmetric(v: seq<real>, w: seq<real>)
    requires |v| == |w|
    ensures Dot(v, w) == Dot(w, v)
  {
    if v != [] {
      DotSymmetric(v[1..], w[1..]);
    }
  }

  lemma {:induction false} CombinesTail(m: seq<real>, v: seq<real>, s: real, w: seq<real>)
    requires Combines(m, v, s, w) && m != []
    ensures m[0] == v[0] + s * w[0] && Combines(m[1..], v[1..], s, w[1..])
  {
  }

  lemma {:induction false} LinearStep(a: real, m: real, v: real, s: real, w: real, dv: real, dw: real)
    requires m == v + s * w
    ensures dv + s * dw + a * m == (dv + a * v) + s * (dw + a * w)
  {
  }

  lemma {:induction false} DotLinear(a: seq<real>, m: seq<real>, v: seq<real>, s: real, w: seq<real>)
    requires |a| == |m| && Combines(m, v, s, w)
    ensures Dot(a, m) == Dot(a, v) + s * Dot(a, w)
  {
    if a != [] {
      CombinesTail(m, v, s, w);
      DotLinear(a[1..], m[1..], v[1..], s, w[1..]);
      LinearStep(a[0], m[0], v[0], s, w[0], Dot(a[1..], v[1..]), Dot(a[1..], w[1..]));
    }
  }

  lemma {:induction false} DotOnes(v: seq<real>)
    ensures Dot(Ones(|v|), v) == Sum(v)
  {
    if v != [] {
      assert Ones(|v|)[1..] == Ones(|v[1..]|);
      DotOnes(v[1..]);
    }
  }

  lemma {:induction false} SumLinear(m: seq<real>, v: seq<real>, s: real, w: seq<real>)
    requires Combines(m, v, s, w)
    ensures Sum(m) == Sum(v) + s * Sum(w)
  {
    DotOnes(m);
    DotOnes(v);
    DotOnes(w);
    DotLinear(Ones(|m|), m, v, s, w);
  }

  lemma {:induction false} SumOnes(n: nat)
    ensures Sum(Ones(n)) == n as real
  {
    if n > 0 {
      assert Ones(n)[1..] == Ones(n - 1);
      SumOnes(n - 1);
    }
  }

  lemma {:induction false} CentredSum(v: seq<real>)
    requires v != []
    ensures Sum(Shift(v, Mean(v))) == 0.0
  {
    SumLinear(Shift(v, Mean(v)), v, -Mean(v), Ones(|v|));
    SumOnes(|v|);
  }

  lemma {:induction false} Cancels(products: real, squares: real)
    requires squares != 0.0
    ensures products + -(products / squares) * squares == 0.0
  {
  }

  lemma {:induction false} CentredResidual(x: real, y: real, mx: real, my: real, slope: real)
    ensures Residual(x, y, Line(slope, my - slope * mx)) == (y + -my * 1.0) + -slope * (x + -mx * 1.0)
  {
  }

  lemma {:induction false} CentredAt(x: seq<real>, y: seq<real>, line: Line, mx: real, my: real, i: nat)
    requires |x| == |y| && i < |x| && line.intercept == my - line.slope * mx
    ensures Residuals(x, y, line)[i] == Shift(y, my)[i] + -line.slope * Shift(x, mx)[i]
  {
    CentredResidual(x[i], y[i], mx, my, line.slope);
  }

  lemma {:induction false} LineIsCentred(x: seq<real>, y: seq<real>, line: Line, mx: real, my: real)
    requires |x| == |y| && line.intercept == my - line.slope * mx
    ensures Combines(Residuals(x, y, line), Shift(y, my), -line.slope, Shift(x, mx))
  {
    forall i | 0 <= i < |x|
      ensures Residuals(x, y, line)[i] == Shift(y, my)[i] + -line.slope * Shift(x, mx)[i]
    {
      CentredAt(x, y, line, mx, my, i);
    }
  }

  /** The fitted line passes through the centre. */
  lemma {:induction false} FitIsCentred(x: seq<real>, y: seq<real>)
    requires |x| == |y| && x != [] && Fit(x, y).Some?
    ensures var line := Fit(x, y).value;
            Combines(Residuals(x, y, line), Shift(y, Mean(y)), -line.slope, Shift(x, Mean(x)))
  {
    LineIsCentred(x, y, Fit(x, y).value, Mean(x), Mean(y));
  }

  lemma {:induction false} ResidualsBalance(x: seq<real>, y: seq<real>)
    requires |x| == |y| && x != [] && Fit(x, y).Some?
    ensures Sum(Residuals(x, y, Fit(x, y).value)) == 0.0
  {
    var line, dx, dy := Fit(x, y).value, Shift(x, Mean(x)), Shift(y, Mean(y));
    FitIsCentred(x, y);
    CentredSum(x);
    CentredSum(y);
    SumLinear(Residuals(x, y, line), dy, -line.slope, dx);
  }

  /** The slope makes the centred residuals orthogonal. */
  lemma {:induction false} FitSlope(x: seq<real>, y: seq<real>)
    requires |x| == |y| && x != [] && Fit(x, y).Some?
    ensures var dx, dy := Shift(x, Mean(x)), Shift(y, Mean(y));
            Dot(dx, dy) + -Fit(x, y).value.slope * Dot(dx, dx) == 0.0
  {
    var dx, dy := Shift(x, Mean(x)), Shift(y, Mean(y));
    Cancels(Dot(dx, dy), Dot(dx, dx));
  }

  lemma {:induction false} ResidualsCentred(x: seq<real>, y: seq<real>)
    requires |x| == |y| && x != [] && Fit(x, y).Some?
    ensures Dot(Shift(x, Mean(x)), Residuals(x, y, Fit(x, y).value)) == 0.0
  {
    var line, dx, dy := Fit(x, y).value, Shift(x, Mean(x)), Shift(y, Mean(y));
    FitIsCentred(x, y);
    FitSlope(x, y);
    Orthogonal(dx, Residuals(x, y, line), dy, -line.slope);
  }

  lemma {:induction false} Orthogonal(dx: seq<real>, r: seq<real>, dy: seq<real>, s: real)
    requires |dx| == |r| && Combines(r, dy, s, dx) && Dot(dx, dy) + s * Dot(dx, dx) == 0.0
    ensures Dot(dx, r) == 0.0
  {
    DotLinear(dx, r, dy, s, dx);
  }

  /** The normal equations: the fitted line's residuals are orthogonal to 1 and to x. */
  lemma {:induction false} NormalEquations(x: seq<real>, y: seq<real>)
    requires |x| == |y| && x != [] && Fit(x, y).Some?
    ensures var r := Residuals(x, y, Fit(x, y).value); Sum(r) == 0.0 && Dot(r, x) == 0.0
  {
    var r, dx := Residuals(x, y, Fit(x, y).value), Shift(x, Mean(x));
    ResidualsBalance(x, y);
    ResidualsCentred(x, y);
    Uncentre(r, x, dx, Mean(x));
  }

  lemma {:induction false} Uncentre(r: seq<real>, x: seq<real>, dx: seq<real>, mean: real)
    requires |r| == |x| && Combines(dx, x, -mean, Ones(|x|)) && Sum(r) == 0.0
    ensures Dot(r, x) == Dot(dx, r)
  {
    DotLinear(r, dx, x, -mean, Ones(|x|));
    DotSymmetric(dx, r);
    DotSymmetric(Ones(|x|), r);
    DotOnes(r);
  }

  /** How the residuals change between two lines. */
  function Change(x: seq<real>, from: Line, to: Line): (d: seq<real>)
    ensures |d| == |x|
  {
    Plus(Plus(Zeroes(|x|), to.slope - from.slope, x), to.intercept - from.intercept, Ones(|x|))
  }

  function Zeroes(n: nat): (v: seq<real>)
    ensures |v| == n && forall i :: 0 <= i < n ==> v[i] == 0.0
  {
    seq(n, _ => 0.0)
  }

  lemma {:induction false} DotZeroes(v: seq<real>)
    ensures Dot(v, Zeroes(|v|)) == 0.0
  {
    if v != [] {
      assert Zeroes(|v|)[1..] == Zeroes(|v[1..]|);
      DotZeroes(v[1..]);
    }
  }

  lemma {:induction false} DotChange(r: seq<real>, x: seq<real>, from: Line, to: Line)
    requires |r| == |x| && Sum(r) == 0.0 && Dot(r, x) == 0.0
    ensures Dot(r, Change(x, from, to)) == 0.0
  {
    var tilted := Plus(Zeroes(|x|), to.slope - from.slope, x);
    DotLinear(r, Change(x, from, to), tilted, to.intercept - from.intercept, Ones(|x|));
    DotLinear(r, tilted, Zeroes(|x|), to.slope - from.slope, x);
    DotZeroes(r);
    DotSymmetric(r, Ones(|x|));
    DotOnes(r);
  }

  lemma {:induction false} ResidualChange(x: seq<real>, y: seq<real>, from: Line, to: Line)
    requires |x| == |y|
    ensures Combines(Residuals(x, y, to), Residuals(x, y, from), -1.0, Change(x, from, to))
  {
    forall i | 0 <= i < |x|
      ensures Residuals(x, y, to)[i] == Residuals(x, y, from)[i] + -1.0 * Change(x, from, to)[i]
    {
      ChangeAt(x[i], y[i], from, to);
    }
  }

  lemma {:induction false} ChangeAt(x: real, y: real, from: Line, to: Line)
    ensures Residual(x, y, to) == Residual(x, y, from) +
            -1.0 * ((0.0 + (to.slope - from.slope) * x) + (to.intercept - from.intercept) * 1.0)
  {
  }

  /** Pythagoras: any other line's squared error exceeds the fitted line's by the squared length
      of the change between the two. */
  lemma {:induction false} ErrorOfOther(x: seq<real>, y: seq<real>, other: Line)
    requires |x| == |y| && x != [] && Fit(x, y).Some?
    ensures var d := Change(x, Fit(x, y).value, other);
            SquaredError(x, y, other) == SquaredError(x, y, Fit(x, y).value) + Dot(d, d)
  {
    var line := Fit(x, y).value;
    var r, m, d := Residuals(x, y, line), Residuals(x, y, other), Change(x, line, other);
    ResidualChange(x, y, line, other);
    NormalEquations(x, y);
    DotChange(r, x, line, other);
    DotLinear(m, m, r, -1.0, d);
    DotSymmetric(m, r);
    DotSymmetric(m, d);
    DotLinear(r, m, r, -1.0, d);
    DotLinear(d, m, r, -1.0, d);
    DotSymmetric(d, r);
  }

  /** Two lines that agree over two different x are one line. */
  lemma {:induction false} NoChange(x: seq<real>, from: Line, to: Line, i: nat, j: nat)
    requires i < |x| && j < |x| && x[i] != x[j]
    requires Change(x, from, to)[i] == 0.0 && Change(x, from, to)[j] == 0.0
    ensures from == to
  {
    var tilt := to.slope - from.slope;
    Distribute(tilt, x[i], -x[j]);
    ZeroFactor(tilt, x[i] - x[j]);
  }

  lemma {:induction false} ZeroFactor(a: real, b: real)
    requires a * b == 0.0 && b != 0.0
    ensures a == 0.0
  {
    assert a == a * b / b;
  }

  /** The fit is undefined exactly when no two x values differ. */
  lemma {:induction false} DegenerateExactly(x: seq<real>, y: seq<real>)
    requires |x| == |y| && x != []
    ensures Fit(x, y).None? <==> forall i :: 0 <= i < |x| ==> x[i] == x[0]
  {
    DotSign(Shift(x, Mean(x)));
    if forall i :: 0 <= i < |x| ==> x[i] == x[0] {
      ConstantMean(x);
    }
  }

  lemma {:induction false} ConstantMean(x: seq<real>)
    requires x != [] && forall i :: 0 <= i < |x| ==> x[i] == x[0]
    ensures Mean(x) == x[0]
  {
    SumLinear(x, Zeroes(|x|), x[0], Ones(|x|));
    SumOnes(|x|);
    DotZeroes(Ones(|x|));
    DotOnes(Zeroes(|x|));
  }

  /** The line every fit returns is the only one of least squared error. */
  lemma {:induction false} FitIsLeastSquares(x: seq<real>, y: seq<real>, other: Line)
    requires |x| == |y| && x != [] && Fit(x, y).Some?
    ensures SquaredError(x, y, Fit(x, y).value) <= SquaredError(x, y, other)
    ensures SquaredError(x, y, Fit(x, y).value) == SquaredError(x, y, other) <==> other == Fit(x, y).value
  {
    var line := Fit(x, y).value;
    var d := Change(x, line, other);
    ErrorOfOther(x, y, other);
    DotSign(d);
    DegenerateExactly(x, y);
    if Dot(d, d) == 0.0 {
      var i: nat :| i < |x| && x[i] != x[0];
      NoChange(x, line, other, i, 0);
    }
  }

  /** Points of a line give that line back. */
  lemma {:induction false} FitRecoversLine(x: seq<real>, y: seq<real>, line: Line)
    requires |x| == |y| && x != [] && Fit(x, y).Some?
    requires forall i :: 0 <= i < |x| ==> Residual(x[i], y[i], line) == 0.0
    ensures Fit(x, y).value == line
  {
    DotSign(Residuals(x, y, line));
    DotSign(Residuals(x, y, Fit(x, y).value));
    FitIsLeastSquares(x, y, line);
  }

  // ---------------------------------------------------------------- fit_clock

  /** Two radios' 32-bit stamps of one packet, and the host's time. */
  datatype Pair = Pair(first: nat, second: nat, host: real)

  datatype Outcome =
    | InsufficientPairs
    | InsufficientSplit
    | Degenerate
    | Fitted(full: Line, train: Line, all: seq<real>, prediction: seq<real>)

  function Insert(p: Pair, sorted: seq<Pair>): seq<Pair> {
    if sorted == [] then [p]
    else if p.host < sorted[0].host then [p] + sorted
    else [sorted[0]] + Insert(p, sorted[1..])
  }

  /** Python's sorted(pairs, key=host): stable, so a later equal goes after. */
  function ByHost(pairs: seq<Pair>): seq<Pair> {
    if pairs == [] then [] else Insert(pairs[|pairs| - 1], ByHost(pairs[..|pairs| - 1]))
  }

  lemma {:induction false} InsertKeeps(p: Pair, sorted: seq<Pair>)
    ensures multiset(Insert(p, sorted)) == multiset(sorted)[p := multiset(sorted)[p] + 1]
    ensures |Insert(p, sorted)| == |sorted| + 1
  {
    if sorted != [] {
      InsertKeeps(p, sorted[1..]);
      assert sorted == [sorted[0]] + sorted[1..];
    }
  }

  lemma {:induction false} ByHostKeeps(pairs: seq<Pair>)
    ensures multiset(ByHost(pairs)) == multiset(pairs) && |ByHost(pairs)| == |pairs|
  {
    if pairs != [] {
      var init := pairs[..|pairs| - 1];
      ByHostKeeps(init);
      InsertKeeps(pairs[|pairs| - 1], ByHost(init));
      assert pairs == init + [pairs[|pairs| - 1]];
    }
  }

  ghost predicate HostOrdered(pairs: seq<Pair>) {
    |pairs| <= 1 || (pairs[0].host <= pairs[1].host && HostOrdered(pairs[1..]))
  }

  lemma {:induction false} InsertOrdered(p: Pair, sorted: seq<Pair>)
    requires HostOrdered(sorted)
    ensures HostOrdered(Insert(p, sorted))
    ensures Insert(p, sorted)[0] == p || (sorted != [] && Insert(p, sorted)[0] == sorted[0])
  {
    if sorted != [] && !(p.host < sorted[0].host) {
      InsertOrdered(p, sorted[1..]);
      assert Insert(p, sorted)[1..] == Insert(p, sorted[1..]);
    } else {
      assert Insert(p, sorted)[1..] == sorted;
    }
  }

  /** The split is between earlier and later pairs whatever order they were given in. */
  lemma {:induction false} ByHostOrders(pairs: seq<Pair>)
    ensures HostOrdered(ByHost(pairs))
    ensures multiset(ByHost(pairs)) == multiset(pairs)
  {
    ByHostKeeps(pairs);
    if pairs != [] {
      ByHostOrders(pairs[..|pairs| - 1]);
      InsertOrdered(pairs[|pairs| - 1], ByHost(pairs[..|pairs| - 1]));
    }
  }

  function First(pairs: seq<Pair>, origin: Pair): (x: seq<real>)
    ensures |x| == |pairs| && forall i :: 0 <= i < |x| ==> x[i] == Delta32(pairs[i].first, origin.first) as real
  {
    seq(|pairs|, i requires 0 <= i < |pairs| => Delta32(pairs[i].first, origin.first) as real)
  }

  function Second(pairs: seq<Pair>, origin: Pair): (y: seq<real>)
    ensures |y| == |pairs| && forall i :: 0 <= i < |y| ==> y[i] == Delta32(pairs[i].second, origin.second) as real
  {
    seq(|pairs|, i requires 0 <= i < |pairs| => Delta32(pairs[i].second, origin.second) as real)
  }

  function FitClock(unsorted: seq<Pair>, splitIndex: Option<int>): Outcome {
    if |unsorted| < 20 then InsufficientPairs
    else
      ByHostKeeps(unsorted);
      var pairs := ByHost(unsorted);
      var x, y := First(pairs, pairs[0]), Second(pairs, pairs[0]);
      var split := if splitIndex.None? then |x| / 2 else splitIndex.value;
      if !(2 <= split <= |x| - 2) then InsufficientSplit
      else
        var full, train := Fit(x, y), Fit(x[..split], y[..split]);
        if full.None? || train.None? then Degenerate
        else Fitted(full.value, train.value, Residuals(x, y, full.value),
                    Residuals(x[split..], y[split..], train.value))
  }

  /** There is a fit exactly when there are enough pairs on both sides of the split and the first
      radio's ticks of the training part are not all one. */
  lemma {:induction false} FittedExactly(unsorted: seq<Pair>, splitIndex: Option<int>)
    ensures var n := |unsorted|;
            var split := if splitIndex.None? then n / 2 else splitIndex.value;
            FitClock(unsorted, splitIndex).Fitted? <==>
            && n >= 20 && 2 <= split <= n - 2 && |ByHost(unsorted)| == n
            && exists i :: 0 <= i < split &&
                 Delta32(ByHost(unsorted)[i].first, ByHost(unsorted)[0].first) != 0
  {
    ByHostKeeps(unsorted);
    var pairs, n := ByHost(unsorted), |unsorted|;
    var split := if splitIndex.None? then n / 2 else splitIndex.value;
    if n >= 20 && 2 <= split <= n - 2 {
      var x, y := First(pairs, pairs[0]), Second(pairs, pairs[0]);
      DegenerateExactly(x, y);
      DegenerateExactly(x[..split], y[..split]);
      assert x[0] == 0.0;
      assert forall i :: 0 <= i < split ==> x[..split][i] == x[i];
    }
  }

  /** Which of the outcomes is given, in the order the conditions are tried. */
  lemma {:induction false} OutcomeExactly(unsorted: seq<Pair>, splitIndex: Option<int>)
    ensures var n := |unsorted|;
            var split := if splitIndex.None? then n / 2 else splitIndex.value;
            var r := FitClock(unsorted, splitIndex);
            && (r.InsufficientPairs? <==> n < 20)
            && (r.InsufficientSplit? <==> n >= 20 && (split < 2 || n - 2 < split))
            && (r.Degenerate? <==>
                && n >= 20 && 2 <= split <= n - 2 && |ByHost(unsorted)| == n
                && forall i :: 0 <= i < split ==>
                     Delta32(ByHost(unsorted)[i].first, ByHost(unsorted)[0].first) == 0)
  {
    FittedExactly(unsorted, splitIndex);
    ByHostKeeps(unsorted);
  }

  /** `line` fits these points, and each other line, `other` for one, fits them worse. */
  predicate LeastOf(x: seq<real>, y: seq<real>, line: Line, other: Line)
    requires |x| == |y|
  {
    && SquaredError(x, y, line) <= SquaredError(x, y, other)
    && (SquaredError(x, y, line) == SquaredError(x, y, other) <==> other == line)
  }

  /** The residuals from the `from`-th pair on. */
  predicate Leaves(r: seq<real>, x: seq<real>, y: seq<real>, from: nat, line: Line) {
    && from <= |x| == |y| && |r| == |x| - from
    && forall i :: from <= i < |x| ==> r[i - from] == Residual(x[i], y[i], line)
  }

  lemma {:induction false} ResidualsLeave(x: seq<real>, y: seq<real>, from: nat, line: Line)
    requires from <= |x| == |y|
    ensures Leaves(Residuals(x[from..], y[from..], line), x, y, from, line)
  {
    assert forall i :: from <= i < |x| ==> x[from..][i - from] == x[i] && y[from..][i - from] == y[i];
  }

  /** What a fit reports: the least-squares line of all pairs with the residual each leaves, and the
      one of the pairs before the split with the residual it leaves at each pair after. */
  lemma {:induction false} FitClockMeaning(unsorted: seq<Pair>, splitIndex: Option<int>, other: Line)
    requires FitClock(unsorted, splitIndex).Fitted?
    ensures |ByHost(unsorted)| == |unsorted|
    ensures var r := FitClock(unsorted, splitIndex);
            var pairs, n := ByHost(unsorted), |unsorted|;
            var x, y := First(pairs, pairs[0]), Second(pairs, pairs[0]);
            var split := if splitIndex.None? then n / 2 else splitIndex.value;
            && LeastOf(x, y, r.full, other) && LeastOf(x[..split], y[..split], r.train, other)
            && Leaves(r.all, x, y, 0, r.full) && Leaves(r.prediction, x, y, split, r.train)
  {
    ByHostKeeps(unsorted);
    var pairs, n := ByHost(unsorted), |unsorted|;
    var x, y := First(pairs, pairs[0]), Second(pairs, pairs[0]);
    var split := if splitIndex.None? then n / 2 else splitIndex.value;
    FitIsLeastSquares(x, y, other);
    FitIsLeastSquares(x[..split], y[..split], other);
    ResidualsLeave(x, y, split, Fit(x[..split], y[..split]).value);
  }

  /** The radios' true, unwrapped times of the packet that left these stamps. */
  datatype Truth = Truth(first: int, second: int)

  predicate Stamps(p: Pair, t: Truth) {
    p.first == t.first % 0x1_0000_0000 && p.second == t.second % 0x1_0000_0000
  }

  /** Nothing is further from the earliest packet than half a wrap, on either radio. */
  predicate Close(t: Truth, origin: Truth) {
    && -0x8000_0000 <= t.first - origin.first < 0x8000_0000
    && -0x8000_0000 <= t.second - origin.second < 0x8000_0000
  }

  lemma {:induction false} TruePoint(p: Pair, origin: Pair, t: Truth, o: Truth)
    requires Stamps(p, t) && Stamps(origin, o) && Close(t, o)
    ensures Delta32(p.first, origin.first) == t.first - o.first
    ensures Delta32(p.second, origin.second) == t.second - o.second
  {
    DeltaIsTrue(t.first, o.first);
    DeltaIsTrue(t.second, o.second);
  }

  lemma {:induction false} DifferenceOnLine(x: real, y: real, x0: real, y0: real, slope: real, offset: real)
    requires y == slope * x + offset && y0 == slope * x0 + offset
    ensures Residual(x - x0, y - y0, Line(slope, 0.0)) == 0.0
  {
    Distribute(slope, x, -x0);
  }

  /** The second clock reads slope * first + offset. */
  predicate OnClock(t: Truth, slope: real, offset: real) {
    t.second as real == slope * t.first as real + offset
  }

  lemma {:induction false} OnLine(dx: int, dy: int, t: Truth, o: Truth, slope: real, offset: real)
    requires dx == t.first - o.first && dy == t.second - o.second
    requires OnClock(t, slope, offset) && OnClock(o, slope, offset)
    ensures Residual(dx as real, dy as real, Line(slope, 0.0)) == 0.0
  {
    DifferenceOnLine(t.first as real, t.second as real, o.first as real, o.second as real, slope, offset);
  }

  /** `truths` are the true times, in host order; the second clock is affine in the first. */
  ghost predicate AffineTruth(pairs: seq<Pair>, truths: seq<Truth>, slope: real, offset: real) {
    |truths| == |pairs| &&
    forall i :: 0 <= i < |truths| ==>
      Stamps(pairs[i], truths[i]) && Close(truths[i], truths[0]) && OnClock(truths[i], slope, offset)
  }

  lemma {:induction false} TrueDifference(pairs: seq<Pair>, truths: seq<Truth>, slope: real, offset: real, i: nat)
    requires AffineTruth(pairs, truths, slope, offset) && i < |pairs|
    ensures First(pairs, pairs[0])[i] == (truths[i].first - truths[0].first) as real
    ensures Second(pairs, pairs[0])[i] == (truths[i].second - truths[0].second) as real
    ensures OnClock(truths[i], slope, offset) && OnClock(truths[0], slope, offset)
  {
    TruePoint(pairs[i], pairs[0], truths[i], truths[0]);
  }

  lemma {:induction false} AllOnLine(pairs: seq<Pair>, truths: seq<Truth>, slope: real, offset: real, i: nat)
    requires AffineTruth(pairs, truths, slope, offset) && i < |pairs|
    ensures Residual(First(pairs, pairs[0])[i], Second(pairs, pairs[0])[i], Line(slope, 0.0)) == 0.0
  {
    TrueDifference(pairs, truths, slope, offset, i);
    OnLine(truths[i].first - truths[0].first, truths[i].second - truths[0].second, truths[i], truths[0], slope, offset);
  }

  /** Across a 32-bit wrap, for pairs within half a wrap of the first, an affine relation is recovered:
      the full fit and the fit of the training part both have its slope, and neither leaves a
      residual. */
  lemma {:induction false} AffineClockRecovered(unsorted: seq<Pair>, splitIndex: Option<int>,
                                                truths: seq<Truth>, slope: real, offset: real)
    requires FitClock(unsorted, splitIndex).Fitted?
    requires AffineTruth(ByHost(unsorted), truths, slope, offset)
    ensures var r := FitClock(unsorted, splitIndex);
            && r.full == Line(slope, 0.0) == r.train
            && (forall i :: 0 <= i < |r.all| ==> r.all[i] == 0.0)
            && (forall i :: 0 <= i < |r.prediction| ==> r.prediction[i] == 0.0)
  {
    ByHostKeeps(unsorted);
    var pairs := ByHost(unsorted);
    var x, y, line := First(pairs, pairs[0]), Second(pairs, pairs[0]), Line(slope, 0.0);
    var split := if splitIndex.None? then |x| / 2 else splitIndex.value;
    forall i | 0 <= i < |x|
      ensures Residual(x[i], y[i], line) == 0.0
    {
      AllOnLine(pairs, truths, slope, offset, i);
    }
    FitRecoversLine(x, y, line);
    FitRecoversLine(x[..split], y[..split], line);
  }
}
