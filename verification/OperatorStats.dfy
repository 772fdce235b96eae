/** Mining statistics of one operator (COperatorSecurityInfo): a smoothed mining rate, the
    spread of recent deviations from it, two cumulative sums, and a confidence that the
    operator misbehaves. Doubles are exact reals; the square root is a parameter. */
module OperatorStats {
  import opened Wrappers

  type Root = real -> real

  ghost predicate IsSquareRoot(root: Root) {
    forall x | x >= 0.0 :: root(x) >= 0.0 && root(x) * root(x) == x
  }

  const Epsilon: real := 0.00000001
  const MaxScore: real := 1000000.0
  const Kept: nat := 100

  function Min(x: real, y: real): real { if y < x then y else x }

  function Max(x: real, y: real): real { if x < y then y else x }

  function Abs(x: real): real { if x < 0.0 then -x else x }

  // ---------------------------------------------------------------- spread

  /** A product, named so that proofs can carry it without multiplying it out. */
  function Times(x: real, y: real): real { x * y }

  function Sum(xs: seq<real>): real {
    if xs == [] then 0.0 else Sum(xs[..|xs| - 1]) + xs[|xs| - 1]
  }

  function SumOfSquares(xs: seq<real>): real {
    if xs == [] then 0.0 else SumOfSquares(xs[..|xs| - 1]) + Times(xs[|xs| - 1], xs[|xs| - 1])
  }

  /** Sum of squared distances from `c`. */
  function Spread(xs: seq<real>, c: real): real {
    if xs == [] then 0.0 else Spread(xs[..|xs| - 1], c) + Times(xs[|xs| - 1] - c, xs[|xs| - 1] - c)
  }

  predicate IsMean(xs: seq<real>, mean: real) {
    Times(mean, |xs| as real) == Sum(xs)
  }

  function Mean(xs: seq<real>): real
    requires xs != []
  {
    Sum(xs) / |xs| as real
  }

  /** The population variance. */
  function Variance(xs: seq<real>): real
    requires xs != []
  {
    Spread(xs, Mean(xs)) / |xs| as real
  }

  /** The population standard deviation, 0 for no values. */
  function Volatility(root: Root, xs: seq<real>): real {
    if xs == [] then 0.0 else root(Variance(xs))
  }

  lemma {:induction false} SpreadExpands(xs: seq<real>, c: real)
    ensures Spread(xs, c) == SumOfSquares(xs) - 2.0 * Times(c, Sum(xs)) + Times(Times(c, c), |xs| as real)
  {
    if xs != [] {
      var init, x := xs[..|xs| - 1], xs[|xs| - 1];
      SpreadExpands(init, c);
      ExpandSquare(x, c, Sum(init), Sum(xs), |init| as real, |xs| as real);
    }
  }

  lemma ExpandSquare(x: real, c: real, s: real, t: real, n: real, k: real)
    requires t == s + x && k == n + 1.0
    ensures Times(x - c, x - c)
         == Times(x, x) - 2.0 * (Times(c, t) - Times(c, s)) + Times(Times(c, c), k) - Times(Times(c, c), n)
  {
    assert c * t - c * s == c * x;
    assert (c * c) * k == (c * c) * n + c * c;
  }

  /** About the mean the cross terms vanish. */
  lemma SpreadAboutMean(xs: seq<real>, mean: real)
    requires IsMean(xs, mean)
    ensures Spread(xs, mean) == SumOfSquares(xs) - Times(mean, Sum(xs))
  {
    SpreadExpands(xs, mean);
    Reassociate(mean, |xs| as real, Sum(xs));
  }

  lemma Reassociate(m: real, n: real, s: real)
    requires Times(m, n) == s
    ensures Times(Times(m, m), n) == Times(m, s)
  {
    assert (m * m) * n == m * (m * n);
  }

  /** One round of the running update: the mean moves by delta over the count, and the product
      of the distances before and after the move is what the spread gains. */
  lemma WelfordStep(xs: seq<real>, n: nat, x: real, mean: real, delta: real, mean': real)
    requires IsMean(xs, mean) && n == |xs| + 1 && delta == x - mean && mean' == mean + delta / n as real
    ensures IsMean(xs + [x], mean')
    ensures Spread(xs + [x], mean') == Spread(xs, mean) + Times(delta, x - mean')
  {
    var ys := xs + [x];
    SnocSums(xs, x);
    MeanMoves(mean, mean', Sum(xs), Sum(ys), |xs| as real, n as real, x, delta);
    Regroup(mean, mean', Sum(xs), Sum(ys), |xs| as real, |ys| as real, x);
    SpreadAboutMean(xs, mean);
    SpreadAboutMean(ys, mean');
  }

  lemma SnocSums(xs: seq<real>, x: real)
    ensures Sum(xs + [x]) == Sum(xs) + x
    ensures SumOfSquares(xs + [x]) == SumOfSquares(xs) + Times(x, x)
  {
    assert (xs + [x])[..|xs|] == xs;
  }

  lemma Quotient(x: real, y: real)
    requires y > 0.0
    ensures (x / y) * y == x
  { }

  lemma MeanMoves(m: real, m': real, s: real, t: real, n: real, k: real, x: real, d: real)
    requires n >= 0.0 && k == n + 1.0 && Times(m, n) == s && t == s + x && d == x - m && m' == m + d / k
    ensures Times(m', k) == t
  {
    var q := d / k;
    Quotient(d, k);
    assert m' * k == m * k + q * k == m * n + m + q * k;
  }

  lemma Regroup(m: real, m': real, s: real, t: real, n: real, k: real, x: real)
    requires k == n + 1.0 && Times(m, n) == s && t == s + x && Times(m', k) == t
    ensures Times(x, x) - Times(m', t) == Times(x - m, x - m') - Times(m, s)
  {
    assert m * k == s + m;
    assert m * t == m * (m' * k) == m' * (m * k) == m' * (s + m) == m' * s + m' * m;
    assert m' * t == m' * s + m' * x;
    assert m * t == m * s + m * x;
    assert (x - m) * (x - m') == x * x - x * m' - m * x + m * m';
  }

  lemma {:induction false} SpreadNotNegative(xs: seq<real>, c: real)
    ensures Spread(xs, c) >= 0.0
  {
    if xs != [] {
      SpreadNotNegative(xs[..|xs| - 1], c);
      SquareNotNegative(xs[|xs| - 1] - c);
    }
  }

  lemma SquareNotNegative(x: real)
    ensures Times(x, x) >= 0.0
  { }

  ghost predicate AllWithin(xs: seq<real>, b: real) {
    forall i | 0 <= i < |xs| :: -b <= xs[i] <= b
  }

  lemma {:induction false} SquaresBounded(xs: seq<real>, b: real)
    requires b >= 0.0 && AllWithin(xs, b)
    ensures SumOfSquares(xs) <= Times(|xs| as real, Times(b, b))
  {
    if xs != [] {
      SquaresBounded(xs[..|xs| - 1], b);
      OneMoreSquare(xs[|xs| - 1], b, (|xs| - 1) as real, |xs| as real);
    }
  }

  lemma OneMoreSquare(x: real, b: real, n: real, k: real)
    requires -b <= x <= b && k == n + 1.0
    ensures Times(x, x) <= Times(k, Times(b, b)) - Times(n, Times(b, b))
  {
    assert b * b - x * x == (b - x) * (b + x) >= 0.0;
    assert k * (b * b) == n * (b * b) + b * b;
  }

  /** Values within `b` of zero have a variance between 0 and `b` squared, so the clamp at
      zero never acts. */
  lemma VarianceBounded(xs: seq<real>, b: real)
    requires xs != [] && b >= 0.0 && AllWithin(xs, b)
    ensures 0.0 <= Variance(xs) <= Times(b, b)
  {
    var n, m := |xs| as real, Mean(xs);
    Quotient(Sum(xs), n);
    SpreadAboutMean(xs, m);
    SpreadNotNegative(xs, m);
    SquaresBounded(xs, b);
    MeanTimesSum(m, n, Sum(xs));
    DivBetween(Spread(xs, m), n, Times(b, b));
  }

  lemma MeanTimesSum(m: real, n: real, s: real)
    requires n >= 0.0 && Times(m, n) == s
    ensures Times(m, s) >= 0.0
  {
    assert m * s == (m * m) * n;
    SquareNotNegative(m);
  }

  lemma DivBetween(x: real, n: real, y: real)
    requires n > 0.0 && 0.0 <= x <= Times(n, y)
    ensures 0.0 <= x / n <= y
  {
    Quotient(x, n);
  }

  lemma VolatilityBounded(root: Root, xs: seq<real>, b: real)
    requires IsSquareRoot(root) && b >= 0.0 && AllWithin(xs, b)
    ensures 0.0 <= Volatility(root, xs) <= b
  {
    if xs != [] {
      VarianceBounded(xs, b);
      RootBounded(root, Variance(xs), b);
    }
  }

  lemma RootBounded(root: Root, x: real, b: real)
    requires IsSquareRoot(root) && b >= 0.0 && 0.0 <= x <= Times(b, b)
    ensures 0.0 <= root(x) <= b
  {
    var v := root(x);
    assert v * v == x;
    if v > b {
      assert v * v - b * b == (v - b) * (v + b);
      ProductPositive(v - b, v + b);
    }
  }

  // ---------------------------------------------------------------- one observed block

  datatype Mining = Mining(
    lastTime: nat, lastHeight: nat,
    ewma: real, recent: seq<real>, volatility: real,
    up: real, down: real, ups: nat, downs: nat)

  /** Blocks per second between two block times, at most one. */
  function Rate(gap: nat): real
    requires gap > 0
  {
    Min(1.0, 1.0 / Max(1.0, gap as real))
  }

  function Smoothed(ewma: real, rate: real): real {
    if ewma < Epsilon then rate else ewma + 0.1 * (rate - ewma)
  }

  /** The unit of the reference value and of the threshold. */
  function Scale(ewma: real, volatility: real): real {
    ewma * (1.0 + volatility)
  }

  /** The positive and the negative cumulative sum, before any reset. */
  function Raised(up: real, deviation: real, scale: real): real {
    Min(MaxScore, Max(0.0, up + deviation - 0.5 * scale))
  }

  function Lowered(down: real, deviation: real, scale: real): real {
    Max(-MaxScore, Min(0.0, down + deviation + 0.5 * scale))
  }

  /** A deviation and the scale it is judged by. */
  datatype Judged = Judged(deviation: real, scale: real)

  /** A series of them, the latest outermost. */
  datatype Series = Empty | Then(before: Series, last: Judged)

  function Length(steps: Series): nat {
    if steps.Empty? then 0 else Length(steps.before) + 1
  }

  /** The positive sum after a series of deviations, were there no cap and no alarm: never below
      zero, each deviation added less its reference value. */
  function Raising(steps: Series): real {
    if steps.Empty? then 0.0 else Max(0.0, Raising(steps.before) + steps.last.deviation - 0.5 * steps.last.scale)
  }

  /** What the deviations after the first `k` exceed their reference values by, in all. */
  function Excess(steps: Series, k: nat): real
    requires k <= Length(steps)
  {
    if k == Length(steps) then 0.0
    else Excess(steps.before, k) + steps.last.deviation - 0.5 * steps.last.scale
  }

  /** That sum is the largest excess any recent stretch of deviations adds up to. */
  lemma {:induction false} RaisingIsLargestExcess(steps: Series) returns (k: nat)
    ensures k <= Length(steps) && Raising(steps) == Excess(steps, k)
    ensures forall i: nat | i <= Length(steps) :: Excess(steps, i) <= Raising(steps)
  {
    k := Length(steps);
    if steps.Then? {
      var best := RaisingIsLargestExcess(steps.before);
      if Excess(steps, best) > 0.0 { k := best; }
      forall i: nat | i <= Length(steps) ensures Excess(steps, i) <= Raising(steps) {
        if i < Length(steps) { assert Excess(steps.before, i) <= Raising(steps.before); }
      }
    }
  }

  function Pushed(recent: seq<real>, x: real): seq<real> {
    var all := recent + [x];
    if |all| > Kept then all[1..] else all
  }

  predicate Measures(m: Mining, time: nat) {
    m.lastTime != 0 && time > m.lastTime
  }

  function Observed(root: Root, m: Mining, height: nat, time: nat): Mining {
    if !Measures(m, time) then m.(lastTime := time, lastHeight := height) else
      var rate := Rate(time - m.lastTime);
      var ewma := Smoothed(m.ewma, rate);
      var recent := Pushed(m.recent, rate - ewma);
      var volatility := Volatility(root, recent);
      Summed(m, Mining(time, height, ewma, recent, volatility, m.up, m.down, m.ups, m.downs), rate - ewma,
        Scale(ewma, volatility))
  }

  lemma ObservedStepwise(root: Root, m: Mining, height: nat, time: nat, rate: real, ewma: real, recent: seq<real>,
    volatility: real)
    requires Measures(m, time) && rate == Rate(time - m.lastTime) && ewma == Smoothed(m.ewma, rate)
    requires recent == Pushed(m.recent, rate - ewma) && volatility == Volatility(root, recent)
    ensures Observed(root, m, height, time)
         == Summed(m, Mining(time, height, ewma, recent, volatility, m.up, m.down, m.ups, m.downs), rate - ewma,
           Scale(ewma, volatility))
  { }

  /** `next` with the two sums of `m` moved on by a deviation, and partly reset where one
      passes five times the scale. */
  function Summed(m: Mining, next: Mining, deviation: real, scale: real): Mining {
    var up, down := Raised(m.up, deviation, scale), Lowered(m.down, deviation, scale);
    var high, low := up > 5.0 * scale, down < -(5.0 * scale);
    next.(up := if high then 0.7 * up else up, down := if low then 0.7 * down else down,
          ups := if high then m.ups + 1 else m.ups, downs := if low then m.downs + 1 else m.downs)
  }

  /** What the two sums never pass: far below the cap that the update puts on them. */
  const SumBound: real := 9.5

  ghost predicate MiningOk(m: Mining) {
    && 0.0 <= m.ewma <= 1.0
    && |m.recent| <= Kept && AllWithin(m.recent, 0.9)
    && 0.0 <= m.volatility <= 0.9
    && 0.0 <= m.up <= SumBound && -SumBound <= m.down <= 0.0
  }

  /** Block times are whole seconds, so neither cap ever acts: the rate is one over the gap. */
  lemma RateInRange(gap: nat)
    requires gap > 0
    ensures 0.0 < Rate(gap) <= 1.0
    ensures Rate(gap) * gap as real == 1.0
  {
    Quotient(1.0, Max(1.0, gap as real));
  }

  lemma SmoothedInRange(ewma: real, rate: real)
    requires 0.0 <= ewma <= 1.0 && 0.0 < rate <= 1.0
    ensures 0.0 < Smoothed(ewma, rate) <= 1.0
    ensures Min(ewma, rate) <= Smoothed(ewma, rate) <= Max(ewma, rate)
    ensures -0.9 <= rate - Smoothed(ewma, rate) <= 0.9
  { }

  /** Every observed block keeps all bounds. */
  lemma ObservedKeepsBounds(root: Root, m: Mining, height: nat, time: nat)
    requires IsSquareRoot(root) && MiningOk(m)
    ensures MiningOk(Observed(root, m, height, time))
  {
    if Measures(m, time) {
      var rate := Rate(time - m.lastTime);
      RateInRange(time - m.lastTime);
      SmoothedInRange(m.ewma, rate);
      var recent := Pushed(m.recent, rate - Smoothed(m.ewma, rate));
      assert AllWithin(recent, 0.9);
      VolatilityBounded(root, recent, 0.9);
      var ewma, volatility := Smoothed(m.ewma, rate), Volatility(root, recent);
      ScaleInRange(ewma, volatility);
      SumsInRange(m, Mining(time, height, ewma, recent, volatility, m.up, m.down, m.ups, m.downs), rate - ewma,
        Scale(ewma, volatility));
    }
  }

  lemma ScaleInRange(ewma: real, volatility: real)
    requires 0.0 <= ewma <= 1.0 && 0.0 <= volatility <= 0.9
    ensures 0.0 <= Scale(ewma, volatility) <= 1.9
  {
    ProductNotNegative(ewma, 1.0 + volatility);
    ProductNotNegative(1.0 - ewma, 1.0 + volatility);
  }

  /** One move of the sums: a sum above five scales is cut by three tenths, and five scales are
      at most 9.5. The cap is out of reach. */
  lemma SumsInRange(m: Mining, next: Mining, deviation: real, scale: real)
    requires 0.0 <= m.up <= SumBound && -SumBound <= m.down <= 0.0
    requires -0.9 <= deviation <= 0.9 && 0.0 <= scale <= 1.9
    ensures var after := Summed(m, next, deviation, scale);
      0.0 <= after.up <= SumBound && -SumBound <= after.down <= 0.0
    ensures Raised(m.up, deviation, scale) < MaxScore && Lowered(m.down, deviation, scale) > -MaxScore
  { }

  // ---------------------------------------------------------------- confidence

  datatype Counters = Counters(mined: nat, stamps: nat, waves: nat, groups: nat, globals: nat)

  datatype Scores = Scores(score: real, confidence: real)

  /** Both sums, relative to the mining rate and the blocks mined. */
  function CusumShare(m: Mining, mined: nat): real {
    if m.ewma > Epsilon then Share(m.ewma, m.up, m.down, mined) else 0.0
  }

  function Share(ewma: real, up: real, down: real, mined: nat): real
    requires ewma > Epsilon
  {
    ProductPositive(Max(ewma, Epsilon), Max(1.0, mined as real));
    (Abs(up) + Abs(down)) / (Max(ewma, Epsilon) * Max(1.0, mined as real))
  }

  function NewScore(score: real, m: Mining, c: Counters): real {
    var kept := if score < Epsilon then 0.0 else score;
    Min(MaxScore, Max(0.0, kept * 0.9) + CusumShare(m, c.mined) + c.globals as real * 0.2)
  }

  function Base(score: real): real
    requires score >= 0.0
  {
    score / Max(1.0, 1.0 + score)
  }

  function Factor(count: nat, grace: nat, weight: real): real
    requires count > grace
  {
    1.0 + (count - grace) as real * weight
  }

  /** Counts beyond the grace raise the confidence by `weight` each. */
  function Penalised(confidence: real, count: nat, grace: nat, weight: real): real {
    if count > grace then Min(1.0, Times(confidence, Factor(count, grace, weight))) else confidence
  }

  function Confidence(score: real, c: Counters): real
    requires score >= 0.0
  {
    var base := Base(score);
    if base > 0.1 then AllPenalties(base, c) else base
  }

  ghost predicate ScoresOk(s: Scores) {
    0.0 <= s.score <= MaxScore && 0.0 <= s.confidence <= 1.0
  }

  lemma CusumShareNotNegative(m: Mining, mined: nat)
    ensures CusumShare(m, mined) >= 0.0
  {
    if m.ewma > Epsilon {
      var d := Max(m.ewma, Epsilon) * Max(1.0, mined as real);
      ProductPositive(Max(m.ewma, Epsilon), Max(1.0, mined as real));
      DivNotNegative(Abs(m.up) + Abs(m.down), d);
    }
  }

  lemma DivNotNegative(x: real, y: real)
    requires x >= 0.0 && y > 0.0
    ensures x / y >= 0.0
  { }

  lemma ProductPositive(x: real, y: real)
    requires x > 0.0 && y > 0.0
    ensures x * y > 0.0
  { }

  lemma NewScoreInRange(score: real, m: Mining, c: Counters)
    ensures 0.0 <= NewScore(score, m, c) <= MaxScore
  {
    CusumShareNotNegative(m, c.mined);
  }

  lemma BaseInRange(score: real)
    requires score >= 0.0
    ensures 0.0 <= Base(score) < 1.0
  {
    Quotient(score, 1.0 + score);
  }

  lemma PenaltyGrows(x: real, y: real, few: nat, many: nat, grace: nat, weight: real)
    requires 0.0 <= x <= y <= 1.0 && few <= many && weight >= 0.0
    ensures 0.0 <= Penalised(x, few, grace, weight) <= Penalised(y, many, grace, weight) <= 1.0
    ensures x <= Penalised(x, few, grace, weight)
  {
    if many > grace {
      FactorIsLarge(many, grace, weight);
      ProductsGrow(y, y, 1.0, Factor(many, grace, weight));
    }
    if few > grace {
      FactorIsLarge(few, grace, weight);
      FactorsGrow(few, many, grace, weight);
      ProductsGrow(x, x, 1.0, Factor(few, grace, weight));
      ProductsGrow(x, y, Factor(few, grace, weight), Factor(many, grace, weight));
    }
  }

  lemma FactorIsLarge(count: nat, grace: nat, weight: real)
    requires count > grace && weight >= 0.0
    ensures Factor(count, grace, weight) >= 1.0
  {
    ProductNotNegative((count - grace) as real, weight);
  }

  lemma FactorsGrow(few: nat, many: nat, grace: nat, weight: real)
    requires grace < few <= many && weight >= 0.0
    ensures Factor(few, grace, weight) <= Factor(many, grace, weight)
  {
    ProductNotNegative((many - few) as real, weight);
    assert (many - grace) as real == (few - grace) as real + (many - few) as real;
    Distribute((few - grace) as real, (many - few) as real, weight);
  }

  lemma Distribute(x: real, y: real, w: real)
    ensures (x + y) * w == x * w + y * w
  { }

  lemma ProductsGrow(x: real, y: real, a: real, b: real)
    requires 0.0 <= x <= y && 0.0 <= a <= b
    ensures 0.0 <= Times(x, a) <= Times(y, b)
    ensures a == 1.0 ==> Times(x, a) == x
  {
    assert y * b - x * a == (y - x) * b + x * (b - a);
  }

  lemma BaseGrows(score: real, score': real)
    requires 0.0 <= score <= score'
    ensures 0.0 <= Base(score) <= Base(score') < 1.0
    ensures Base(score) * (1.0 + score) == score
  {
    BaseInRange(score);
    BaseInRange(score');
    Quotient(score, 1.0 + score);
    FractionsGrow(score, score');
  }

  lemma FractionsGrow(x: real, y: real)
    requires 0.0 <= x <= y
    ensures x / (1.0 + x) <= y / (1.0 + y)
  {
    Complement(x);
    Complement(y);
    var p, q := 1.0 / (1.0 + x), 1.0 / (1.0 + y);
    Quotient(1.0, 1.0 + x);
    Quotient(1.0, 1.0 + y);
    if q > p { ProductPositive(q - p, 1.0 + x); ProductNotNegative(q, y - x); }
  }

  lemma Complement(x: real)
    requires x >= 0.0
    ensures x / (1.0 + x) == 1.0 - 1.0 / (1.0 + x) && 1.0 / (1.0 + x) > 0.0
  { }

  lemma ProductNotNegative(x: real, y: real)
    requires x >= 0.0 && y >= 0.0
    ensures x * y >= 0.0
  { }

  /** The confidence lies between 0 and 1, never below the score's own share, and never falls
      when the score or any of the offence counts rises. */
  lemma ConfidenceGrows(score: real, score': real, c: Counters, d: Counters)
    requires 0.0 <= score <= score'
    requires c.stamps <= d.stamps && c.waves <= d.waves && c.groups <= d.groups
    ensures 0.0 <= Base(score) <= Confidence(score, c) <= Confidence(score', d) <= 1.0
  {
    BaseGrows(score, score');
    PenaltiesGrow(Base(score), Base(score'), c, d);
    PenaltiesGrow(Base(score'), Base(score'), d, d);
  }

  function AllPenalties(base: real, c: Counters): real {
    Penalised(Penalised(Penalised(base, c.stamps, 3, 0.05), c.waves, 3, 0.15), c.groups, 0, 0.2)
  }

  lemma PenaltiesGrow(x: real, y: real, c: Counters, d: Counters)
    requires 0.0 <= x <= y <= 1.0
    requires c.stamps <= d.stamps && c.waves <= d.waves && c.groups <= d.groups
    ensures x <= AllPenalties(x, c) <= AllPenalties(y, d) <= 1.0
  {
    PenaltyGrows(x, y, c.stamps, d.stamps, 3, 0.05);
    var p, q := Penalised(x, c.stamps, 3, 0.05), Penalised(y, d.stamps, 3, 0.05);
    PenaltyGrows(p, q, c.waves, d.waves, 3, 0.15);
    PenaltyGrows(Penalised(p, c.waves, 3, 0.15), Penalised(q, d.waves, 3, 0.15), c.groups, d.groups, 0, 0.2);
  }

  function Evaluated(s: Scores, m: Mining, c: Counters): Scores {
    if c.mined == 0 then s else
      var score := NewScore(s.score, m, c);
      assert score >= 0.0 by { NewScoreInRange(s.score, m, c); }
      Scores(score, Confidence(score, c))
  }

  /** With no global anomalies and both sums at zero an evaluation takes a tenth off the
      score, and forgets it once it is below the smallest score kept. */
  lemma QuietDecays(s: Scores, m: Mining, c: Counters)
    requires ScoresOk(s) && c.mined > 0 && c.globals == 0 && m.up == 0.0 && m.down == 0.0
    ensures Evaluated(s, m, c).score == if s.score < Epsilon then 0.0 else 0.9 * s.score
  {
    if m.ewma > Epsilon {
      ProductPositive(Max(m.ewma, Epsilon), Max(1.0, c.mined as real));
      assert Share(m.ewma, m.up, m.down, c.mined) == 0.0;
    }
  }

  // ---------------------------------------------------------------- runs

  /** A call that changes the statistics. */
  datatype Call =
    | Update(height: nat, time: nat)
    | Compute
    | Mined | Stamps(n: nat) | Waves(n: nat) | Group | Global

  datatype State = State(mining: Mining, counters: Counters, scores: Scores)

  const Zero := State(Mining(0, 0, 0.0, [], 0.0, 0.0, 0.0, 0, 0), Counters(0, 0, 0, 0, 0), Scores(0.0, 0.0))

  function Next(root: Root, s: State, call: Call): State {
    match call
    case Update(height, time) => s.(mining := Observed(root, s.mining, height, time))
    case Compute => s.(scores := Evaluated(s.scores, s.mining, s.counters))
    case Mined => s.(counters := s.counters.(mined := s.counters.mined + 1))
    case Stamps(n) => s.(counters := s.counters.(stamps := s.counters.stamps + n))
    case Waves(n) => s.(counters := s.counters.(waves := s.counters.waves + n))
    case Group => s.(counters := s.counters.(groups := s.counters.groups + 1))
    case Global => s.(counters := s.counters.(globals := s.counters.globals + 1))
  }

  function Run(root: Root, calls: seq<Call>): State {
    if calls == [] then Zero else Next(root, Run(root, calls[..|calls| - 1]), calls[|calls| - 1])
  }

  /** From zeroed statistics every interleaving of calls keeps every bound. */
  lemma {:induction false} RunKeepsBounds(root: Root, calls: seq<Call>)
    requires IsSquareRoot(root)
    ensures MiningOk(Run(root, calls).mining) && ScoresOk(Run(root, calls).scores)
  {
    if calls != [] {
      var s, call := Run(root, calls[..|calls| - 1]), calls[|calls| - 1];
      RunKeepsBounds(root, calls[..|calls| - 1]);
      if call.Update? {
        ObservedKeepsBounds(root, s.mining, call.height, call.time);
      } else if call.Compute? {
        NewScoreInRange(s.scores.score, s.mining, s.counters);
        var score := NewScore(s.scores.score, s.mining, s.counters);
        ConfidenceGrows(score, score, s.counters, s.counters);
      }
    }
  }

  /** What a call adds to the deviations. */
  function Measured(m: Mining, call: Call): seq<real> {
    if call.Update? && Measures(m, call.time)
    then var rate := Rate(call.time - m.lastTime); [rate - Smoothed(m.ewma, rate)]
    else []
  }

  /** Every deviation ever measured, in order. */
  function Deviations(root: Root, calls: seq<Call>): seq<real> {
    if calls == [] then [] else
      var init := calls[..|calls| - 1];
      Deviations(root, init) + Measured(Run(root, init).mining, calls[|calls| - 1])
  }

  function Latest(xs: seq<real>, n: nat): seq<real> {
    if |xs| <= n then xs else xs[|xs| - n..]
  }

  /** The queue holds the latest hundred of `xs`, and the volatility is their standard
      deviation. */
  ghost predicate HoldsLatest(root: Root, m: Mining, xs: seq<real>) {
    m.recent == Latest(xs, Kept) && m.volatility == Volatility(root, m.recent)
  }

  /** At any point the queue holds the latest hundred of all deviations ever measured. */
  lemma {:induction false} RunKeepsLatest(root: Root, calls: seq<Call>)
    ensures HoldsLatest(root, Run(root, calls).mining, Deviations(root, calls))
  {
    if calls != [] {
      var init := calls[..|calls| - 1];
      RunKeepsLatest(root, init);
      NextHoldsLatest(root, Run(root, init), calls[|calls| - 1], Deviations(root, init));
    }
  }

  lemma NextHoldsLatest(root: Root, s: State, call: Call, xs: seq<real>)
    requires HoldsLatest(root, s.mining, xs)
    ensures HoldsLatest(root, Next(root, s, call).mining, xs + Measured(s.mining, call))
  {
    var m := s.mining;
    if call.Update? && Measures(m, call.time) {
      var rate := Rate(call.time - m.lastTime);
      var deviation := rate - Smoothed(m.ewma, rate);
      assert Measured(m, call) == [deviation];
      PushedKeepsLatest(xs, deviation);
      ObservedRecent(root, m, call.height, call.time);
    } else {
      assert xs + Measured(m, call) == xs;
    }
  }

  lemma PushedKeepsLatest(xs: seq<real>, x: real)
    ensures Pushed(Latest(xs, Kept), x) == Latest(xs + [x], Kept)
  { }

  lemma ObservedRecent(root: Root, m: Mining, height: nat, time: nat)
    requires Measures(m, time)
    ensures var rate, next := Rate(time - m.lastTime), Observed(root, m, height, time);
      && next.recent == Pushed(m.recent, rate - Smoothed(m.ewma, rate))
      && next.volatility == Volatility(root, next.recent)
  { }

  /** What a call judges: the deviation it measures, and the scale. */
  function Judgement(root: Root, m: Mining, call: Call): Option<Judged> {
    if call.Update? && Measures(m, call.time) then
      var rate := Rate(call.time - m.lastTime);
      var deviation := rate - Smoothed(m.ewma, rate);
      Some(Judged(deviation, Scale(Smoothed(m.ewma, rate), Volatility(root, Pushed(m.recent, deviation)))))
    else None
  }

  function Extended(steps: Series, judged: Option<Judged>): Series {
    if judged.None? then steps else Then(steps, judged.value)
  }

  /** All that the calls `more` judge, made after the calls `before`. */
  function JudgedDuring(root: Root, before: seq<Call>, more: seq<Call>): Series {
    if more == [] then Empty else
      var init := more[..|more| - 1];
      Extended(JudgedDuring(root, before, init), Judgement(root, Run(root, before + init).mining, more[|more| - 1]))
  }

  function Mirrored(steps: Series): Series {
    if steps.Empty? then Empty else Then(Mirrored(steps.before), Judged(-steps.last.deviation, steps.last.scale))
  }

  lemma RunSnoc(root: Root, before: seq<Call>, more: seq<Call>)
    requires more != []
    ensures Run(root, before + more) == Next(root, Run(root, before + more[..|more| - 1]), more[|more| - 1])
  {
    assert before + more == (before + more[..|more| - 1]) + [more[|more| - 1]];
    RunOneMore(root, before + more[..|more| - 1], more[|more| - 1]);
  }

  /** A judgement, if there is one, moves each sum unless it sounds that sum's alarm. */
  ghost predicate MovedBy(m: Mining, after: Mining, judged: Option<Judged>) {
    && m.ups <= after.ups && m.downs <= after.downs
    && match judged
       case None => after.up == m.up && after.down == m.down
       case Some(j) =>
         && (after.ups == m.ups ==> after.up == Max(0.0, m.up + j.deviation - 0.5 * j.scale))
         && (after.downs == m.downs ==> -after.down == Max(0.0, -m.down - j.deviation - 0.5 * j.scale))
  }

  /** One call moves the positive sum by what it judges, unless it sounds the alarm. */
  lemma NextRaises(root: Root, s: State, call: Call)
    requires IsSquareRoot(root) && MiningOk(s.mining)
    ensures MovedBy(s.mining, Next(root, s, call).mining, Judgement(root, s.mining, call))
  {
    if call.Update? && Measures(s.mining, call.time) {
      var m := s.mining;
      var rate := Rate(call.time - m.lastTime);
      RateInRange(call.time - m.lastTime);
      SmoothedInRange(m.ewma, rate);
      var ewma := Smoothed(m.ewma, rate);
      var recent := Pushed(m.recent, rate - ewma);
      assert AllWithin(recent, 0.9);
      VolatilityBounded(root, recent, 0.9);
      ScaleInRange(ewma, Volatility(root, recent));
      JudgedMove(root, m, call.height, call.time, rate - ewma, Scale(ewma, Volatility(root, recent)));
    }
  }

  lemma JudgedMove(root: Root, m: Mining, height: nat, time: nat, deviation: real, scale: real)
    requires Measures(m, time) && 0.0 <= m.up <= SumBound && -SumBound <= m.down <= 0.0
    requires Judgement(root, m, Update(height, time)) == Some(Judged(deviation, scale))
    requires -0.9 <= deviation <= 0.9 && 0.0 <= scale <= 1.9
    ensures var after := Observed(root, m, height, time);
      && m.ups <= after.ups && m.downs <= after.downs
      && (after.ups == m.ups ==> after.up == Max(0.0, m.up + deviation - 0.5 * scale))
      && (after.downs == m.downs ==> -after.down == Max(0.0, -m.down - deviation - 0.5 * scale))
  {
    var rate := Rate(time - m.lastTime);
    var ewma := Smoothed(m.ewma, rate);
    var recent := Pushed(m.recent, rate - ewma);
    ObservedStepwise(root, m, height, time, rate, ewma, recent, Volatility(root, recent));
    SumsInRange(m, Mining(time, height, ewma, recent, Volatility(root, recent), m.up, m.down, m.ups, m.downs),
      deviation, scale);
  }

  /** A call without an alarm keeps either sum that of the deviations judged. */
  lemma SumsFollow(m: Mining, after: Mining, judged: Option<Judged>, steps: Series)
    requires MovedBy(m, after, judged)
    ensures after.ups == m.ups && m.up == Raising(steps) ==> after.up == Raising(Extended(steps, judged))
    ensures after.downs == m.downs && -m.down == Raising(Mirrored(steps)) ==>
              -after.down == Raising(Mirrored(Extended(steps, judged)))
  { }

  /** Alarms are counted, never uncounted. */
  lemma {:induction false} AlarmsOnlyGrow(root: Root, before: seq<Call>, more: seq<Call>)
    requires IsSquareRoot(root)
    ensures Run(root, before).mining.ups <= Run(root, before + more).mining.ups
    ensures Run(root, before).mining.downs <= Run(root, before + more).mining.downs
  {
    if more == [] {
      assert before + more == before;
    } else {
      AlarmsOnlyGrow(root, before, more[..|more| - 1]);
      RunSnoc(root, before, more);
      RunKeepsBounds(root, before + more[..|more| - 1]);
      NextRaises(root, Run(root, before + more[..|more| - 1]), more[|more| - 1]);
    }
  }

  /** In any run, from a zero sum on and for as long as no positive alarm sounds, the positive sum
      is that of the deviations judged since. */
  lemma {:induction false} RunRaises(root: Root, before: seq<Call>, more: seq<Call>)
    requires IsSquareRoot(root) && Run(root, before).mining.up == 0.0
    requires Run(root, before + more).mining.ups == Run(root, before).mining.ups
    ensures Run(root, before + more).mining.up == Raising(JudgedDuring(root, before, more))
  {
    if more == [] {
      assert before + more == before;
    } else {
      StepFollows(root, before, more);
      RunRaises(root, before, more[..|more| - 1]);
    }
  }

  lemma StepFollows(root: Root, before: seq<Call>, more: seq<Call>)
    requires IsSquareRoot(root) && more != []
    ensures var init := more[..|more| - 1];
      var first, mid, last := Run(root, before).mining, Run(root, before + init).mining,
        Run(root, before + more).mining;
      var steps, all := JudgedDuring(root, before, init), JudgedDuring(root, before, more);
      && first.ups <= mid.ups <= last.ups && first.downs <= mid.downs <= last.downs
      && (last.ups == mid.ups && mid.up == Raising(steps) ==> last.up == Raising(all))
      && (last.downs == mid.downs && -mid.down == Raising(Mirrored(steps)) ==> -last.down == Raising(Mirrored(all)))
  {
    var init, call := more[..|more| - 1], more[|more| - 1];
    RunSnoc(root, before, more);
    RunKeepsBounds(root, before + init);
    var mid := Run(root, before + init);
    NextRaises(root, mid, call);
    var steps, judged := JudgedDuring(root, before, init), Judgement(root, mid.mining, call);
    SumsFollow(mid.mining, Next(root, mid, call).mining, judged, steps);
    AlarmsOnlyGrow(root, before, init);
  }

  /** The same for the negative sum and the mirrored deviations. */
  lemma {:induction false} RunLowers(root: Root, before: seq<Call>, more: seq<Call>)
    requires IsSquareRoot(root) && Run(root, before).mining.down == 0.0
    requires Run(root, before + more).mining.downs == Run(root, before).mining.downs
    ensures -Run(root, before + more).mining.down == Raising(Mirrored(JudgedDuring(root, before, more)))
  {
    if more == [] {
      assert before + more == before;
    } else {
      StepFollows(root, before, more);
      RunLowers(root, before, more[..|more| - 1]);
    }
  }

  /** Between alarms, the positive sum of a run is the largest excess over the reference values
      that any recent stretch of its deviations adds up to. */
  lemma RunSumIsLargestExcess(root: Root, before: seq<Call>, more: seq<Call>) returns (k: nat)
    requires IsSquareRoot(root) && Run(root, before).mining.up == 0.0
    requires Run(root, before + more).mining.ups == Run(root, before).mining.ups
    ensures var steps, up := JudgedDuring(root, before, more), Run(root, before + more).mining.up;
      k <= Length(steps) && up == Excess(steps, k) && forall i: nat | i <= Length(steps) :: Excess(steps, i) <= up
  {
    RunRaises(root, before, more);
    k := RaisingIsLargestExcess(JudgedDuring(root, before, more));
  }

  // ---------------------------------------------------------------- what one call amounts to

  /** The smoothed rate moves a tenth of the way to one over the gap, or starts there, and the
      deviation is what it then lacks. */
  ghost predicate RateMoved(ewma: real, ewma': real, deviation: real, gap: real) {
    && (ewma' + deviation) * gap == 1.0
    && if ewma < 0.00000001 then ewma' * gap == 1.0 else (10.0 * ewma' - 9.0 * ewma) * gap == 1.0
  }

  /** Either sum moves by the deviation and half a unit, on its own side of zero; one that passes five
      units counts an alarm and loses three tenths. */
  ghost predicate SumsMoved(m: Mining, a: Mining, d: real, unit: real) {
    var up, down := Max(0.0, m.up + d - 0.5 * unit), Min(0.0, m.down + d + 0.5 * unit);
    && a.up == (if up > 5.0 * unit then 0.7 * up else up) && a.ups == m.ups + (if up > 5.0 * unit then 1 else 0)
    && a.down == (if down < -5.0 * unit then 0.7 * down else down)
    && a.downs == m.downs + (if down < -5.0 * unit then 1 else 0)
  }

  /** One observed block, in numbers. The deviation joins the last hundred, and a unit is the smoothed
      rate enlarged by their volatility. */
  lemma OneBlockObserved(root: Root, m: Mining, height: nat, time: nat) returns (d: real)
    requires IsSquareRoot(root) && MiningOk(m) && m.lastTime != 0 && time > m.lastTime
    ensures var a := Observed(root, m, height, time);
      && a.lastTime == time && a.lastHeight == height
      && RateMoved(m.ewma, a.ewma, d, (time - m.lastTime) as real)
      && a.recent == (if |m.recent| < 100 then m.recent else m.recent[1..]) + [d]
      && a.volatility == Volatility(root, a.recent)
      && SumsMoved(m, a, d, Times(a.ewma, 1.0 + a.volatility))
  {
    var rate := Rate(time - m.lastTime);
    RateInRange(time - m.lastTime);
    SmoothedInRange(m.ewma, rate);
    var ewma := Smoothed(m.ewma, rate);
    d := rate - ewma;
    var recent := Pushed(m.recent, d);
    assert AllWithin(recent, 0.9);
    VolatilityBounded(root, recent, 0.9);
    var volatility := Volatility(root, recent);
    ScaleInRange(ewma, volatility);
    ObservedStepwise(root, m, height, time, rate, ewma, recent, volatility);
    var before := Mining(time, height, ewma, recent, volatility, m.up, m.down, m.ups, m.downs);
    SumsInRange(m, before, d, Scale(ewma, volatility));
    SummedMoves(m, before, d, Scale(ewma, volatility));
    PushedIs(m.recent, d);
    SmoothedIs(m.ewma, rate, (time - m.lastTime) as real);
    ScaleIs(ewma, volatility);
  }

  lemma ScaleIs(ewma: real, volatility: real)
    ensures Scale(ewma, volatility) == Times(ewma, 1.0 + volatility)
  { }

  lemma SummedMoves(m: Mining, next: Mining, d: real, unit: real)
    requires Raised(m.up, d, unit) < MaxScore && Lowered(m.down, d, unit) > -MaxScore
    requires next.ups == m.ups && next.downs == m.downs
    ensures SumsMoved(m, Summed(m, next, d, unit), d, unit)
  { }

  lemma PushedIs(recent: seq<real>, d: real)
    requires |recent| <= 100
    ensures Pushed(recent, d) == (if |recent| < 100 then recent else recent[1..]) + [d]
  { }

  lemma SmoothedIs(ewma: real, rate: real, gap: real)
    requires rate * gap == 1.0
    ensures RateMoved(ewma, Smoothed(ewma, rate), rate - Smoothed(ewma, rate), gap)
  { }

  /** A block that gives no gap only sets the time and the height. */
  lemma FirstBlockObserved(root: Root, m: Mining, height: nat, time: nat)
    requires m.lastTime == 0 || time <= m.lastTime
    ensures Observed(root, m, height, time) == m.(lastTime := time, lastHeight := height)
  { }

  /** One evaluation, below the cap: nine tenths of a score worth keeping, a fifth for every global
      anomaly, and both sums over the smoothed rate and the blocks mined. */
  lemma AnomaliesRaiseScore(root: Root, s: State)
    requires MiningOk(s.mining) && ScoresOk(s.scores) && s.counters.mined > 0
    requires Next(root, s, Compute).scores.score < 1000000.0
    ensures var m, c, after := s.mining, s.counters, Next(root, s, Compute).scores.score;
      var kept := if s.scores.score < 0.00000001 then 0.0 else s.scores.score;
      var added := after - 0.9 * kept - 0.2 * c.globals as real;
      if m.ewma > 0.00000001 then added * (m.ewma * c.mined as real) == m.up - m.down else added == 0.0
  {
    var m, c := s.mining, s.counters;
    if m.ewma > 0.00000001 {
      ProductPositive(m.ewma, c.mined as real);
      Quotient(m.up - m.down, m.ewma * c.mined as real);
      ShareIs(m, c.mined);
    }
    CusumShareNotNegative(m, c.mined);
  }

  lemma ShareIs(m: Mining, mined: nat)
    requires m.ewma > 0.00000001 && mined > 0 && m.up >= 0.0 >= m.down
    ensures m.ewma * mined as real != 0.0
    ensures CusumShare(m, mined) == (m.up - m.down) / (m.ewma * mined as real)
  {
    ProductPositive(m.ewma, mined as real);
  }

  /** The cap acts only on a sum that passes it, and nothing moves before the first block. */
  lemma ScoreIsCapped(root: Root, s: State)
    requires MiningOk(s.mining) && ScoresOk(s.scores)
    ensures Next(root, s, Compute).scores.score <= 1000000.0
    ensures s.counters.mined == 0 ==> Next(root, s, Compute) == s
    ensures s.counters.mined > 0 ==>
      Next(root, s, Compute).scores.confidence == Confidence(Next(root, s, Compute).scores.score, s.counters)
  {
    NewScoreInRange(s.scores.score, s.mining, s.counters);
  }

  /** The confidence in closed form: the score over one more than the score; above a tenth, times one
      factor for each kind of offence beyond its grace, and never above 1. */
  lemma ConfidenceInFull(score: real, c: Counters)
    requires score >= 0.0
    ensures var base := score / (1.0 + score);
      var stamps, waves := if c.stamps > 3 then c.stamps - 3 else 0, if c.waves > 3 then c.waves - 3 else 0;
      var factor := Times(Times(1.0 + 0.05 * stamps as real, 1.0 + 0.15 * waves as real), 1.0 + 0.2 * c.groups as real);
      Confidence(score, c) == if base <= 0.1 then base else Min(1.0, Times(base, factor))
  {
    var base := score / (1.0 + score);
    BaseInRange(score);
    var stamps, waves := if c.stamps > 3 then c.stamps - 3 else 0, if c.waves > 3 then c.waves - 3 else 0;
    var x, y, z := 1.0 + 0.05 * stamps as real, 1.0 + 0.15 * waves as real, 1.0 + 0.2 * c.groups as real;
    if base > 0.1 {
      PenalisedIs(base, c.stamps, 3, 0.05, x);
      PenalisedIs(Min(1.0, Times(base, x)), c.waves, 3, 0.15, y);
      TwoFactors(base, x, y);
      PenalisedIs(Min(1.0, Times(base, Times(x, y))), c.groups, 0, 0.2, z);
      FactorsAtLeastOne(x, y);
      TwoFactors(base, Times(x, y), z);
    }
  }

  lemma PenalisedIs(confidence: real, count: nat, grace: nat, weight: real, factor: real)
    requires 0.0 <= confidence <= 1.0
    requires factor == 1.0 + weight * (if count > grace then count - grace else 0) as real
    ensures Penalised(confidence, count, grace, weight) == Min(1.0, Times(confidence, factor))
  { }

  lemma FactorsAtLeastOne(x: real, y: real)
    requires x >= 1.0 && y >= 1.0
    ensures Times(x, y) >= 1.0
  {
    ProductNotNegative(x - 1.0, y - 1.0);
    assert x * y == (x - 1.0) * (y - 1.0) + x + y - 1.0;
  }

  /** Cutting off at 1 after each factor is cutting off once. */
  lemma TwoFactors(b: real, x: real, y: real)
    requires b >= 0.0 && x >= 1.0 && y >= 1.0
    ensures 0.0 <= Min(1.0, Times(b, x)) <= 1.0
    ensures Min(1.0, Times(Min(1.0, Times(b, x)), y)) == Min(1.0, Times(b, Times(x, y)))
  {
    ProductNotNegative(b, x);
    assert (b * x) * y == b * (x * y);
    if b * x >= 1.0 { ProductNotNegative(b * x - 1.0, y); }
  }

  function Globals(n: nat): seq<Call> {
    if n == 0 then [] else Globals(n - 1) + [Global]
  }

  lemma {:induction false} RunOfGlobals(root: Root, n: nat)
    ensures Run(root, [Mined] + Globals(n)) == Zero.(counters := Counters(1, 0, 0, 0, n))
  {
    if n == 0 {
      assert [Mined] + [] == [Mined] && [Mined][..0] == [];
    } else {
      RunOfGlobals(root, n - 1);
      RunSnoc(root, [Mined], Globals(n));
      assert Globals(n)[..|Globals(n)| - 1] == Globals(n - 1);
    }
  }

  /** A mined block, n global anomalies and an evaluation: the score is n over 5, and the confidence n
      over n + 5. */
  lemma GlobalsAlone(root: Root, n: nat)
    requires n < 5000000
    ensures var s := Run(root, [Mined] + Globals(n) + [Compute]).scores;
      s.score == n as real / 5.0 && s.confidence == n as real / (n + 5) as real
  {
    var before := [Mined] + Globals(n);
    RunOfGlobals(root, n);
    RunOneMore(root, before, Compute);
    EvaluatedGlobals(n);
  }

  lemma RunOneMore(root: Root, before: seq<Call>, call: Call)
    ensures Run(root, before + [call]) == Next(root, Run(root, before), call)
  {
    assert (before + [call])[..|before|] == before;
  }

  lemma EvaluatedGlobals(n: nat)
    requires n < 5000000
    ensures Evaluated(Zero.scores, Zero.mining, Counters(1, 0, 0, 0, n))
         == Scores(n as real / 5.0, n as real / (n + 5) as real)
  {
    FifthOver(n as real);
  }

  lemma FifthOver(x: real)
    requires x >= 0.0
    ensures (x / 5.0) / (1.0 + x / 5.0) == x / (x + 5.0)
  {
    var y := x / 5.0;
    assert x == 5.0 * y && x + 5.0 == 5.0 * (1.0 + y);
    SameQuotient(y, 1.0 + y);
  }

  lemma SameQuotient(a: real, b: real)
    requires b > 0.0
    ensures (5.0 * a) / (5.0 * b) == a / b
  {
    Quotient(a, b);
    Quotient(5.0 * a, 5.0 * b);
  }

  // ---------------------------------------------------------------- the object

  class Operator {
    const root: Root
    var lastTime: nat
    var lastHeight: nat
    var ewma: real
    var recent: seq<real>
    var volatility: real
    var up: real
    var down: real
    var ups: nat
    var downs: nat
    var counters: Counters
    var score: real
    var confidence: real

    constructor (root: Root)
      ensures this.root == root && Abstract() == Zero
    {
      this.root := root;
      lastTime, lastHeight, ewma, recent, volatility := 0, 0, 0.0, [], 0.0;
      up, down, ups, downs := 0.0, 0.0, 0, 0;
      counters := Counters(0, 0, 0, 0, 0);
      score, confidence := 0.0, 0.0;
    }

    ghost function Abstract(): State
      reads this
    {
      State(Mining(lastTime, lastHeight, ewma, recent, volatility, up, down, ups, downs), counters,
        Scores(score, confidence))
    }

    /** The running mean and spread over the recent deviations. */
    method CalculateVolatility() returns (v: real)
      ensures v == Volatility(root, recent)
    {
      if recent == [] { return 0.0; }
      var mean, m2, count := 0.0, 0.0, 0;
      while count < |recent|
        invariant 0 <= count <= |recent|
        invariant IsMean(recent[..count], mean)
        invariant m2 == Spread(recent[..count], mean)
      {
        ghost var seen, before := recent[..count], mean;
        var dev := recent[count];
        count := count + 1;
        var delta := dev - mean;
        mean := mean + delta / count as real;
        var delta2 := dev - mean;
        m2 := m2 + Times(delta, delta2);
        WelfordStep(seen, count, dev, before, delta, mean);
        assert recent[..count] == seen + [dev];
      }
      assert recent[..count] == recent;
      MeanIs(recent, mean);
      var variance := m2 / count as real;
      SpreadNotNegative(recent, mean);
      DivNotNegative(m2, count as real);
      return root(Max(0.0, variance));
    }

    method UpdateMiningStatistics(height: nat, time: nat)
      modifies this`lastTime, this`lastHeight, this`ewma, this`recent, this`volatility, this`up, this`down, this`ups,
        this`downs
      ensures Abstract().mining == Observed(root, old(Abstract().mining), height, time)
    {
      if lastTime == 0 || time <= lastTime {
        lastTime, lastHeight := time, height;
        return;
      }
      ghost var m := Abstract().mining;
      var rate := Rate(time - lastTime);
      UpdateRate(rate);
      var deviation := rate - ewma;
      PushDeviation(deviation);
      volatility := CalculateVolatility();
      lastTime, lastHeight := time, height;
      UpdateSums(m, deviation, Scale(ewma, volatility));
      ObservedStepwise(root, m, height, time, rate, ewma, recent, volatility);
    }

    /** The smoothed rate starts at the first rate and then moves a tenth of the way. */
    method UpdateRate(rate: real)
      modifies this`ewma
      ensures ewma == Smoothed(old(ewma), rate)
    {
      if ewma < Epsilon { ewma := rate; } else { ewma := ewma + 0.1 * (rate - ewma); }
    }

    /** The queue of deviations, the oldest dropped beyond a hundred. */
    method PushDeviation(deviation: real)
      modifies this`recent
      ensures recent == Pushed(old(recent), deviation)
    {
      recent := recent + [deviation];
      if |recent| > Kept { recent := recent[1..]; }
    }

    /** The cumulative sums, with the reference value half the scale and the threshold five
        times it. */
    method UpdateSums(ghost m: Mining, deviation: real, scale: real)
      requires (up, down, ups, downs) == (m.up, m.down, m.ups, m.downs)
      modifies this`up, this`down, this`ups, this`downs
      ensures Abstract().mining == Summed(m, old(Abstract().mining), deviation, scale)
    {
      var k, threshold := 0.5 * scale, 5.0 * scale;
      up := Min(MaxScore, Max(0.0, up + deviation - k));
      down := Max(-MaxScore, Min(0.0, down + deviation + k));
      if up > threshold {
        ups := ups + 1;
        up := 0.7 * up;
      }
      if down < -threshold {
        downs := downs + 1;
        down := 0.7 * down;
      }
    }

    method ComputeConfidenceLevel() returns (r: real)
      modifies this`score, this`confidence
      ensures Abstract() == Next(root, old(Abstract()), Compute)
      ensures r == if counters.mined == 0 then 0.0 else confidence
    {
      if counters.mined == 0 { return 0.0; }
      ghost var m := Abstract().mining;
      NewScoreInRange(score, m, counters);
      if score < Epsilon { score := 0.0; }
      score := Max(0.0, score * 0.9);
      var share := 0.0;
      if ewma > Epsilon { share := Share(ewma, up, down, counters.mined); }
      score := Min(MaxScore, score + share + counters.globals as real * 0.2);
      var base := Base(score);
      if base > 0.1 {
        base := Penalised(base, counters.stamps, 3, 0.05);
        base := Penalised(base, counters.waves, 3, 0.15);
        base := Penalised(base, counters.groups, 0, 0.2);
      }
      confidence := base;
      return confidence;
    }
  }

  lemma MeanIs(xs: seq<real>, mean: real)
    requires xs != [] && IsMean(xs, mean)
    ensures mean == Mean(xs)
  {
    MeanUnique(mean, |xs| as real, Sum(xs));
  }

  lemma MeanUnique(m: real, n: real, s: real)
    requires n > 0.0 && Times(m, n) == s
    ensures m == s / n
  { }
}
