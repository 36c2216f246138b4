/** The scheduling arithmetic of services/fsrs_core.py over the reals. `exp` and `**`
    are parameters; `Laws` is all that is assumed of them. */
module Fsrs {
  import opened Wrappers

  /******* The elementary functions *******/

  datatype Elementary = Elementary(exp: real -> real, pow: (real, real) -> real)

  /** One instance of one law. */
  datatype Law =
    | ExpZero
    | ExpPositive(x: real)
    | ExpIncreasing(x: real, y: real)
    | PowOne(x: real)
    | OnePow(a: real)
    | PowPositive(x: real, a: real)
    | PowPow(x: real, a: real, b: real)
    | PowDecreasing(x: real, y: real, a: real)

  predicate Holds(m: Elementary, law: Law) {
    match law
    case ExpZero => m.exp(0.0) == 1.0
    case ExpPositive(x) => m.exp(x) > 0.0
    case ExpIncreasing(x, y) => x < y ==> m.exp(x) < m.exp(y)
    case PowOne(x) => x > 0.0 ==> m.pow(x, 1.0) == x
    case OnePow(a) => m.pow(1.0, a) == 1.0
    case PowPositive(x, a) => x > 0.0 ==> m.pow(x, a) > 0.0
    case PowPow(x, a, b) => x > 0.0 ==> m.pow(m.pow(x, a), b) == m.pow(x, Times(a, b))
    case PowDecreasing(x, y, a) => 0.0 < x < y && a < 0.0 ==> m.pow(y, a) < m.pow(x, a)
  }

  /** The trusted base: every instance of every law. */
  ghost predicate Laws(m: Elementary) {
    forall law: Law :: Holds(m, law)
  }

  /******* Configuration *******/

  /** `DSR_W` by index, and the other fields the functions read or carry. */
  datatype Config = Config(
    w: seq<real>, desiredRetention: real, maximumInterval: int, enableShortTerm: bool)

  const DSR_W := [
    0.212, 1.2931, 2.3065, 8.2956, 6.4133, 0.8334, 3.0194, 0.001, 1.8722, 0.1666, 0.796,
    1.4835, 0.0614, 0.2629, 1.6483, 0.6014, 1.8729, 0.5425, 0.0912, 0.0658, 0.1542]

  const DESIRED_RETENTION_DEFAULT := 0.9

  const DEFAULT := Config(DSR_W, DESIRED_RETENTION_DEFAULT, 365, true)

  /** What the proofs need of a weight vector; the default one has it. */
  predicate Sound(c: Config) {
    && |c.w| == 21 && c.maximumInterval > 0
    && (forall i :: 0 <= i < 21 ==> c.w[i] > 0.0)
    && c.w[7] < 1.0 && c.w[6] <= 4.5 && c.w[15] <= 1.0 <= c.w[16] && c.w[19] < 1.0
  }

  lemma DefaultIsSound()
    ensures Sound(DEFAULT)
  {
  }

  type Grade = g: int | 1 <= g <= 4 witness 1

  function Max(a: real, b: real): real { if a < b then b else a }

  function Min(a: real, b: real): real { if b < a then b else a }

  function Clamp(d: real): real { Max(1.0, Min(10.0, d)) }

  /******* Scalar formulas *******/

  function Times(x: real, y: real): real { x * y }

  /** The base of the forgetting curve. */
  function Base(f: real, t: real, s: real): real
    requires s != 0.0
  {
    1.0 + f * t / s
  }

  function Stretch(s: real, inv: real, f: real): real
    requires f != 0.0
  {
    s * inv / f
  }

  /** The linear damping of a difficulty step `delta`. */
  function Damped(d: real, delta: real): real { d + delta * (10.0 - d) / 9.0 }

  function Blend(w: real, x: real, y: real): real { w * x + (1.0 - w) * y }

  /** The growth of a successful recall before the grade's own factor. */
  function Growth(e: real, d: real, p: real, q: real): real { e * (11.0 - d) * p * (q - 1.0) }

  function Grown(s: real, growth: real, k: real): real { s * Max(1.0, 1.0 + growth * k) }

  /******* The functions *******/

  /** `_compute_factor`. */
  function Factor(m: Elementary, w20: real): real
    requires w20 != 0.0
  {
    m.pow(0.9, -1.0 / w20) - 1.0
  }

  function Retrievability(m: Elementary, elapsed: real, stability: real, c: Config): real
    requires Sound(c)
  {
    m.pow(Base(Factor(m, c.w[20]), Max(0.0, elapsed), Max(0.1, stability)), -c.w[20])
  }

  /** The interval before the cap. */
  function Uncapped(m: Elementary, stability: real, r: real, c: Config): real
    requires Sound(c) && Factor(m, c.w[20]) != 0.0
  {
    Stretch(Max(0.1, stability), m.pow(r, -1.0 / c.w[20]) - 1.0, Factor(m, c.w[20]))
  }

  /** `compute_interval`; None stands for an omitted retention. */
  function Interval(m: Elementary, stability: real, retention: Option<real>, c: Config): real
    requires Sound(c) && Factor(m, c.w[20]) != 0.0
  {
    var r := if retention.None? then DESIRED_RETENTION_DEFAULT else retention.value;
    Min(Uncapped(m, stability, r, c), c.maximumInterval as real)
  }

  function InitialStability(grade: Grade, c: Config): real
    requires Sound(c)
  {
    c.w[grade - 1]
  }

  function FirstExposureStability(grade: Grade): real {
    if grade == 1 then 0.212 else if grade == 2 then 1.5 else if grade == 3 then 3.0 else 12.0
  }

  function InitialDifficulty(m: Elementary, grade: Grade, c: Config): real
    requires Sound(c)
  {
    Clamp(c.w[4] - m.exp(Times(c.w[5], grade as real - 1.0)) + 1.0)
  }

  function UpdateDifficulty(m: Elementary, d: real, grade: Grade, c: Config): real
    requires Sound(c)
  {
    var delta := -Times(c.w[6], grade as real - 3.0);
    Clamp(Blend(c.w[7], InitialDifficulty(m, 4, c), Damped(d, delta)))
  }

  function FailStability(m: Elementary, d: real, s: real, r: real, c: Config): real
    requires Sound(c)
  {
    c.w[11] * m.pow(d, -c.w[12]) * (m.pow(s + 1.0, c.w[13]) - 1.0) * m.exp(Times(c.w[14], 1.0 - r))
  }

  function RecallGrowth(m: Elementary, d: real, s: real, r: real, c: Config): real
    requires Sound(c)
  {
    Growth(m.exp(c.w[8]), d, m.pow(s, -c.w[9]), m.exp(Times(c.w[10], 1.0 - r)))
  }

  /** `hard_penalty * easy_bonus`, of which one is always 1. */
  function GradeFactor(grade: Grade, c: Config): real
    requires Sound(c)
  {
    if grade == 2 then c.w[15] else if grade == 4 then c.w[16] else 1.0
  }

  /** The divisor of the short-term bound on a failed recall. */
  function FailDivisor(m: Elementary, c: Config): real
    requires Sound(c)
  {
    m.exp(Times(c.w[17], c.w[18]))
  }

  function UpdateStability(m: Elementary, d: real, stability: real, r: real, grade: Grade, c: Config): real
    requires Sound(c) && FailDivisor(m, c) != 0.0
  {
    var s := Max(0.1, stability);
    if grade == 1 then
      var fail := FailStability(m, d, s, r, c);
      if c.enableShortTerm then Max(0.01, Min(fail, s / FailDivisor(m, c)))
      else Max(0.1, Min(fail, s))
    else Grown(s, RecallGrowth(m, d, s, r, c), GradeFactor(grade, c))
  }

  /** The short-term multiplier. */
  function ShortTermFactor(m: Elementary, s: real, grade: Grade, c: Config): real
    requires Sound(c)
  {
    var inc := Times(m.exp(Times(c.w[17], grade as real - 3.0 + c.w[18])), m.pow(s, -c.w[19]));
    if grade >= 3 then Max(1.0, inc) else inc
  }

  function ShortTermStability(m: Elementary, s: real, grade: Grade, c: Config): real
    requires Sound(c)
  {
    Times(s, ShortTermFactor(m, s, grade, c))
  }

  /******* Facts about the scalar formulas *******/

  lemma TimesMono(k: real, x: real, y: real)
    ensures k > 0.0 && x < y ==> Times(k, x) < Times(k, y)
    ensures k >= 0.0 && x <= y ==> Times(k, x) <= Times(k, y)
    ensures k >= 0.0 && x >= 0.0 ==> Times(k, x) >= 0.0
    ensures k > 0.0 && x > 0.0 ==> Times(k, x) > 0.0
    ensures Times(k, 1.0) == k && Times(k, 0.0) == 0.0
    ensures Times(k, x) == Times(x, k)
  {
    var rise := y - x;
    assert k * y == k * x + k * rise;
    assert k > 0.0 && rise > 0.0 ==> k * rise > 0.0;
  }

  lemma NegativeInverse(w: real)
    requires w > 0.0
    ensures -1.0 / w < 0.0 && (-1.0 / w) * (-w) == 1.0
  {
  }

  lemma DivMono(a: real, b: real, s: real)
    requires s > 0.0
    ensures a < b ==> a / s < b / s
    ensures a <= b ==> a / s <= b / s
    ensures a >= 0.0 ==> a / s >= 0.0
    ensures a > 0.0 ==> a / s > 0.0
    ensures a / s * s == a
  {
  }

  lemma DivAntitone(a: real, s: real, t: real)
    requires 0.0 < s < t && a > 0.0
    ensures 0.0 < a / t < a / s
  {
    DivMono(a, a, s);
    DivMono(a, a, t);
    var (p, q) := (a / s, a / t);
    if q >= p {
      TimesMono(s, p, q);
      TimesMono(q, s, t);
    }
  }

  lemma BaseMono(f: real, t: real, u: real, s: real)
    requires f > 0.0 && 0.0 <= t && s > 0.0
    ensures Base(f, t, s) >= 1.0
    ensures t < u ==> Base(f, t, s) < Base(f, u, s)
    ensures t == 0.0 ==> Base(f, t, s) == 1.0
    ensures t > 0.0 ==> Base(f, t, s) > 1.0
  {
    TimesMono(f, t, u);
    DivMono(Times(f, t), Times(f, u), s);
  }

  lemma BaseAntitone(f: real, t: real, s: real, s': real)
    requires f > 0.0 && t > 0.0 && 0.0 < s < s'
    ensures 1.0 < Base(f, t, s') < Base(f, t, s)
  {
    TimesMono(f, 0.0, t);
    DivAntitone(Times(f, t), s, s');
  }

  lemma BaseAt(f: real, t: real, s: real, inv: real)
    requires s > 0.0 && f * t == s * inv
    ensures Base(f, t, s) == 1.0 + inv
  {
    var q := f * t / s;
    assert q * s == s * inv;
    TimesMono(s, q, inv);
    TimesMono(s, inv, q);
  }

  lemma StretchFacts(s: real, s': real, inv: real, f: real)
    requires f > 0.0 && inv >= 0.0 && 0.0 < s <= s'
    ensures 0.0 <= Stretch(s, inv, f) <= Stretch(s', inv, f)
    ensures Base(f, Stretch(s, inv, f), s) == 1.0 + inv
    ensures inv == f ==> Stretch(s, inv, f) == s
  {
    TimesMono(inv, s, s');
    TimesMono(s, inv, inv);
    DivMono(Times(s, inv), Times(s', inv), f);
    var t := Stretch(s, inv, f);
    assert f * t == s * inv;
    BaseAt(f, t, s, inv);
  }

  lemma DampedMono(d: real, e: real, x: real, y: real)
    requires d <= e <= 10.0
    ensures x <= y ==> Damped(d, x) <= Damped(d, y)
    ensures x <= 9.0 ==> Damped(d, x) <= Damped(e, x)
  {
    TimesMono(10.0 - d, x, y);
    if x <= 9.0 {
      TimesMono(9.0 - x, d, e);
      assert 9.0 * Damped(d, x) == Times(9.0 - x, d) + 10.0 * x;
      assert 9.0 * Damped(e, x) == Times(9.0 - x, e) + 10.0 * x;
    }
  }

  lemma BlendMono(w: real, x: real, y: real, z: real)
    requires w < 1.0 && y <= z
    ensures Blend(w, x, y) <= Blend(w, x, z)
  {
    TimesMono(1.0 - w, y, z);
  }

  /** A product of positive factors rises when none of them falls and one rises. */
  lemma ProductRises(a: real, b: real, b': real, p: real, p': real, q: real, q': real)
    requires a > 0.0 && 0.0 < b <= b' && 0.0 < p <= p' && 0.0 < q <= q'
    ensures 0.0 < a * b * p * q <= a * b' * p' * q'
    ensures b < b' || p < p' || q < q' ==> a * b * p * q < a * b' * p' * q'
  {
    TimesMono(a, b, b');
    TimesMono(a, 0.0, b);
    FactorsRise(Times(a, b), Times(a, b'), p, p');
    FactorsRise(Times(Times(a, b), p), Times(Times(a, b'), p'), q, q');
  }

  lemma FactorsRise(x: real, x': real, y: real, y': real)
    requires 0.0 < x <= x' && 0.0 < y <= y'
    ensures 0.0 < Times(x, y) <= Times(x', y')
    ensures x < x' || y < y' ==> Times(x, y) < Times(x', y')
  {
    TimesMono(x, 0.0, y);
    TimesMono(x, y, y');
    TimesMono(y', x, x');
    assert Times(y', x) == Times(x, y') && Times(y', x') == Times(x', y');
  }

  lemma GrowthIs(e: real, d: real, p: real, q: real)
    ensures Growth(e, d, p, q) == Times(Times(Times(e, 11.0 - d), p), q - 1.0)
  {
  }

  lemma GrowthSign(e: real, d: real, p: real, q: real)
    requires e > 0.0 && d <= 10.0 && p > 0.0 && q >= 1.0
    ensures Growth(e, d, p, q) >= 0.0 && (Growth(e, d, p, q) > 0.0 <==> q > 1.0)
  {
    TimesMono(e, 0.0, 11.0 - d);
    TimesMono(Times(e, 11.0 - d), 0.0, p);
    var scale := Times(Times(e, 11.0 - d), p);
    TimesMono(scale, 0.0, q - 1.0);
    GrowthIs(e, d, p, q);
    if q == 1.0 {
      assert q - 1.0 == 0.0;
    }
  }

  /** Growth falls with difficulty and rises with the other factors. */
  lemma GrowthRises(e: real, d: real, d': real, p: real, p': real, q: real, q': real)
    requires e > 0.0 && d' <= d <= 10.0 && 0.0 < p <= p' && 1.0 <= q <= q' && q' > 1.0
    ensures 0.0 <= Growth(e, d, p, q) <= Growth(e, d', p', q')
    ensures d' < d || p < p' || q < q' ==> Growth(e, d, p, q) < Growth(e, d', p', q')
  {
    GrowthSign(e, d, p, q);
    GrowthSign(e, d', p', q');
    if q > 1.0 {
      ProductRises(e, 11.0 - d, 11.0 - d', p, p', q - 1.0, q' - 1.0);
    }
  }

  lemma GrownMono(s: real, g: real, k: real, l: real)
    requires s > 0.0 && g >= 0.0 && 0.0 < k <= l
    ensures s <= Grown(s, g, k) <= Grown(s, g, l)
  {
    TimesMono(g, k, l);
    TimesMono(s, 1.0, Max(1.0, 1.0 + g * k));
    TimesMono(s, Max(1.0, 1.0 + g * k), Max(1.0, 1.0 + g * l));
  }

  /** A positive power of positive bases rises. */
  lemma PowIncreasing(m: Elementary, x: real, y: real, a: real)
    requires Laws(m) && 0.0 < x < y && a > 0.0
    ensures 0.0 < m.pow(x, a) < m.pow(y, a)
  {
    assert Times(-a, -1.0) == a;
    assert Holds(m, PowPow(x, -a, -1.0)) && Holds(m, PowPow(y, -a, -1.0)) && Holds(m, PowPositive(x, a));
    assert Holds(m, PowDecreasing(x, y, -a)) && Holds(m, PowPositive(y, -a));
    assert Holds(m, PowDecreasing(m.pow(y, -a), m.pow(x, -a), -1.0));
  }

  /******* Retrievability and interval *******/

  lemma FactorPositive(m: Elementary, c: Config)
    requires Laws(m) && Sound(c)
    ensures Factor(m, c.w[20]) > 0.0
  {
    NegativeInverse(c.w[20]);
    assert Holds(m, PowDecreasing(0.9, 1.0, -1.0 / c.w[20])) && Holds(m, OnePow(-1.0 / c.w[20]));
  }

  /** Retrievability lies in (0, 1], is 1 at time zero, and strictly falls with time. */
  lemma RetrievabilityFalls(m: Elementary, t: real, u: real, stability: real, c: Config)
    requires Laws(m) && Sound(c) && 0.0 <= t < u
    ensures 0.0 < Retrievability(m, u, stability, c) < Retrievability(m, t, stability, c) <= 1.0
    ensures t == 0.0 ==> Retrievability(m, t, stability, c) == 1.0
  {
    var (f, s) := (Factor(m, c.w[20]), Max(0.1, stability));
    FactorPositive(m, c);
    BaseMono(f, t, u, s);
    BaseMono(f, u, u, s);
    assert Holds(m, PowDecreasing(Base(f, t, s), Base(f, u, s), -c.w[20]));
    assert Holds(m, PowDecreasing(1.0, Base(f, t, s), -c.w[20]));
    assert Holds(m, OnePow(-c.w[20])) && Holds(m, PowPositive(Base(f, u, s), -c.w[20]));
  }

  /** After any positive time it strictly rises with stability above the floor. */
  lemma RetrievabilityRises(m: Elementary, t: real, s: real, s': real, c: Config)
    requires Laws(m) && Sound(c) && t > 0.0 && 0.1 <= s < s'
    ensures Retrievability(m, t, s, c) < Retrievability(m, t, s', c)
  {
    var f := Factor(m, c.w[20]);
    FactorPositive(m, c);
    BaseAntitone(f, t, s, s');
    assert Holds(m, PowDecreasing(Base(f, t, s'), Base(f, t, s), -c.w[20]));
  }

  lemma InverseAtLeastOne(m: Elementary, r: real, c: Config)
    requires Laws(m) && Sound(c) && 0.0 < r <= 1.0
    ensures m.pow(r, -1.0 / c.w[20]) >= 1.0
  {
    NegativeInverse(c.w[20]);
    assert Holds(m, PowDecreasing(r, 1.0, -1.0 / c.w[20])) && Holds(m, OnePow(-1.0 / c.w[20]));
  }

  lemma PowBack(m: Elementary, r: real, a: real, b: real)
    requires Laws(m) && r > 0.0 && Times(a, b) == 1.0
    ensures m.pow(m.pow(r, a), b) == r
  {
    assert Holds(m, PowPow(r, a, b)) && Holds(m, PowOne(r));
  }

  /** At the uncapped interval the card is remembered with exactly the wanted chance. */
  lemma UncappedHitsTarget(m: Elementary, stability: real, r: real, c: Config)
    requires Laws(m) && Sound(c) && 0.0 < r <= 1.0
    ensures Factor(m, c.w[20]) > 0.0 && Uncapped(m, stability, r, c) >= 0.0
    ensures Retrievability(m, Uncapped(m, stability, r, c), stability, c) == r
  {
    FactorPositive(m, c);
    InverseAtLeastOne(m, r, c);
    var (s, w) := (Max(0.1, stability), c.w[20]);
    StretchFacts(s, s, m.pow(r, -1.0 / w) - 1.0, Factor(m, w));
    NegativeInverse(w);
    PowBack(m, r, -1.0 / w, -w);
    assert Base(Factor(m, w), Uncapped(m, stability, r, c), s) == m.pow(r, -1.0 / w);
  }

  /** Interval and retrievability are inverse up to the cap: exactly when the interval
      is under the cap, and never below the wanted chance when it is capped. */
  lemma IntervalHitsTarget(m: Elementary, stability: real, r: real, c: Config)
    requires Laws(m) && Sound(c) && 0.0 < r <= 1.0
    ensures Factor(m, c.w[20]) > 0.0
    ensures var i := Interval(m, stability, Some(r), c);
      && Retrievability(m, i, stability, c) >= r
      && (Retrievability(m, i, stability, c) == r <==> Uncapped(m, stability, r, c) <= c.maximumInterval as real)
  {
    UncappedHitsTarget(m, stability, r, c);
    var (i, full) := (Interval(m, stability, Some(r), c), Uncapped(m, stability, r, c));
    if i < full {
      RetrievabilityFalls(m, i, full, stability, c);
    }
  }

  /** At the default retention the interval is the stability, floored and capped. */
  lemma DefaultIntervalIsStability(m: Elementary, stability: real, c: Config)
    requires Laws(m) && Sound(c)
    ensures Factor(m, c.w[20]) > 0.0
    ensures Interval(m, stability, None, c) == Min(Max(0.1, stability), c.maximumInterval as real)
  {
    FactorPositive(m, c);
    StretchFacts(Max(0.1, stability), Max(0.1, stability), Factor(m, c.w[20]), Factor(m, c.w[20]));
  }

  /** Stability is the time after which the chance of recall has fallen to nine tenths. */
  lemma NinetyAtStability(m: Elementary, s: real, c: Config)
    requires Laws(m) && Sound(c) && s >= 0.1
    ensures Retrievability(m, s, s, c) == 0.9
  {
    FactorPositive(m, c);
    StretchFacts(s, s, Factor(m, c.w[20]), Factor(m, c.w[20]));
    UncappedHitsTarget(m, s, 0.9, c);
  }

  /** The retention stored in a configuration has no effect on intervals. */
  lemma ConfiguredRetentionIsIgnored(m: Elementary, stability: real, retention: Option<real>, c: Config, other: real)
    requires Laws(m) && Sound(c)
    ensures Factor(m, c.w[20]) > 0.0
    ensures Interval(m, stability, retention, c.(desiredRetention := other)) == Interval(m, stability, retention, c)
  {
    FactorPositive(m, c);
  }

  /** Longer stability never shortens an interval. */
  lemma IntervalMono(m: Elementary, s: real, s': real, retention: Option<real>, c: Config)
    requires Laws(m) && Sound(c) && s <= s' && (retention.Some? ==> 0.0 < retention.value <= 1.0)
    ensures Factor(m, c.w[20]) > 0.0
    ensures Interval(m, s, retention, c) <= Interval(m, s', retention, c)
  {
    FactorPositive(m, c);
    var r := if retention.None? then DESIRED_RETENTION_DEFAULT else retention.value;
    InverseAtLeastOne(m, r, c);
    StretchFacts(Max(0.1, s), Max(0.1, s'), m.pow(r, -1.0 / c.w[20]) - 1.0, Factor(m, c.w[20]));
  }

  /******* Difficulty *******/

  /** A better grade never raises difficulty. */
  lemma DifficultyAntitoneInGrade(m: Elementary, d: real, g: Grade, h: Grade, c: Config)
    requires Laws(m) && Sound(c) && 1.0 <= d <= 10.0 && g <= h
    ensures UpdateDifficulty(m, d, h, c) <= UpdateDifficulty(m, d, g, c)
  {
    var (x, y) := (-Times(c.w[6], g as real - 3.0), -Times(c.w[6], h as real - 3.0));
    TimesMono(c.w[6], g as real - 3.0, h as real - 3.0);
    DampedMono(d, d, y, x);
    BlendMono(c.w[7], InitialDifficulty(m, 4, c), Damped(d, y), Damped(d, x));
  }

  /** A harder card never becomes the easier one, whatever the common grade. */
  lemma DifficultyMonotone(m: Elementary, d: real, e: real, g: Grade, c: Config)
    requires Laws(m) && Sound(c) && 1.0 <= d <= e <= 10.0
    ensures UpdateDifficulty(m, d, g, c) <= UpdateDifficulty(m, e, g, c)
  {
    var delta := -Times(c.w[6], g as real - 3.0);
    TimesMono(c.w[6], -2.0, g as real - 3.0);
    assert Times(c.w[6], -2.0) == -2.0 * c.w[6];
    DampedMono(d, e, delta, delta);
    BlendMono(c.w[7], InitialDifficulty(m, 4, c), Damped(d, delta), Damped(e, delta));
  }

  /** It lowers it strictly exactly if the card is not at 10 and the worse grade does not
      already leave it at 1. */
  lemma DifficultyStrictExactlyWhen(m: Elementary, d: real, g: Grade, h: Grade, c: Config)
    requires Laws(m) && Sound(c) && 1.0 <= d <= 10.0 && g < h
    ensures UpdateDifficulty(m, d, h, c) < UpdateDifficulty(m, d, g, c)
      <==> d < 10.0 && UpdateDifficulty(m, d, g, c) > 1.0
  {
    var (x, y) := (-Times(c.w[6], g as real - 3.0), -Times(c.w[6], h as real - 3.0));
    var easiest := InitialDifficulty(m, 4, c);
    TimesMono(c.w[6], g as real - 3.0, h as real - 3.0);
    TimesMono(c.w[6], -1.0, h as real - 3.0);
    assert Times(c.w[6], -1.0) == -c.w[6];
    if d < 10.0 {
      DampedStrict(d, y, x);
      BlendStrict(c.w[7], easiest, Damped(d, y), Damped(d, x));
    } else {
      DampedAtTen(x);
      DampedAtTen(y);
    }
  }

  lemma DampedAtTen(x: real)
    ensures Damped(10.0, x) == 10.0
  {
  }

  lemma BlendStrict(w: real, x: real, y: real, z: real)
    requires 0.0 < w < 1.0 && x <= 10.0 && y < z
    ensures Blend(w, x, y) < Blend(w, x, z) && (y < 10.0 ==> Blend(w, x, y) < 10.0)
  {
    TimesMono(1.0 - w, y, z);
    TimesMono(1.0 - w, y, 10.0);
    TimesMono(w, x, 10.0);
    assert Times(w, 10.0) + Times(1.0 - w, 10.0) == 10.0;
    assert Blend(w, x, y) == Times(w, x) + Times(1.0 - w, y);
  }

  lemma DampedStrict(d: real, x: real, y: real)
    requires d < 10.0 && x < y
    ensures Damped(d, x) < Damped(d, y) && (x <= 4.5 ==> Damped(d, x) < 10.0)
  {
    TimesMono(10.0 - d, x, y);
    TimesMono(10.0 - d, x, 4.5);
  }

  /** Between the bounds each grade step moves difficulty by the same amount, w6 damped by
      the way left to 10 and by the reversion. */
  lemma DifficultySteps(m: Elementary, d: real, g: Grade, h: Grade, c: Config)
    requires Laws(m) && Sound(c) && 1.0 <= d <= 10.0 && g < h
    requires UpdateDifficulty(m, d, g, c) < 10.0 && UpdateDifficulty(m, d, h, c) > 1.0
    ensures UpdateDifficulty(m, d, g, c) - UpdateDifficulty(m, d, h, c)
         == Times(1.0 - c.w[7], Damped(d, Times(c.w[6], h as real - g as real)) - d)
  {
    DifficultyAntitoneInGrade(m, d, g, h, c);
    var easiest := InitialDifficulty(m, 4, c);
    var (x, y) := (-Times(c.w[6], g as real - 3.0), -Times(c.w[6], h as real - 3.0));
    ClampInside(Blend(c.w[7], easiest, Damped(d, x)));
    ClampInside(Blend(c.w[7], easiest, Damped(d, y)));
    StepIs(c.w[7], easiest, c.w[6], d, g as real - 3.0, h as real - 3.0);
    assert (h as real - 3.0) - (g as real - 3.0) == h as real - g as real;
  }

  lemma ClampInside(u: real)
    ensures 1.0 < Clamp(u) < 10.0 ==> Clamp(u) == u
  {
  }

  lemma StepIs(w: real, x: real, k: real, d: real, g: real, h: real)
    ensures Blend(w, x, Damped(d, -Times(k, g))) - Blend(w, x, Damped(d, -Times(k, h)))
         == Times(1.0 - w, Damped(d, Times(k, h - g)) - d)
  {
    assert Damped(d, -Times(k, g)) - Damped(d, -Times(k, h)) == Damped(d, Times(k, h - g)) - d;
  }

  /** Good moves difficulty the part w7 of the way to where Easy would have started it. */
  lemma GoodRevertsToEasy(m: Elementary, d: real, c: Config)
    requires Laws(m) && Sound(c) && 1.0 <= d <= 10.0
    ensures UpdateDifficulty(m, d, 3, c) - d == c.w[7] * (InitialDifficulty(m, 4, c) - d)
  {
    var easiest := InitialDifficulty(m, 4, c);
    TimesMono(c.w[6], 0.0, 0.0);
    TimesMono(c.w[7], 1.0, easiest);
    TimesMono(c.w[7], easiest, 10.0);
    TimesMono(1.0 - c.w[7], 1.0, d);
    TimesMono(1.0 - c.w[7], d, 10.0);
    assert Damped(d, -Times(c.w[6], 0.0)) == d;
    assert Blend(c.w[7], easiest, d) == Times(c.w[7], easiest) + Times(1.0 - c.w[7], d);
    assert 1.0 <= Blend(c.w[7], easiest, d) <= 10.0;
  }

  /** A worse first grade never starts a card easier. */
  lemma InitialDifficultyAntitone(m: Elementary, g: Grade, h: Grade, c: Config)
    requires Laws(m) && Sound(c) && g <= h
    ensures InitialDifficulty(m, h, c) <= InitialDifficulty(m, g, c)
  {
    var (x, y) := (Times(c.w[5], g as real - 1.0), Times(c.w[5], h as real - 1.0));
    TimesMono(c.w[5], g as real - 1.0, h as real - 1.0);
    assert Holds(m, ExpIncreasing(x, y));
  }

  /** It starts it strictly harder exactly if no bound decides, and Again starts it at w4. */
  lemma InitialDifficultyStrictExactlyWhen(m: Elementary, g: Grade, h: Grade, c: Config)
    requires Laws(m) && Sound(c) && g < h
    ensures InitialDifficulty(m, h, c) < InitialDifficulty(m, g, c)
      <==> InitialDifficulty(m, g, c) > 1.0 && InitialDifficulty(m, h, c) < 10.0
    ensures 1.0 <= c.w[4] <= 10.0 ==> InitialDifficulty(m, 1, c) == c.w[4]
    ensures 1.0 <= c.w[4] < 10.0 && InitialDifficulty(m, h, c) > 1.0 ==>
      c.w[4] - InitialDifficulty(m, h, c) == m.exp(Times(c.w[5], h as real - 1.0)) - 1.0
  {
    var (x, y) := (Times(c.w[5], g as real - 1.0), Times(c.w[5], h as real - 1.0));
    TimesMono(c.w[5], g as real - 1.0, h as real - 1.0);
    TimesMono(c.w[5], 0.0, 0.0);
    TimesMono(c.w[5], 0.0, h as real - 1.0);
    assert Holds(m, ExpIncreasing(x, y)) && Holds(m, ExpIncreasing(0.0, y)) && Holds(m, ExpZero);
  }

  /******* Stability *******/

  lemma RecallGrowthSign(m: Elementary, d: real, s: real, r: real, c: Config)
    requires Laws(m) && Sound(c) && d <= 10.0 && s > 0.0 && r <= 1.0
    ensures RecallGrowth(m, d, s, r, c) >= 0.0 && (RecallGrowth(m, d, s, r, c) > 0.0 <==> r < 1.0)
  {
    var x := Times(c.w[10], 1.0 - r);
    TimesMono(c.w[10], 0.0, 1.0 - r);
    assert Holds(m, ExpIncreasing(0.0, x)) && Holds(m, ExpZero) && Holds(m, ExpPositive(c.w[8]));
    assert Holds(m, PowPositive(s, -c.w[9]));
    GrowthSign(m.exp(c.w[8]), d, m.pow(s, -c.w[9]), m.exp(x));
  }

  /** The upper bound of a failed recall is below the old stability. */
  lemma FailBound(m: Elementary, s: real, c: Config)
    requires Laws(m) && Sound(c) && s > 0.0
    ensures FailDivisor(m, c) > 1.0 && 0.0 < s / FailDivisor(m, c) < s
  {
    TimesMono(c.w[17], 0.0, c.w[18]);
    assert Holds(m, ExpIncreasing(0.0, Times(c.w[17], c.w[18]))) && Holds(m, ExpZero);
    DivAntitone(s, 1.0, FailDivisor(m, c));
    assert s / 1.0 == s;
  }

  /** Forgetting strictly lowers stability, and recall raises it in grade order. */
  lemma StabilityOrderedByGrade(m: Elementary, d: real, s: real, r: real, c: Config)
    requires Laws(m) && Sound(c) && c.enableShortTerm
    requires 1.0 <= d <= 10.0 && s >= 0.1 && 0.0 < r <= 1.0
    ensures FailDivisor(m, c) > 0.0
    ensures 0.0 < UpdateStability(m, d, s, r, 1, c) < s
    ensures s <= UpdateStability(m, d, s, r, 2, c) <= UpdateStability(m, d, s, r, 3, c)
    ensures UpdateStability(m, d, s, r, 3, c) <= UpdateStability(m, d, s, r, 4, c)
  {
    FailBound(m, s, c);
    RecallGrowthSign(m, d, s, r, c);
    GrownMono(s, RecallGrowth(m, d, s, r, c), GradeFactor(2, c), GradeFactor(3, c));
    GrownMono(s, RecallGrowth(m, d, s, r, c), GradeFactor(3, c), GradeFactor(4, c));
  }

  /** Before any forgetting has set in a recall leaves stability where it was; later it
      raises it strictly, and the gains of Hard, Good and Easy are as w15 to 1 to w16. */
  lemma RecallGains(m: Elementary, d: real, s: real, r: real, c: Config)
    requires Laws(m) && Sound(c) && 1.0 <= d <= 10.0 && s >= 0.1 && 0.0 < r <= 1.0
    ensures FailDivisor(m, c) > 0.0
    ensures var (hard, good, easy) := (
        UpdateStability(m, d, s, r, 2, c), UpdateStability(m, d, s, r, 3, c), UpdateStability(m, d, s, r, 4, c));
      && (r < 1.0 ==> s < hard && s < good && s < easy)
      && (r == 1.0 ==> s == hard == good == easy)
      && hard - s == c.w[15] * (good - s) && easy - s == c.w[16] * (good - s)
      && (hard < good <==> r < 1.0 && c.w[15] < 1.0) && (good < easy <==> r < 1.0 && c.w[16] > 1.0)
  {
    FailBound(m, s, c);
    RecallGrowthSign(m, d, s, r, c);
    ThreeGains(s, RecallGrowth(m, d, s, r, c), c.w[15], c.w[16]);
  }

  lemma ThreeGains(s: real, growth: real, k: real, l: real)
    requires s > 0.0 && growth >= 0.0 && 0.0 < k <= 1.0 <= l
    ensures var (hard, good, easy) := (Grown(s, growth, k), Grown(s, growth, 1.0), Grown(s, growth, l));
      && (growth > 0.0 ==> s < hard && s < good && s < easy) && (growth == 0.0 ==> s == hard == good == easy)
      && hard - s == Times(k, good - s) && easy - s == Times(l, good - s)
      && (hard < good <==> growth > 0.0 && k < 1.0) && (good < easy <==> growth > 0.0 && l > 1.0)
  {
    var gain := Times(s, growth);
    GainIs(s, growth, k);
    GainIs(s, growth, 1.0);
    GainIs(s, growth, l);
    TimesMono(s, growth, growth);
    TimesMono(gain, k, 1.0);
    TimesMono(gain, 1.0, l);
    TimesMono(gain, l, l);
    assert Grown(s, growth, 1.0) - s == gain;
    assert Grown(s, growth, k) - s == Times(gain, k) == Times(k, gain);
    assert Grown(s, growth, l) - s == Times(gain, l) == Times(l, gain);
  }

  lemma GainIs(s: real, growth: real, k: real)
    requires s > 0.0 && growth >= 0.0 && k > 0.0
    ensures Grown(s, growth, k) - s == Times(Times(s, growth), k)
  {
    TimesMono(growth, k, k);
    assert s * (1.0 + growth * k) == s + s * growth * k;
  }

  /** The gain falls with difficulty, as 11 - d, strictly with the chance of recall, and
      relative to stability also with stability. */
  lemma RecallGainsFall(m: Elementary, d: real, s: real, r: real, g: Grade, c: Config, d': real, s': real, r': real)
    requires Laws(m) && Sound(c) && g >= 2 && 1.0 <= d < d' <= 10.0 && 0.1 <= s < s' && 0.0 < r < r' <= 1.0
    ensures FailDivisor(m, c) > 0.0
    ensures UpdateStability(m, d', s, r, g, c) < UpdateStability(m, d, s, r, g, c)
    ensures (UpdateStability(m, d', s, r, g, c) - s) * (11.0 - d)
         == (UpdateStability(m, d, s, r, g, c) - s) * (11.0 - d')
    ensures UpdateStability(m, d, s, r', g, c) < UpdateStability(m, d, s, r, g, c)
    ensures UpdateStability(m, d, s', r, g, c) * s < UpdateStability(m, d, s, r, g, c) * s'
  {
    FailBound(m, s, c);
    var k := GradeFactor(g, c);
    var (e, p, p') := (m.exp(c.w[8]), m.pow(s, -c.w[9]), m.pow(s', -c.w[9]));
    var (q, q') := (m.exp(Times(c.w[10], 1.0 - r)), m.exp(Times(c.w[10], 1.0 - r')));
    GrowthFactors(m, s, s', r, r', c);
    GrowthRises(e, d', d, p, p, q, q);
    GrowthRises(e, d, d, p', p, q, q);
    GrowthRises(e, d, d, p, p, q', q);
    GrownRises(s, RecallGrowth(m, d', s, r, c), RecallGrowth(m, d, s, r, c), k);
    GrowthInProportion(s, e, d, d', p, q, k);
    GrownRises(s, RecallGrowth(m, d, s, r', c), RecallGrowth(m, d, s, r, c), k);
    GrownPerStability(s, s', RecallGrowth(m, d, s', r, c), RecallGrowth(m, d, s, r, c), k);
  }

  /** At stability 1 and difficulty 10 the gain of Good is e to the w8 for each part e to
      the w10 of the chance of forgetting adds, and it grows with stability as s to the
      1 - w9. With the laws on grade and difficulty this fixes the formula. */
  lemma RecallGainScales(m: Elementary, d: real, s: real, r: real, c: Config)
    requires Laws(m) && Sound(c) && 1.0 <= d <= 10.0 && s >= 0.1 && 0.0 < r <= 1.0
    ensures FailDivisor(m, c) > 0.0
    ensures UpdateStability(m, 10.0, 1.0, r, 3, c) - 1.0
         == Times(m.exp(c.w[8]), m.exp(Times(c.w[10], 1.0 - r)) - 1.0)
    ensures UpdateStability(m, d, s, r, 3, c) - s
         == Times(Times(s, m.pow(s, -c.w[9])), UpdateStability(m, d, 1.0, r, 3, c) - 1.0)
  {
    FailBound(m, s, c);
    RecallGrowthSign(m, 10.0, 1.0, r, c);
    RecallGrowthSign(m, d, 1.0, r, c);
    RecallGrowthSign(m, d, s, r, c);
    assert Holds(m, OnePow(-c.w[9]));
    GainIs(1.0, RecallGrowth(m, 10.0, 1.0, r, c), 1.0);
    GainIs(1.0, RecallGrowth(m, d, 1.0, r, c), 1.0);
    GainIs(s, RecallGrowth(m, d, s, r, c), 1.0);
    var (e, q) := (m.exp(c.w[8]), m.exp(Times(c.w[10], 1.0 - r)));
    GrowthScales(e, 10.0, 1.0, q);
    GrowthScales(e, d, m.pow(s, -c.w[9]), q);
    TimesRegroup(s, m.pow(s, -c.w[9]), Growth(e, d, 1.0, q));
  }

  lemma GrowthScales(e: real, d: real, p: real, q: real)
    ensures Growth(e, d, p, q) == Times(p, Growth(e, d, 1.0, q))
    ensures Growth(e, 10.0, 1.0, q) == Times(e, q - 1.0)
  {
  }

  lemma TimesRegroup(x: real, y: real, z: real)
    ensures Times(x, Times(y, z)) == Times(Times(x, y), z)
    ensures Times(Times(x, y), 1.0) == Times(x, y) && Times(1.0, x) == x
  {
  }

  lemma GrowthFactors(m: Elementary, s: real, s': real, r: real, r': real, c: Config)
    requires Laws(m) && Sound(c) && 0.0 < s < s' && r < r' <= 1.0
    ensures m.exp(c.w[8]) > 0.0 && 0.0 < m.pow(s', -c.w[9]) < m.pow(s, -c.w[9])
    ensures 1.0 <= m.exp(Times(c.w[10], 1.0 - r')) < m.exp(Times(c.w[10], 1.0 - r))
    ensures r' < 1.0 ==> 1.0 < m.exp(Times(c.w[10], 1.0 - r'))
  {
    var (x, x') := (Times(c.w[10], 1.0 - r), Times(c.w[10], 1.0 - r'));
    TimesMono(c.w[10], 1.0 - r', 1.0 - r);
    TimesMono(c.w[10], 0.0, 1.0 - r');
    assert Holds(m, ExpIncreasing(x', x)) && Holds(m, ExpIncreasing(0.0, x')) && Holds(m, ExpZero);
    assert Holds(m, ExpPositive(c.w[8])) && Holds(m, PowPositive(s', -c.w[9]));
    assert Holds(m, PowDecreasing(s, s', -c.w[9]));
  }

  lemma GrownRises(s: real, g: real, g': real, k: real)
    requires s > 0.0 && 0.0 <= g < g' && k > 0.0
    ensures Grown(s, g, k) < Grown(s, g', k)
  {
    TimesMono(k, g, g');
    TimesMono(k, 0.0, g);
    assert Times(k, g) == g * k && Times(k, g') == g' * k;
    TimesMono(s, 1.0 + g * k, 1.0 + g' * k);
  }

  lemma GrownPerStability(s: real, s': real, g: real, g': real, k: real)
    requires 0.0 < s && 0.0 < s' && 0.0 <= g < g' && k > 0.0
    ensures Grown(s', g, k) * s < Grown(s, g', k) * s'
  {
    var both := s * s';
    TimesMono(s, 0.0, s');
    GrownRises(both, g, g', k);
    assert Grown(s', g, k) * s == Grown(both, g, k);
    assert Grown(s, g', k) * s' == Grown(both, g', k);
  }

  lemma GrowthInProportion(s: real, e: real, d: real, d': real, p: real, q: real, k: real)
    requires s > 0.0 && k > 0.0 && Growth(e, d, p, q) >= 0.0 && Growth(e, d', p, q) >= 0.0
    ensures (Grown(s, Growth(e, d', p, q), k) - s) * (11.0 - d) == (Grown(s, Growth(e, d, p, q), k) - s) * (11.0 - d')
  {
    GainIs(s, Growth(e, d, p, q), k);
    GainIs(s, Growth(e, d', p, q), k);
    assert Growth(e, d', p, q) * (11.0 - d) == Growth(e, d, p, q) * (11.0 - d');
  }

  /** Hence intervals are ordered by grade too, at every retention. */
  lemma IntervalsOrderedByGrade(
    m: Elementary, d: real, s: real, r: real, g: Grade, h: Grade, retention: Option<real>, c: Config)
    requires Laws(m) && Sound(c) && c.enableShortTerm && g <= h
    requires 1.0 <= d <= 10.0 && s >= 0.1 && 0.0 < r <= 1.0
    requires retention.Some? ==> 0.0 < retention.value <= 1.0
    ensures FailDivisor(m, c) > 0.0 && Factor(m, c.w[20]) > 0.0
    ensures Interval(m, UpdateStability(m, d, s, r, g, c), retention, c)
         <= Interval(m, UpdateStability(m, d, s, r, h, c), retention, c)
  {
    StabilityOrderedByGrade(m, d, s, r, c);
    IntervalMono(m, UpdateStability(m, d, s, r, g, c), UpdateStability(m, d, s, r, h, c), retention, c);
  }

  /** The failure formula is positive, rises with stability and falls with difficulty and
      with the chance of recall, all strictly. */
  lemma FailureMonotone(m: Elementary, d: real, s: real, r: real, c: Config, d': real, s': real, r': real)
    requires Laws(m) && Sound(c) && 0.0 < d' <= d && 0.0 < s <= s' && r' <= r
    ensures 0.0 < FailStability(m, d, s, r, c) <= FailStability(m, d', s', r', c)
    ensures d' < d || s < s' || r' < r ==> FailStability(m, d, s, r, c) < FailStability(m, d', s', r', c)
  {
    var (x, x') := (Times(c.w[14], 1.0 - r), Times(c.w[14], 1.0 - r'));
    TimesMono(c.w[14], 1.0 - r, 1.0 - r');
    assert Holds(m, ExpIncreasing(x, x')) && Holds(m, ExpPositive(x));
    assert Holds(m, PowDecreasing(d', d, -c.w[12])) && Holds(m, PowPositive(d, -c.w[12]));
    PowIncreasing(m, 1.0, s + 1.0, c.w[13]);
    assert Holds(m, OnePow(c.w[13]));
    if s < s' {
      PowIncreasing(m, s + 1.0, s' + 1.0, c.w[13]);
    }
    ProductRises(
      c.w[11], m.pow(d, -c.w[12]), m.pow(d', -c.w[12]),
      m.pow(s + 1.0, c.w[13]) - 1.0, m.pow(s' + 1.0, c.w[13]) - 1.0, m.exp(x), m.exp(x'));
  }

  /** For a certain recall at difficulty 1 the formula is w11 times the growth of the power
      w13, and difficulty and forgetting each add their own factor. */
  lemma FailureScales(m: Elementary, d: real, s: real, r: real, c: Config)
    requires Laws(m) && Sound(c) && d >= 1.0 && s > 0.0
    ensures FailStability(m, 1.0, s, 1.0, c) == Times(c.w[11], m.pow(s + 1.0, c.w[13]) - 1.0)
    ensures FailStability(m, d, s, r, c)
         == Times(Times(FailStability(m, 1.0, s, 1.0, c), m.pow(d, -c.w[12])), m.exp(Times(c.w[14], 1.0 - r)))
  {
    assert Holds(m, OnePow(-c.w[12])) && Holds(m, ExpZero);
    assert Times(c.w[14], 1.0 - 1.0) == 0.0;
    FourFactors(c.w[11], m.pow(d, -c.w[12]), m.pow(s + 1.0, c.w[13]) - 1.0, m.exp(Times(c.w[14], 1.0 - r)));
  }

  lemma FourFactors(a: real, b: real, p: real, q: real)
    ensures a * b * p * q == Times(Times(Times(a, p), b), q)
    ensures a * 1.0 * p * 1.0 == Times(a, p)
  {
  }

  /** A forgotten card that was easier, or less likely to be recalled, keeps more of its
      stability, strictly unless a bound decides: the floor of 0.01 or the short-term bound. */
  lemma ForgettingOrderedExactlyWhen(m: Elementary, d: real, s: real, r: real, c: Config, d': real, r': real)
    requires Laws(m) && Sound(c) && c.enableShortTerm && s >= 0.1
    requires 1.0 <= d' <= d && r' <= r && (d' < d || r' < r)
    ensures FailDivisor(m, c) > 0.0
    ensures var (harder, easier) := (UpdateStability(m, d, s, r, 1, c), UpdateStability(m, d', s, r', 1, c));
      && harder <= easier && (harder < easier <==> easier > 0.01 && harder < s / FailDivisor(m, c))
      && (0.01 <= FailStability(m, d, s, r, c) <= s / FailDivisor(m, c) ==> harder == FailStability(m, d, s, r, c))
  {
    FailBound(m, s, c);
    FailureMonotone(m, d, s, r, c, d', s, r');
  }

  /** A stability below 0.1 counts as 0.1 in every formula. */
  lemma StabilityFloor(m: Elementary, d: real, s: real, r: real, g: Grade, t: real, retention: Option<real>, c: Config)
    requires Laws(m) && Sound(c) && s <= 0.1
    ensures FailDivisor(m, c) > 0.0 && Factor(m, c.w[20]) > 0.0
    ensures UpdateStability(m, d, s, r, g, c) == UpdateStability(m, d, 0.1, r, g, c)
    ensures Retrievability(m, t, s, c) == Retrievability(m, t, 0.1, c)
    ensures Interval(m, s, retention, c) == Interval(m, 0.1, retention, c)
  {
    FailBound(m, 0.1, c);
    FactorPositive(m, c);
  }

  /** With short-term scheduling off, forgetting lowers stability exactly when there is
      room above the floor and the failure formula gives less. */
  lemma FailStrictExactlyWhen(m: Elementary, d: real, s: real, r: real, c: Config)
    requires Laws(m) && Sound(c) && !c.enableShortTerm && s >= 0.1
    ensures FailDivisor(m, c) > 0.0
    ensures UpdateStability(m, d, s, r, 1, c) <= s
    ensures UpdateStability(m, d, s, r, 1, c) < s <==> s > 0.1 && FailStability(m, d, s, r, c) < s
    ensures 0.1 <= FailStability(m, d, s, r, c) <= s ==>
      UpdateStability(m, d, s, r, 1, c) == FailStability(m, d, s, r, c)
  {
    FailBound(m, s, c);
  }

  lemma ShortTermPositive(m: Elementary, s: real, g: Grade, c: Config)
    requires Laws(m) && Sound(c) && s > 0.0
    ensures ShortTermStability(m, s, g, c) > 0.0
    ensures g >= 3 ==> ShortTermStability(m, s, g, c) >= s
  {
    var x := Times(c.w[17], g as real - 3.0 + c.w[18]);
    assert Holds(m, ExpPositive(x)) && Holds(m, PowPositive(s, -c.w[19]));
    TimesMono(m.exp(x), 0.0, m.pow(s, -c.w[19]));
    TimesMono(s, 0.0, ShortTermFactor(m, s, g, c));
    TimesMono(s, 1.0, ShortTermFactor(m, s, g, c));
  }

  /** Short-term updates are ordered by grade as well. */
  lemma ShortTermOrderedByGrade(m: Elementary, s: real, g: Grade, h: Grade, c: Config)
    requires Laws(m) && Sound(c) && s > 0.0 && g <= h
    ensures ShortTermStability(m, s, g, c) <= ShortTermStability(m, s, h, c)
  {
    var p := m.pow(s, -c.w[19]);
    var (x, y) := (Times(c.w[17], g as real - 3.0 + c.w[18]), Times(c.w[17], h as real - 3.0 + c.w[18]));
    TimesMono(c.w[17], g as real - 3.0 + c.w[18], h as real - 3.0 + c.w[18]);
    assert Holds(m, ExpIncreasing(x, y)) && Holds(m, PowPositive(s, -c.w[19]));
    TimesMono(p, m.exp(x), m.exp(y));
    TimesMono(m.exp(x), p, p);
    TimesMono(m.exp(y), p, p);
    TimesMono(s, ShortTermFactor(m, s, g, c), ShortTermFactor(m, s, h, c));
  }

  /** Strictly, unless both grades are Good or better and neither raises stability. */
  lemma ShortTermStrictExactlyWhen(m: Elementary, s: real, g: Grade, h: Grade, c: Config)
    requires Laws(m) && Sound(c) && s > 0.0 && g < h
    ensures ShortTermStability(m, s, g, c) < ShortTermStability(m, s, h, c)
      <==> g < 3 || ShortTermStability(m, s, h, c) > s
  {
    var p := m.pow(s, -c.w[19]);
    var (x, y) := (Times(c.w[17], g as real - 3.0 + c.w[18]), Times(c.w[17], h as real - 3.0 + c.w[18]));
    TimesMono(c.w[17], g as real - 3.0 + c.w[18], h as real - 3.0 + c.w[18]);
    assert Holds(m, ExpIncreasing(x, y)) && Holds(m, PowPositive(s, -c.w[19]));
    TimesMono(p, m.exp(x), m.exp(y));
    TimesMono(m.exp(x), p, p);
    TimesMono(m.exp(y), p, p);
    TimesMono(s, 1.0, ShortTermFactor(m, s, h, c));
    TimesMono(s, ShortTermFactor(m, s, g, c), ShortTermFactor(m, s, h, c));
    TimesMono(s, ShortTermFactor(m, s, h, c), ShortTermFactor(m, s, g, c));
  }

  /** On Again and Hard the multiplier is that of stability 1 times s to the -w19. */
  lemma ShortTermScales(m: Elementary, s: real, g: Grade, c: Config)
    requires Laws(m) && Sound(c) && s > 0.0 && g < 3
    ensures ShortTermStability(m, 1.0, g, c) == m.exp(Times(c.w[17], g as real - 3.0 + c.w[18]))
    ensures ShortTermStability(m, s, g, c) == Times(s, Times(ShortTermStability(m, 1.0, g, c), m.pow(s, -c.w[19])))
  {
    assert Holds(m, OnePow(-c.w[19]));
    TimesRegroup(m.exp(Times(c.w[17], g as real - 3.0 + c.w[18])), 1.0, 1.0);
  }

  /** A card of stability 1 is multiplied within a day by the divisor of the long-term
      failure bound on Good, and by less than 1 on a worse grade if w18 is less than 1. */
  lemma ShortTermAtOne(m: Elementary, g: Grade, c: Config)
    requires Laws(m) && Sound(c)
    ensures ShortTermStability(m, 1.0, 3, c) == FailDivisor(m, c) > 1.0
    ensures g < 3 && c.w[18] < 1.0 ==> ShortTermStability(m, 1.0, g, c) < 1.0
  {
    FailBound(m, 1.0, c);
    var x := Times(c.w[17], g as real - 3.0 + c.w[18]);
    assert Holds(m, OnePow(-c.w[19])) && Holds(m, ExpIncreasing(x, 0.0)) && Holds(m, ExpZero);
    TimesMono(c.w[17], g as real - 3.0 + c.w[18], 0.0);
    assert (3 as Grade) as real - 3.0 + c.w[18] == c.w[18];
    TimesMono(m.exp(x), 1.0, 1.0);
    TimesMono(FailDivisor(m, c), 1.0, 1.0);
    TimesMono(1.0, ShortTermFactor(m, 1.0, g, c), 1.0);
    TimesMono(1.0, ShortTermFactor(m, 1.0, 3, c), 1.0);
  }

  /******* Whole histories *******/

  /** A card's memory, and one review of it. */
  datatype Memory = Memory(stability: real, difficulty: real)

  datatype Review = Review(elapsed: real, grade: Grade)

  /** The scheduling step of a review grade (services/db/words.py): within a day the
      short-term update, later the long-term one, both from the old difficulty. */
  function Reviewed(m: Elementary, x: Memory, v: Review, c: Config): Memory
    requires Sound(c) && FailDivisor(m, c) != 0.0
  {
    Memory(
      if v.elapsed < 1.0 then ShortTermStability(m, x.stability, v.grade, c)
      else UpdateStability(m, x.difficulty, x.stability, Retrievability(m, v.elapsed, x.stability, c), v.grade, c),
      UpdateDifficulty(m, x.difficulty, v.grade, c))
  }

  function After(m: Elementary, x: Memory, reviews: seq<Review>, c: Config): Memory
    requires Sound(c) && FailDivisor(m, c) != 0.0
  {
    if reviews == [] then x
    else Reviewed(m, After(m, x, reviews[..|reviews| - 1], c), reviews[|reviews| - 1], c)
  }

  predicate Healthy(x: Memory) {
    x.stability > 0.0 && 1.0 <= x.difficulty <= 10.0
  }

  /** Both kinds of first grade start a card in good health. */
  lemma FirstGradeIsHealthy(m: Elementary, grade: Grade, c: Config)
    requires Sound(c)
    ensures Healthy(Memory(FirstExposureStability(grade), InitialDifficulty(m, grade, c)))
    ensures Healthy(Memory(InitialStability(grade, c), InitialDifficulty(m, grade, c)))
  {
  }

  /** Better first grades start more stable cards, and a first exposure never starts one
      less stable than the recall weights do. */
  lemma FirstGradesOrdered(m: Elementary, g: Grade, h: Grade)
    requires Laws(m) && g < h
    ensures FirstExposureStability(g) < FirstExposureStability(h)
    ensures InitialStability(g, DEFAULT) < InitialStability(h, DEFAULT)
    ensures InitialStability(g, DEFAULT) <= FirstExposureStability(g)
    ensures InitialStability(h, DEFAULT) <= FirstExposureStability(h) <= 12.0
  {
  }

  lemma RetrievabilityRange(m: Elementary, t: real, s: real, c: Config)
    requires Laws(m) && Sound(c)
    ensures 0.0 < Retrievability(m, t, s, c) <= 1.0
  {
    RetrievabilityFalls(m, Max(0.0, t), Max(0.0, t) + 1.0, s, c);
  }

  /** A review a day or more later strictly raises stability when the card is recalled
      and strictly lowers it when it is forgotten; a second one within the day never
      lowers it on Good or Easy. */
  lemma ReviewMovesStability(m: Elementary, x: Memory, v: Review, c: Config)
    requires Laws(m) && Sound(c) && c.enableShortTerm && Healthy(x) && x.stability >= 0.1
    ensures FailDivisor(m, c) > 0.0
    ensures var y := Reviewed(m, x, v, c);
      && (v.elapsed >= 1.0 ==> (y.stability > x.stability <==> v.grade >= 2) && y.stability != x.stability)
      && (v.elapsed < 1.0 && v.grade >= 3 ==> y.stability >= x.stability)
  {
    FailBound(m, x.stability, c);
    if v.elapsed < 1.0 {
      ShortTermPositive(m, x.stability, v.grade, c);
    } else {
      var r := Retrievability(m, v.elapsed, x.stability, c);
      RetrievabilityFalls(m, 0.0, v.elapsed, x.stability, c);
      StabilityOrderedByGrade(m, x.difficulty, x.stability, r, c);
      RecallGains(m, x.difficulty, x.stability, r, c);
    }
  }

  /** Every review moves difficulty: a better grade leaves the card easier unless a bound
      decides, and Good moves it towards where Easy would have started it. */
  lemma ReviewMovesDifficulty(m: Elementary, x: Memory, v: Review, h: Grade, c: Config)
    requires Laws(m) && Sound(c) && Healthy(x) && v.grade < h
    ensures FailDivisor(m, c) > 0.0
    ensures var (y, z) := (Reviewed(m, x, v, c), Reviewed(m, x, v.(grade := h), c));
      && z.difficulty <= y.difficulty
      && (z.difficulty < y.difficulty <==> x.difficulty < 10.0 && y.difficulty > 1.0)
      && (h == 3 ==> z.difficulty - x.difficulty == c.w[7] * (InitialDifficulty(m, 4, c) - x.difficulty))
  {
    FailBound(m, 1.0, c);
    DifficultyAntitoneInGrade(m, x.difficulty, v.grade, h, c);
    DifficultyStrictExactlyWhen(m, x.difficulty, v.grade, h, c);
    GoodRevertsToEasy(m, x.difficulty, c);
  }

  lemma ReviewKeepsHealth(m: Elementary, x: Memory, v: Review, c: Config)
    requires Laws(m) && Sound(c) && Healthy(x)
    ensures FailDivisor(m, c) > 0.0 && Healthy(Reviewed(m, x, v, c))
  {
    FailBound(m, 1.0, c);
    if v.elapsed < 1.0 {
      ShortTermPositive(m, x.stability, v.grade, c);
    } else {
      var (s, r) := (Max(0.1, x.stability), Retrievability(m, v.elapsed, x.stability, c));
      RetrievabilityRange(m, v.elapsed, x.stability, c);
      RecallGrowthSign(m, x.difficulty, s, r, c);
      GrownMono(s, RecallGrowth(m, x.difficulty, s, r, c), GradeFactor(v.grade, c), GradeFactor(v.grade, c));
    }
  }

  /** Along every history of reviews difficulty stays in [1, 10], stability stays
      positive, and the default interval stays between 0.1 days and the cap. */
  lemma {:induction false} HistoryKeepsHealth(m: Elementary, x: Memory, reviews: seq<Review>, c: Config)
    requires Laws(m) && Sound(c) && Healthy(x)
    ensures FailDivisor(m, c) > 0.0 && Factor(m, c.w[20]) > 0.0
    ensures var y := After(m, x, reviews, c);
      && Healthy(y)
      && Min(0.1, c.maximumInterval as real) <= Interval(m, y.stability, None, c) <= c.maximumInterval as real
  {
    FailBound(m, 1.0, c);
    DefaultIntervalIsStability(m, After(m, x, reviews, c).stability, c);
    if reviews != [] {
      var before := reviews[..|reviews| - 1];
      HistoryKeepsHealth(m, x, before, c);
      ReviewKeepsHealth(m, After(m, x, before, c), reviews[|reviews| - 1], c);
    }
  }
}
