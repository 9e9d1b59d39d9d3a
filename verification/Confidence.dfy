/** Confidence of an estimate: how much evidence there is and how well the independent signals agree. */
module Confidence {
  import opened Common
  import Statistics

  /** The library functions the estimator rests on; only the laws below are used of them. */
  datatype Numerics = Numerics(pow10: real -> real, log10: real -> real, sqrt: real -> real,
                               round2: real -> real, round3: real -> real, round4: real -> real, nearest: real -> int)

  ghost predicate NonDecreasing(f: real -> real) { forall x, y | x <= y :: f(x) <= f(y) }

  /** Rounding to decimals keeps the order and the numbers 0 and 1. */
  ghost predicate Rounds(f: real -> real) { NonDecreasing(f) && f(0.0) == 0.0 && f(1.0) == 1.0 }

  ghost predicate Lawful(n: Numerics) {
    && NonDecreasing(n.pow10) && Statistics.IsRoot(n.sqrt)
    && Rounds(n.round2) && Rounds(n.round3) && Rounds(n.round4)
    && forall x, y | x <= y :: n.nearest(x) <= n.nearest(y)
  }

  datatype Config = Config(sourceWeights: seq<(string, real)>, disagreementScale: real, coverageWeight: real, agreementWeight: real,
                           popularityBonus: real, high: real, medium: real)

  /** Nothing in the configuration is negative. */
  ghost predicate NonNegative(cfg: Config) {
    && (forall i | 0 <= i < |cfg.sourceWeights| :: cfg.sourceWeights[i].1 >= 0.0)
    && cfg.disagreementScale >= 0.0 && cfg.coverageWeight >= 0.0 && cfg.agreementWeight >= 0.0 && cfg.popularityBonus >= 0.0
  }

  const POPULARITY_SOURCES := ["tranco", "crux_top", "cc_webgraph", "majestic", "openpagerank"]

  // ------------------------------------------------------------------ coverage

  /** What a source's status is worth as evidence. */
  function Worth(statuses: map<string, string>, src: string): (w: real)
    ensures 0.0 <= w <= 1.0
  {
    if src !in statuses then 0.0
    else if statuses[src] == "present" then 1.0
    else if statuses[src] == "absent" then 0.8
    else if statuses[src] == "unreachable" then 0.5
    else if statuses[src] == "blocked" then 0.3
    else 0.0
  }

  predicate Collected(statuses: map<string, string>, src: string) { src !in statuses || statuses[src] != "disabled" }

  /** The weights of the sources that are collected, and the part of them that was earned. */
  function TotalWeight(ws: seq<(string, real)>, statuses: map<string, string>): real {
    if ws == [] then 0.0
    else
      var (before, last) := (TotalWeight(ws[..|ws| - 1], statuses), ws[|ws| - 1]);
      if Collected(statuses, last.0) then before + last.1 else before
  }

  function Earned(ws: seq<(string, real)>, statuses: map<string, string>): real {
    if ws == [] then 0.0
    else
      var (before, last) := (Earned(ws[..|ws| - 1], statuses), ws[|ws| - 1]);
      if Collected(statuses, last.0) then before + Worth(statuses, last.0) * last.1 else before
  }

  function CoverageOf(n: Numerics, cfg: Config, statuses: map<string, string>): real {
    var total := TotalWeight(cfg.sourceWeights, statuses);
    n.round4(Earned(cfg.sourceWeights, statuses) / if total == 0.0 then 1.0 else total)
  }

  method Coverage(n: Numerics, cfg: Config, statuses: map<string, string>) returns (score: real)
    ensures score == CoverageOf(n, cfg, statuses)
  {
    var ws := cfg.sourceWeights;
    var total, earned := 0.0, 0.0;
    for i := 0 to |ws|
      invariant total == TotalWeight(ws[..i], statuses) && earned == Earned(ws[..i], statuses)
    {
      assert ws[..i + 1][..i] == ws[..i];
      if Collected(statuses, ws[i].0) {
        total := total + ws[i].1;
        earned := earned + Worth(statuses, ws[i].0) * ws[i].1;
      }
    }
    assert ws[..|ws|] == ws;
    score := n.round4(earned / if total == 0.0 then 1.0 else total);
  }

  lemma Part(p: real, w: real)
    requires 0.0 <= p <= 1.0 && w >= 0.0
    ensures 0.0 <= p * w <= w
  {
    assert (1.0 - p) * w >= 0.0;
  }

  lemma {:induction false} EarnedIsPart(ws: seq<(string, real)>, statuses: map<string, string>)
    requires forall i | 0 <= i < |ws| :: ws[i].1 >= 0.0
    ensures 0.0 <= Earned(ws, statuses) <= TotalWeight(ws, statuses)
  {
    if ws != [] {
      EarnedIsPart(ws[..|ws| - 1], statuses);
      Part(Worth(statuses, ws[|ws| - 1].0), ws[|ws| - 1].1);
    }
  }

  lemma Ratio(a: real, b: real)
    requires 0.0 <= a <= b && b > 0.0
    ensures 0.0 <= a / b <= 1.0
  {
  }

  lemma RoundsUnit(f: real -> real, x: real)
    requires Rounds(f) && 0.0 <= x <= 1.0
    ensures 0.0 <= f(x) <= 1.0
  {
  }

  /** Coverage is a share. */
  lemma CoverageInRange(n: Numerics, cfg: Config, statuses: map<string, string>)
    requires Lawful(n) && NonNegative(cfg)
    ensures 0.0 <= CoverageOf(n, cfg, statuses) <= 1.0
  {
    var (total, earned) := (TotalWeight(cfg.sourceWeights, statuses), Earned(cfg.sourceWeights, statuses));
    EarnedIsPart(cfg.sourceWeights, statuses);
    var divisor := if total == 0.0 then 1.0 else total;
    Ratio(earned, divisor);
    RoundsUnit(n.round4, earned / divisor);
  }

  lemma {:induction false} EarnedInFull(ws: seq<(string, real)>, statuses: map<string, string>)
    requires forall i | 0 <= i < |ws| && Collected(statuses, ws[i].0) :: Worth(statuses, ws[i].0) == 1.0
    ensures Earned(ws, statuses) == TotalWeight(ws, statuses)
  {
    if ws != [] { EarnedInFull(ws[..|ws| - 1], statuses); }
  }

  /** When every collected source was present the coverage is 1; disabled sources do not count against it. */
  lemma FullCoverage(n: Numerics, cfg: Config, statuses: map<string, string>)
    requires Lawful(n) && TotalWeight(cfg.sourceWeights, statuses) != 0.0
    requires forall i | 0 <= i < |cfg.sourceWeights| && Collected(statuses, cfg.sourceWeights[i].0) ::
               Worth(statuses, cfg.sourceWeights[i].0) == 1.0
    ensures CoverageOf(n, cfg, statuses) == 1.0
  {
    EarnedInFull(cfg.sourceWeights, statuses);
    var total := TotalWeight(cfg.sourceWeights, statuses);
    assert total / total == 1.0;
  }

  // ------------------------------------------------------------------ agreement

  /** statistics.pstdev. */
  function Deviation(n: Numerics, vals: seq<real>): real
    requires vals != []
  {
    var c := Statistics.Shifted(vals, Statistics.Mean(vals));
    n.sqrt(Statistics.Dot(c, c) / |vals| as real)
  }

  function AgreementOf(n: Numerics, cfg: Config, vals: seq<real>): (real, Option<real>) {
    if |vals| < 2 then (if |vals| == 1 then 0.6 else 0.3, None)
    else
      var sd := Deviation(n, vals);
      var scale := if cfg.disagreementScale == 0.0 then 1.0 else cfg.disagreementScale;
      (n.round4(MaxR(0.0, 1.0 - MinR(1.0, sd / scale))), Some(n.round4(sd)))
  }

  lemma QuotientNonNegative(a: real, b: real)
    requires a >= 0.0 && b > 0.0
    ensures a / b >= 0.0
  {
  }

  lemma DeviationNonNegative(n: Numerics, vals: seq<real>)
    requires Lawful(n) && vals != []
    ensures Deviation(n, vals) >= 0.0
  {
    var c := Statistics.Shifted(vals, Statistics.Mean(vals));
    Statistics.DotSquareNonNegative(c);
    QuotientNonNegative(Statistics.Dot(c, c), |vals| as real);
  }

  lemma AgreementInRange(n: Numerics, cfg: Config, vals: seq<real>)
    requires Lawful(n) && NonNegative(cfg)
    ensures var (agr, sd) := AgreementOf(n, cfg, vals);
            0.0 <= agr <= 1.0 && (sd.Some? ==> sd.value >= 0.0)
  {
    if |vals| >= 2 {
      var sd := Deviation(n, vals);
      var scale := if cfg.disagreementScale == 0.0 then 1.0 else cfg.disagreementScale;
      DeviationNonNegative(n, vals);
      QuotientNonNegative(sd, scale);
      RoundsUnit(n.round4, MaxR(0.0, 1.0 - MinR(1.0, sd / scale)));
      assert n.round4(0.0) <= n.round4(sd);
    }
  }

  ghost predicate AllAre(vals: seq<real>, v: real) { forall i | 0 <= i < |vals| :: vals[i] == v }

  lemma {:induction false} SumOfEqual(vals: seq<real>, v: real)
    requires AllAre(vals, v)
    ensures Statistics.Sum(vals) == |vals| as real * v
  {
    if vals != [] {
      var n := |vals| - 1;
      SumOfEqual(vals[..n], v);
      assert (n as real + 1.0) * v == n as real * v + v;
    }
  }

  lemma {:induction false} DotOfZeros(c: seq<real>)
    requires AllAre(c, 0.0)
    ensures Statistics.Dot(c, c) == 0.0
  {
    if c != [] { DotOfZeros(c[..|c| - 1]); }
  }

  lemma RootOfZero(n: Numerics)
    requires Lawful(n)
    ensures n.sqrt(0.0) == 0.0
  {
    var r := n.sqrt(0.0);
    if r > 0.0 {
      assert r * r == 0.0 <= (r / 2.0) * (r / 2.0);
      Statistics.SquareBound(r, r / 2.0);
    }
  }

  /** Signals that all say the same agree fully. */
  lemma AgreementOfEqual(n: Numerics, cfg: Config, vals: seq<real>, v: real)
    requires Lawful(n) && |vals| >= 2 && AllAre(vals, v)
    ensures AgreementOf(n, cfg, vals) == (1.0, Some(0.0))
  {
    SumOfEqual(vals, v);
    assert |vals| as real * v / |vals| as real == v;
    var c := Statistics.Shifted(vals, Statistics.Mean(vals));
    assert AllAre(c, 0.0);
    DotOfZeros(c);
    RootOfZero(n);
  }

  function Raised(vals: seq<real>, d: real): (r: seq<real>)
    ensures |r| == |vals|
  {
    seq(|vals|, i requires 0 <= i < |vals| => vals[i] + d)
  }

  lemma {:induction false} SumRaised(vals: seq<real>, d: real)
    ensures Statistics.Sum(Raised(vals, d)) == Statistics.Sum(vals) + |vals| as real * d
  {
    if vals != [] {
      var n := |vals| - 1;
      SumRaised(vals[..n], d);
      assert Raised(vals, d)[..n] == Raised(vals[..n], d);
      assert (n as real + 1.0) * d == n as real * d + d;
    }
  }

  lemma MeanRaised(sum: real, n: real, d: real)
    requires n > 0.0
    ensures (sum + n * d) / n == sum / n + d
  {
    assert (sum / n + d) * n == sum + n * d;
  }

  lemma SameDeviations(vals: seq<real>, d: real, a: real, b: real)
    requires a == b + d
    ensures Statistics.Shifted(Raised(vals, d), a) == Statistics.Shifted(vals, b)
  {
  }

  /** Agreement is not a function of the traffic: scaling every signal's visits by the same factor leaves it alone. */
  lemma AgreementIgnoresLevel(n: Numerics, cfg: Config, vals: seq<real>, d: real)
    ensures AgreementOf(n, cfg, Raised(vals, d)) == AgreementOf(n, cfg, vals)
  {
    if |vals| >= 2 {
      SumRaised(vals, d);
      MeanRaised(Statistics.Sum(vals), |vals| as real, d);
      var (a, b) := (Statistics.Mean(Raised(vals, d)), Statistics.Mean(vals));
      assert a == b + d;
      SameDeviations(vals, d, a, b);
    }
  }

  // ------------------------------------------------------------------ compute_confidence

  datatype Confidence = Confidence(grade: string, score: real, coverage: real, agreement: real, sd: Option<real>)

  function PopularitySources(statuses: map<string, string>, n: nat): nat
    requires n <= |POPULARITY_SOURCES|
  {
    if n == 0 then 0
    else
      var src := POPULARITY_SOURCES[n - 1];
      PopularitySources(statuses, n - 1) + if src in statuses && statuses[src] == "present" then 1 else 0
  }

  predicate CrawlBlocked(statuses: map<string, string>) { "crawl" in statuses && statuses["crawl"] == "blocked" }

  function Clamped(x: real): real { MaxR(0.0, MinR(1.0, x)) }

  function Bonus(cfg: Config, statuses: map<string, string>): real {
    if PopularitySources(statuses, |POPULARITY_SOURCES|) >= 2 then cfg.popularityBonus else 0.0
  }

  function ScoreOf(n: Numerics, cfg: Config, statuses: map<string, string>, cov: real, agr: real): real {
    FinalScore(n, statuses, Weighted(cfg.coverageWeight, cov, cfg.agreementWeight, agr, Bonus(cfg, statuses)))
  }

  function Weighted(w: real, cov: real, v: real, agr: real, bonus: real): real { w * cov + v * agr + bonus }

  function FinalScore(n: Numerics, statuses: map<string, string>, raw: real): real {
    n.round2(Clamped(if CrawlBlocked(statuses) then MinR(raw, 0.65) else raw))
  }

  function LabelOf(cfg: Config, score: real): string {
    if score >= cfg.high then "high" else if score >= cfg.medium then "medium" else "low"
  }

  method ComputeConfidence(n: Numerics, cfg: Config, statuses: map<string, string>, vals: seq<real>) returns (c: Confidence)
    ensures var (agr, sd) := AgreementOf(n, cfg, vals);
            var cov := CoverageOf(n, cfg, statuses);
            var score := ScoreOf(n, cfg, statuses, cov, agr);
            c == Confidence(LabelOf(cfg, score), score, cov, agr, sd)
  {
    var cov := Coverage(n, cfg, statuses);
    var (agr, sd) := AgreementOf(n, cfg, vals);
    var score := cfg.coverageWeight * cov + cfg.agreementWeight * agr + Bonus(cfg, statuses);
    assert score == Weighted(cfg.coverageWeight, cov, cfg.agreementWeight, agr, Bonus(cfg, statuses));
    ghost var raw := score;
    if CrawlBlocked(statuses) { score := MinR(score, 0.65); }
    score := n.round2(Clamped(score));
    assert score == FinalScore(n, statuses, raw) == ScoreOf(n, cfg, statuses, cov, agr);
    c := Confidence(LabelOf(cfg, score), score, cov, agr, sd);
  }

  /** The score is in [0, 1] whatever the configuration; a blocked crawl keeps it at what 0.65 rounds to, or below. */
  lemma ScoreInRange(n: Numerics, cfg: Config, statuses: map<string, string>, cov: real, agr: real)
    requires Lawful(n)
    ensures 0.0 <= ScoreOf(n, cfg, statuses, cov, agr) <= 1.0
    ensures CrawlBlocked(statuses) ==> ScoreOf(n, cfg, statuses, cov, agr) <= n.round2(0.65)
  {
    var raw := Weighted(cfg.coverageWeight, cov, cfg.agreementWeight, agr, Bonus(cfg, statuses));
    ClampInRange(n.round2, raw);
    ClampInRange(n.round2, MinR(raw, 0.65));
  }

  lemma ClampInRange(f: real -> real, x: real)
    requires Rounds(f)
    ensures 0.0 <= f(Clamped(x)) <= 1.0
    ensures x <= 0.65 ==> f(Clamped(x)) <= f(0.65)
  {
    var y := Clamped(x);
    RoundsUnit(f, y);
    assert y <= 0.65 ==> f(y) <= f(0.65);
  }

  lemma Products(a: real, b: real, c: real)
    requires 0.0 <= a && b <= c
    ensures a * b <= a * c
  {
    assert a * (c - b) >= 0.0;
  }

  lemma WeightedGrows(w: real, cov: real, cov': real, v: real, agr: real, agr': real, bonus: real)
    requires w >= 0.0 && v >= 0.0 && cov <= cov' && agr <= agr'
    ensures Weighted(w, cov, v, agr, bonus) <= Weighted(w, cov', v, agr', bonus)
  {
    Products(w, cov, cov');
    Products(v, agr, agr');
  }

  lemma FinalScoreGrows(n: Numerics, statuses: map<string, string>, x: real, y: real)
    requires Lawful(n) && x <= y
    ensures FinalScore(n, statuses, x) <= FinalScore(n, statuses, y)
  {
  }

  /** More coverage or more agreement never lowers the score. */
  lemma ScoreGrows(n: Numerics, cfg: Config, statuses: map<string, string>, cov: real, agr: real, cov': real, agr': real)
    requires Lawful(n) && NonNegative(cfg) && cov <= cov' && agr <= agr'
    ensures ScoreOf(n, cfg, statuses, cov, agr) <= ScoreOf(n, cfg, statuses, cov', agr')
  {
    var (w, v, bonus) := (cfg.coverageWeight, cfg.agreementWeight, Bonus(cfg, statuses));
    WeightedGrows(w, cov, cov', v, agr, agr', bonus);
    FinalScoreGrows(n, statuses, Weighted(w, cov, v, agr, bonus), Weighted(w, cov', v, agr', bonus));
  }
}
