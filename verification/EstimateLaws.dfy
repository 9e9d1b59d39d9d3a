/** What each part of an estimate means for its reader: the range, the evidence flags, the signals, the confidence. */
module EstimateLaws {
  import opened Common
  import opened Curve
  import opened Confidence
  import opened Estimator
  import Statistics
  import Buckets

  // ------------------------------------------------------------------ the range

  function Asked(base: real, missing: real, gap: real, disagreement: real, sd: real): real { base + missing * gap + disagreement * sd }

  function Sd(c: Confidence): real { match c.sd case None => 0.0 case Some(sd) => sd }

  /** The width the evidence asks for: a base, more for what is missing and for signals that disagree, up to a maximum. */
  ghost predicate IsWidth(r: Range, c: Confidence, w: real) {
    var asked := Asked(r.base, r.missingEvidence, 1.0 - c.coverage, r.disagreement, Sd(c));
    (asked <= r.max ==> w == asked) && (asked > r.max ==> w == r.max)
  }

  /** The three numbers lie one width apart around the same logarithm. */
  ghost predicate HasRange(n: Numerics, e: Estimate, w: real) {
    && e.visits == n.nearest(n.pow10(e.log10))
    && e.upper == n.nearest(n.pow10(e.log10 + w))
    && e.lower == n.nearest(n.pow10(if e.log10 < w then 0.0 else e.log10 - w))
  }

  /** The name of the one bucket that the visits are in, when the buckets are contiguous from zero. */
  ghost predicate HasBucket(bs: seq<Buckets.Bucket>, e: Estimate) {
    Buckets.Contiguous(bs) && bs != [] && bs[0].min <= 0 && e.visits >= 0 ==>
      exists k :: 0 <= k < |bs| && bs[k].Contains(e.visits) && bs[k].name == e.bucket
  }

  lemma EstimateHasRange(n: Numerics, cfg: Settings, ev: Evidence, fs: Features)
    requires Usable(cfg) && EstimateOf(n, cfg, ev, fs).Some?
    ensures var e := EstimateOf(n, cfg, ev, fs).value;
            && (exists w :: IsWidth(cfg.range, e.confidence, w) && HasRange(n, e, w)) && HasBucket(cfg.buckets, e)
  {
    var e := EstimateOf(n, cfg, ev, fs).value;
    SpreadIsWidth(cfg.range, e.confidence);
    FinishedHasRange(n, cfg, e.log10, e.confidence);
    BucketOfVisits(cfg.buckets, e.visits);
  }

  lemma SpreadIsWidth(r: Range, c: Confidence)
    ensures IsWidth(r, c, Spread(r, c))
  {
  }

  lemma FinishedHasRange(n: Numerics, cfg: Settings, est: real, c: Confidence)
    requires cfg.buckets != []
    ensures var e := Finished(n, cfg, est, c); HasRange(n, e, Spread(cfg.range, c)) && e.log10 == est && e.confidence == c
  {
  }

  lemma BucketOfVisits(bs: seq<Buckets.Bucket>, visits: int)
    requires bs != []
    ensures Buckets.Contiguous(bs) && bs[0].min <= 0 && visits >= 0 ==> bs[Buckets.IndexFor(bs, Some(visits))].Contains(visits)
  {
    if Buckets.Contiguous(bs) && bs[0].min <= 0 && visits >= 0 { Buckets.ExactlyOne(bs, visits, Buckets.IndexFor(bs, Some(visits))); }
  }

  lemma AskedAtFull(base: real, missing: real, disagreement: real)
    ensures Asked(base, missing, 0.0, disagreement, 0.0) == base
  {
  }

  lemma AskedMore(base: real, missing: real, g: real, h: real, disagreement: real, sd: real, td: real)
    requires missing >= 0.0 && disagreement >= 0.0 && g <= h && sd <= td
    ensures Asked(base, missing, h, disagreement, td) - Asked(base, missing, g, disagreement, sd) == missing * (h - g) + disagreement * (td - sd)
    ensures Asked(base, missing, g, disagreement, sd) <= Asked(base, missing, h, disagreement, td)
  {
    Product(missing, h - g);
    Product(disagreement, td - sd);
    assert missing * (h - g) == missing * h - missing * g && disagreement * (td - sd) == disagreement * td - disagreement * sd;
  }

  /** With full coverage and signals that agree the range is as wide as its base, and never wider than the maximum. */
  lemma WidthAtFull(r: Range, c: Confidence, w: real)
    requires IsWidth(r, c, w)
    ensures w <= r.max
    ensures c.coverage == 1.0 && Sd(c) == 0.0 ==> w == if r.base <= r.max then r.base else r.max
  {
    AskedAtFull(r.base, r.missingEvidence, r.disagreement);
  }

  /** Less coverage or more disagreement widens the range by its price for each, until the maximum. */
  lemma WidthGrows(r: Range, c: Confidence, d: Confidence, w: real, v: real)
    requires IsWidth(r, c, w) && IsWidth(r, d, v) && r.missingEvidence >= 0.0 && r.disagreement >= 0.0
    requires d.coverage <= c.coverage && Sd(c) <= Sd(d)
    ensures w <= v
    ensures v < r.max ==> v - w == r.missingEvidence * (c.coverage - d.coverage) + r.disagreement * (Sd(d) - Sd(c))
  {
    AskedMore(r.base, r.missingEvidence, 1.0 - c.coverage, 1.0 - d.coverage, r.disagreement, Sd(c), Sd(d));
    assert 1.0 - d.coverage - (1.0 - c.coverage) == c.coverage - d.coverage;
  }

  // ------------------------------------------------------------------ what the evidence does to the estimate

  /** b is a moved by d, where neither is held at zero. */
  ghost predicate MovedBy(a: real, b: real, d: real) {
    (a > 0.0 && a + d >= 0.0 ==> b == a + d) && (b > 0.0 && b - d >= 0.0 ==> a == b - d)
  }

  function LogOf(n: Numerics, cfg: Settings, ev: Evidence, fs: Features): real
    requires cfg.buckets != [] && (forall s | s in cfg.signals :: s.points != []) && EstimateOf(n, cfg, ev, fs).Some?
  {
    EstimateOf(n, cfg, ev, fs).value.log10
  }

  /** The final logarithm where no absence cap is in force: the base under its hard cap, shifted, not below zero. */
  lemma Uncapped(n: Numerics, cfg: Settings, ev: Evidence, fs: Features)
    requires Usable(cfg) && cfg.absences == []
    ensures var base := Base(cfg, ev, Readings(n, cfg.signals, fs));
            && (EstimateOf(n, cfg, ev, fs).Some? <==> base.Some?)
            && (base.Some? ==> LogOf(n, cfg, ev, fs) == MaxR(0.0, HardCapped(cfg.modifiers, ev, base.value) + Shift(cfg.modifiers, ev)))
  {
  }

  /** g is ev with one flag set, whose shift is d. */
  predicate Flagged(m: Modifiers, ev: Evidence, g: Evidence, d: real) {
    || (g == ev.(crawlBlocked := Some(true)) && ev.crawlBlocked != Some(true) && d == m.blockedShift)
    || (g == ev.(analytics := Some(true)) && ev.analytics != Some(true) && d == m.analyticsShift)
    || (g == ev.(advertising := Some(true)) && ev.advertising != Some(true) && d == m.advertisingShift)
    || (g == ev.(ecommerce := true) && !ev.ecommerce && d == m.ecommerceShift)
    || (g == ev.(crawlReachable := Some(false)) && ev.crawlReachable == None && ev.dnsResolves == Some(true) && d == m.unreachableShift)
  }

  lemma FlagMoves(m: Modifiers, ev: Evidence, g: Evidence, d: real, est: real)
    requires Flagged(m, ev, g, d)
    ensures Shift(m, g) == Shift(m, ev) + d && HardCapped(m, g, est) == HardCapped(m, ev, est)
  {
  }

  lemma FlagLeaves(n: Numerics, cfg: Settings, ev: Evidence, g: Evidence, d: real, rs: seq<Reading>)
    requires Flagged(cfg.modifiers, ev, g, d)
    ensures Base(cfg, g, rs) == Base(cfg, ev, rs) && ConfidenceOf(n, cfg, g, rs) == ConfidenceOf(n, cfg, ev, rs)
  {
  }

  lemma Moved(x: real, d: real)
    ensures MovedBy(MaxR(0.0, x), MaxR(0.0, x + d), d)
  {
  }

  /** Each flag alone moves an uncapped estimate by its own shift, and leaves its confidence alone. */
  lemma FlagsShift(n: Numerics, cfg: Settings, ev: Evidence, fs: Features, g: Evidence, d: real)
    requires Usable(cfg) && cfg.absences == [] && EstimateOf(n, cfg, ev, fs).Some? && Flagged(cfg.modifiers, ev, g, d)
    ensures EstimateOf(n, cfg, g, fs).Some? && MovedBy(LogOf(n, cfg, ev, fs), LogOf(n, cfg, g, fs), d)
    ensures EstimateOf(n, cfg, g, fs).value.confidence == EstimateOf(n, cfg, ev, fs).value.confidence
  {
    var rs := Readings(n, cfg.signals, fs);
    FlagLeaves(n, cfg, ev, g, d, rs);
    Uncapped(n, cfg, ev, fs);
    Uncapped(n, cfg, g, fs);
    var base := Base(cfg, ev, rs).value;
    FlagMoves(cfg.modifiers, ev, g, d, base);
    Moved(HardCapped(cfg.modifiers, ev, base) + Shift(cfg.modifiers, ev), d);
  }

  /** No hard modifier and no flag applies. */
  predicate Plain(ev: Evidence) {
    && ev.dnsNxdomain != Some(true) && ev.crawlParked != Some(true) && ev.dnsParked != Some(true)
    && ev.crawlBlocked != Some(true) && ev.analytics != Some(true) && ev.advertising != Some(true) && !ev.ecommerce
    && !(ev.crawlReachable == Some(false) && ev.dnsResolves == Some(true))
  }

  /** Plain evidence leaves the base as it is, if that is not negative. */
  lemma PlainIsBase(n: Numerics, cfg: Settings, ev: Evidence, fs: Features)
    requires Usable(cfg) && cfg.absences == [] && Plain(ev) && EstimateOf(n, cfg, ev, fs).Some?
    ensures LogOf(n, cfg, ev, fs) == MaxR(0.0, Base(cfg, ev, Readings(n, cfg.signals, fs)).value)
  {
    Uncapped(n, cfg, ev, fs);
  }

  lemma {:induction false} NoReadings(n: Numerics, signals: seq<Signal>, fs: Features)
    requires forall s | s in signals :: s.points != [] && (s.feature !in fs || fs[s.feature] == None)
    ensures Readings(n, signals, fs) == []
  {
    if signals != [] { NoReadings(n, signals[..|signals| - 1], fs); }
  }

  /** Without any signal the estimate says how much is known to be there: a page, a name, or nothing. */
  lemma NoSignals(n: Numerics, cfg: Settings, ev: Evidence, fs: Features)
    requires Usable(cfg) && cfg.absences == [] && Plain(ev)
    requires forall s | s in cfg.signals :: s.feature !in fs || fs[s.feature] == None
    ensures EstimateOf(n, cfg, ev, fs).Some?
    ensures LogOf(n, cfg, ev, fs) == if ev.crawlReachable == Some(true) then 3.0 else if ev.dnsResolves == Some(true) then 2.5 else 2.0
  {
    NoReadings(n, cfg.signals, fs);
    PlainIsBase(n, cfg, ev, fs);
  }

  /** Each hard cap holds exactly in its case: an unregistered, an unresolved, a parked site. */
  lemma HardCapsApply(m: Modifiers, ev: Evidence, est: real)
    ensures var nx := ev.dnsNxdomain == Some(true);
            var parked := ev.crawlParked == Some(true)
                          || (ev.dnsParked == Some(true) && (ev.crawlReachable != Some(true) || ev.crawlParked != Some(false)));
            var h := HardCapped(m, ev, est);
            var first := if !nx then est else MinR(est, if ev.rdapNotFound then m.unregisteredCap else m.nxdomainCap);
            h == if parked then MinR(first, m.parkedCap) else first
  {
  }

  // ------------------------------------------------------------------ absence from a list

  /** The absence caps are those of the absences in force, and no others. */
  lemma {:induction false} CapsAre(n: Numerics, cfg: Settings, ev: Evidence, absences: seq<Absence>, cap: real)
    requires Usable(cfg)
    ensures cap in AbsenceCaps(n, cfg, ev, absences) <==> exists a :: a in absences && AbsenceCap(n, cfg, ev, a) == Some(cap)
  {
    if absences != [] {
      var (front, last) := (absences[..|absences| - 1], absences[|absences| - 1]);
      assert absences == front + [last];
      CapsAre(n, cfg, ev, front, cap);
      if exists a :: a in absences && AbsenceCap(n, cfg, ev, a) == Some(cap) {
        var a :| a in absences && AbsenceCap(n, cfg, ev, a) == Some(cap);
        assert a in front || a == last;
      }
      assert last in absences;
    }
  }

  /** The least of an estimate and some caps: none above, and one of them. */
  lemma {:induction false} CappedIsLeast(caps: seq<real>, est: real)
    ensures CappedBy(caps, est) <= est && forall c | c in caps :: CappedBy(caps, est) <= c
    ensures CappedBy(caps, est) == est || CappedBy(caps, est) in caps
  {
    if caps != [] {
      var (front, last) := (caps[..|caps| - 1], caps[|caps| - 1]);
      assert caps == front + [last];
      CappedIsLeast(front, est);
    }
  }

  /**
   * An estimate is what it would be without absence caps, or the lowest cap in force, whichever is less: no absence lowers
   * it further, and none that is lower is ignored.
   */
  lemma AbsencesCap(n: Numerics, cfg: Settings, ev: Evidence, fs: Features)
    requires Usable(cfg) && EstimateOf(n, cfg, ev, fs).Some?
    ensures EstimateOf(n, cfg.(absences := []), ev, fs).Some?
    ensures var (capped, free) := (LogOf(n, cfg, ev, fs), LogOf(n, cfg.(absences := []), ev, fs));
            && capped <= free
            && (forall a | a in cfg.absences && AbsenceCap(n, cfg, ev, a).Some? :: capped <= MaxR(0.0, AbsenceCap(n, cfg, ev, a).value))
            && (capped == free || exists a :: a in cfg.absences && AbsenceCap(n, cfg, ev, a).Some? && capped == MaxR(0.0, AbsenceCap(n, cfg, ev, a).value))
  {
    var free := cfg.(absences := []);
    var caps := AbsenceCaps(n, cfg, ev, cfg.absences);
    assert Base(free, ev, Readings(n, cfg.signals, fs)) == Base(cfg, ev, Readings(n, cfg.signals, fs));
    Uncapped(n, free, ev, fs);
    var shifted := HardCapped(cfg.modifiers, ev, Base(cfg, ev, Readings(n, cfg.signals, fs)).value) + Shift(cfg.modifiers, ev);
    CappedIsLeast(caps, shifted);
    forall a | a in cfg.absences && AbsenceCap(n, cfg, ev, a).Some? ensures AbsenceCap(n, cfg, ev, a).value in caps {
      CapsAre(n, cfg, ev, cfg.absences, AbsenceCap(n, cfg, ev, a).value);
    }
    CapsAre(n, cfg, ev, cfg.absences, CappedBy(caps, shifted));
  }

  lemma {:induction false} FirstNamed(signals: seq<Signal>, name: string, i: nat)
    requires i < |signals| && signals[i].name == name && forall j | 0 <= j < i :: signals[j].name != name
    ensures SignalNamed(signals, name) == Some(signals[i])
  {
    if i > 0 { FirstNamed(signals[1..], name, i - 1); }
  }

  /**
   * An absence caps at what the list's last rank reads on its signal's curve, plus the tolerance, exactly if the source says
   * absent, the list's size is known and not zero, and no source that would excuse the absence is present.
   */
  lemma AbsenceReadsLastRank(n: Numerics, cfg: Settings, ev: Evidence, a: Absence, i: nat)
    requires Usable(cfg) && i < |cfg.signals| && cfg.signals[i].name == a.signal && forall j | 0 <= j < i :: cfg.signals[j].name != a.signal
    ensures var applies := a.source in ev.statuses && ev.statuses[a.source] == "absent" && a.listSize.Some? && a.listSize.value != 0.0
                           && forall k | 0 <= k < |a.unlessPresent| ::
                                a.unlessPresent[k] !in ev.statuses || ev.statuses[a.unlessPresent[k]] != "present";
            && (AbsenceCap(n, cfg, ev, a).Some? <==> applies)
            && (applies ==> AbsenceCap(n, cfg, ev, a).value
                            == n.round2(Interpolated(cfg.signals[i].points, n.log10(a.listSize.value)) + a.tolerance))
  {
    FirstNamed(cfg.signals, a.signal, i);
  }

  // ------------------------------------------------------------------ signals

  /** at lists the signals whose feature is known, in order; each has its reading, from its own curve and with its weight. */
  ghost predicate ReadFrom(n: Numerics, signals: seq<Signal>, fs: Features, rs: seq<Reading>, at: seq<nat>)
    requires forall s | s in signals :: s.points != []
  {
    && |at| == |rs| && (forall k | 0 <= k < |at| :: at[k] < |signals|) && (forall k, l | 0 <= k < l < |at| :: at[k] < at[l])
    && (forall k | 0 <= k < |at| ::
          var s := signals[at[k]];
          s.feature in fs && fs[s.feature].Some? && rs[k] == Reading(n.round3(Interpolated(s.points, fs[s.feature].value)), s.weight, s.kind))
    && forall i: nat | i < |signals| && signals[i].feature in fs && fs[signals[i].feature].Some? :: i in at
  }

  lemma {:induction false} ReadingsAre(n: Numerics, signals: seq<Signal>, fs: Features) returns (at: seq<nat>)
    requires forall s | s in signals :: s.points != []
    ensures ReadFrom(n, signals, fs, Readings(n, signals, fs), at)
  {
    at := [];
    if signals != [] {
      var m := |signals| - 1;
      assert forall s | s in signals[..m] :: s in signals;
      at := ReadingsAre(n, signals[..m], fs);
      assert signals[m] in signals;
      if Feature(fs, signals[m].feature).Some? { at := at + [m]; }
    }
  }

  /** How far the readings pull an estimate m up or down, by weight. */
  function Pull(rs: seq<Reading>, m: real): real {
    if rs == [] then 0.0 else Pull(rs[..|rs| - 1], m) + rs[|rs| - 1].weight * (rs[|rs| - 1].value - m)
  }

  lemma {:induction false} PullIs(rs: seq<Reading>, m: real)
    ensures Pull(rs, m) == Votes(rs) - m * Weights(rs)
  {
    if rs != [] {
      var (front, last) := (rs[..|rs| - 1], rs[|rs| - 1]);
      PullIs(front, m);
      PullTerm(Votes(front), Weights(front), last.weight, last.value, m);
    }
  }

  lemma PullTerm(votes: real, weights: real, w: real, v: real, m: real)
    ensures votes - m * weights + w * (v - m) == votes + v * w - m * (weights + w)
  {
    assert w * (v - m) == v * w - m * w && m * (weights + w) == m * weights + m * w;
  }

  lemma MeanPulls(rs: seq<Reading>, m: real)
    requires Weights(rs) != 0.0 && m == Votes(rs) / Weights(rs)
    ensures Pull(rs, m) == 0.0
  {
    PullIs(rs, m);
    Balanced(Votes(rs), Weights(rs), m);
  }

  lemma Balanced(votes: real, weights: real, m: real)
    requires weights != 0.0 && m == votes / weights
    ensures votes - m * weights == 0.0
  {
  }

  lemma BaseIsMean(cfg: Settings, ev: Evidence, rs: seq<Reading>) returns (m: real)
    requires rs != [] && Weights(rs) != 0.0
    ensures m == Votes(rs) / Weights(rs) && Base(cfg, ev, rs) == Some(if Popular(rs) != [] || m <= cfg.noPopularityCap then m else cfg.noPopularityCap)
  {
    m := Votes(rs) / Weights(rs);
  }

  /** The base is where the readings balance by weight; without a popularity signal it is held under the cap. */
  lemma BaseBalances(cfg: Settings, ev: Evidence, rs: seq<Reading>) returns (m: real)
    requires rs != [] && Weights(rs) != 0.0
    ensures Pull(rs, m) == 0.0
    ensures Base(cfg, ev, rs) == Some(if (exists k :: 0 <= k < |rs| && rs[k].kind == "popularity") || m <= cfg.noPopularityCap then m else cfg.noPopularityCap)
  {
    PopularAre(rs);
    m := BaseIsMean(cfg, ev, rs);
    MeanPulls(rs, m);
  }

  /** The popularity readings are those of that kind, in order. */
  lemma {:induction false} PopularAre(rs: seq<Reading>)
    ensures Popular(rs) != [] <==> exists k :: 0 <= k < |rs| && rs[k].kind == "popularity"
    ensures forall r :: multiset(Popular(rs))[r] == if r.kind == "popularity" then multiset(rs)[r] else 0
  {
    if rs != [] {
      var (front, last) := (rs[..|rs| - 1], rs[|rs| - 1]);
      assert rs == front + [last];
      PopularAre(front);
      if k :| 0 <= k < |front| && front[k].kind == "popularity" { assert rs[k].kind == "popularity"; }
      if k :| 0 <= k < |rs| && rs[k].kind == "popularity" { assert k == |front| || front[k].kind == "popularity"; }
    }
  }

  // ------------------------------------------------------------------ confidence

  /** What one more source adds: its weight unless it is disabled, and the part its status earns. */
  lemma SourceCounts(ws: seq<(string, real)>, statuses: map<string, string>, src: string, w: real)
    ensures var (total, more) := (TotalWeight(ws, statuses), TotalWeight(ws + [(src, w)], statuses));
            var (earned, got) := (Earned(ws, statuses), Earned(ws + [(src, w)], statuses));
            var status := if src in statuses then statuses[src] else "missing";
            && (status == "disabled" ==> more == total && got == earned)
            && (status != "disabled" ==> more == total + w)
            && (status == "present" ==> got == earned + w)
            && (status == "absent" ==> got == earned + 0.8 * w)
            && (status == "unreachable" ==> got == earned + 0.5 * w)
            && (status == "blocked" ==> got == earned + 0.3 * w)
            && (status !in {"disabled", "present", "absent", "unreachable", "blocked"} ==> got == earned)
  {
    assert (ws + [(src, w)])[..|ws|] == ws;
  }

  /** Coverage is the earned part of the weights, rounded; nothing to collect counts as nothing earned. */
  lemma CoverageIsShare(n: Numerics, cfg: Config, statuses: map<string, string>)
    ensures exists share ::
              && CoverageOf(n, cfg, statuses) == n.round4(share)
              && (TotalWeight(cfg.sourceWeights, statuses) != 0.0 ==>
                    share * TotalWeight(cfg.sourceWeights, statuses) == Earned(cfg.sourceWeights, statuses))
              && (TotalWeight(cfg.sourceWeights, statuses) == 0.0 ==> share == Earned(cfg.sourceWeights, statuses))
  {
    var (earned, total) := (Earned(cfg.sourceWeights, statuses), TotalWeight(cfg.sourceWeights, statuses));
    var share := earned / if total == 0.0 then 1.0 else total;
    assert CoverageOf(n, cfg, statuses) == n.round4(share);
  }

  /**
   * Agreement falls straight with the deviation, to 0 at the scale; fewer than two values say little. The deviation's
   * square is the mean squared distance from the mean.
   */
  lemma AgreementFalls(n: Numerics, cfg: Config, vals: seq<real>) returns (sd: real)
    requires Lawful(n) && cfg.disagreementScale > 0.0
    ensures vals == [] ==> AgreementOf(n, cfg, vals) == (0.3, None)
    ensures |vals| == 1 ==> AgreementOf(n, cfg, vals) == (0.6, None)
    ensures |vals| >= 2 ==> sd >= 0.0 && sd * sd * |vals| as real == SquaredDistances(vals, Statistics.Mean(vals))
    ensures |vals| >= 2 ==> AgreementOf(n, cfg, vals).1 == Some(n.round4(sd))
    ensures |vals| >= 2 && sd >= cfg.disagreementScale ==> AgreementOf(n, cfg, vals).0 == n.round4(0.0)
    ensures |vals| >= 2 && sd < cfg.disagreementScale ==> AgreementOf(n, cfg, vals).0 == n.round4(1.0 - sd / cfg.disagreementScale)
  {
    sd := 0.0;
    if |vals| >= 2 {
      sd := Deviation(n, vals);
      DeviationNonNegative(n, vals);
      var q := SquaredDistances(vals, Statistics.Mean(vals));
      DeviationIs(n, vals, q);
      RootBack(n, q, |vals| as real, sd);
      Falls(sd, cfg.disagreementScale);
    }
  }

  lemma Falls(sd: real, scale: real)
    requires sd >= 0.0 && scale > 0.0
    ensures MaxR(0.0, 1.0 - MinR(1.0, sd / scale)) == if sd >= scale then 0.0 else 1.0 - sd / scale
  {
    var q := sd / scale;
    assert q * scale == sd;
    QuotientNonNegative(sd, scale);
    if sd < scale { Below(q, scale, sd); } else { NotBelow(q, scale, sd); }
  }

  lemma Below(q: real, scale: real, sd: real)
    requires scale > 0.0 && q * scale == sd < scale
    ensures q < 1.0
  {
  }

  lemma NotBelow(q: real, scale: real, sd: real)
    requires scale > 0.0 && q * scale == sd >= scale
    ensures q >= 1.0
  {
  }

  /** The squared distances of the values from m, added up. */
  function SquaredDistances(vals: seq<real>, m: real): real {
    if vals == [] then 0.0 else SquaredDistances(vals[..|vals| - 1], m) + (vals[|vals| - 1] - m) * (vals[|vals| - 1] - m)
  }

  lemma {:induction false} DistancesAreDot(vals: seq<real>, m: real)
    ensures Statistics.Dot(Statistics.Shifted(vals, m), Statistics.Shifted(vals, m)) == SquaredDistances(vals, m)
  {
    if vals != [] {
      var front := vals[..|vals| - 1];
      DistancesAreDot(front, m);
      assert Statistics.Shifted(vals, m)[..|front|] == Statistics.Shifted(front, m);
    }
  }

  lemma Back(s: real, v: real, k: real, d: real)
    requires k > 0.0 && v == d / k && s * s == v
    ensures s * s * k == d
  {
    assert v * k == d;
  }

  lemma RootOf(n: Numerics, v: real)
    requires Lawful(n) && v >= 0.0
    ensures n.sqrt(v) * n.sqrt(v) == v
  {
  }

  lemma DeviationIs(n: Numerics, vals: seq<real>, q: real)
    requires Lawful(n) && vals != [] && q == SquaredDistances(vals, Statistics.Mean(vals))
    ensures q >= 0.0 && Deviation(n, vals) == n.sqrt(q / |vals| as real)
  {
    var c := Statistics.Shifted(vals, Statistics.Mean(vals));
    DistancesAreDot(vals, Statistics.Mean(vals));
    Statistics.DotSquareNonNegative(c);
  }

  lemma RootBack(n: Numerics, d: real, k: real, sd: real)
    requires Lawful(n) && d >= 0.0 && k > 0.0 && sd == n.sqrt(d / k)
    ensures sd * sd * k == d
  {
    QuotientNonNegative(d, k);
    RootOf(n, d / k);
    Back(sd, d / k, k, d);
  }

  /** The score adds up weighted coverage and agreement, and a bonus for two popularity sources; a blocked crawl holds it at 0.65. */
  lemma ScoreAddsUp(n: Numerics, cfg: Config, statuses: map<string, string>, cov: real, agr: real)
    ensures var bonus := if Present2(statuses) then cfg.popularityBonus else 0.0;
            var raw := cfg.coverageWeight * cov + cfg.agreementWeight * agr + bonus;
            var held := if "crawl" in statuses && statuses["crawl"] == "blocked" && raw > 0.65 then 0.65 else raw;
            ScoreOf(n, cfg, statuses, cov, agr) == n.round2(if held < 0.0 then 0.0 else if held > 1.0 then 1.0 else held)
  {
    PopularityCounted(statuses);
    var bonus := if Present2(statuses) then cfg.popularityBonus else 0.0;
    assert Bonus(cfg, statuses) == bonus;
    assert Weighted(cfg.coverageWeight, cov, cfg.agreementWeight, agr, bonus) == cfg.coverageWeight * cov + cfg.agreementWeight * agr + bonus;
    ScoreHeld(n, statuses, Weighted(cfg.coverageWeight, cov, cfg.agreementWeight, agr, bonus));
  }

  lemma ScoreHeld(n: Numerics, statuses: map<string, string>, raw: real)
    ensures var held := if "crawl" in statuses && statuses["crawl"] == "blocked" && raw > 0.65 then 0.65 else raw;
            FinalScore(n, statuses, raw) == n.round2(if held < 0.0 then 0.0 else if held > 1.0 then 1.0 else held)
  {
  }

  /** At least two of the popularity sources were present. */
  predicate Present2(statuses: map<string, string>) {
    exists a, b ::
      && a in {"tranco", "crux_top", "cc_webgraph", "majestic", "openpagerank"} && b in {"tranco", "crux_top", "cc_webgraph", "majestic", "openpagerank"}
      && a != b && a in statuses && statuses[a] == "present" && b in statuses && statuses[b] == "present"
  }

  function One(statuses: map<string, string>, src: string): nat { if src in statuses && statuses[src] == "present" then 1 else 0 }

  lemma PopularityCounted(statuses: map<string, string>)
    ensures PopularitySources(statuses, |POPULARITY_SOURCES|) >= 2 <==> Present2(statuses)
  {
    assert PopularitySources(statuses, 1) == One(statuses, "tranco");
    assert PopularitySources(statuses, 2) == One(statuses, "tranco") + One(statuses, "crux_top");
    assert PopularitySources(statuses, 3) == One(statuses, "tranco") + One(statuses, "crux_top") + One(statuses, "cc_webgraph");
    assert PopularitySources(statuses, 4) == PopularitySources(statuses, 3) + One(statuses, "majestic");
    assert PopularitySources(statuses, 5) == PopularitySources(statuses, 4) + One(statuses, "openpagerank");
  }

  /** The grade is high from the high threshold on, else medium from the medium one on, else low. */
  lemma GradeFollowsScore(n: Numerics, cfg: Settings, ev: Evidence, fs: Features)
    requires Usable(cfg) && EstimateOf(n, cfg, ev, fs).Some?
    ensures var c := EstimateOf(n, cfg, ev, fs).value.confidence;
            && (c.score >= cfg.confidence.high ==> c.grade == "high")
            && (c.score < cfg.confidence.high && c.score >= cfg.confidence.medium ==> c.grade == "medium")
            && (c.score < cfg.confidence.high && c.score < cfg.confidence.medium ==> c.grade == "low")
  {
  }

  /**
   * The confidence of an estimate: coverage of the statuses, agreement of the popularity readings if there are any, else of
   * all readings, and the score of the two.
   */
  lemma ConfidenceRestsOn(n: Numerics, cfg: Settings, ev: Evidence, fs: Features)
    requires Usable(cfg) && EstimateOf(n, cfg, ev, fs).Some?
    ensures var (c, rs) := (EstimateOf(n, cfg, ev, fs).value.confidence, Readings(n, cfg.signals, fs));
            var judged := if exists k :: 0 <= k < |rs| && rs[k].kind == "popularity" then Popular(rs) else rs;
            && c.coverage == CoverageOf(n, cfg.confidence, ev.statuses)
            && c.score == ScoreOf(n, cfg.confidence, ev.statuses, c.coverage, c.agreement)
            && exists vals :: |vals| == |judged| && (forall k | 0 <= k < |vals| :: vals[k] == judged[k].value)
                              && (c.agreement, c.sd) == AgreementOf(n, cfg.confidence, vals)
  {
    var rs := Readings(n, cfg.signals, fs);
    PopularAre(rs);
    var vals := AgreementInputs(rs);
    assert (EstimateOf(n, cfg, ev, fs).value.confidence.agreement, EstimateOf(n, cfg, ev, fs).value.confidence.sd) == AgreementOf(n, cfg.confidence, vals);
  }
}
