/** The heuristic estimator: signals through their curves to a weighted mean, modifiers and caps, a range and a bucket. */
module Estimator {
  import opened Common
  import opened Curve
  import opened Confidence
  import Buckets

  datatype Signal = Signal(name: string, feature: string, points: seq<Point>, weight: real, kind: string)

  datatype Modifiers = Modifiers(unregisteredCap: real, nxdomainCap: real, parkedCap: real, unreachableShift: real, blockedShift: real,
                                 analyticsShift: real, advertisingShift: real, ecommerceShift: real)

  /** An entry of absent_from_list_caps; listSize is the feature it names, if the vector has it. */
  datatype Absence = Absence(name: string, source: string, listSize: Option<real>, signal: string, tolerance: real, unlessPresent: seq<string>)

  datatype Range = Range(base: real, missingEvidence: real, disagreement: real, max: real)

  datatype Settings = Settings(signals: seq<Signal>, noPopularityCap: real, modifiers: Modifiers, absences: seq<Absence>,
                               range: Range, confidence: Config, buckets: seq<Buckets.Bucket>)

  /** The parts of the feature vector the estimate reads besides the normalized signals. */
  datatype Evidence = Evidence(statuses: map<string, string>, crawlReachable: Option<bool>, dnsResolves: Option<bool>,
                               rdapNotFound: bool, dnsNxdomain: Option<bool>, crawlParked: Option<bool>, dnsParked: Option<bool>,
                               crawlBlocked: Option<bool>, analytics: Option<bool>, advertising: Option<bool>, ecommerce: bool)

  /** The normalized features; a feature may be missing or None. */
  type Features = map<string, Option<real>>

  datatype Estimate = Estimate(visits: int, lower: int, upper: int, bucket: string, confidence: Confidence, log10: real)

  predicate Is(o: Option<bool>) { o == Some(true) }

  // ------------------------------------------------------------------ signals to a base estimate

  datatype Reading = Reading(value: real, weight: real, kind: string)

  function Feature(fs: Features, name: string): Option<real> { if name in fs then fs[name] else None }

  /** One reading per signal whose feature is known, in the configured order. */
  function Readings(n: Numerics, signals: seq<Signal>, fs: Features): seq<Reading>
    requires forall s | s in signals :: s.points != []
  {
    if signals == [] then []
    else
      var (before, s) := (Readings(n, signals[..|signals| - 1], fs), signals[|signals| - 1]);
      var x := Feature(fs, s.feature);
      if x.None? then before else before + [Reading(n.round3(Interpolated(s.points, x.value)), s.weight, s.kind)]
  }

  function Weights(rs: seq<Reading>): real { if rs == [] then 0.0 else Weights(rs[..|rs| - 1]) + rs[|rs| - 1].weight }

  function Votes(rs: seq<Reading>): real { if rs == [] then 0.0 else Votes(rs[..|rs| - 1]) + rs[|rs| - 1].value * rs[|rs| - 1].weight }

  function Values(rs: seq<Reading>): (vs: seq<real>)
    ensures |vs| == |rs|
  {
    seq(|rs|, i requires 0 <= i < |rs| => rs[i].value)
  }

  function Popular(rs: seq<Reading>): seq<Reading> {
    if rs == [] then []
    else if rs[|rs| - 1].kind == "popularity" then Popular(rs[..|rs| - 1]) + [rs[|rs| - 1]]
    else Popular(rs[..|rs| - 1])
  }

  /** The estimate before modifiers; None where the weighted mean divides by zero. */
  function Base(cfg: Settings, ev: Evidence, rs: seq<Reading>): Option<real> {
    if rs == [] then Some(if Is(ev.crawlReachable) then 3.0 else if Is(ev.dnsResolves) then 2.5 else 2.0)
    else if Weights(rs) == 0.0 then None
    else
      var mean := Votes(rs) / Weights(rs);
      Some(if Popular(rs) == [] then MinR(mean, cfg.noPopularityCap) else mean)
  }

  // ------------------------------------------------------------------ modifiers and caps

  /** The site looks unregistered, unresolvable or parked. */
  function HardCapped(m: Modifiers, ev: Evidence, est: real): real {
    var a := if ev.rdapNotFound && Is(ev.dnsNxdomain) then MinR(est, m.unregisteredCap)
             else if Is(ev.dnsNxdomain) then MinR(est, m.nxdomainCap)
             else est;
    if Parked(ev) then MinR(a, m.parkedCap) else a
  }

  /** A live, non-parked homepage outranks a parking-style hint from DNS. */
  predicate Parked(ev: Evidence) {
    Is(ev.crawlParked) || (Is(ev.dnsParked) && !(Is(ev.crawlReachable) && ev.crawlParked == Some(false)))
  }

  function Shift(m: Modifiers, ev: Evidence): real {
    (if ev.crawlReachable == Some(false) && Is(ev.dnsResolves) then m.unreachableShift else 0.0)
    + (if Is(ev.crawlBlocked) then m.blockedShift else 0.0)
    + (if Is(ev.analytics) then m.analyticsShift else 0.0)
    + (if Is(ev.advertising) then m.advertisingShift else 0.0)
    + (if ev.ecommerce then m.ecommerceShift else 0.0)
  }

  function CappedBy(caps: seq<real>, est: real): real {
    if caps == [] then est else MinR(CappedBy(caps[..|caps| - 1], est), caps[|caps| - 1])
  }

  function Adjusted(m: Modifiers, ev: Evidence, caps: seq<real>, est: real): real {
    MaxR(0.0, CappedBy(caps, HardCapped(m, ev, est) + Shift(m, ev)))
  }

  predicate Present(statuses: map<string, string>, src: string) { src in statuses && statuses[src] == "present" }

  function SignalNamed(signals: seq<Signal>, name: string): Option<Signal> {
    if signals == [] then None else if signals[0].name == name then Some(signals[0]) else SignalNamed(signals[1..], name)
  }

  /** The cap an absence sets: the list's last rank on the signal's curve, plus a tolerance. */
  function AbsenceCap(n: Numerics, cfg: Settings, ev: Evidence, a: Absence): Option<real>
    requires forall s | s in cfg.signals :: s.points != []
  {
    var s := SignalNamed(cfg.signals, a.signal);
    if a.source !in ev.statuses || ev.statuses[a.source] != "absent" || a.listSize.None? || a.listSize.value == 0.0 || s.None? then None
    else if exists i | 0 <= i < |a.unlessPresent| :: Present(ev.statuses, a.unlessPresent[i]) then None
    else
      SignalIsConfigured(cfg.signals, a.signal);
      Some(n.round2(Interpolated(s.value.points, n.log10(a.listSize.value)) + a.tolerance))
  }

  lemma {:induction false} SignalIsConfigured(signals: seq<Signal>, name: string)
    ensures SignalNamed(signals, name).Some? ==> SignalNamed(signals, name).value in signals
  {
    if signals != [] && signals[0].name != name { SignalIsConfigured(signals[1..], name); }
  }

  function AbsenceCaps(n: Numerics, cfg: Settings, ev: Evidence, absences: seq<Absence>): seq<real>
    requires forall s | s in cfg.signals :: s.points != []
  {
    if absences == [] then []
    else
      var before := AbsenceCaps(n, cfg, ev, absences[..|absences| - 1]);
      var cap := AbsenceCap(n, cfg, ev, absences[|absences| - 1]);
      if cap.Some? then before + [cap.value] else before
  }

  // ------------------------------------------------------------------ the range

  function Spread(r: Range, c: Confidence): real {
    MinR(r.base + r.missingEvidence * (1.0 - c.coverage) + r.disagreement * (if c.sd.Some? then c.sd.value else 0.0), r.max)
  }

  function Finished(n: Numerics, cfg: Settings, est: real, c: Confidence): Estimate
    requires cfg.buckets != []
  {
    var spread := Spread(cfg.range, c);
    var visits := n.nearest(n.pow10(est));
    Estimate(visits, n.nearest(n.pow10(MaxR(0.0, est - spread))), n.nearest(n.pow10(est + spread)),
             cfg.buckets[Buckets.IndexFor(cfg.buckets, Some(visits))].name, c, est)
  }

  // ------------------------------------------------------------------ estimate

  /** What the source's indexing demands of a configuration: curves have points and there are buckets. */
  ghost predicate Usable(cfg: Settings) {
    cfg.buckets != [] && forall s | s in cfg.signals :: s.points != []
  }

  method Read(n: Numerics, signals: seq<Signal>, fs: Features) returns (rs: seq<Reading>)
    requires forall s | s in signals :: s.points != []
    ensures rs == Readings(n, signals, fs)
  {
    rs := [];
    for i := 0 to |signals|
      invariant rs == Readings(n, signals[..i], fs)
    {
      assert signals[..i + 1][..i] == signals[..i];
      var x := Feature(fs, signals[i].feature);
      if x.Some? {
        assert signals[i] in signals;
        var y := Interpolate(signals[i].points, x.value);
        rs := rs + [Reading(n.round3(y), signals[i].weight, signals[i].kind)];
      }
    }
    assert signals[..|signals|] == signals;
  }

  method Caps(n: Numerics, cfg: Settings, ev: Evidence) returns (caps: seq<real>)
    requires Usable(cfg)
    ensures caps == AbsenceCaps(n, cfg, ev, cfg.absences)
  {
    var absences := cfg.absences;
    caps := [];
    for i := 0 to |absences|
      invariant caps == AbsenceCaps(n, cfg, ev, absences[..i])
    {
      assert absences[..i + 1][..i] == absences[..i];
      var cap := AbsenceCap(n, cfg, ev, absences[i]);
      if cap.Some? { caps := caps + [cap.value]; }
    }
    assert absences[..|absences|] == absences;
  }

  /** The modifiers in the order the source applies them, then the absence caps. */
  method Adjust(m: Modifiers, ev: Evidence, caps: seq<real>, base: real) returns (est: real)
    ensures est == Adjusted(m, ev, caps, base)
  {
    est := base;
    if ev.rdapNotFound && Is(ev.dnsNxdomain) {
      est := MinR(est, m.unregisteredCap);
    } else if Is(ev.dnsNxdomain) {
      est := MinR(est, m.nxdomainCap);
    }
    var crawlSawSite := Is(ev.crawlReachable) && ev.crawlParked == Some(false);
    if Is(ev.crawlParked) || (Is(ev.dnsParked) && !crawlSawSite) { est := MinR(est, m.parkedCap); }
    if ev.crawlReachable == Some(false) && Is(ev.dnsResolves) { est := est + m.unreachableShift; }
    if Is(ev.crawlBlocked) { est := est + m.blockedShift; }
    if Is(ev.analytics) { est := est + m.analyticsShift; }
    if Is(ev.advertising) { est := est + m.advertisingShift; }
    if ev.ecommerce { est := est + m.ecommerceShift; }
    ghost var shifted := est;
    for i := 0 to |caps|
      invariant est == CappedBy(caps[..i], shifted)
    {
      assert caps[..i + 1][..i] == caps[..i];
      if est > caps[i] { est := caps[i]; }
    }
    assert caps[..|caps|] == caps;
    est := MaxR(0.0, est);
  }

  /** The values agreement is judged on: the popularity signals, or all of them when there are none. */
  function AgreementInputs(rs: seq<Reading>): seq<real> { if Popular(rs) != [] then Values(Popular(rs)) else Values(rs) }

  function ConfidenceOf(n: Numerics, cfg: Settings, ev: Evidence, rs: seq<Reading>): Confidence {
    var (agr, sd) := AgreementOf(n, cfg.confidence, AgreementInputs(rs));
    var cov := CoverageOf(n, cfg.confidence, ev.statuses);
    var score := ScoreOf(n, cfg.confidence, ev.statuses, cov, agr);
    Confidence(LabelOf(cfg.confidence, score), score, cov, agr, sd)
  }

  function EstimateOf(n: Numerics, cfg: Settings, ev: Evidence, fs: Features): Option<Estimate>
    requires cfg.buckets != [] && forall s | s in cfg.signals :: s.points != []
  {
    var rs := Readings(n, cfg.signals, fs);
    var base := Base(cfg, ev, rs);
    if base.None? then None
    else Some(Finished(n, cfg, Adjusted(cfg.modifiers, ev, AbsenceCaps(n, cfg, ev, cfg.absences), base.value), ConfidenceOf(n, cfg, ev, rs)))
  }

  method EstimateTraffic(n: Numerics, cfg: Settings, ev: Evidence, fs: Features) returns (r: Option<Estimate>)
    requires Usable(cfg)
    ensures r == EstimateOf(n, cfg, ev, fs)
  {
    var rs := Read(n, cfg.signals, fs);
    var base := Base(cfg, ev, rs);
    if base.None? { return None; }
    var caps := Caps(n, cfg, ev);
    var est := Adjust(cfg.modifiers, ev, caps, base.value);
    var c := ComputeConfidence(n, cfg.confidence, ev.statuses, AgreementInputs(rs));
    var e := Report(n, cfg, est, c);
    return Some(e);
  }

  /** The numbers reported for a final estimate. */
  method Report(n: Numerics, cfg: Settings, est: real, c: Confidence) returns (e: Estimate)
    requires cfg.buckets != []
    ensures e == Finished(n, cfg, est, c)
  {
    var spread := Spread(cfg.range, c);
    var visits := n.nearest(n.pow10(est));
    var lower := n.nearest(n.pow10(MaxR(0.0, est - spread)));
    var upper := n.nearest(n.pow10(est + spread));
    var bucket := Buckets.BucketFor(cfg.buckets, Some(visits));
    e := Estimate(visits, lower, upper, bucket, c, est);
  }

  // ------------------------------------------------------------------ the range holds the estimate

  ghost predicate NonNegativeSettings(cfg: Settings) {
    && NonNegative(cfg.confidence)
    && cfg.range.base >= 0.0 && cfg.range.missingEvidence >= 0.0 && cfg.range.disagreement >= 0.0 && cfg.range.max >= 0.0
  }

  lemma SpreadNonNegative(r: Range, c: Confidence)
    requires r.base >= 0.0 && r.missingEvidence >= 0.0 && r.disagreement >= 0.0 && r.max >= 0.0
    requires c.coverage <= 1.0 && (c.sd.Some? ==> c.sd.value >= 0.0)
    ensures Spread(r, c) >= 0.0
  {
    Product(r.missingEvidence, 1.0 - c.coverage);
    if c.sd.Some? { Product(r.disagreement, c.sd.value); }
  }

  lemma FinishedIsOrdered(n: Numerics, cfg: Settings, est: real, c: Confidence)
    requires Lawful(n) && cfg.buckets != [] && est >= 0.0 && Spread(cfg.range, c) >= 0.0
    ensures var e := Finished(n, cfg, est, c); e.lower <= e.visits <= e.upper
  {
    var spread := Spread(cfg.range, c);
    assert n.pow10(MaxR(0.0, est - spread)) <= n.pow10(est) <= n.pow10(est + spread);
  }

  /** lower <= visits <= upper and the confidence is in [0, 1], on every input. */
  lemma EstimateIsCoherent(n: Numerics, cfg: Settings, ev: Evidence, fs: Features)
    requires Lawful(n) && Usable(cfg) && NonNegativeSettings(cfg) && EstimateOf(n, cfg, ev, fs).Some?
    ensures var e := EstimateOf(n, cfg, ev, fs).value;
            && e.lower <= e.visits <= e.upper && e.log10 >= 0.0
            && 0.0 <= e.confidence.score <= 1.0 && 0.0 <= e.confidence.coverage <= 1.0 && 0.0 <= e.confidence.agreement <= 1.0
  {
    var rs := Readings(n, cfg.signals, fs);
    var c := ConfidenceOf(n, cfg, ev, rs);
    CoverageInRange(n, cfg.confidence, ev.statuses);
    AgreementInRange(n, cfg.confidence, AgreementInputs(rs));
    ScoreInRange(n, cfg.confidence, ev.statuses, c.coverage, c.agreement);
    SpreadNonNegative(cfg.range, c);
    FinishedIsOrdered(n, cfg, EstimateOf(n, cfg, ev, fs).value.log10, c);
  }

  // ------------------------------------------------------------------ caps

  lemma {:induction false} CappedByEach(caps: seq<real>, est: real, k: nat)
    requires k < |caps|
    ensures CappedBy(caps, est) <= caps[k] && CappedBy(caps, est) <= est
  {
    if k < |caps| - 1 {
      CappedByEach(caps[..|caps| - 1], est, k);
    } else if |caps| > 1 {
      CappedByEach(caps[..|caps| - 1], est, 0);
    }
  }

  lemma {:induction false} CapIsListed(n: Numerics, cfg: Settings, ev: Evidence, absences: seq<Absence>, a: Absence)
    requires Usable(cfg) && a in absences && AbsenceCap(n, cfg, ev, a).Some?
    ensures AbsenceCap(n, cfg, ev, a).value in AbsenceCaps(n, cfg, ev, absences)
  {
    if absences[|absences| - 1] != a { CapIsListed(n, cfg, ev, absences[..|absences| - 1], a); }
  }

  /** Absence from a complete list bounds the final estimate, the shifts included. */
  lemma AbsenceBounds(n: Numerics, cfg: Settings, ev: Evidence, fs: Features, a: Absence)
    requires Usable(cfg) && EstimateOf(n, cfg, ev, fs).Some? && a in cfg.absences && AbsenceCap(n, cfg, ev, a).Some?
    ensures EstimateOf(n, cfg, ev, fs).value.log10 <= MaxR(0.0, AbsenceCap(n, cfg, ev, a).value)
  {
    var caps := AbsenceCaps(n, cfg, ev, cfg.absences);
    CapIsListed(n, cfg, ev, cfg.absences, a);
    var k :| 0 <= k < |caps| && caps[k] == AbsenceCap(n, cfg, ev, a).value;
    var base := Base(cfg, ev, Readings(n, cfg.signals, fs)).value;
    CappedByEach(caps, HardCapped(cfg.modifiers, ev, base) + Shift(cfg.modifiers, ev), k);
  }

  /** Parked and unregistered sites are bounded by their caps, moved only by the shifts. */
  lemma HardCapsBound(m: Modifiers, ev: Evidence, caps: seq<real>, est: real)
    ensures Parked(ev) ==> Adjusted(m, ev, caps, est) <= MaxR(0.0, m.parkedCap + Shift(m, ev))
    ensures ev.rdapNotFound && Is(ev.dnsNxdomain) ==> Adjusted(m, ev, caps, est) <= MaxR(0.0, m.unregisteredCap + Shift(m, ev))
    ensures !ev.rdapNotFound && Is(ev.dnsNxdomain) ==> Adjusted(m, ev, caps, est) <= MaxR(0.0, m.nxdomainCap + Shift(m, ev))
  {
    var shifted := HardCapped(m, ev, est) + Shift(m, ev);
    if caps != [] { CappedByEach(caps, shifted, 0); }
  }

  // ------------------------------------------------------------------ the weighted mean

  /** The votes are between those of the weights at lo and at hi. */
  ghost predicate Bounded(votes: real, weights: real, lo: real, hi: real) { lo * weights <= votes <= hi * weights }

  lemma {:induction false} VotesBetween(rs: seq<Reading>, lo: real, hi: real)
    requires forall i | 0 <= i < |rs| :: rs[i].weight >= 0.0 && lo <= rs[i].value <= hi
    ensures lo * Weights(rs) <= Votes(rs) <= hi * Weights(rs) && Weights(rs) >= 0.0
  {
    if rs != [] {
      var (front, last) := (rs[..|rs| - 1], rs[|rs| - 1]);
      VotesBetween(front, lo, hi);
      Products(last.weight, lo, last.value);
      Products(last.weight, last.value, hi);
      Distribute(lo, Weights(front), last.weight);
      Distribute(hi, Weights(front), last.weight);
    }
  }

  lemma VotesBounded(rs: seq<Reading>, lo: real, hi: real)
    requires forall i | 0 <= i < |rs| :: rs[i].weight >= 0.0 && lo <= rs[i].value <= hi
    ensures Bounded(Votes(rs), Weights(rs), lo, hi) && Weights(rs) >= 0.0
  {
    VotesBetween(rs, lo, hi);
  }

  lemma Distribute(a: real, b: real, c: real)
    ensures a * (b + c) == a * b + a * c && a * c == c * a
  {
  }

  lemma QuotientBetween(a: real, w: real, lo: real, hi: real)
    requires w > 0.0 && Bounded(a, w, lo, hi)
    ensures lo <= a / w <= hi
  {
    assert lo * w / w == lo && hi * w / w == hi;
    MeanGrows(lo * w, a, w);
    MeanGrows(a, hi * w, w);
  }

  /** Before modifiers the estimate lies between its lowest and highest signal, or at the cap for unlisted sites. */
  lemma BaseBetweenSignals(cfg: Settings, ev: Evidence, rs: seq<Reading>, lo: real, hi: real)
    requires rs != [] && Weights(rs) != 0.0 && forall i | 0 <= i < |rs| :: rs[i].weight >= 0.0 && lo <= rs[i].value <= hi
    ensures Base(cfg, ev, rs).Some? && Base(cfg, ev, rs).value <= hi
    ensures Popular(rs) != [] || Base(cfg, ev, rs).value != cfg.noPopularityCap ==> lo <= Base(cfg, ev, rs).value
    ensures Popular(rs) == [] ==> Base(cfg, ev, rs).value <= cfg.noPopularityCap
  {
    MeanBetween(rs, lo, hi);
  }

  lemma MeanBetween(rs: seq<Reading>, lo: real, hi: real)
    requires Weights(rs) != 0.0 && forall i | 0 <= i < |rs| :: rs[i].weight >= 0.0 && lo <= rs[i].value <= hi
    ensures lo <= Votes(rs) / Weights(rs) <= hi
  {
    VotesBounded(rs, lo, hi);
    QuotientBetween(Votes(rs), Weights(rs), lo, hi);
  }

  // ------------------------------------------------------------------ a worse rank never helps

  lemma {:induction false} CappedByGrows(caps: seq<real>, a: real, b: real)
    requires a <= b
    ensures CappedBy(caps, a) <= CappedBy(caps, b)
  {
    if caps != [] { CappedByGrows(caps[..|caps| - 1], a, b); }
  }

  lemma AdjustedGrows(m: Modifiers, ev: Evidence, caps: seq<real>, a: real, b: real)
    requires a <= b
    ensures Adjusted(m, ev, caps, a) <= Adjusted(m, ev, caps, b)
  {
    CappedByGrows(caps, HardCapped(m, ev, a) + Shift(m, ev), HardCapped(m, ev, b) + Shift(m, ev));
  }

  /** The same signals were read, none with a higher value. */
  ghost predicate NotAbove(rs: seq<Reading>, qs: seq<Reading>) {
    |rs| == |qs| && forall i | 0 <= i < |rs| :: rs[i].weight == qs[i].weight && rs[i].kind == qs[i].kind && rs[i].value <= qs[i].value
  }

  lemma {:induction false} NotAboveSums(rs: seq<Reading>, qs: seq<Reading>)
    requires NotAbove(rs, qs) && forall i | 0 <= i < |rs| :: rs[i].weight >= 0.0
    ensures Weights(rs) == Weights(qs) >= 0.0 && Votes(rs) <= Votes(qs) && |Popular(rs)| == |Popular(qs)|
  {
    if rs != [] {
      var n := |rs| - 1;
      NotAboveSums(rs[..n], qs[..n]);
      Products(rs[n].weight, rs[n].value, qs[n].value);
    }
  }

  lemma MeanGrows(a: real, b: real, w: real)
    requires a <= b && w > 0.0
    ensures a / w <= b / w
  {
  }

  lemma BaseGrows(cfg: Settings, ev: Evidence, rs: seq<Reading>, qs: seq<Reading>)
    requires NotAbove(rs, qs) && forall i | 0 <= i < |rs| :: rs[i].weight >= 0.0
    ensures Base(cfg, ev, rs).Some? == Base(cfg, ev, qs).Some?
    ensures Base(cfg, ev, rs).Some? ==> Base(cfg, ev, rs).value <= Base(cfg, ev, qs).value
  {
    NotAboveSums(rs, qs);
    if rs != [] && Weights(rs) != 0.0 { MeanGrows(Votes(rs), Votes(qs), Weights(rs)); }
  }

  /** Only the feature f differs, and it is larger in gs: a worse rank. */
  ghost predicate WorseIn(fs: Features, gs: Features, f: string) {
    && (forall name | name != f :: Feature(fs, name) == Feature(gs, name))
    && Feature(fs, f).Some? && Feature(gs, f).Some? && Feature(fs, f).value <= Feature(gs, f).value
  }

  /** Every curve over f falls: its points have distinct x and never rise. */
  ghost predicate Falling(signals: seq<Signal>, f: string) {
    forall s | s in signals && s.feature == f :: s.points != [] && DistinctX(s.points) && Moves(s.points, false)
  }

  lemma {:induction false} WorseReadings(n: Numerics, signals: seq<Signal>, fs: Features, gs: Features, f: string)
    requires Lawful(n) && (forall s | s in signals :: s.points != [] && s.weight >= 0.0) && Falling(signals, f) && WorseIn(fs, gs, f)
    ensures NotAbove(Readings(n, signals, gs), Readings(n, signals, fs))
    ensures forall i | 0 <= i < |Readings(n, signals, gs)| :: Readings(n, signals, gs)[i].weight >= 0.0
  {
    if signals != [] {
      var (front, s) := (signals[..|signals| - 1], signals[|signals| - 1]);
      assert signals == front + [s];
      WorseReadings(n, front, fs, gs, f);
      var (x, z) := (Feature(fs, s.feature), Feature(gs, s.feature));
      if s.feature == f {
        InterpolatedMoves(s.points, x.value, z.value, false);
        assert n.round3(Interpolated(s.points, z.value)) <= n.round3(Interpolated(s.points, x.value));
      } else {
        assert x == z;
      }
    }
  }

  /** No more visits and no higher bucket, each named by its index. */
  ghost predicate NoBetter(bs: seq<Buckets.Bucket>, worse: Estimate, better: Estimate)
    requires bs != []
  {
    var (i, j) := (Buckets.IndexFor(bs, Some(worse.visits)), Buckets.IndexFor(bs, Some(better.visits)));
    && worse.log10 <= better.log10 && worse.visits <= better.visits
    && i <= j && worse.bucket == bs[i].name && better.bucket == bs[j].name
  }

  /** All else equal, a worse rank on a falling curve raises neither the visits nor the bucket. */
  lemma WorseRankNeverHelps(n: Numerics, cfg: Settings, ev: Evidence, fs: Features, gs: Features, f: string)
    requires Lawful(n) && Usable(cfg) && (forall s | s in cfg.signals :: s.weight >= 0.0)
    requires Falling(cfg.signals, f) && WorseIn(fs, gs, f)
    requires Buckets.Contiguous(cfg.buckets) && cfg.buckets[0].min <= 0
    ensures var (better, worse) := (EstimateOf(n, cfg, ev, fs), EstimateOf(n, cfg, ev, gs));
            && (better.Some? <==> worse.Some?)
            && (better.Some? ==> NoBetter(cfg.buckets, worse.value, better.value))
  {
    var (rs, qs) := (Readings(n, cfg.signals, gs), Readings(n, cfg.signals, fs));
    WorseReadings(n, cfg.signals, fs, gs, f);
    BaseGrows(cfg, ev, rs, qs);
    if Base(cfg, ev, rs).Some? {
      var caps := AbsenceCaps(n, cfg, ev, cfg.absences);
      var (a, b) := (Base(cfg, ev, rs).value, Base(cfg, ev, qs).value);
      AdjustedGrows(cfg.modifiers, ev, caps, a, b);
      var (v, w) := (Adjusted(cfg.modifiers, ev, caps, a), Adjusted(cfg.modifiers, ev, caps, b));
      VisitsGrow(n, v, w);
      Buckets.IndexGrows(cfg.buckets, n.nearest(n.pow10(v)), n.nearest(n.pow10(w)));
    }
  }

  lemma VisitsGrow(n: Numerics, v: real, w: real)
    requires Lawful(n) && v <= w
    ensures n.nearest(n.pow10(v)) <= n.nearest(n.pow10(w))
  {
    assert n.pow10(v) <= n.pow10(w);
  }
}
