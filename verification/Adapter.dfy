/** The engine's adapter: raw keyword arguments to typed inputs, the decision, its legacy form, the elevation rule. */
module Adapter {
  import opened Common
  import opened Rounding
  import opened Decision
  import Ladder = ThresholdLadder

  // ---------------------------------------------------------------- raw arguments

  /** A severity as written: a listed word, the same word in other letter case, or anything else. */
  datatype RawSeverity = Exact(level: Severity) | OtherCase(level: Severity) | Unlisted

  /** A failure record; the score in its detail is None when it is no number. */
  datatype RawFailure = RawFailure(kind: FailureType, severity: RawSeverity, escalates: bool, oodScore: Option<real>)

  datatype Hydrology = Hydrology(severity: real, rapid: bool, stations: seq<real>)

  datatype Signals = Signals(rainfallScalar: Option<real>, rainfall: real, bmkgScalar: Option<real>,
                             bmkgScore: Option<real>, bmkgWeighted: Option<real>, bmkgLegacy: real)

  /** The adaptive thresholds handed over, 0 standing for an absent danger level as it does in the source. */
  datatype LadderSource = LadderSource(danger: real, effective: real, warning: Option<real>, preAlert: Option<real>)

  datatype Elevation = Elevation(metres: Option<real>, rain1h: real, rain3h: real, waterDelta: real, depression: bool)

  datatype Call = Call(signals: Signals, hydrology: Option<Hydrology>, plausibility: real, critical: bool,
                       completeness: Option<real>, freshness: Option<real>, failures: seq<RawFailure>,
                       diagnosticOod: Option<real>, probability: real, confidence: real, trend: Trend,
                       ladder: Option<LadderSource>, defaults: Thresholds, elevation: Option<Elevation>)

  // ---------------------------------------------------------------- typed inputs

  function Normalized(f: RawFailure): Failure {
    Failure(f.kind, if f.severity.Unlisted? then LOW else f.severity.level, f.escalates)
  }

  function NormalizedAll(fs: seq<RawFailure>): (r: seq<Failure>)
    ensures |r| == |fs| && (forall i | 0 <= i < |fs| :: r[i] == Normalized(fs[i]))
  {
    if fs == [] then [] else NormalizedAll(fs[..|fs| - 1]) + [Normalized(fs[|fs| - 1])]
  }

  /** The greatest station ratio, 0 without stations. */
  function Peak(stations: seq<real>): (r: real)
    ensures forall i | 0 <= i < |stations| :: stations[i] <= r
    ensures stations != [] ==> r in stations
  {
    if |stations| == 0 then 0.0
    else if |stations| == 1 then stations[0]
    else Max(Peak(stations[..|stations| - 1]), stations[|stations| - 1])
  }

  function WaterRatio(h: Option<Hydrology>): real {
    if h.None? then 0.0
    else Max(0.0, if h.value.stations != [] then Peak(h.value.stations) else Unit(h.value.severity))
  }

  /** A value that may not convert to a number, with what stands in for it then. */
  function OrElse(x: Option<real>, default: real): real {
    if x.Some? then x.value else default
  }

  /** The score of the first ood_input failure, 0 without one. */
  function FirstOod(fs: seq<RawFailure>): real {
    if fs == [] then 0.0 else if fs[0].kind.OodInput? then OrElse(fs[0].oodScore, 0.0) else FirstOod(fs[1..])
  }

  function OodScore(c: Call): real {
    if FirstOod(c.failures) == 0.0 then OrElse(c.diagnosticOod, 0.0) else FirstOod(c.failures)
  }

  function Bmkg(s: Signals): real {
    if s.bmkgScalar.Some? then s.bmkgScalar.value
    else if s.bmkgScore.Some? then s.bmkgScore.value
    else if s.bmkgWeighted.Some? then s.bmkgWeighted.value
    else s.bmkgLegacy
  }

  function ThresholdsOf(c: Call): Thresholds {
    if c.ladder.None? then Ladder.DeriveTriplet(c.defaults.danger, Some(c.defaults.warning), Some(c.defaults.preAlert))
    else
      var l := c.ladder.value;
      var danger := if l.danger != 0.0 then l.danger else if l.effective != 0.0 then l.effective else c.defaults.danger;
      Ladder.DeriveTriplet(danger, l.warning, l.preAlert)
  }

  function CanonicalInputs(c: Call): Inputs {
    Inputs(
      Perception(!c.critical, Unit(OrElse(c.completeness, 1.0)), OrElse(c.freshness, -1.0), WaterRatio(c.hydrology),
                 if c.signals.rainfallScalar.Some? then c.signals.rainfallScalar.value else c.signals.rainfall,
                 Unit(Bmkg(c.signals))),
      Reasoning(c.probability, c.confidence, OodScore(c)),
      NormalizedAll(c.failures),
      c.trend,
      ThresholdsOf(c),
      Some(Physical(if c.hydrology.Some? then Unit(c.hydrology.value.severity) else 0.0,
                    c.hydrology.Some? && c.hydrology.value.rapid, Unit(c.plausibility), c.critical)))
  }

  method StationRatio(h: Option<Hydrology>) returns (ratio: real)
    ensures Max(0.0, ratio) == WaterRatio(h)
  {
    ratio := 0.0;
    if h.Some? {
      var stations := h.value.stations;
      if |stations| > 0 {
        ratio := stations[0];
        for i := 1 to |stations|
          invariant ratio == Peak(stations[..i])
        {
          assert stations[..i + 1][..i] == stations[..i];
          ratio := Max(ratio, stations[i]);
        }
        assert stations[..|stations|] == stations;
      } else {
        ratio := Unit(h.value.severity);
      }
    }
  }

  method ReadOodScore(failures: seq<RawFailure>, diagnostic: Option<real>) returns (ood: real)
    ensures ood == if FirstOod(failures) == 0.0 then OrElse(diagnostic, 0.0) else FirstOod(failures)
  {
    ood := 0.0;
    var k := 0;
    while k < |failures|
      invariant 0 <= k <= |failures| && ood == 0.0
      invariant FirstOod(failures) == FirstOod(failures[k..])
    {
      if failures[k].kind.OodInput? {
        ood := if failures[k].oodScore.Some? then failures[k].oodScore.value else 0.0;
        break;
      }
      assert failures[k..][1..] == failures[k + 1..];
      k := k + 1;
    }
    if ood == 0.0 {
      ood := if diagnostic.Some? then diagnostic.value else 0.0;
    }
  }

  method ReadFailures(raw: seq<RawFailure>) returns (failures: seq<Failure>)
    ensures failures == NormalizedAll(raw)
  {
    failures := [];
    for i := 0 to |raw|
      invariant failures == NormalizedAll(raw[..i])
    {
      assert raw[..i + 1][..i] == raw[..i];
      failures := failures + [Normalized(raw[i])];
    }
    assert raw[..|raw|] == raw;
  }

  /** The typed inputs of one call, each raw argument read, defaulted and clamped in turn. */
  method BuildCanonicalInputs(c: Call) returns (inputs: Inputs)
    ensures inputs == CanonicalInputs(c)
  {
    var severity, rapid := 0.0, false;
    if c.hydrology.Some? {
      severity, rapid := c.hydrology.value.severity, c.hydrology.value.rapid;
    }
    var ratio := StationRatio(c.hydrology);
    var physical := Physical(Unit(severity), rapid, Unit(c.plausibility), c.critical);
    var rainfall := if c.signals.rainfallScalar.Some? then c.signals.rainfallScalar.value else c.signals.rainfall;
    var completeness := if c.completeness.Some? then c.completeness.value else 1.0;
    var freshness := if c.freshness.Some? then c.freshness.value else -1.0;   // unknown
    var perception := Perception(!c.critical, Unit(completeness), freshness, Max(0.0, ratio), rainfall,
                                 Unit(Bmkg(c.signals)));
    var ood := ReadOodScore(c.failures, c.diagnosticOod);
    var failures := ReadFailures(c.failures);
    inputs := Inputs(perception, Reasoning(c.probability, c.confidence, ood), failures, c.trend, ThresholdsOf(c),
                     Some(physical));
  }

  // ---------------------------------------------------------------- the elevation rule

  datatype Adjustment = Adjustment(risk: RiskLevel, delta: real, reasons: nat)

  /** The adjusted risk: one level up under rain on low ground, otherwise unchanged. */
  function Elevated(risk: RiskLevel, e: Option<Elevation>): RiskLevel {
    if e.None? || e.value.metres.None? then risk
    else
      var m, rain1h, rain3h := e.value.metres.value, Max(0.0, e.value.rain1h), Max(0.0, e.value.rain3h);
      if m < 0.0 && risk.SAFE? && (rain1h > 0.0 || rain3h > 0.0) then PRE_ALERT
      else if 0.0 <= m <= 2.0 && (rain1h >= 20.0 || rain3h >= 60.0) then Escalated(risk)
      else risk
  }

  predicate LowWithRain(risk: RiskLevel, e: Elevation) {
    e.metres.Some? && e.metres.value < 0.0 && (e.rain1h > 0.0 || e.rain3h > 0.0) && risk.SAFE?
  }

  predicate NearSeaUnderHeavyRain(e: Elevation) {
    e.metres.Some? && 0.0 <= e.metres.value <= 2.0 && (e.rain1h >= 20.0 || e.rain3h >= 60.0)
  }

  predicate FillingDepression(e: Elevation) {
    e.depression && e.waterDelta > 0.0
  }

  predicate HighGround(e: Elevation) {
    e.metres.Some? && e.metres.value > 10.0
  }

  /** How many of the four rules give a reason. */
  function Reasons(risk: RiskLevel, e: Option<Elevation>): nat {
    if e.None? then 0
    else (if LowWithRain(risk, e.value) then 1 else 0) + (if NearSeaUnderHeavyRain(e.value) then 1 else 0)
         + (if FillingDepression(e.value) then 1 else 0) + (if HighGround(e.value) then 1 else 0)
  }

  function SensitivityDelta(e: Option<Elevation>): real {
    if e.None? then 0.0
    else (if FillingDepression(e.value) then 0.05 else 0.0) - (if HighGround(e.value) then 0.01 else 0.0)
  }

  /** Four rules in order; only the first two move the risk, and a guard against lowering it closes the rule. */
  method ApplyElevationAdjustment(risk: RiskLevel, e: Option<Elevation>) returns (a: Adjustment)
    ensures a == Adjustment(Elevated(risk, e), SensitivityDelta(e), Reasons(risk, e))
  {
    if e.None? {
      return Adjustment(risk, 0.0, 0);
    }
    var m := e.value.metres;
    var rain1h, rain3h, delta := Max(0.0, e.value.rain1h), Max(0.0, e.value.rain3h), Max(0.0, e.value.waterDelta);
    var thresholdDelta, reasons, adjusted := 0.0, 0, risk;
    if m.Some? && m.value < 0.0 && (rain1h > 0.0 || rain3h > 0.0) && risk.SAFE? {
      adjusted, reasons := PRE_ALERT, reasons + 1;
    }
    if m.Some? && 0.0 <= m.value <= 2.0 && (rain1h >= 20.0 || rain3h >= 60.0) {
      adjusted, reasons := Escalated(adjusted), reasons + 1;
    }
    if e.value.depression && delta > 0.0 {
      thresholdDelta, reasons := thresholdDelta + 0.05, reasons + 1;
    }
    if m.Some? && m.value > 10.0 {
      thresholdDelta, reasons := thresholdDelta - 0.01, reasons + 1;
    }
    if (risk.WARNING? || risk.DANGER?) && Rank(adjusted) < Rank(risk) {
      adjusted := risk;
    }
    a := Adjustment(adjusted, thresholdDelta, reasons);
  }

  /** Elevation never lowers a risk, raises it by at most one level, and leaves UNKNOWN and DANGER alone. */
  lemma ElevationOnlyRaises(risk: RiskLevel, e: Option<Elevation>)
    ensures var r := Elevated(risk, e);
            && Rank(risk) <= Rank(r) <= Rank(risk) + 1
            && (r.UNKNOWN? <==> risk.UNKNOWN?)
            && (r != risk ==> r == Escalated(risk) && e.Some? && e.value.metres.Some? && e.value.metres.value <= 2.0)
  {
  }

  // ---------------------------------------------------------------- the engine

  datatype Source =
    | INVALID_INPUT_FALLBACK | PHYSICAL_OVERRIDE | SIGNAL_OVERRIDE | BMKG_SAFETY_FLOOR
    | SYSTEM_GUARDRAIL | ML_ADAPTIVE | TREND_INFORMED

  function SourceOf(a: Authority): Source {
    match a
    case L0_PHYSICAL => INVALID_INPUT_FALLBACK
    case L1_SIAGA => PHYSICAL_OVERRIDE
    case L1_5_MULTI => SIGNAL_OVERRIDE
    case L1_7_BMKG_SAFETY_FLOOR => BMKG_SAFETY_FLOOR
    case L2_INTEGRITY => SYSTEM_GUARDRAIL
    case L3_ML => ML_ADAPTIVE
    case L4_TREND => TREND_INFORMED
  }

  datatype Note =
    | Layer(entry: Entry)
    | Raised(before: RiskLevel, after: RiskLevel)
    | ThresholdNote(delta: real)
    | Failsafe

  datatype Legacy = Legacy(risk: RiskLevel, confidence: real, status: SystemStatus, source: Source, overridden: bool,
                           inconsistent: bool, trace: seq<Note>)

  predicate PhysicalLayer(a: Authority) {
    a.L1_SIAGA? || a.L1_5_MULTI? || a.L2_INTEGRITY?
  }

  /** The last entry of a physical layer. */
  function LastOverride(trace: seq<Entry>): Option<Entry> {
    if trace == [] then None
    else if PhysicalLayer(trace[|trace| - 1].layer) then Some(trace[|trace| - 1])
    else LastOverride(trace[..|trace| - 1])
  }

  function Layers(trace: seq<Entry>): (notes: seq<Note>)
    ensures |notes| == |trace| && (forall i | 0 <= i < |trace| :: notes[i] == Layer(trace[i]))
  {
    if trace == [] then [] else Layers(trace[..|trace| - 1]) + [Layer(trace[|trace| - 1])]
  }

  function ToLegacy(d: Decision): Legacy {
    var last := LastOverride(d.trace);
    Legacy(d.risk, Round(d.confidence, SCALE_4), d.status, SourceOf(d.authority), last.Some?,
           d.authority.L2_INTEGRITY? && last.Some? && last.value.override == Some(Inconsistency), Layers(d.trace))
  }

  function FailsafeDecision(seed: RiskLevel, confidence: real): Legacy {
    Legacy(if seed.DANGER? then DANGER else WARNING, Round(Min(confidence, 0.5), SCALE_4), DEGRADED, SYSTEM_GUARDRAIL,
           false, false, [Failsafe])
  }

  /** The legacy result with the elevation rule applied: a changed risk or a threshold note closes the trace. */
  function WithElevation(r: Legacy, e: Option<Elevation>): Legacy {
    var risk := Elevated(r.risk, e);
    r.(risk := risk,
       trace := r.trace + (if risk != r.risk then [Raised(r.risk, risk)]
                           else if Reasons(r.risk, e) > 0 then [ThresholdNote(SensitivityDelta(e))]
                           else []))
  }

  ghost function EngineResult(c: Call, seed: RiskLevel, raises: bool): Legacy {
    if raises then FailsafeDecision(seed, c.confidence)
    else WithElevation(ToLegacy(Decided(CanonicalInputs(c))), c.elevation)
  }

  method DecideCall(c: Call) returns (r: Legacy)
    ensures r == ToLegacy(Decided(CanonicalInputs(c)))
  {
    var i := BuildCanonicalInputs(c);
    var d := Decide(i.perception, i.reasoning, Some(i.failures), Some(i.trend), Some(i.thresholds), i.physical);
    r := ToLegacy(d);
  }

  /** Never raises: any exception while adapting becomes the failsafe decision. */
  method RunDecisionEngine(c: Call, seed: RiskLevel, raises: bool) returns (r: Legacy)
    ensures r == EngineResult(c, seed, raises)
  {
    if raises {
      return FailsafeDecision(seed, c.confidence);
    }
    r := DecideCall(c);
    r := AdjustForElevation(r, c.elevation);
  }

  method AdjustForElevation(legacy: Legacy, e: Option<Elevation>) returns (r: Legacy)
    ensures r == WithElevation(legacy, e)
  {
    r := legacy;
    var a := ApplyElevationAdjustment(r.risk, e);
    if a.reasons > 0 {
      if a.risk != r.risk {
        r := r.(trace := r.trace + [Raised(r.risk, a.risk)]);
        r := r.(risk := a.risk);
      } else {
        r := r.(trace := r.trace + [ThresholdNote(a.delta)]);
      }
    }
  }

  // ---------------------------------------------------------------- what reaches the layers

  /** The completeness the evaluation stage passes on: a snapshot with none of its sources counts as complete. */
  function PassedCompleteness(completeness: real): real {
    if completeness == 0.0 then 1.0 else completeness
  }

  /** L0 fires exactly on a critical violation, implausible input, or a completeness below 0.30 other than 0. */
  lemma InvalidIff(c: Call, completeness: real)
    requires c.completeness == Some(PassedCompleteness(completeness))
    ensures InvalidInput(CanonicalInputs(c))
      <==> (c.critical || c.plausibility < 0.30 || (completeness < 0.30 && completeness != 0.0))
  {
  }

  /** L3.3 is what the inconsistency check reports, unless the trend extension speaks after it. */
  lemma InconsistencyReportedIff(i: Inputs)
    ensures ToLegacy(Decided(i)).inconsistent
       <==> (Gate(i).None? && Contradicted(IntegrityRisk(i), i.physical) && !SustainedUpward(i.trend))
  {
    var d := Decided(i);
    var t := d.trace;
    TraceExplainsDecision(i);
    if Gate(i).None? && d.authority.L2_INTEGRITY? {
      assert LastOverride(t) == Some(t[|t| - 1]);
    }
  }

  /** The adapter hands the adjusted ladder to the layers unchanged, unless its danger level is 0. */
  lemma AdjustedLadderReachesLayers(c: Call, t: Thresholds)
    requires Ladder.GridLadder(t) && t.danger != 0.0
    requires c.ladder == Some(LadderSource(t.danger, t.danger, Some(t.warning), Some(t.preAlert)))
    ensures CanonicalInputs(c).thresholds == t
  {
    Ladder.TripletFixesIffLadder(t);
  }

  /** Whatever the raw arguments, the evidence reaches the layers within its ranges. */
  lemma InputsInRange(c: Call)
    ensures var i := CanonicalInputs(c);
            && 0.0 <= i.perception.completeness <= 1.0 && 0.0 <= i.perception.bmkg <= 1.0
            && i.perception.waterRatio >= 0.0
            && i.physical.Some? && 0.0 <= i.physical.value.severity <= 1.0
            && 0.0 <= i.physical.value.plausibility <= 1.0
            && i.physical.value.critical == !i.perception.plausible
  {
  }

  // ---------------------------------------------------------------- what the typed inputs hold

  /** r is x brought into [0, 1]. */
  predicate IsClamped(r: real, x: real) {
    (x < 0.0 ==> r == 0.0) && (x > 1.0 ==> r == 1.0) && (0.0 <= x <= 1.0 ==> r == x)
  }

  /**
   * The water ratio is the greatest of the stations' and 0; the clamped severity without stations; 0 without hydrology.
   */
  lemma WaterTold(c: Call)
    ensures var w, h := CanonicalInputs(c).perception.waterRatio, c.hydrology;
            && (h.None? ==> w == 0.0)
            && (h.Some? && h.value.stations == [] ==> IsClamped(w, h.value.severity))
            && (h.Some? && h.value.stations != [] ==>
                  && (forall k | 0 <= k < |h.value.stations| :: w >= h.value.stations[k])
                  && w >= 0.0 && (w in h.value.stations || w == 0.0))
  {
  }

  /** Rain, alerts, completeness, age, plausibility and hydrology, each from its first given source. */
  lemma EvidenceTold(c: Call)
    ensures var p, s := CanonicalInputs(c).perception, c.signals;
            && p.rainfall == (if s.rainfallScalar.Some? then s.rainfallScalar.value else s.rainfall)
            && (s.bmkgScalar.Some? ==> IsClamped(p.bmkg, s.bmkgScalar.value))
            && (s.bmkgScalar.None? && s.bmkgScore.Some? ==> IsClamped(p.bmkg, s.bmkgScore.value))
            && (s.bmkgScalar.None? && s.bmkgScore.None? && s.bmkgWeighted.Some? ==>
                  IsClamped(p.bmkg, s.bmkgWeighted.value))
            && (s.bmkgScalar.None? && s.bmkgScore.None? && s.bmkgWeighted.None? ==> IsClamped(p.bmkg, s.bmkgLegacy))
            && (c.completeness.Some? ==> IsClamped(p.completeness, c.completeness.value))
            && (c.completeness.None? ==> p.completeness == 1.0)
            && p.freshness == (if c.freshness.Some? then c.freshness.value else -1.0)
            && p.plausible == !c.critical
    ensures var ph := CanonicalInputs(c).physical;
            && ph.Some? && ph.value.critical == c.critical && IsClamped(ph.value.plausibility, c.plausibility)
            && (c.hydrology.Some? ==>
                  IsClamped(ph.value.severity, c.hydrology.value.severity) && ph.value.rapid == c.hydrology.value.rapid)
            && (c.hydrology.None? ==> ph.value.severity == 0.0 && !ph.value.rapid)
  {
  }

  /**
   * Probability, confidence and trend are handed on; failures keep kind and escalation, and their severity in any case.
   */
  lemma HandedOnTold(c: Call)
    ensures var i := CanonicalInputs(c);
            && i.reasoning.probability == c.probability && i.reasoning.confidence == c.confidence && i.trend == c.trend
            && |i.failures| == |c.failures|
            && (forall k | 0 <= k < |c.failures| ::
                  var f, raw := i.failures[k], c.failures[k];
                  && f.kind == raw.kind && f.escalates == raw.escalates
                  && (raw.severity.Exact? ==> f.severity == raw.severity.level)
                  && (raw.severity.OtherCase? ==> f.severity == raw.severity.level)
                  && (raw.severity.Unlisted? ==> f.severity == LOW))
  {
  }

  /** The k-th failure is the first ood_input record. */
  predicate FirstOodAt(fs: seq<RawFailure>, k: int) {
    0 <= k < |fs| && fs[k].kind == OodInput && (forall j | 0 <= j < k :: fs[j].kind != OodInput)
  }

  function ScoreAt(fs: seq<RawFailure>, k: int): real
    requires 0 <= k < |fs|
  {
    if fs[k].oodScore.Some? then fs[k].oodScore.value else 0.0
  }

  lemma {:induction false} FirstOodTold(fs: seq<RawFailure>)
    ensures (forall k :: !FirstOodAt(fs, k)) ==> FirstOod(fs) == 0.0
    ensures forall k | FirstOodAt(fs, k) :: FirstOod(fs) == ScoreAt(fs, k)
  {
    if fs != [] && fs[0].kind != OodInput {
      FirstOodTold(fs[1..]);
      forall k: int ensures FirstOodAt(fs, k) <==> FirstOodAt(fs[1..], k - 1) { FirstOodShifts(fs, k); }
      if forall k :: !FirstOodAt(fs, k) {
        forall k: int ensures !FirstOodAt(fs[1..], k) { assert !FirstOodAt(fs, k + 1); }
      }
    } else if fs != [] {
      assert FirstOodAt(fs, 0);
    }
  }

  lemma FirstOodShifts(fs: seq<RawFailure>, k: int)
    requires fs != [] && fs[0].kind != OodInput
    ensures FirstOodAt(fs, k) <==> FirstOodAt(fs[1..], k - 1)
  {
    if FirstOodAt(fs[1..], k - 1) {
      forall j | 0 <= j < k ensures fs[j].kind != OodInput {
        if j > 0 { assert fs[1..][j - 1].kind != OodInput; }
      }
    }
  }

  /** The out-of-distribution score: that of the first such failure, or the diagnostic one when that is 0 or missing. */
  lemma OodTold(c: Call)
    ensures var ood, diagnostic := CanonicalInputs(c).reasoning.ood, if c.diagnosticOod.Some? then c.diagnosticOod.value
      else 0.0;
            && ((forall k :: !FirstOodAt(c.failures, k)) ==> ood == diagnostic)
            && (forall k :: FirstOodAt(c.failures, k) ==>
                  var score := c.failures[k].oodScore;
                  ood == if score.Some? && score.value != 0.0 then score.value else diagnostic)
  {
    FirstOodTold(c.failures);
  }

  /** The danger level normalised is the first that is not 0 of the given, the effective and the default one. */
  lemma ThresholdsTold(c: Call)
    ensures var t, d := CanonicalInputs(c).thresholds, c.defaults;
            && (c.ladder.None? ==> t == Ladder.DeriveTriplet(d.danger, Some(d.warning), Some(d.preAlert)))
            && (c.ladder.Some? ==>
                  var l := c.ladder.value;
                  && (l.danger != 0.0 ==> t == Ladder.DeriveTriplet(l.danger, l.warning, l.preAlert))
                  && (l.danger == 0.0 && l.effective != 0.0
                      ==> t == Ladder.DeriveTriplet(l.effective, l.warning, l.preAlert))
                  && (l.danger == 0.0 && l.effective == 0.0
                      ==> t == Ladder.DeriveTriplet(d.danger, l.warning, l.preAlert)))
  {
  }

  // ---------------------------------------------------------------- what the engine answers

  /** A station at 0.95 or above makes the engine answer DANGER, on any call L0 lets through. */
  lemma StationForcesDanger(c: Call, seed: RiskLevel, k: nat)
    requires c.hydrology.Some? && k < |c.hydrology.value.stations| && c.hydrology.value.stations[k] >= 0.95
    requires !c.critical && c.plausibility >= 0.30 && (c.completeness.Some? ==> c.completeness.value >= 0.30)
    ensures EngineResult(c, seed, false).risk.DANGER?
  {
    WaterTold(c);
    EvidenceTold(c);
    PhysicalDangerTold(CanonicalInputs(c));
    ElevationTold(DANGER, c.elevation);
  }

  /**
   * Elevation raises by one level exactly on SAFE ground below the sea with any rain, or, below DANGER, on ground
   * between 0 and 2 m under 20 mm in an hour or 60 mm in three.
   */
  lemma ElevationTold(risk: RiskLevel, e: Option<Elevation>)
    ensures var r := Elevated(risk, e);
            (r != risk)
              <==> (&& e.Some? && e.value.metres.Some?
                    && (var m, rain1h, rain3h := e.value.metres.value, e.value.rain1h, e.value.rain3h;
                        || (m < 0.0 && risk == SAFE && (rain1h > 0.0 || rain3h > 0.0))
                        || (0.0 <= m <= 2.0 && (rain1h >= 20.0 || rain3h >= 60.0)
                            && risk in {SAFE, PRE_ALERT, WARNING})))
    ensures var r := Elevated(risk, e);
            r != risk ==>
              || (risk == SAFE && r == PRE_ALERT) || (risk == PRE_ALERT && r == WARNING)
              || (risk == WARNING && r == DANGER)
  {
  }

  /** The informational delta: 0.05 for a filling depression, less 0.01 above 10 m. */
  lemma SensitivityTold(e: Option<Elevation>)
    ensures e.None? ==> SensitivityDelta(e) == 0.0
    ensures e.Some? ==>
              var filling, high := e.value.depression && e.value.waterDelta > 0.0, e.value.metres.Some?
              && e.value.metres.value > 10.0;
              SensitivityDelta(e) == if filling && high then 0.04 else if filling then 0.05 else if high then -0.01
                else 0.0
  {
  }

  /** The legacy source names the layer. */
  lemma SourceTold(d: Decision)
    ensures var s := ToLegacy(d).source;
            && (s == INVALID_INPUT_FALLBACK <==> d.authority == L0_PHYSICAL)
            && (s == PHYSICAL_OVERRIDE <==> d.authority == L1_SIAGA)
            && (s == SIGNAL_OVERRIDE <==> d.authority == L1_5_MULTI)
            && (s == BMKG_SAFETY_FLOOR <==> d.authority == L1_7_BMKG_SAFETY_FLOOR)
            && (s == SYSTEM_GUARDRAIL <==> d.authority == L2_INTEGRITY)
            && (s == ML_ADAPTIVE <==> d.authority == L3_ML)
            && (s == TREND_INFORMED <==> d.authority == L4_TREND)
  {
  }

  lemma {:induction false} LastOverrideTold(trace: seq<Entry>)
    ensures LastOverride(trace).Some?
       <==> (exists k :: 0 <= k < |trace| && trace[k].layer in {L1_SIAGA, L1_5_MULTI, L2_INTEGRITY})
  {
    if trace != [] {
      LastOverrideTold(trace[..|trace| - 1]);
      if k :| 0 <= k < |trace| && trace[k].layer in {L1_SIAGA, L1_5_MULTI, L2_INTEGRITY} {
        if k < |trace| - 1 { assert trace[..|trace| - 1][k] == trace[k]; }
      }
      if LastOverride(trace[..|trace| - 1]).Some? {
        var k :| 0 <= k < |trace| - 1 && trace[..|trace| - 1][k].layer in {L1_SIAGA, L1_5_MULTI, L2_INTEGRITY};
        assert trace[k].layer in {L1_SIAGA, L1_5_MULTI, L2_INTEGRITY};
      }
    }
  }

  /** The legacy form keeps risk and status, rounds the confidence, and reports an override of a physical layer. */
  lemma LegacyTold(d: Decision)
    ensures var r := ToLegacy(d);
            && r.risk == d.risk && r.status == d.status && -0.00005 <= r.confidence - d.confidence <= 0.00005
            && (r.overridden <==> (exists k :: 0 <= k < |d.trace|
                                               && d.trace[k].layer in {L1_SIAGA, L1_5_MULTI, L2_INTEGRITY}))
            && |r.trace| == |d.trace|
  {
    RoundError(d.confidence, SCALE_4);
    LastOverrideTold(d.trace);
  }

  /**
   * An engine that raises inside answers WARNING, or DANGER when that was the seed, degraded and with at most half
   * trust.
   */
  lemma FailsafeTold(c: Call, seed: RiskLevel)
    ensures var r := EngineResult(c, seed, true);
            && (r.risk == DANGER <==> seed == DANGER) && (r.risk == WARNING <==> seed != DANGER)
            && r.status == DEGRADED && r.source == SYSTEM_GUARDRAIL && !r.overridden && r.confidence <= 0.5
            && (c.confidence <= 0.5 ==> -0.00005 <= r.confidence - c.confidence <= 0.00005)
  {
    HalfTrust(c.confidence);
    FailsafeAnswers(seed, c.confidence);
  }

  lemma FailsafeAnswers(seed: RiskLevel, confidence: real)
    ensures var r := FailsafeDecision(seed, confidence);
            && (r.risk == DANGER <==> seed == DANGER) && (r.risk == WARNING <==> seed != DANGER)
            && r.status == DEGRADED && r.source == SYSTEM_GUARDRAIL && !r.overridden
            && r.confidence == Round(Min(confidence, 0.5), SCALE_4)
  {
  }

  lemma HalfTrust(x: real)
    ensures Round(Min(x, 0.5), SCALE_4) <= 0.5
    ensures x <= 0.5 ==> -0.00005 <= Round(Min(x, 0.5), SCALE_4) - x <= 0.00005
  {
    RoundError(Min(x, 0.5), SCALE_4);
    AtMostHalf(Min(x, 0.5));
  }

  lemma AtMostHalf(x: real)
    requires x <= 0.5
    ensures Round(x, SCALE_4) <= 0.5
  {
    RoundMonotone(x, 0.5, SCALE_4);
    RoundFixesGrid(0.5, SCALE_4);
  }
}
