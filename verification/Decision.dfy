/** The decision authority: layers L0 to L4 over typed inputs, with the trace of every layer that fired. */
module Decision {
  import opened Common

  datatype RiskLevel = UNKNOWN | SAFE | PRE_ALERT | WARNING | DANGER

  datatype SystemStatus = OK | DEGRADED | LOW_TRUST | CONFLICT | FAIL | PIPELINE_FAILURE

  datatype Reason = RISK | INVALID_INPUT | FALLBACK | PHYSICAL_GATE | MULTI_SIGNAL | TREND_EXTENSION | SAFETY_FLOOR

  datatype Authority = L0_PHYSICAL | L1_SIAGA | L1_5_MULTI | L1_7_BMKG_SAFETY_FLOOR | L2_INTEGRITY | L3_ML | L4_TREND

  datatype Driver =
    | EXTREME_RAINFALL | SUSTAINED_RAINFALL | HIGH_RAINFALL | ATMOSPHERIC_BUILDUP
    | BMKG_CONFIRMED_ALERT | BMKG_FORECAST_ALERT | CRITICAL_HYDROLOGY | HYDROLOGY_STRESS
    | COMPOUND_EVENT | LOW_BACKGROUND_RISK | PIPELINE_ERROR

  datatype Severity = LOW | MEDIUM | HIGH | CRITICAL

  datatype FailureType =
    | SignalConflict | SemanticInconsistency | LowTrust | LowConfidence | ImplausibleInput | OodInput
    | MissingData | OtherFailure(name: string)

  datatype Override = RapidEscalation | BmkgFloor | Inconsistency | EarlyWarningConvergence | PreAlertTrend

  datatype TrendDirection = Increasing | Stable | Decreasing | NoTrend

  // ---------------------------------------------------------------- inputs

  datatype Perception = Perception(plausible: bool, completeness: real, freshness: real, waterRatio: real,
                                   rainfall: real, bmkg: real)

  datatype Reasoning = Reasoning(probability: real, confidence: real, ood: real)

  datatype Failure = Failure(kind: FailureType, severity: Severity, escalates: bool)

  datatype Trend = Trend(recent: seq<real>, direction: TrendDirection, strength: real, confidence: real,
                         rain3h: real, waterDelta: real, points: int)

  datatype Physical = Physical(severity: real, rapid: bool, plausibility: real, critical: bool)

  datatype Thresholds = Thresholds(preAlert: real, warning: real, danger: real)

  datatype Inputs = Inputs(perception: Perception, reasoning: Reasoning, failures: seq<Failure>, trend: Trend,
                           thresholds: Thresholds, physical: Option<Physical>)

  const NO_HISTORY := Trend([], NoTrend, 0.0, 0.0, 0.0, 0.0, 0)
  const DEFAULT_THRESHOLDS := Thresholds(0.30, 0.50, 0.75)

  /** The inputs of a call whose optional arguments may be missing. */
  function WithDefaults(p: Perception, r: Reasoning, failures: Option<seq<Failure>>, trend: Option<Trend>,
                        thresholds: Option<Thresholds>, physical: Option<Physical>): Inputs {
    Inputs(p, r, if failures.Some? then failures.value else [], if trend.Some? then trend.value else NO_HISTORY,
           if thresholds.Some? then thresholds.value else DEFAULT_THRESHOLDS, physical)
  }

  // ---------------------------------------------------------------- outputs

  /** One trace entry: the layer, the risk it found (if it rewrites one) and the risk it leaves. */
  datatype Entry = Entry(layer: Authority, before: Option<RiskLevel>, after: RiskLevel, override: Option<Override>)

  datatype Decision = Decision(risk: RiskLevel, status: SystemStatus, reason: Reason, authority: Authority,
                               confidence: real, driver: Driver, mlFull: bool, safeForAutomation: bool,
                               trace: seq<Entry>)

  function Rank(r: RiskLevel): (n: nat)
    ensures n <= 4
  {
    match r case UNKNOWN => 0 case SAFE => 1 case PRE_ALERT => 2 case WARNING => 3 case DANGER => 4
  }

  function Escalated(r: RiskLevel): RiskLevel {
    match r
    case SAFE => PRE_ALERT
    case PRE_ALERT => WARNING
    case WARNING => DANGER
    case DANGER => DANGER
    case UNKNOWN => UNKNOWN
  }

  // ---------------------------------------------------------------- system status

  /** How severe a status is; the most severe applicable one is reported. */
  function StatusRank(s: SystemStatus): nat {
    match s
    case OK => 0
    case DEGRADED => 1
    case LOW_TRUST => 2
    case CONFLICT => 3
    case FAIL => 4
    case PIPELINE_FAILURE => 5
  }

  predicate Severe(f: Failure) {
    f.severity.HIGH? || f.severity.CRITICAL?
  }

  predicate ConflictKind(k: FailureType) { k.SignalConflict? || k.SemanticInconsistency? }
  predicate TrustKind(k: FailureType) { k.LowTrust? || k.LowConfidence? }

  predicate Poor(p: Perception) {
    p.freshness > 60.0 || p.completeness < 0.50
  }

  ghost predicate HasSevere(fs: seq<Failure>) { exists i :: 0 <= i < |fs| && Severe(fs[i]) }
  ghost predicate HasSevereConflict(fs: seq<Failure>) {
    exists i :: 0 <= i < |fs| && Severe(fs[i]) && ConflictKind(fs[i].kind)
  }

  ghost predicate HasSevereDistrust(fs: seq<Failure>) {
    exists i :: 0 <= i < |fs| && Severe(fs[i]) && TrustKind(fs[i].kind)
  }


  /** The reported status by what the failures and the snapshot show, whatever order the failures come in. */
  ghost function StatusOf(fs: seq<Failure>, p: Perception): SystemStatus {
    if HasSevereConflict(fs) then CONFLICT
    else if HasSevereDistrust(fs) then LOW_TRUST
    else if HasSevere(fs) || Poor(p) then DEGRADED
    else OK
  }

  /** The most severe of some statuses. */
  method ResolveStatus(statuses: seq<SystemStatus>) returns (s: SystemStatus)
    ensures statuses == [] ==> s == OK
    ensures statuses != [] ==> s in statuses && (forall t | t in statuses :: StatusRank(t) <= StatusRank(s))
  {
    if statuses == [] {
      return OK;
    }
    s := statuses[0];
    for i := 1 to |statuses|
      invariant s in statuses && (forall j | 0 <= j < i :: StatusRank(statuses[j]) <= StatusRank(s))
    {
      if StatusRank(statuses[i]) > StatusRank(s) {
        s := statuses[i];
      }
    }
  }

  /** Collects every status the failures and the snapshot call for, and reports the most severe. */
  method ResolveSystemStatus(failures: seq<Failure>, p: Perception) returns (s: SystemStatus)
    ensures s == StatusOf(failures, p)
  {
    var candidates := [OK];
    var severe, conflict, distrust := false, false, false;
    for i := 0 to |failures|
      invariant severe == HasSevere(failures[..i])
      invariant conflict == HasSevereConflict(failures[..i])
      invariant distrust == HasSevereDistrust(failures[..i])
    {
      var f := failures[i];
      assert failures[..i + 1] == failures[..i] + [f];
      SeverePrefix(failures[..i], f);
      severe := severe || Severe(f);
      conflict := conflict || (Severe(f) && ConflictKind(f.kind));
      distrust := distrust || (Severe(f) && TrustKind(f.kind));
    }
    assert failures[..|failures|] == failures;
    if conflict { candidates := candidates + [CONFLICT]; }
    if distrust { candidates := candidates + [LOW_TRUST]; }
    if severe { candidates := candidates + [DEGRADED]; }
    if Poor(p) { candidates := candidates + [DEGRADED]; }
    s := ResolveStatus(candidates);
    assert OK in candidates;
    assert conflict ==> CONFLICT in candidates;
    assert distrust ==> LOW_TRUST in candidates;
    assert severe || Poor(p) ==> DEGRADED in candidates;
  }

  lemma SeverePrefix(fs: seq<Failure>, f: Failure)
    ensures HasSevere(fs + [f]) <==> HasSevere(fs) || Severe(f)
    ensures HasSevereConflict(fs + [f]) <==> HasSevereConflict(fs) || (Severe(f) && ConflictKind(f.kind))
    ensures HasSevereDistrust(fs + [f]) <==> HasSevereDistrust(fs) || (Severe(f) && TrustKind(f.kind))
  {
    var gs := fs + [f];
    assert gs[|fs|] == f && (forall i | 0 <= i < |fs| :: gs[i] == fs[i]);
    if HasSevere(fs) { var i :| 0 <= i < |fs| && Severe(fs[i]); assert Severe(gs[i]); }
    if HasSevereConflict(fs) {
      var i :| 0 <= i < |fs| && Severe(fs[i]) && ConflictKind(fs[i].kind);
      assert Severe(gs[i]);
    }
    if HasSevereDistrust(fs) { var i :| 0 <= i < |fs| && Severe(fs[i]) && TrustKind(fs[i].kind); assert Severe(gs[i]); }
    if Severe(f) { assert Severe(gs[|fs|]); }
  }

  // ---------------------------------------------------------------- the checks of the layers

  predicate SuppressesMl(ph: Option<Physical>) {
    ph.Some? && (ph.value.critical || ph.value.plausibility < 0.30)
  }

  predicate InvalidInput(i: Inputs) {
    !i.perception.plausible || i.perception.completeness < 0.30 || SuppressesMl(i.physical)
  }

  predicate WaterGate(i: Inputs) {
    i.perception.waterRatio >= 0.95
  }

  function ExtremeCount(p: Perception): nat {
    (if p.rainfall >= 60.0 then 1 else 0) + (if p.waterRatio >= 0.85 then 1 else 0) + (if p.bmkg >= 0.80 then 1 else 0)
  }

  predicate CompoundGate(i: Inputs) {
    ExtremeCount(i.perception) >= 2
  }

  predicate RapidGate(i: Inputs) {
    i.physical.Some? && i.physical.value.rapid && i.physical.value.severity >= 0.50
  }

  predicate SafetyFloor(i: Inputs) {
    && i.perception.bmkg >= 0.80
    && (i.perception.rainfall >= 20.0 || (i.reasoning.ood < 0.0 && i.perception.waterRatio == 0.0))
  }

  function Classify(p: real, t: Thresholds): RiskLevel {
    if p >= t.danger then DANGER else if p >= t.warning then WARNING else if p >= t.preAlert then PRE_ALERT else SAFE
  }

  predicate HasEscalating(fs: seq<Failure>) {
    exists k :: 0 <= k < |fs| && Severe(fs[k]) && fs[k].escalates
  }

  predicate Contradicted(risk: RiskLevel, ph: Option<Physical>) {
    risk.SAFE? && ph.Some? && !SuppressesMl(ph) && ph.value.severity >= 0.75
  }

  predicate EarlyWarning(risk: RiskLevel, p: real, t: Trend) {
    && risk.SAFE? && p >= 0.12 && t.direction.Increasing? && t.strength >= 0.35 && t.confidence >= 0.65
    && t.rain3h >= 20.0 && t.waterDelta >= 0.06 && t.points >= 2
  }

  predicate RisingTrend(risk: RiskLevel, p: real, t: Trend) {
    risk.SAFE? && p >= 0.12 && t.direction.Increasing? && t.strength >= 0.30 && t.confidence >= 0.55
  }

  /** The last three probabilities strictly rise, by at least 0.10 in all. */
  predicate SustainedUpward(t: Trend) {
    var n := |t.recent|;
    n >= 3 && t.recent[n - 3] < t.recent[n - 2] < t.recent[n - 1] && t.recent[n - 1] - t.recent[n - 3] >= 0.10
  }

  function SelectDriver(p: Perception, probability: real): Driver {
    if p.waterRatio >= 0.95 then CRITICAL_HYDROLOGY
    else if p.waterRatio >= 0.85 then HYDROLOGY_STRESS
    else if p.rainfall >= 60.0 then EXTREME_RAINFALL
    else if p.rainfall >= 40.0 then SUSTAINED_RAINFALL
    else if p.rainfall >= 20.0 then HIGH_RAINFALL
    else if p.bmkg >= 0.80 then BMKG_CONFIRMED_ALERT
    else if p.bmkg >= 0.50 then BMKG_FORECAST_ALERT
    else if probability >= 0.50 then ATMOSPHERIC_BUILDUP
    else LOW_BACKGROUND_RISK
  }

  // ---------------------------------------------------------------- the layers as functions

  ghost function Gated(i: Inputs, layer: Authority, risk: RiskLevel, reason: Reason, floor: real, driver: Driver,
                       override: Option<Override>): Decision {
    Decision(risk, StatusOf(i.failures, i.perception), reason, layer, Max(i.reasoning.confidence, floor), driver, true,
             false, [Entry(layer, None, risk, override)])
  }

  /** L0 to L1.7: the layers that decide without the model. */
  ghost function Gate(i: Inputs): Option<Decision> {
    if InvalidInput(i) then
      Some(Decision(UNKNOWN, FAIL, INVALID_INPUT, L0_PHYSICAL, 0.0, PIPELINE_ERROR, false, false,
                    [Entry(L0_PHYSICAL, None, UNKNOWN, None)]))
    else if WaterGate(i) then Some(Gated(i, L1_SIAGA, DANGER, PHYSICAL_GATE, 0.85, CRITICAL_HYDROLOGY, None))
    else if CompoundGate(i) then Some(Gated(i, L1_5_MULTI, DANGER, MULTI_SIGNAL, 0.80, COMPOUND_EVENT, None))
    else if RapidGate(i) then
      Some(Gated(i, L1_SIAGA, DANGER, PHYSICAL_GATE, 0.80, HYDROLOGY_STRESS, Some(RapidEscalation)))
    else if SafetyFloor(i) then
      Some(Gated(i, L1_7_BMKG_SAFETY_FLOOR, WARNING, SAFETY_FLOOR, 0.50, BMKG_CONFIRMED_ALERT, Some(BmkgFloor)))
    else None
  }

  function MlRisk(i: Inputs): RiskLevel {
    Classify(i.reasoning.probability, i.thresholds)
  }

  function IntegrityRisk(i: Inputs): RiskLevel {
    if HasEscalating(i.failures) then Escalated(MlRisk(i)) else MlRisk(i)
  }

  /** L3 and L2: the model's class, one level higher under an escalating failure. */
  ghost function Classified(i: Inputs): Decision {
    var escalating := HasEscalating(i.failures);
    var status := StatusOf(i.failures, i.perception);
    var risk := IntegrityRisk(i);
    Decision(risk, status, RISK, if escalating then L2_INTEGRITY else L3_ML,
             Max(0.05, Min(1.0, i.reasoning.confidence)),
             SelectDriver(i.perception, i.reasoning.probability), true,
             !escalating && status.OK? && !risk.DANGER? && !risk.WARNING?,
             [Entry(L3_ML, None, MlRisk(i), None)]
             + (if escalating then [Entry(L2_INTEGRITY, Some(MlRisk(i)), risk, None)] else []))
  }

  /** d with its risk rewritten by a later layer. */
  function Rewritten(d: Decision, layer: Authority, risk: RiskLevel, reason: Reason, driver: Driver,
                     override: Option<Override>): Decision {
    d.(risk := risk, reason := reason, authority := layer, driver := driver, safeForAutomation := false,
       trace := d.trace + [Entry(layer, Some(d.risk), risk, override)])
  }

  /** L3.3: hydrology contradicts SAFE. */
  function Checked(i: Inputs, d: Decision): Decision {
    if Contradicted(d.risk, i.physical) then
      Rewritten(d, L2_INTEGRITY, WARNING, RISK, HYDROLOGY_STRESS, Some(Inconsistency))
    else d
  }

  /** L3.7: several signals converge upward. */
  function Converged(i: Inputs, d: Decision): Decision {
    if EarlyWarning(d.risk, i.reasoning.probability, i.trend) then
      Rewritten(d, L1_5_MULTI, WARNING, MULTI_SIGNAL, COMPOUND_EVENT, Some(EarlyWarningConvergence))
    else d
  }

  /** L4: the trend extension, upward only. */
  function Extended(i: Inputs, d: Decision): Decision {
    if d.risk.WARNING? && SustainedUpward(i.trend) then Rewritten(d, L4_TREND, DANGER, TREND_EXTENSION, d.driver, None)
    else if RisingTrend(d.risk, i.reasoning.probability, i.trend) then
      Rewritten(d, L4_TREND, PRE_ALERT, TREND_EXTENSION, d.driver, Some(PreAlertTrend))
    else d
  }

  ghost function Decided(i: Inputs): Decision {
    var gate := Gate(i);
    if gate.Some? then gate.value else Extended(i, Converged(i, Checked(i, Classified(i))))
  }

  // ---------------------------------------------------------------- the decision procedure

  /** The layers in order, appending to one trace and rewriting the decision as they fire. */
  method Decide(p: Perception, r: Reasoning, failures: Option<seq<Failure>>, trend: Option<Trend>,
                thresholds: Option<Thresholds>, physical: Option<Physical>) returns (d: Decision)
    ensures d == Decided(WithDefaults(p, r, failures, trend, thresholds, physical))
  {
    var i := WithDefaults(p, r, failures, trend, thresholds, physical);
    var trace := [];
    if !p.plausible || p.completeness < 0.30 || SuppressesMl(physical) {
      trace := trace + [Entry(L0_PHYSICAL, None, UNKNOWN, None)];
      return Decision(UNKNOWN, FAIL, INVALID_INPUT, L0_PHYSICAL, 0.0, PIPELINE_ERROR, false, false, trace);
    }
    var status := ResolveSystemStatus(i.failures, p);
    if p.waterRatio >= 0.95 {
      trace := trace + [Entry(L1_SIAGA, None, DANGER, None)];
      return Decision(DANGER, status, PHYSICAL_GATE, L1_SIAGA, Max(r.confidence, 0.85), CRITICAL_HYDROLOGY, true, false,
                      trace);
    }
    if ExtremeCount(p) >= 2 {
      trace := trace + [Entry(L1_5_MULTI, None, DANGER, None)];
      return Decision(DANGER, status, MULTI_SIGNAL, L1_5_MULTI, Max(r.confidence, 0.80), COMPOUND_EVENT, true, false,
                      trace);
    }
    if physical.Some? && physical.value.rapid && physical.value.severity >= 0.50 {
      trace := trace + [Entry(L1_SIAGA, None, DANGER, Some(RapidEscalation))];
      return Decision(DANGER, status, PHYSICAL_GATE, L1_SIAGA, Max(r.confidence, 0.80), HYDROLOGY_STRESS, true, false,
                      trace);
    }
    if SafetyFloor(i) {
      trace := trace + [Entry(L1_7_BMKG_SAFETY_FLOOR, None, WARNING, Some(BmkgFloor))];
      return Decision(WARNING, status, SAFETY_FLOOR, L1_7_BMKG_SAFETY_FLOOR, Max(r.confidence, 0.50),
                      BMKG_CONFIRMED_ALERT, true, false, trace);
    }

    var baseRisk := Classify(r.probability, i.thresholds);
    trace := trace + [Entry(L3_ML, None, baseRisk, None)];
    var escalating := HasEscalating(i.failures);
    var authority := L3_ML;
    if escalating {
      var escalated := Escalated(baseRisk);
      trace := trace + [Entry(L2_INTEGRITY, Some(baseRisk), escalated, None)];
      baseRisk := escalated;
      authority := L2_INTEGRITY;
    }
    var confidence := Max(0.05, Min(1.0, r.confidence));
    d := Decision(baseRisk, status, RISK, authority, confidence, SelectDriver(p, r.probability), true,
                  !escalating && status.OK? && !baseRisk.DANGER? && !baseRisk.WARNING?, trace);
    assert Gate(i).None? && d == Classified(i);
    ghost var classified := d;
    if Contradicted(d.risk, physical) {
      trace := trace + [Entry(L2_INTEGRITY, Some(d.risk), WARNING, Some(Inconsistency))];
      d := d.(risk := WARNING, reason := RISK, authority := L2_INTEGRITY, driver := HYDROLOGY_STRESS,
              safeForAutomation := false, trace := trace);
    }
    assert d == Checked(i, classified) && d.trace == trace;
    ghost var checked := d;
    if EarlyWarning(d.risk, r.probability, i.trend) {
      trace := trace + [Entry(L1_5_MULTI, Some(d.risk), WARNING, Some(EarlyWarningConvergence))];
      d := d.(risk := WARNING, reason := MULTI_SIGNAL, authority := L1_5_MULTI, driver := COMPOUND_EVENT,
              safeForAutomation := false, trace := trace);
    }
    assert d == Converged(i, checked) && d.trace == trace;
    if d.risk.WARNING? && SustainedUpward(i.trend) {
      trace := trace + [Entry(L4_TREND, Some(WARNING), DANGER, None)];
      d := d.(risk := DANGER, reason := TREND_EXTENSION, authority := L4_TREND, safeForAutomation := false,
              trace := trace);
    } else if RisingTrend(d.risk, r.probability, i.trend) {
      trace := trace + [Entry(L4_TREND, Some(SAFE), PRE_ALERT, Some(PreAlertTrend))];
      d := d.(risk := PRE_ALERT, reason := TREND_EXTENSION, authority := L4_TREND, safeForAutomation := false,
              trace := trace);
    }
  }

  // ---------------------------------------------------------------- the trace explains the decision

  /** A trace of one to three entries, each finding the risk the last one left, never lower, ending in the decision. */
  ghost predicate Explains(trace: seq<Entry>, d: Decision) {
    && 1 <= |trace| <= 3
    && trace[0].before.None?
    && (forall k | 1 <= k < |trace| ::
          trace[k].before == Some(trace[k - 1].after) && Rank(trace[k].after) >= Rank(trace[k - 1].after))
    && trace[|trace| - 1].layer == d.authority && trace[|trace| - 1].after == d.risk
  }

  lemma RewriteExplained(d: Decision, layer: Authority, risk: RiskLevel, reason: Reason, driver: Driver,
                         override: Option<Override>)
    requires Explains(d.trace, d) && |d.trace| < 3 && Rank(risk) >= Rank(d.risk)
    ensures var d' := Rewritten(d, layer, risk, reason, driver, override);
            Explains(d'.trace, d') && |d'.trace| == |d.trace| + 1
  {
  }

  lemma ClassifiedExplained(i: Inputs)
    ensures var d := Classified(i); Explains(d.trace, d) && |d.trace| <= 2 && (d.risk.SAFE? ==> |d.trace| == 1)
  {
  }

  /** A lift to WARNING needs SAFE, which leaves room for its entry and for one more. */
  lemma LiftExplained(d: Decision, layer: Authority, reason: Reason, driver: Driver, override: Option<Override>)
    requires Explains(d.trace, d) && |d.trace| == 1 && d.risk.SAFE?
    ensures var d' := Rewritten(d, layer, WARNING, reason, driver, override); Explains(d'.trace, d') && |d'.trace| == 2
  {
    RewriteExplained(d, layer, WARNING, reason, driver, override);
  }

  lemma ExtendedExplained(i: Inputs, d: Decision)
    requires Explains(d.trace, d) && |d.trace| <= 2
    ensures var d' := Extended(i, d); Explains(d'.trace, d')
  {
    if d.risk.WARNING? && SustainedUpward(i.trend) {
      RewriteExplained(d, L4_TREND, DANGER, TREND_EXTENSION, d.driver, None);
    } else if RisingTrend(d.risk, i.reasoning.probability, i.trend) {
      RewriteExplained(d, L4_TREND, PRE_ALERT, TREND_EXTENSION, d.driver, Some(PreAlertTrend));
    }
  }

  /** The trace of every decision explains it. */
  lemma TraceExplainsDecision(i: Inputs)
    ensures Explains(Decided(i).trace, Decided(i))
  {
    if Gate(i).None? {
      ClassifiedExplained(i);
      LiftsExplained(i, Classified(i));
      ExtendedExplained(i, Converged(i, Checked(i, Classified(i))));
    }
  }

  lemma LiftsExplained(i: Inputs, d: Decision)
    requires Explains(d.trace, d) && |d.trace| <= 2 && (d.risk.SAFE? ==> |d.trace| == 1)
    ensures var d' := Converged(i, Checked(i, d)); Explains(d'.trace, d') && |d'.trace| <= 2
  {
    if Contradicted(d.risk, i.physical) {
      LiftExplained(d, L2_INTEGRITY, RISK, HYDROLOGY_STRESS, Some(Inconsistency));
    } else if EarlyWarning(d.risk, i.reasoning.probability, i.trend) {
      LiftExplained(d, L1_5_MULTI, MULTI_SIGNAL, COMPOUND_EVENT, Some(EarlyWarningConvergence));
    }
  }

  /**
   * UNKNOWN, FAIL, the L0 authority, the INVALID_INPUT reason and shadow mode all mean the same: the input is invalid.
   */
  lemma UnknownIffInvalidInput(i: Inputs)
    ensures var d := Decided(i);
            && (d.risk.UNKNOWN? <==> InvalidInput(i)) && (d.status.FAIL? <==> InvalidInput(i))
            && (d.authority.L0_PHYSICAL? <==> InvalidInput(i)) && (d.reason.INVALID_INPUT? <==> InvalidInput(i))
            && (!d.mlFull <==> InvalidInput(i)) && !d.status.PIPELINE_FAILURE? && !d.reason.FALLBACK?
  {
  }

  /** Automation is allowed exactly when the model alone decided, below WARNING, with a clean status. */
  lemma SafeForAutomationIff(i: Inputs)
    ensures var d := Decided(i);
            d.safeForAutomation <==> (d.authority.L3_ML? && d.status.OK? && (d.risk.SAFE? || d.risk.PRE_ALERT?))
  {
  }

  // ---------------------------------------------------------------- when more hazard lowers the risk

  /** The final risk of an input no gate decides, from the risk after L2. */
  function AfterRewrites(i: Inputs, risk: RiskLevel): RiskLevel {
    var lifts := Contradicted(risk, i.physical) || EarlyWarning(risk, i.reasoning.probability, i.trend);
    var lifted := if lifts then WARNING else risk;
    if lifted.WARNING? && SustainedUpward(i.trend) then DANGER
    else if RisingTrend(lifted, i.reasoning.probability, i.trend) then PRE_ALERT
    else lifted
  }

  lemma RiskWithoutGate(i: Inputs)
    requires Gate(i).None?
    ensures Decided(i).risk == AfterRewrites(i, IntegrityRisk(i))
  {
  }

  /** L3.3 or L3.7 lifts the risk L2 left. */
  predicate Lifted(i: Inputs) {
    Contradicted(IntegrityRisk(i), i.physical) || EarlyWarning(IntegrityRisk(i), i.reasoning.probability, i.trend)
  }

  /**
   * Automation is allowed exactly when no gate decides, nothing escalates, the status is OK and the model stays low.
   */
  lemma AllowedIff(i: Inputs)
    ensures Decided(i).safeForAutomation
       <==> (&& Gate(i).None? && !HasEscalating(i.failures) && StatusOf(i.failures, i.perception).OK?
             && (MlRisk(i).SAFE? || MlRisk(i).PRE_ALERT?) && !Lifted(i)
             && !RisingTrend(MlRisk(i), i.reasoning.probability, i.trend))
  {
  }

  function WithProbability(i: Inputs, p: real): Inputs {
    i.(reasoning := i.reasoning.(probability := p))
  }

  /**
   * Raising the model's probability from p to q lowers the risk in exactly one case: no gate decides, at p the risk
   * was SAFE after L2 and lifted by L3.3 or L3.7, and the model classes q as PRE_ALERT, which they do not lift.
   */
  lemma HigherProbabilityLowersRiskIff(i: Inputs, p: real, q: real)
    requires p <= q
    ensures var a, b := WithProbability(i, p), WithProbability(i, q);
            (Rank(Decided(b).risk) < Rank(Decided(a).risk))
              <==> (Gate(i).None? && Lifted(a) && Classify(q, i.thresholds).PRE_ALERT?)
  {
    var a, b := WithProbability(i, p), WithProbability(i, q);
    assert Gate(a).None? <==> Gate(i).None?;
    assert Gate(b).None? <==> Gate(i).None?;
    if Gate(i).None? {
      RiskWithoutGate(a);
      RiskWithoutGate(b);
      assert Rank(MlRisk(a)) <= Rank(MlRisk(b));
    } else {
      assert Decided(a).risk == Decided(b).risk;
    }
  }

  /**
   * An added failure lowers the risk in exactly one case: it is the first escalating one, no gate decides, and the
   * SAFE of the model was being lifted by L3.3 or L3.7, which do not lift the PRE_ALERT it is escalated to.
   */
  lemma AddedFailureLowersRiskIff(i: Inputs, f: Failure)
    ensures var j := i.(failures := i.failures + [f]);
            (Rank(Decided(j).risk) < Rank(Decided(i).risk))
              <==> (Gate(i).None? && Lifted(i) && Severe(f) && f.escalates && !HasEscalating(i.failures))
  {
    var j := i.(failures := i.failures + [f]);
    EscalatingAfterAdding(i.failures, f);
    assert Gate(j).None? <==> Gate(i).None?;
    if Gate(i).None? {
      RiskWithoutGate(i);
      RiskWithoutGate(j);
    } else {
      assert Decided(i).risk == Decided(j).risk;
    }
  }

  lemma EscalatingAfterAdding(fs: seq<Failure>, f: Failure)
    ensures HasEscalating(fs + [f]) <==> HasEscalating(fs) || (Severe(f) && f.escalates)
  {
    var gs := fs + [f];
    if HasEscalating(fs) { var k :| 0 <= k < |fs| && Severe(fs[k]) && fs[k].escalates; assert gs[k] == fs[k]; }
    if Severe(f) && f.escalates { assert gs[|fs|] == f; }
  }

  function WithRainfall(i: Inputs, mm: real): Inputs {
    i.(perception := i.perception.(rainfall := mm))
  }

  /** Left to the layers after the gates, the model ends at DANGER. */
  predicate ModelDanger(i: Inputs) {
    IntegrityRisk(i).DANGER? || ((IntegrityRisk(i).WARNING? || Lifted(i)) && SustainedUpward(i.trend))
  }

  /** Left to the layers after the gates, the model ends below WARNING. */
  predicate ModelCalm(i: Inputs) {
    (IntegrityRisk(i).SAFE? || IntegrityRisk(i).PRE_ALERT?) && !Lifted(i)
  }

  lemma ModelVerdicts(i: Inputs)
    ensures ModelDanger(i) <==> AfterRewrites(i, IntegrityRisk(i)).DANGER?
    ensures ModelCalm(i) <==> Rank(AfterRewrites(i, IntegrityRisk(i))) < Rank(WARNING)
  {
  }

  /**
   * Raising the rainfall from r to s lowers the risk in exactly one case: no gate decides at r, an alert of 0.80 or
   * more stands, s crosses 20 mm without reaching 60 mm, and so trips the L1.7 floor, which answers WARNING without
   * consulting a model that would have ended at DANGER.
   */
  lemma MoreRainLowersRiskIff(i: Inputs, r: real, s: real)
    requires r <= s
    ensures var a, b := WithRainfall(i, r), WithRainfall(i, s);
            (Rank(Decided(b).risk) < Rank(Decided(a).risk))
              <==> (Gate(a).None? && i.perception.bmkg >= 0.80 && r < 20.0 <= s < 60.0 && ModelDanger(i))
  {
    var a, b := WithRainfall(i, r), WithRainfall(i, s);
    assert InvalidInput(a) <==> InvalidInput(b);
    ModelVerdicts(i);
    if Gate(a).None? {
      RiskWithoutGate(a);
      if Gate(b).None? { RiskWithoutGate(b); }
    }
  }

  function WithWater(i: Inputs, ratio: real): Inputs {
    i.(perception := i.perception.(waterRatio := ratio))
  }

  /** Everything but the water level calls for the L1.7 floor on an absent reading, and no other gate fires. */
  predicate FloorHangsOnWater(i: Inputs) {
    && !InvalidInput(i) && !RapidGate(i) && i.perception.bmkg >= 0.80 && i.perception.rainfall < 20.0
    && i.reasoning.ood < 0.0
  }

  /**
   * Raising the water level from r to s lowers the risk in exactly two cases, both with the L1.7 floor hanging on the
   * absent reading 0: r is that reading, s lies below 0.85 and releases the floor to a model that ends below WARNING;
   * or r is negative, s is that reading and trips the floor under a model that ends at DANGER.
   */
  lemma HigherWaterLowersRiskIff(i: Inputs, r: real, s: real)
    requires r <= s
    ensures var a, b := WithWater(i, r), WithWater(i, s);
            (Rank(Decided(b).risk) < Rank(Decided(a).risk))
              <==> (FloorHangsOnWater(i) && ((r == 0.0 < s < 0.85 && ModelCalm(i)) || (r < 0.0 == s && ModelDanger(i))))
  {
    var a, b := WithWater(i, r), WithWater(i, s);
    assert InvalidInput(a) <==> InvalidInput(b);
    ModelVerdicts(i);
    if Gate(a).None? { RiskWithoutGate(a); }
    if Gate(b).None? { RiskWithoutGate(b); }
  }

  // ---------------------------------------------------------------- the exceptional cases occur

  const CALM := Perception(true, 1.0, 0.0, 0.5, 0.0, 0.0)
  const QUIET := Physical(0.0, false, 1.0, false)
  const ALERTED := CALM.(bmkg := 0.80)

  /** Hydrology at 0.75 lifts a SAFE at probability 0 to WARNING, but not the PRE_ALERT at probability 0.30. */
  lemma HigherProbabilityCanLowerRisk()
    ensures var i := Inputs(CALM, Reasoning(0.0, 0.5, 0.0), [], NO_HISTORY, DEFAULT_THRESHOLDS,
                            Some(QUIET.(severity := 0.75)));
            Decided(i).risk.WARNING? && Decided(WithProbability(i, 0.30)).risk.PRE_ALERT?
  {
  }

  /** The same SAFE, escalated to PRE_ALERT by a failure, is no longer lifted. */
  lemma AddedFailureCanLowerRisk()
    ensures var i := Inputs(CALM, Reasoning(0.0, 0.5, 0.0), [], NO_HISTORY, DEFAULT_THRESHOLDS,
                            Some(QUIET.(severity := 0.75)));
            Decided(i).risk.WARNING? && Decided(i.(failures := [Failure(MissingData, HIGH, true)])).risk.PRE_ALERT?
  {
    var i := Inputs(CALM, Reasoning(0.0, 0.5, 0.0), [], NO_HISTORY, DEFAULT_THRESHOLDS, Some(QUIET.(severity := 0.75)));
    var j := i.(failures := [Failure(MissingData, HIGH, true)]);
    assert Severe(j.failures[0]) && j.failures[0].escalates;
    assert HasEscalating(j.failures);
  }

  /** Under a severe alert, a DANGER at probability 0.80 becomes WARNING when 20 mm of rain fall. */
  lemma MoreRainCanLowerRisk()
    ensures var i := Inputs(ALERTED, Reasoning(0.80, 0.5, 0.0), [], NO_HISTORY, DEFAULT_THRESHOLDS, None);
            Decided(i).risk.DANGER? && Decided(WithRainfall(i, 20.0)).risk.WARNING?
  {
  }

  /**
   * Under a severe alert with an out-of-distribution model at probability 0, a WARNING on an absent reading becomes
   * SAFE when the water is read at 0.5; with a model at 0.80, a DANGER at a negative reading becomes WARNING at 0.
   */
  lemma HigherWaterCanLowerRisk()
    ensures var i := Inputs(ALERTED, Reasoning(0.0, 0.5, -0.1), [], NO_HISTORY, DEFAULT_THRESHOLDS, None);
            Decided(WithWater(i, 0.0)).risk.WARNING? && Decided(WithWater(i, 0.5)).risk.SAFE?
    ensures var i := Inputs(ALERTED, Reasoning(0.80, 0.5, -0.1), [], NO_HISTORY, DEFAULT_THRESHOLDS, None);
            Decided(WithWater(i, -1.0)).risk.DANGER? && Decided(WithWater(i, 0.0)).risk.WARNING?
  {
  }

  /** With a valid input, hydrology at 0.75 or above never leaves SAFE, whatever the model and the failures say. */
  lemma SevereHydrologyIsNeverSafe(i: Inputs)
    requires !InvalidInput(i) && i.physical.Some? && i.physical.value.severity >= 0.75
    ensures !Decided(i).risk.SAFE?
    ensures !HasEscalating(i.failures) && MlRisk(i).SAFE? ==> Rank(Decided(i).risk) >= Rank(WARNING)
  {
  }

  // ---------------------------------------------------------------- every layer, told by the numbers it tests

  /** The input can be acted on. */
  ghost predicate Trusted(i: Inputs) {
    && i.perception.plausible && i.perception.completeness >= 0.30
    && (i.physical.Some? ==> !i.physical.value.critical && i.physical.value.plausibility >= 0.30)
  }

  /** Two of extreme rain, high water and a severe alert. */
  ghost predicate TwoExtremes(p: Perception) {
    || (p.rainfall >= 60.0 && p.waterRatio >= 0.85)
    || (p.rainfall >= 60.0 && p.bmkg >= 0.80)
    || (p.waterRatio >= 0.85 && p.bmkg >= 0.80)
  }

  ghost predicate RisesFast(i: Inputs) {
    i.physical.Some? && i.physical.value.rapid && i.physical.value.severity >= 0.50
  }

  /** A severe alert beside rain, or beside an out-of-distribution model without a water reading. */
  ghost predicate AlertWithSupport(i: Inputs) {
    && i.perception.bmkg >= 0.80
    && (i.perception.rainfall >= 20.0 || (i.reasoning.ood < 0.0 && i.perception.waterRatio == 0.0))
  }

  /** Nothing before the model decides. */
  ghost predicate LeftToModel(i: Inputs) {
    && Trusted(i) && i.perception.waterRatio < 0.95 && !TwoExtremes(i.perception) && !RisesFast(i)
    && !AlertWithSupport(i)
  }

  /** x raised to at least this much. */
  predicate AtLeast(result: real, x: real, floor: real) {
    if x < floor then result == floor else result == x
  }

  /** L0 fires exactly on untrusted input, and then nothing of it is used. */
  lemma InvalidTold(i: Inputs)
    ensures var d := Decided(i);
            && (d.authority.L0_PHYSICAL? <==> !Trusted(i))
            && (!Trusted(i) ==>
                  && d.risk.UNKNOWN? && d.status.FAIL? && d.reason.INVALID_INPUT? && d.confidence == 0.0
                  && d.driver.PIPELINE_ERROR? && !d.mlFull && !d.safeForAutomation)
  {
  }

  /**
   * On trusted input the physical layers answer DANGER exactly when the water stands at 0.95 or above, two extremes
   * meet, or the water rises fast at a severity of 0.50 or above; the first of these names the layer.
   */
  lemma PhysicalDangerTold(i: Inputs)
    requires Trusted(i)
    ensures var d, p := Decided(i), i.perception;
            && ((d.risk.DANGER? && (d.authority.L1_SIAGA? || d.authority.L1_5_MULTI?))
                <==> (p.waterRatio >= 0.95 || TwoExtremes(p) || RisesFast(i)))
            && (d.authority.L1_SIAGA? <==> (p.waterRatio >= 0.95 || (!TwoExtremes(p) && RisesFast(i))))
            && (p.waterRatio >= 0.95 ==>
                  d.driver.CRITICAL_HYDROLOGY? && d.reason.PHYSICAL_GATE?
                  && AtLeast(d.confidence, i.reasoning.confidence, 0.85))
            && (p.waterRatio < 0.95 && TwoExtremes(p) ==>
                  d.authority.L1_5_MULTI? && d.driver.COMPOUND_EVENT? && d.reason.MULTI_SIGNAL?
                  && AtLeast(d.confidence, i.reasoning.confidence, 0.80))
            && (p.waterRatio < 0.95 && !TwoExtremes(p) && RisesFast(i) ==>
                  d.driver.HYDROLOGY_STRESS? && d.reason.PHYSICAL_GATE?
                  && AtLeast(d.confidence, i.reasoning.confidence, 0.80))
  {
  }

  /** L1.7 answers exactly on a supported severe alert that no danger pre-empts: WARNING, whatever the model says. */
  lemma FloorTold(i: Inputs)
    requires Trusted(i)
    ensures var d, p := Decided(i), i.perception;
            && (d.authority.L1_7_BMKG_SAFETY_FLOOR?
                <==> (AlertWithSupport(i) && p.waterRatio < 0.95 && !TwoExtremes(p) && !RisesFast(i)))
            && (d.authority.L1_7_BMKG_SAFETY_FLOOR? ==>
                  d.risk.WARNING? && d.reason.SAFETY_FLOOR? && d.driver.BMKG_CONFIRMED_ALERT?
                  && AtLeast(d.confidence, i.reasoning.confidence, 0.50))
  {
  }

  /** Some high or critical failure asks for escalation. */
  ghost predicate Escalating(fs: seq<Failure>) {
    exists k :: 0 <= k < |fs| && (fs[k].severity.HIGH? || fs[k].severity.CRITICAL?) && fs[k].escalates
  }

  /** The model's probability against its thresholds, one level up under an escalating failure. */
  ghost function ModelLevel(i: Inputs): nat {
    var p, t := i.reasoning.probability, i.thresholds;
    var level := if p >= t.danger then 3 else if p >= t.warning then 2 else if p >= t.preAlert then 1 else 0;
    if Escalating(i.failures) && level < 3 then level + 1 else level
  }

  /** Hydrology at 0.75 or above. */
  ghost predicate SevereHydrology(i: Inputs) {
    i.physical.Some? && i.physical.value.severity >= 0.75
  }

  /** Every signal of the early-warning rule points up. */
  ghost predicate SignalsConverge(i: Inputs) {
    var t := i.trend;
    && i.reasoning.probability >= 0.12 && t.direction == Increasing && t.strength >= 0.35 && t.confidence >= 0.65
    && t.rain3h >= 20.0 && t.waterDelta >= 0.06 && t.points >= 2
  }

  ghost predicate RisesSteadily(i: Inputs) {
    && i.reasoning.probability >= 0.12 && i.trend.direction == Increasing
    && i.trend.strength >= 0.30 && i.trend.confidence >= 0.55
  }

  /** The last three probabilities rise one after the other, by 0.10 or more. */
  ghost predicate RisesThrice(recent: seq<real>) {
    exists before, a, b, c :: recent == before + [a, b, c] && a < b < c && c >= a + 0.10
  }

  lemma RisesThriceIff(t: Trend)
    ensures RisesThrice(t.recent) <==> SustainedUpward(t)
  {
    var r := t.recent;
    var n := |r|;
    if n >= 3 {
      assert r == r[..n - 3] + [r[n - 3], r[n - 2], r[n - 1]];
    }
    if RisesThrice(r) {
      var before, a, b, c :| r == before + [a, b, c] && a < b < c && c >= a + 0.10;
      assert n == |before| + 3 && r[n - 3] == a && r[n - 2] == b && r[n - 1] == c;
    }
  }

  lemma EscalatingIff(fs: seq<Failure>)
    ensures Escalating(fs) <==> HasEscalating(fs)
  {
    if Escalating(fs) {
      var k :| 0 <= k < |fs| && (fs[k].severity.HIGH? || fs[k].severity.CRITICAL?) && fs[k].escalates;
      assert Severe(fs[k]);
    }
  }

  /** A SAFE that hydrology contradicts or converging signals overtake. */
  ghost predicate Overtaken(i: Inputs) {
    ModelLevel(i) == 0 && (SevereHydrology(i) || SignalsConverge(i))
  }

  /**
   * Left to the model, the final risk by numbers alone: WARNING, of the model or of an overtaken SAFE, becomes DANGER
   * when the last three probabilities rise; a SAFE that nothing overtakes becomes PRE_ALERT on a steady rise.
   */
  lemma ModelRiskTold(i: Inputs)
    requires LeftToModel(i)
    ensures var r, level, rises := Decided(i).risk, ModelLevel(i), RisesThrice(i.trend.recent);
            && (r.DANGER? <==> (level == 3 || ((level == 2 || Overtaken(i)) && rises)))
            && (r.WARNING? <==> ((level == 2 || Overtaken(i)) && !rises))
            && (r.PRE_ALERT? <==> (level == 1 || (level == 0 && !Overtaken(i) && RisesSteadily(i))))
            && (r.SAFE? <==> (level == 0 && !Overtaken(i) && !RisesSteadily(i)))
  {
    RisesThriceIff(i.trend);
    EscalatingIff(i.failures);
    RiskWithoutGate(i);
  }

  /** And the layer that spoke last. */
  lemma ModelAuthorityTold(i: Inputs)
    requires LeftToModel(i)
    ensures var d, level, rises := Decided(i), ModelLevel(i), RisesThrice(i.trend.recent);
            && (d.authority.L4_TREND?
                <==> (((level == 2 || Overtaken(i)) && rises) || (level == 0 && !Overtaken(i) && RisesSteadily(i))))
            && (d.authority.L2_INTEGRITY?
                <==> (!d.authority.L4_TREND? && (Escalating(i.failures) || (level == 0 && SevereHydrology(i)))))
            && (d.authority.L1_5_MULTI?
                <==> (!d.authority.L4_TREND? && level == 0 && !SevereHydrology(i) && SignalsConverge(i)))
            && (d.authority.L3_ML?
                <==> (!d.authority.L4_TREND? && !Escalating(i.failures) && !Overtaken(i)))
  {
    RisesThriceIff(i.trend);
    EscalatingIff(i.failures);
  }

  /** The reason follows the layer that spoke last. */
  lemma ModelReasonTold(i: Inputs)
    requires LeftToModel(i)
    ensures var d := Decided(i);
            && (d.reason.TREND_EXTENSION? <==> d.authority.L4_TREND?)
            && (d.reason.MULTI_SIGNAL? <==> d.authority.L1_5_MULTI?)
            && (d.reason.RISK? <==> d.authority.L2_INTEGRITY? || d.authority.L3_ML?)
  {
  }

  /** Left to the model, the confidence is only clamped. */
  lemma ModelConfidenceTold(i: Inputs)
    requires LeftToModel(i)
    ensures var d, c := Decided(i), i.reasoning.confidence;
            && (0.05 <= c <= 1.0 ==> d.confidence == c)
            && (c < 0.05 ==> d.confidence == 0.05) && (c > 1.0 ==> d.confidence == 1.0)
  {
  }

  /** The driver of a strongest signal: water, then rain, then alerts, then the model. */
  lemma DriverTold(p: Perception, probability: real)
    requires p.waterRatio < 0.95
    ensures var d := SelectDriver(p, probability);
            && (d.HYDROLOGY_STRESS? <==> p.waterRatio >= 0.85)
            && (d.EXTREME_RAINFALL? <==> p.waterRatio < 0.85 && p.rainfall >= 60.0)
            && (d.SUSTAINED_RAINFALL? <==> p.waterRatio < 0.85 && 40.0 <= p.rainfall < 60.0)
            && (d.HIGH_RAINFALL? <==> p.waterRatio < 0.85 && 20.0 <= p.rainfall < 40.0)
            && (d.BMKG_CONFIRMED_ALERT? <==> p.waterRatio < 0.85 && p.rainfall < 20.0 && p.bmkg >= 0.80)
            && (d.BMKG_FORECAST_ALERT? <==> p.waterRatio < 0.85 && p.rainfall < 20.0 && 0.50 <= p.bmkg < 0.80)
            && (d.ATMOSPHERIC_BUILDUP?
                <==> p.waterRatio < 0.85 && p.rainfall < 20.0 && p.bmkg < 0.50 && probability >= 0.50)
            && (d.LOW_BACKGROUND_RISK?
                <==> p.waterRatio < 0.85 && p.rainfall < 20.0 && p.bmkg < 0.50 && probability < 0.50)
  {
  }

  /** An overtaken SAFE is driven by what overtook it, any other model decision by its strongest signal. */
  lemma ModelDriverTold(i: Inputs)
    requires LeftToModel(i)
    ensures Decided(i).driver
         == if !Overtaken(i) then SelectDriver(i.perception, i.reasoning.probability)
            else if SevereHydrology(i) then HYDROLOGY_STRESS else COMPOUND_EVENT
  {
    EscalatingIff(i.failures);
  }

  /** The status of trusted input by the kinds and severities of the failures, the age and the completeness. */
  lemma StatusTold(i: Inputs)
    requires Trusted(i)
    ensures var s, fs, p := Decided(i).status, i.failures, i.perception;
            && (s.CONFLICT? <==> (exists k :: 0 <= k < |fs| && (fs[k].severity.HIGH? || fs[k].severity.CRITICAL?)
                                              && (fs[k].kind.SignalConflict? || fs[k].kind.SemanticInconsistency?)))
            && (s.LOW_TRUST? <==> (!s.CONFLICT?
                                   && (exists k :: 0 <= k < |fs| && (fs[k].severity.HIGH? || fs[k].severity.CRITICAL?)
                                                   && (fs[k].kind.LowTrust? || fs[k].kind.LowConfidence?))))
            && (s.DEGRADED? <==> (!s.CONFLICT? && !s.LOW_TRUST?
                                  && ((exists k :: 0 <= k < |fs| && (fs[k].severity.HIGH? || fs[k].severity.CRITICAL?))
                                      || p.freshness > 60.0 || p.completeness < 0.50)))
            && (s.OK? <==> (!s.CONFLICT? && !s.LOW_TRUST? && !s.DEGRADED?))
  {
    StatusKindsTold(i.failures);
  }

  lemma StatusKindsTold(fs: seq<Failure>)
    ensures HasSevereConflict(fs) <==> (exists k :: 0 <= k < |fs| && (fs[k].severity.HIGH? || fs[k].severity.CRITICAL?)
                                                    && (fs[k].kind.SignalConflict?
                                                        || fs[k].kind.SemanticInconsistency?))
    ensures HasSevereDistrust(fs) <==> (exists k :: 0 <= k < |fs| && (fs[k].severity.HIGH? || fs[k].severity.CRITICAL?)
                                                    && (fs[k].kind.LowTrust? || fs[k].kind.LowConfidence?))
    ensures HasSevere(fs) <==> (exists k :: 0 <= k < |fs| && (fs[k].severity.HIGH? || fs[k].severity.CRITICAL?))
  {
    assert forall k | 0 <= k < |fs| :: Severe(fs[k]) <==> (fs[k].severity.HIGH? || fs[k].severity.CRITICAL?);
  }

  /** Missing arguments stand for no failures, no history, thresholds 0.30, 0.50 and 0.75, and no physical signals. */
  lemma DefaultsTold(p: Perception, r: Reasoning)
    ensures var i := WithDefaults(p, r, None, None, None, None);
            && i.perception == p && i.reasoning == r && i.failures == [] && i.physical == None
            && i.thresholds.preAlert == 0.30 && i.thresholds.warning == 0.50 && i.thresholds.danger == 0.75
            && i.trend.recent == [] && i.trend.direction.NoTrend? && i.trend.points == 0
  {
  }
}
