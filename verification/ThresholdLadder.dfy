/** The operating thresholds: the context-adjusted ladder and the normalisation every consumer passes it through. */
module ThresholdLadder {
  import opened Common
  import opened Rounding
  import opened Decision

  // ---------------------------------------------------------------- the grid of four digits

  ghost predicate Grid(x: real) {
    OnGrid(x, SCALE_4)
  }

  /** x is k ten-thousandths. */
  lemma GridIndex(x: real) returns (k: int)
    requires Grid(x)
    ensures x == k as real / 10000.0
  {
    k := (x * SCALE_4 as real).Floor;
  }

  lemma IndexOnGrid(k: int)
    ensures Grid(k as real / 10000.0)
  {
    assert k as real / 10000.0 * SCALE_4 as real == k as real;
  }

  lemma GridSum(x: real, y: real)
    requires Grid(x) && Grid(y)
    ensures Grid(x + y) && Grid(x - y)
  {
    var j := GridIndex(x);
    var k := GridIndex(y);
    IndexOnGrid(j + k);
    IndexOnGrid(j - k);
  }

  function Rounded(x: real): real {
    Round(x, SCALE_4)
  }

  // ---------------------------------------------------------------- the context-adjusted ladder

  datatype TrendState = TrendState(anomaly: bool, rate: real, rising: bool, strength: real, confidence: real)

  datatype Cause = OodRaise | MissingRaise | TrendAnomaly | RapidRise | HighPlausibility | ConflictLower | StrongTrend

  function Delta(c: Cause): real {
    match c
    case OodRaise => 0.10
    case MissingRaise => 0.05
    case TrendAnomaly => -0.06
    case RapidRise => -0.05
    case HighPlausibility => -0.04
    case ConflictLower => -0.07
    case StrongTrend => -0.04
  }

  predicate CanLower(kinds: seq<FailureType>, plausibility: real) {
    OodInput !in kinds && plausibility >= 0.40
  }

  /** When each adjustment applies. */
  predicate Applies(c: Cause, kinds: seq<FailureType>, trend: TrendState, plausibility: real) {
    match c
    case OodRaise => OodInput in kinds
    case MissingRaise => MissingData in kinds
    case TrendAnomaly => CanLower(kinds, plausibility) && trend.anomaly
    case RapidRise => CanLower(kinds, plausibility) && trend.anomaly && trend.rate > 0.04
    case HighPlausibility => CanLower(kinds, plausibility) && plausibility >= 0.90
    case ConflictLower => CanLower(kinds, plausibility) && SignalConflict in kinds
    case StrongTrend => CanLower(kinds, plausibility) && trend.rising && trend.strength >= 0.40
                        && trend.confidence >= 0.60
  }

  const CAUSES: seq<Cause> := [OodRaise, MissingRaise, TrendAnomaly, RapidRise, HighPlausibility, ConflictLower,
                               StrongTrend]

  /** Those of the first n causes that apply. */
  function Applying(n: nat, kinds: seq<FailureType>, trend: TrendState, plausibility: real): seq<Cause>
    requires n <= 7
  {
    if n == 0 then []
    else
      var rest, c := Applying(n - 1, kinds, trend, plausibility), CAUSES[n - 1];
      if Applies(c, kinds, trend, plausibility) then rest + [c] else rest
  }

  /** The sum of the adjustments for those of the first n causes that apply. */
  function DeltaSum(n: nat, kinds: seq<FailureType>, trend: TrendState, plausibility: real): real
    requires n <= 7
  {
    if n == 0 then 0.0
    else DeltaSum(n - 1, kinds, trend, plausibility)
         + (if Applies(CAUSES[n - 1], kinds, trend, plausibility) then Delta(CAUSES[n - 1]) else 0.0)
  }

  function NetDelta(kinds: seq<FailureType>, trend: TrendState, plausibility: real): real {
    DeltaSum(7, kinds, trend, plausibility)
  }

  function MaxDanger(base: Thresholds): real {
    Min(0.95, base.danger + 0.30)
  }

  function EffectiveDanger(base: Thresholds, net: real): real {
    Rounded(Max(base.warning, Min(MaxDanger(base), base.danger + net)))
  }

  function EffectiveWarning(base: Thresholds, danger: real): real {
    var w := Rounded(Max(base.preAlert + 0.01, Min(danger - 0.05, base.warning)));
    if w > danger then Rounded(Max(base.preAlert, danger - 0.01)) else w
  }

  function Adjusted(base: Thresholds, net: real): Thresholds {
    var danger := EffectiveDanger(base, net);
    Thresholds(base.preAlert, EffectiveWarning(base, danger), danger)
  }

  /** The adjustments made and the sum reached after considering the first n causes. */
  ghost predicate Considered(n: nat, kinds: seq<FailureType>, trend: TrendState, plausibility: real,
                             adjustments: seq<Cause>, sum: real)
    requires n <= 7
  {
    adjustments == Applying(n, kinds, trend, plausibility) && sum == DeltaSum(n, kinds, trend, plausibility)
  }

  lemma ConsiderNext(n: nat, kinds: seq<FailureType>, trend: TrendState, plausibility: real, adjustments: seq<Cause>,
                     sum: real)
    requires n < 7 && Considered(n, kinds, trend, plausibility, adjustments, sum)
    ensures if Applies(CAUSES[n], kinds, trend, plausibility)
            then Considered(n + 1, kinds, trend, plausibility, adjustments + [CAUSES[n]], sum + Delta(CAUSES[n]))
            else Considered(n + 1, kinds, trend, plausibility, adjustments, sum)
  {
  }

  /** Accumulates the adjustments that apply into the danger threshold, recording each. */
  method BuildThresholds(base: Thresholds, kinds: seq<FailureType>, trend: TrendState, plausibility: real)
    returns (profile: Thresholds, adjustments: seq<Cause>)
    ensures profile == Adjusted(base, NetDelta(kinds, trend, plausibility))
    ensures adjustments == Applying(7, kinds, trend, plausibility)
  {
    adjustments := [];
    var danger := base.danger;
    ConsiderNext(0, kinds, trend, plausibility, adjustments, danger - base.danger);
    if OodInput in kinds {
      adjustments, danger := adjustments + [OodRaise], danger + 0.10;
    }
    ConsiderNext(1, kinds, trend, plausibility, adjustments, danger - base.danger);
    if MissingData in kinds {
      adjustments, danger := adjustments + [MissingRaise], danger + 0.05;
    }
    var canLower := OodInput !in kinds && plausibility >= 0.40;
    ConsiderNext(2, kinds, trend, plausibility, adjustments, danger - base.danger);
    if canLower && trend.anomaly {
      adjustments, danger := adjustments + [TrendAnomaly], danger - 0.06;
    }
    ConsiderNext(3, kinds, trend, plausibility, adjustments, danger - base.danger);
    if canLower && trend.anomaly && trend.rate > 0.04 {
      adjustments, danger := adjustments + [RapidRise], danger - 0.05;
    }
    ConsiderNext(4, kinds, trend, plausibility, adjustments, danger - base.danger);
    if canLower && plausibility >= 0.90 {
      adjustments, danger := adjustments + [HighPlausibility], danger - 0.04;
    }
    ConsiderNext(5, kinds, trend, plausibility, adjustments, danger - base.danger);
    if canLower && SignalConflict in kinds {
      adjustments, danger := adjustments + [ConflictLower], danger - 0.07;
    }
    ConsiderNext(6, kinds, trend, plausibility, adjustments, danger - base.danger);
    if canLower && trend.rising && trend.strength >= 0.40 && trend.confidence >= 0.60 {
      adjustments, danger := adjustments + [StrongTrend], danger - 0.04;
    }
    assert Considered(7, kinds, trend, plausibility, adjustments, danger - base.danger);
    profile := LadderFor(base, danger);
  }

  /** The ladder around an adjusted danger level: clamped, rounded, with the warning step pushed below it. */
  method LadderFor(base: Thresholds, danger: real) returns (profile: Thresholds)
    ensures profile == Adjusted(base, danger - base.danger)
  {
    var effective := Rounded(Max(base.warning, Min(Min(0.95, base.danger + 0.30), danger)));
    var warning := Rounded(Max(base.preAlert + 0.01, Min(effective - 0.05, base.warning)));
    if warning > effective {
      warning := Rounded(Max(base.preAlert, effective - 0.01));
    }
    profile := Thresholds(base.preAlert, warning, effective);
  }

  // ---------------------------------------------------------------- what the ladder keeps

  ghost predicate Ladder(t: Thresholds) {
    0.0 <= t.preAlert <= t.warning <= t.danger <= 1.0
  }

  ghost predicate GridLadder(t: Thresholds) {
    Ladder(t) && Grid(t.preAlert) && Grid(t.warning) && Grid(t.danger)
  }

  lemma RoundedKeepsOrder(x: real, y: real)
    requires x <= y
    ensures Rounded(x) <= Rounded(y)
  {
    RoundMonotone(x, y, SCALE_4);
  }

  lemma RoundedFixes(x: real)
    requires Grid(x)
    ensures Rounded(x) == x
  {
    RoundFixesGrid(x, SCALE_4);
  }

  lemma GridConstants()
    ensures Grid(0.0) && Grid(1.0) && Grid(0.95) && Grid(0.30) && Grid(0.05) && Grid(0.01)
  {
    IndexOnGrid(0);
    IndexOnGrid(10000);
    IndexOnGrid(9500);
    IndexOnGrid(3000);
    IndexOnGrid(500);
    IndexOnGrid(100);
  }

  /** Exactly the adjustments that apply are reported. */
  lemma {:induction false} ReportedIffApplies(n: nat, kinds: seq<FailureType>, trend: TrendState, plausibility: real,
                                              c: Cause)
    requires n <= 7
    ensures c in Applying(n, kinds, trend, plausibility) <==> c in CAUSES[..n] && Applies(c, kinds, trend, plausibility)
  {
    if n > 0 {
      ReportedIffApplies(n - 1, kinds, trend, plausibility, c);
      assert CAUSES[..n] == CAUSES[..n - 1] + [CAUSES[n - 1]];
    }
  }

  /** Every adjustment is a whole number of hundredths, and so is their sum. */
  lemma {:induction false} DeltaSumOnGrid(n: nat, kinds: seq<FailureType>, trend: TrendState, plausibility: real)
    requires n <= 7
    ensures Grid(DeltaSum(n, kinds, trend, plausibility))
  {
    if n == 0 {
      IndexOnGrid(0);
    } else {
      DeltaSumOnGrid(n - 1, kinds, trend, plausibility);
      var d := Delta(CAUSES[n - 1]);
      DeltaOnGrid(CAUSES[n - 1]);
      GridSum(DeltaSum(n - 1, kinds, trend, plausibility), d);
    }
  }

  lemma DeltaOnGrid(c: Cause)
    ensures Grid(Delta(c))
  {
    var k := match c case OodRaise => 1000 case MissingRaise => 500 case TrendAnomaly => -600 case RapidRise => -500
                     case HighPlausibility => -400 case ConflictLower => -700 case StrongTrend => -400;
    assert Delta(c) == k as real / 10000.0;
    IndexOnGrid(k);
  }

  /** From a base ladder on the grid, rounding never acts: the danger threshold is the clamped sum itself. */
  lemma DangerIsExact(base: Thresholds, net: real)
    requires GridLadder(base) && Grid(net)
    ensures EffectiveDanger(base, net) == Max(base.warning, Min(MaxDanger(base), base.danger + net))
    ensures Grid(EffectiveDanger(base, net))
  {
    GridConstants();
    GridSum(base.danger, 0.30);
    GridSum(base.danger, net);
    RoundedFixes(Max(base.warning, Min(MaxDanger(base), base.danger + net)));
  }

  lemma WarningIsExact(base: Thresholds, danger: real)
    requires GridLadder(base) && Grid(danger)
    ensures var w := Max(base.preAlert + 0.01, Min(danger - 0.05, base.warning));
            EffectiveWarning(base, danger) == if w > danger then Max(base.preAlert, danger - 0.01) else w
    ensures Grid(EffectiveWarning(base, danger))
  {
    GridConstants();
    GridSum(base.preAlert, 0.01);
    GridSum(danger, 0.05);
    GridSum(danger, 0.01);
    RoundedFixes(Max(base.preAlert + 0.01, Min(danger - 0.05, base.warning)));
    RoundedFixes(Max(base.preAlert, danger - 0.01));
  }

  /**
   * Any context turns a base ladder on the grid into another one, with the same first step and danger within bounds.
   */
  lemma AdjustedIsLadder(base: Thresholds, kinds: seq<FailureType>, trend: TrendState, plausibility: real)
    requires GridLadder(base)
    ensures var t := Adjusted(base, NetDelta(kinds, trend, plausibility));
            GridLadder(t) && t.preAlert == base.preAlert
            && base.warning <= t.danger <= Max(base.warning, MaxDanger(base))
  {
    var net := NetDelta(kinds, trend, plausibility);
    DeltaSumOnGrid(7, kinds, trend, plausibility);
    DangerIsExact(base, net);
    WarningIsExact(base, EffectiveDanger(base, net));
  }

  /**
   * The danger threshold ends below its base exactly when the warning step leaves room and either the base stands
   * above the ceiling of 0.95 or the adjustments sum to less than nothing.
   */
  lemma DangerLoweredIff(base: Thresholds, kinds: seq<FailureType>, trend: TrendState, plausibility: real)
    requires GridLadder(base)
    ensures var net := NetDelta(kinds, trend, plausibility);
            (EffectiveDanger(base, net) < base.danger)
              <==> (base.warning < base.danger && (base.danger > 0.95 || net < 0.0))
  {
    DeltaSumOnGrid(7, kinds, trend, plausibility);
    DangerIsExact(base, NetDelta(kinds, trend, plausibility));
  }

  /** Out-of-distribution input never makes DANGER easier to reach, from a base of at most 0.95. */
  lemma OodNeverLowersDanger(base: Thresholds, kinds: seq<FailureType>, trend: TrendState, plausibility: real)
    requires GridLadder(base) && base.danger <= 0.95 && OodInput in kinds
    ensures EffectiveDanger(base, NetDelta(kinds, trend, plausibility)) >= base.danger
  {
    DangerLoweredIff(base, kinds, trend, plausibility);
    OodSumsUpward(7, kinds, trend, plausibility);
  }

  lemma {:induction false} OodSumsUpward(n: nat, kinds: seq<FailureType>, trend: TrendState, plausibility: real)
    requires n <= 7 && OodInput in kinds
    ensures DeltaSum(n, kinds, trend, plausibility) >= 0.0
  {
    if n > 0 {
      OodSumsUpward(n - 1, kinds, trend, plausibility);
      assert Applies(CAUSES[n - 1], kinds, trend, plausibility) ==> Delta(CAUSES[n - 1]) > 0.0;
    }
  }

  /** Missing data does not block lowering: with a trend anomaly it leaves danger below its base. */
  lemma MissingDataDoesNotBlockLowering()
    ensures var base := Thresholds(0.07, 0.12, 0.22);
            var net := NetDelta([MissingData], TrendState(true, 0.0, false, 0.0, 0.0), 0.5);
            GridLadder(base) && EffectiveDanger(base, net) < base.danger
  {
    var kinds, trend := [MissingData], TrendState(true, 0.0, false, 0.0, 0.0);
    assert MissingData in kinds && OodInput !in kinds && SignalConflict !in kinds;
    IndexOnGrid(700);
    IndexOnGrid(1200);
    IndexOnGrid(2200);
    assert DeltaSum(2, kinds, trend, 0.5) == 0.05;
    assert DeltaSum(4, kinds, trend, 0.5) == -0.01;
    assert DeltaSum(7, kinds, trend, 0.5) == -0.01;
    DangerLoweredIff(Thresholds(0.07, 0.12, 0.22), kinds, trend, 0.5);
  }

  // ---------------------------------------------------------------- the triplet every consumer normalises

  function FirstWarning(danger: real, warning: Option<real>): real {
    if warning.Some? then Unit(warning.value) else Max(0.12, danger - (if danger >= 0.60 then 0.20 else 0.15))
  }

  function FirstPreAlert(warning: real, preAlert: Option<real>): real {
    if preAlert.Some? then Unit(preAlert.value) else Max(0.07, warning - 0.10)
  }

  function Capped(preAlert: real, warning: real, danger: real): Thresholds {
    var w := Max(preAlert, Min(warning, danger));
    Thresholds(Rounded(Min(preAlert, w)), Rounded(w), Rounded(danger))
  }

  function DeriveTriplet(danger: real, warning: Option<real>, preAlert: Option<real>): Thresholds {
    var d := Unit(danger);
    var w := FirstWarning(d, warning);
    Capped(FirstPreAlert(w, preAlert), w, d)
  }

  lemma CappedOrderedIff(p: real, w: real, d: real)
    requires 0.0 <= p <= 1.0 && 0.0 <= d <= 1.0
    ensures var t := Capped(p, w, d); t.preAlert == Rounded(p) && (Ladder(t) <==> t.preAlert <= t.danger)
  {
    var m := Max(p, Min(w, d));
    assert Min(p, m) == p;
    RoundedUnit(p);
    RoundedUnit(d);
    RoundedKeepsOrder(p, m);
    if m > p { RoundedKeepsOrder(m, d); }
  }

  /** Whatever is given, the triplet is a ladder exactly when its first step does not exceed its last. */
  lemma TripletOrderedIff(danger: real, warning: Option<real>, preAlert: Option<real>)
    ensures var t := DeriveTriplet(danger, warning, preAlert); Ladder(t) <==> t.preAlert <= t.danger
  {
    var d := Unit(danger);
    var w := FirstWarning(d, warning);
    assert w <= 1.0;
    CappedOrderedIff(FirstPreAlert(w, preAlert), w, d);
  }

  /** From a danger level alone, the triplet is a ladder exactly when that level rounds to 0.07 or more. */
  lemma DangerAloneOrderedIff(danger: real)
    ensures Ladder(DeriveTriplet(danger, None, None)) <==> Rounded(Unit(danger)) >= 0.07
  {
    var d := Unit(danger);
    var w := FirstWarning(d, None);
    var p := FirstPreAlert(w, None);
    CappedOrderedIff(p, w, d);
    IndexOnGrid(700);
    RoundedFixes(0.07);
    RoundedKeepsOrder(0.07, p);
    if p > d {
      assert p == 0.07;
    } else {
      RoundedKeepsOrder(p, d);
    }
  }

  /** A triplet whose first step does not exceed its last is left alone exactly when it is a ladder on the grid. */
  lemma TripletFixesIffLadder(t: Thresholds)
    ensures DeriveTriplet(t.danger, Some(t.warning), Some(t.preAlert)) == t && t.preAlert <= t.danger <==> GridLadder(t)
  {
    var n := DeriveTriplet(t.danger, Some(t.warning), Some(t.preAlert));
    if GridLadder(t) {
      RoundedFixes(t.preAlert);
      RoundedFixes(t.warning);
      RoundedFixes(t.danger);
    }
    if n == t && t.preAlert <= t.danger {
      TripletOrderedIff(t.danger, Some(t.warning), Some(t.preAlert));
      RoundLandsOnGrid(Unit(t.danger), SCALE_4);
      var p0, w0, d := Unit(t.preAlert), Unit(t.warning), Unit(t.danger);
      var w := Max(p0, Min(w0, d));
      RoundLandsOnGrid(w, SCALE_4);
      RoundLandsOnGrid(Min(p0, w), SCALE_4);
    }
  }

  /** Consumers read the adjusted ladder unchanged. */
  lemma ConsumersSeeAdjusted(base: Thresholds, kinds: seq<FailureType>, trend: TrendState, plausibility: real)
    requires GridLadder(base)
    ensures var t := Adjusted(base, NetDelta(kinds, trend, plausibility));
            DeriveTriplet(t.danger, Some(t.warning), Some(t.preAlert)) == t
  {
    AdjustedIsLadder(base, kinds, trend, plausibility);
    TripletFixesIffLadder(Adjusted(base, NetDelta(kinds, trend, plausibility)));
  }

  // ---------------------------------------------------------------- the threshold file

  /** A threshold file: a key may be absent (None) or hold null (Some(None)). */
  datatype Payload = Payload(danger: Option<Option<real>>, threshold: Option<real>, warning: Option<real>,
                             preAlert: Option<real>)

  /** None stands for the ValueError of a payload without a danger level. */
  function NormalizePayload(p: Payload): Option<Thresholds> {
    var raw := if p.danger.Some? then p.danger.value else p.threshold;
    if raw.None? then None else Some(DeriveTriplet(raw.value, p.warning, p.preAlert))
  }

  /** A saved ladder is read back as written, under either key; a null danger level hides the older key. */
  lemma SavedLadderReadsBack(t: Thresholds, other: Option<real>)
    requires GridLadder(t)
    ensures NormalizePayload(Payload(Some(Some(t.danger)), other, Some(t.warning), Some(t.preAlert))) == Some(t)
    ensures NormalizePayload(Payload(None, Some(t.danger), Some(t.warning), Some(t.preAlert))) == Some(t)
    ensures NormalizePayload(Payload(Some(None), Some(t.danger), Some(t.warning), Some(t.preAlert))) == None
  {
    TripletFixesIffLadder(t);
  }

  // ---------------------------------------------------------------- the ladder, told by its numbers

  /** The adjustments in full: two raises, and five that lower, blocked by ood_input or a plausibility below 0.40. */
  lemma NetDeltaTold(kinds: seq<FailureType>, trend: TrendState, plausibility: real)
    ensures var raised := (if OodInput in kinds then 0.10 else 0.0) + (if MissingData in kinds then 0.05 else 0.0);
            var lowered := (if trend.anomaly then (if trend.rate > 0.04 then 0.11 else 0.06) else 0.0)
                           + (if plausibility >= 0.90 then 0.04 else 0.0)
                               + (if SignalConflict in kinds then 0.07 else 0.0)
                           + (if trend.rising && trend.strength >= 0.40 && trend.confidence >= 0.60 then 0.04 else 0.0);
            NetDelta(kinds, trend, plausibility)
              == if OodInput in kinds || plausibility < 0.40 then raised else raised - lowered
  {
    NetDeltaUnrolled(kinds, trend, plausibility);
  }

  lemma NetDeltaUnrolled(kinds: seq<FailureType>, trend: TrendState, plausibility: real)
    ensures NetDelta(kinds, trend, plausibility)
         == One(OodRaise, kinds, trend, plausibility) + One(MissingRaise, kinds, trend, plausibility)
            + One(TrendAnomaly, kinds, trend, plausibility) + One(RapidRise, kinds, trend, plausibility)
            + One(HighPlausibility, kinds, trend, plausibility) + One(ConflictLower, kinds, trend, plausibility)
            + One(StrongTrend, kinds, trend, plausibility)
  {
    DeltaStep(1, OodRaise, kinds, trend, plausibility);
    DeltaStep(2, MissingRaise, kinds, trend, plausibility);
    DeltaStep(3, TrendAnomaly, kinds, trend, plausibility);
    DeltaStep(4, RapidRise, kinds, trend, plausibility);
    DeltaStep(5, HighPlausibility, kinds, trend, plausibility);
    DeltaStep(6, ConflictLower, kinds, trend, plausibility);
    DeltaStep(7, StrongTrend, kinds, trend, plausibility);
  }

  lemma DeltaStep(n: nat, c: Cause, kinds: seq<FailureType>, trend: TrendState, plausibility: real)
    requires 1 <= n <= 7 && CAUSES[n - 1] == c
    ensures DeltaSum(n, kinds, trend, plausibility)
         == DeltaSum(n - 1, kinds, trend, plausibility) + One(c, kinds, trend, plausibility)
    ensures DeltaSum(0, kinds, trend, plausibility) == 0.0
  {
  }

  /** What one cause adds to the sum. */
  function One(c: Cause, kinds: seq<FailureType>, trend: TrendState, plausibility: real): real {
    if Applies(c, kinds, trend, plausibility) then Delta(c) else 0.0
  }

  /**
   * The adjusted ladder in full, from a base on the grid: danger is the sum kept between the base warning and the
   * lesser of 0.95 and 0.30 above the base; warning is 0.05 below it, at most its base and 0.01 above pre-alert, or,
   * where that exceeds danger, 0.01 below danger and no less than pre-alert.
   */
  lemma AdjustedTold(base: Thresholds, kinds: seq<FailureType>, trend: TrendState, plausibility: real)
    requires GridLadder(base)
    ensures var net, t := NetDelta(kinds, trend, plausibility), Adjusted(base, NetDelta(kinds, trend, plausibility));
            var ceiling := if base.danger + 0.30 < 0.95 then base.danger + 0.30 else 0.95;
            var sum := if base.danger + net < ceiling then base.danger + net else ceiling;
            && t.danger == (if sum < base.warning then base.warning else sum)
            && (var below := if t.danger - 0.05 < base.warning then t.danger - 0.05 else base.warning;
                var step := if below < base.preAlert + 0.01 then base.preAlert + 0.01 else below;
                t.warning == if step <= t.danger then step
                             else if t.danger - 0.01 < base.preAlert then base.preAlert else t.danger - 0.01)
            && t.preAlert == base.preAlert
  {
    var net := NetDelta(kinds, trend, plausibility);
    DeltaSumOnGrid(7, kinds, trend, plausibility);
    DangerIsExact(base, net);
    WarningIsExact(base, EffectiveDanger(base, net));
  }

  /** Given steps are clamped to [0, 1]; a warning above danger is lowered to it, and none falls below the pre-alert. */
  lemma GivenStepsTold(danger: real, warning: real, preAlert: real)
    requires 0.0 <= danger <= 1.0 && 0.0 <= warning <= 1.0 && 0.0 <= preAlert <= 1.0
    ensures var lesser := if warning <= danger then warning else danger;
            DeriveTriplet(danger, Some(warning), Some(preAlert))
              == Thresholds(Round(preAlert, 10_000), Round(if lesser < preAlert then preAlert else lesser, 10_000),
                            Round(danger, 10_000))
    ensures forall x | x <= 0.0 ::
              && DeriveTriplet(x, Some(warning), Some(preAlert)) == DeriveTriplet(0.0, Some(warning), Some(preAlert))
              && DeriveTriplet(danger, Some(x), Some(preAlert)) == DeriveTriplet(danger, Some(0.0), Some(preAlert))
              && DeriveTriplet(danger, Some(warning), Some(x)) == DeriveTriplet(danger, Some(warning), Some(0.0))
    ensures forall x | x >= 1.0 ::
              && DeriveTriplet(x, Some(warning), Some(preAlert)) == DeriveTriplet(1.0, Some(warning), Some(preAlert))
              && DeriveTriplet(danger, Some(x), Some(preAlert)) == DeriveTriplet(danger, Some(1.0), Some(preAlert))
              && DeriveTriplet(danger, Some(warning), Some(x)) == DeriveTriplet(danger, Some(warning), Some(1.0))
  {
  }

  /**
   * The steps a triplet derives when none is given: warning 0.15 below danger, 0.20 from 0.60 on, and at least 0.12;
   * pre-alert 0.10 below that and at least 0.07. Danger 0.22 gives 0.07, 0.12 and 0.22.
   */
  lemma DerivedStepsTold(danger: real)
    requires 0.0 <= danger <= 1.0
    ensures var first := if danger >= 0.60 then danger - 0.20 else if danger - 0.15 > 0.12 then danger - 0.15 else 0.12;
            var low := if first - 0.10 > 0.07 then first - 0.10 else 0.07;
            var warning := if first <= danger then first else if low <= danger then danger else low;
            DeriveTriplet(danger, None, None)
                == Thresholds(Round(low, 10_000), Round(warning, 10_000), Round(danger, 10_000))
    ensures DeriveTriplet(0.22, None, None) == Thresholds(0.07, 0.12, 0.22)
  {
    IndexOnGrid(700);
    IndexOnGrid(1200);
    IndexOnGrid(2200);
    RoundedFixes(0.07);
    RoundedFixes(0.12);
    RoundedFixes(0.22);
  }
}
