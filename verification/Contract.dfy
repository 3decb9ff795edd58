/** The output contract: the decision-meta block, its nine invariants, the schema gate and the fallback output. */
module Contract {
  import opened Common
  import opened Decision
  import opened Adapter

  // ---------------------------------------------------------------- outputs

  /**
   * A field of the output dict: absent, outside its type or enumeration (perhaps not even hashable), or a listed value.
   */
  datatype Field<+T> = Missing | Malformed | Unhashable | Given(value: T)

  /** A float or int, one no float can hold, or a number of another type. */
  datatype Number = Finite(value: real) | NonFinite | TooLarge | OtherNumber

  /** An entry of the failure list: a record, naming the unreliable external source or not, or something else. */
  datatype FailureEntry = Record(unreliable: bool) | NotRecord

  datatype Persisted = NotTried | Stored | PersistenceError

  /** A key of a mapping, as far as sorting and encoding it as JSON goes. */
  datatype KeyKind = TextKey | NumberKey | NullKey | OtherKey

  /** Any other content of the output. */
  datatype Json = Leaf | Array(items: seq<Json>) | Object(keys: seq<KeyKind>, values: seq<Json>)

  datatype Output = Output(
    status: Field<SystemStatus>, risk: Field<RiskLevel>, reason: Field<Reason>, valid: Field<bool>, mlFull: Field<bool>,
    safe: Field<bool>, confidence: Field<Number>, review: Field<bool>, failures: Field<seq<FailureEntry>>,
    trace: Field<nat>, probability: Field<real>, driver: Field<string>, interpretation: Field<string>,
    rest: Json, persisted: Persisted)

  // ---------------------------------------------------------------- the meta validator

  datatype Violation =
    | BadReason | BadValidity | BadMode | BadRisk | BadStatus | BadSafe
    | Breaks   // a TypeError or OverflowError, not a contract violation
    | Inv1 | Inv2 | Inv3 | Inv4 | Inv5 | Inv6 | Inv7 | Inv8 | Inv9
    | MissingKeys | BadConfidence | BadReview | BadFailures

  predicate AutomationEligible(s: SystemStatus) {
    s.OK? || s.DEGRADED?
  }

  /** Looking an unlisted value up in a set: an unhashable one breaks the lookup. */
  function Listing<T>(field: Field<T>, violation: Violation): Violation {
    if field.Unhashable? then Breaks else violation
  }

  /** The first violation found, in the order of the checks. */
  function ValidateDecisionMeta(reason: Field<Reason>, valid: Field<bool>, mlFull: Field<bool>, safe: Field<bool>,
                                risk: Field<RiskLevel>, status: Field<SystemStatus>): Option<Violation> {
    if !reason.Given? then Some(Listing(reason, BadReason))
    else if !valid.Given? then Some(Listing(valid, BadValidity))
    else if !mlFull.Given? then Some(Listing(mlFull, BadMode))
    else if !risk.Given? then Some(Listing(risk, BadRisk))
    else if !status.Given? then Some(Listing(status, BadStatus))
    else if !safe.Given? then Some(BadSafe)
    else
      var r, v, m, s, k, st := reason.value, valid.value, mlFull.value, safe.value, risk.value, status.value;
      if !v && s then Some(Inv1)
      else if !v && r.RISK? then Some(Inv2)
      else if !v && m then Some(Inv3)
      else if r.INVALID_INPUT? && v then Some(Inv4)
      else if r.INVALID_INPUT? && m then Some(Inv5)
      else if r.INVALID_INPUT? && !k.UNKNOWN? && !k.WARNING? then Some(Inv6)
      else if r.FALLBACK? && !st.PIPELINE_FAILURE? then Some(Inv7)
      else if r.RISK? && !v then Some(Inv8)
      else if s && (!v || !r.RISK? || !m || !AutomationEligible(st)) then Some(Inv9)
      else None
  }

  /** What the nine invariants amount to. */
  ghost predicate Coherent(r: Reason, valid: bool, mlFull: bool, safe: bool, risk: RiskLevel, status: SystemStatus) {
    && (!valid ==> !r.RISK? && !mlFull)
    && (r.INVALID_INPUT? ==> !valid && (risk.UNKNOWN? || risk.WARNING?))
    && (r.FALLBACK? ==> status.PIPELINE_FAILURE?)
    && (safe ==> valid && r.RISK? && mlFull && (status.OK? || status.DEGRADED?))
  }

  lemma MetaAcceptedIffCoherent(r: Reason, valid: bool, mlFull: bool, safe: bool, risk: RiskLevel, status: SystemStatus)
    ensures ValidateDecisionMeta(Given(r), Given(valid), Given(mlFull), Given(safe), Given(risk), Given(status)).None?
      <==> Coherent(r, valid, mlFull, safe, risk, status)
  {
  }

  /** Invariants 5 and 8 never speak: 3 with 4, and 2, refuse first whatever they would refuse. */
  lemma FifthAndEighthAreImplied(reason: Field<Reason>, valid: Field<bool>, mlFull: Field<bool>, safe: Field<bool>,
                                 risk: Field<RiskLevel>, status: Field<SystemStatus>)
    ensures ValidateDecisionMeta(reason, valid, mlFull, safe, risk, status) != Some(Inv5)
    ensures ValidateDecisionMeta(reason, valid, mlFull, safe, risk, status) != Some(Inv8)
  {
  }

  // ---------------------------------------------------------------- the schema gate

  /** Required of every output; four more keys are required unless the pipeline failed. */
  predicate HasRequiredKeys(o: Output) {
    && !o.risk.Missing? && !o.confidence.Missing? && !o.status.Missing? && !o.review.Missing? && !o.failures.Missing?
    && !o.reason.Missing? && !o.valid.Missing? && !o.mlFull.Missing? && !o.safe.Missing?
    && (o.status != Given(PIPELINE_FAILURE) ==>
          !o.trace.Missing? && !o.probability.Missing? && !o.driver.Missing? && !o.interpretation.Missing?)
  }

  predicate UnitNumber(n: Field<Number>) {
    n.Given? && n.value.Finite? && 0.0 <= n.value.value <= 1.0
  }

  function ValidateOutputSchema(o: Output): Option<Violation> {
    if !HasRequiredKeys(o) then Some(MissingKeys)
    else if o.confidence == Given(TooLarge) then Some(Breaks)
    else if !UnitNumber(o.confidence) then Some(BadConfidence)
    else if !o.review.Given? then Some(BadReview)
    else if !o.failures.Given? then Some(BadFailures)
    else ValidateDecisionMeta(o.reason, o.valid, o.mlFull, o.safe, o.risk, o.status)
  }

  /**
   * An output consumers can rely on: its enumerations and flags are listed values that agree with each other, its
   * confidence a number in [0, 1], and unless the pipeline failed it has a trace, a probability, a driver and a text.
   */
  ghost predicate WellFormed(o: Output) {
    && o.confidence.Given? && o.confidence.value.Finite? && 0.0 <= o.confidence.value.value <= 1.0
    && o.review.Given? && o.failures.Given?
    && o.reason.Given? && o.valid.Given? && o.mlFull.Given? && o.safe.Given? && o.risk.Given? && o.status.Given?
    && (o.trace.Missing? || o.probability.Missing? || o.driver.Missing? || o.interpretation.Missing? ==>
          o.status.value.PIPELINE_FAILURE?)
    && Coherent(o.reason.value, o.valid.value, o.mlFull.value, o.safe.value, o.risk.value, o.status.value)
  }

  lemma AcceptedIffWellFormed(o: Output)
    ensures ValidateOutputSchema(o).None? <==> WellFormed(o)
  {
    if o.reason.Given? && o.valid.Given? && o.mlFull.Given? && o.safe.Given? && o.risk.Given? && o.status.Given? {
      MetaAcceptedIffCoherent(o.reason.value, o.valid.value, o.mlFull.value, o.safe.value, o.risk.value,
                              o.status.value);
    }
  }

  /** The gate itself raises: a confidence no float holds, or a first unlisted enumeration value that is unhashable. */
  predicate BreaksGate(o: Output) {
    && HasRequiredKeys(o)
    && (|| o.confidence == Given(TooLarge)
        || (UnitNumber(o.confidence) && o.review.Given? && o.failures.Given?
            && (|| o.reason.Unhashable?
                || (o.reason.Given? && o.valid.Unhashable?)
                || (o.reason.Given? && o.valid.Given? && o.mlFull.Unhashable?)
                || (o.reason.Given? && o.valid.Given? && o.mlFull.Given? && o.risk.Unhashable?)
                || (o.reason.Given? && o.valid.Given? && o.mlFull.Given? && o.risk.Given? && o.status.Unhashable?))))
  }

  lemma GateBreaksIff(o: Output)
    ensures ValidateOutputSchema(o) == Some(Breaks) <==> BreaksGate(o)
  {
  }

  /** What is returned in place of an output that fails the gate. */
  function SafeFallback(): Output {
    Output(Given(PIPELINE_FAILURE), Given(UNKNOWN), Given(FALLBACK), Given(false), Given(false), Given(false),
           Given(Finite(0.0)), Given(true), Given([Record(false)]), Given(2), Given(0.0),
           Given("output_contract_violation"),
           Given("Output schema validation failed"), Leaf, NotTried)
  }

  /** What is returned when a stage raises: no decision trace. */
  function EmergencyOutput(): Output {
    Output(Given(PIPELINE_FAILURE), Given(UNKNOWN), Given(FALLBACK), Given(false), Given(false), Given(false),
           Given(Finite(0.0)), Given(true), Given([Record(false)]), Missing, Given(0.0), Given("pipeline_error"),
           Given("Pipeline failure"), Leaf, NotTried)
  }

  // ---------------------------------------------------------------- the evaluation

  /**
   * What the evaluation stage hands on: the engine's call, its seed risk, whether the engine raises inside, its own
   * status.
   */
  datatype Assessment = Assessment(call: Call, seed: RiskLevel, engineRaises: bool, provisional: SystemStatus)

  ghost function EngineOf(a: Assessment): Legacy {
    EngineResult(a.call, a.seed, a.engineRaises)
  }

  /** A failure the meta block counts as high or critical: it compares the severity as written. */
  predicate WrittenSevere(f: RawFailure) {
    f.severity == Exact(HIGH) || f.severity == Exact(CRITICAL)
  }

  predicate SevereImplausible(fs: seq<RawFailure>) {
    exists i :: 0 <= i < |fs| && fs[i].kind.ImplausibleInput? && WrittenSevere(fs[i])
  }

  predicate SevereFailure(fs: seq<RawFailure>) {
    exists i :: 0 <= i < |fs| && WrittenSevere(fs[i])
  }

  datatype Meta = Meta(reason: Reason, valid: bool, mlFull: bool, safe: bool)

  function MetaOf(critical: bool, failures: seq<RawFailure>, r: Legacy): Meta {
    var valid := !(critical || SevereImplausible(failures));
    var reason := if r.status.PIPELINE_FAILURE? then FALLBACK
      else if r.source.INVALID_INPUT_FALLBACK? then INVALID_INPUT else RISK;
    var full := !reason.INVALID_INPUT? && !reason.FALLBACK?;
    Meta(reason, valid, full, valid && reason.RISK? && full && AutomationEligible(r.status) && !SevereFailure(failures))
  }

  /** The meta block of an evaluation, or the violation it raises. */
  function ComputeDecisionMeta(critical: bool, failures: seq<RawFailure>, r: Legacy): Result<Meta, Violation> {
    var m := MetaOf(critical, failures, r);
    var violation := ValidateDecisionMeta(Given(m.reason), Given(m.valid), Given(m.mlFull), Given(m.safe),
                                          Given(r.risk), Given(r.status));
    if violation.Some? then Err(violation.value) else Ok(m)
  }

  /**
   * The meta block told by the evaluation: data is valid without a critical violation or an implausible input written
   * HIGH or CRITICAL; the reason follows the engine's status and source, and the full mode the reason; safe takes all
   * of it, a status OK or DEGRADED and no failure written HIGH or CRITICAL.
   */
  lemma MetaTold(critical: bool, failures: seq<RawFailure>, r: Legacy)
    ensures var m := MetaOf(critical, failures, r);
            && (m.valid <==>
                  && !critical
                  && forall f | f in failures && f.kind.ImplausibleInput? ::
                       f.severity != Exact(HIGH) && f.severity != Exact(CRITICAL))
            && (m.reason == FALLBACK <==> r.status == PIPELINE_FAILURE)
            && (m.reason == INVALID_INPUT <==> r.status != PIPELINE_FAILURE && r.source.INVALID_INPUT_FALLBACK?)
            && (m.mlFull <==> m.reason == RISK)
            && (m.safe <==>
                  && m.valid && m.reason == RISK && (r.status == OK || r.status == DEGRADED)
                  && forall f | f in failures :: f.severity != Exact(HIGH) && f.severity != Exact(CRITICAL))
  {
    forall f | f in failures && WrittenSevere(f)
      ensures SevereFailure(failures) && (f.kind.ImplausibleInput? ==> SevereImplausible(failures))
    {
      var i :| 0 <= i < |failures| && failures[i] == f;
    }
  }

  /** The evaluation stage: the engine's risk and confidence, and its status over the provisional one. */
  method Evaluate(a: Assessment) returns (r: Legacy)
    ensures r == EngineOf(a)
  {
    r := RunDecisionEngine(a.call, a.seed, a.engineRaises);
    var status := a.provisional;
    if r.status != status {
      status := r.status;
    }
    r := r.(status := status);
  }

  // ---------------------------------------------------------------- what the chain guarantees

  predicate DataInvalid(c: Call) {
    c.critical || SevereImplausible(c.failures)
  }

  /**
   * Off the failsafe path the meta block raises exactly when L0 and the data verdict disagree: one of "L0 fired" and
   * "critical violation or a high or critical implausible_input failure" holds without the other.
   */
  lemma MetaRaisesIff(a: Assessment)
    requires !a.engineRaises
    ensures ComputeDecisionMeta(a.call.critical, a.call.failures, EngineOf(a)).Err?
      <==> (InvalidInput(CanonicalInputs(a.call)) != DataInvalid(a.call))
  {
    var i := CanonicalInputs(a.call);
    EngineFacts(a);
    var r := EngineOf(a);
    var m := MetaOf(a.call.critical, a.call.failures, r);
    MetaAcceptedIffCoherent(m.reason, m.valid, m.mlFull, m.safe, r.risk, r.status);
  }

  /** What of the engine's answer the meta block reads. */
  lemma EngineFacts(a: Assessment)
    requires !a.engineRaises
    ensures var i, r := CanonicalInputs(a.call), EngineOf(a);
            && (r.source.INVALID_INPUT_FALLBACK? <==> InvalidInput(i)) && (r.risk.UNKNOWN? <==> InvalidInput(i))
            && r.status == Decided(i).status && !r.status.PIPELINE_FAILURE? && (r.status.FAIL? <==> InvalidInput(i))
            && Rank(Decided(i).risk) <= Rank(r.risk) <= Rank(Decided(i).risk) + 1
  {
    var i := CanonicalInputs(a.call);
    UnknownIffInvalidInput(i);
    LegacyFacts(Decided(i), a.call.elevation, InvalidInput(i));
  }

  lemma LegacyFacts(d: Decision, e: Option<Elevation>, invalid: bool)
    requires (d.risk.UNKNOWN? <==> invalid) && (d.authority.L0_PHYSICAL? <==> invalid)
    ensures var r := WithElevation(ToLegacy(d), e);
            && (r.source.INVALID_INPUT_FALLBACK? <==> invalid) && (r.risk.UNKNOWN? <==> invalid) && r.status == d.status
            && Rank(d.risk) <= Rank(r.risk) <= Rank(d.risk) + 1
  {
    ElevationOnlyRaises(d.risk, e);
  }

  /** On the failsafe path it raises exactly when the data verdict is INVALID, since the failsafe always claims RISK. */
  lemma FailsafeMetaRaisesIff(a: Assessment)
    requires a.engineRaises
    ensures ComputeDecisionMeta(a.call.critical, a.call.failures, EngineOf(a)).Err? <==> DataInvalid(a.call)
  {
    var r := EngineOf(a);
    var m := MetaOf(a.call.critical, a.call.failures, r);
    MetaAcceptedIffCoherent(m.reason, m.valid, m.mlFull, m.safe, r.risk, r.status);
  }

  /** Nothing disqualifies the data, and the severe failures and the snapshot leave the status at OK or DEGRADED. */
  ghost predicate PublishesSafe(c: Call) {
    var i := CanonicalInputs(c);
    && !c.critical && !SevereFailure(c.failures) && !InvalidInput(i)
    && AutomationEligible(StatusOf(i.failures, i.perception))
  }

  /** Automation is published as safe exactly when nothing is wrong with the data and the status is OK or DEGRADED. */
  lemma PublishedSafeIff(a: Assessment)
    requires !a.engineRaises
    ensures MetaOf(a.call.critical, a.call.failures, EngineOf(a)).safe <==> PublishesSafe(a.call)
  {
    EngineFacts(a);
    if SevereImplausible(a.call.failures) {
      var k :| 0 <= k < |a.call.failures| && a.call.failures[k].kind.ImplausibleInput?
               && WrittenSevere(a.call.failures[k]);
      assert SevereFailure(a.call.failures);
    }
    StatusWithoutL0(CanonicalInputs(a.call));
  }

  lemma StatusWithoutL0(i: Inputs)
    ensures !InvalidInput(i) ==> Decided(i).status == StatusOf(i.failures, i.perception)
  {
  }

  lemma WrittenSevereIsSevere(fs: seq<RawFailure>)
    ensures SevereFailure(fs) ==> HasSevere(NormalizedAll(fs))
  {
    if SevereFailure(fs) {
      var k :| 0 <= k < |fs| && WrittenSevere(fs[k]);
      assert NormalizedAll(fs)[k] == Normalized(fs[k]);
      assert Severe(NormalizedAll(fs)[k]);
    }
  }

  /** Whenever the decision authority allows automation, so does the published flag. */
  lemma CanonicalSafeIsPublishedSafe(a: Assessment)
    requires !a.engineRaises && Decided(CanonicalInputs(a.call)).safeForAutomation
    ensures ComputeDecisionMeta(a.call.critical, a.call.failures, EngineOf(a)).Ok?
    ensures MetaOf(a.call.critical, a.call.failures, EngineOf(a)).safe
  {
    var i := CanonicalInputs(a.call);
    SafeForAutomationIff(i);
    UnknownIffInvalidInput(i);
    WrittenSevereIsSevere(a.call.failures);
    assert !HasSevere(i.failures);
    PublishedSafeIff(a);
    MetaRaisesIff(a);
  }

  /**
   * What keeps the authority from allowing automation although the published flag may: a gate, L2, the status, the
   * model at WARNING or above, or a later layer.
   */
  ghost predicate AuthorityRefuses(i: Inputs) {
    || Gate(i).Some? || HasEscalating(i.failures) || StatusOf(i.failures, i.perception).DEGRADED?
    || MlRisk(i).WARNING? || MlRisk(i).DANGER? || Lifted(i)
    || RisingTrend(MlRisk(i), i.reasoning.probability, i.trend)
  }

  /**
   * Published as safe while the authority refuses automation: exactly when it publishes and one of those reasons holds.
   */
  lemma PublishedNotAllowedIff(a: Assessment)
    requires !a.engineRaises
    ensures var i := CanonicalInputs(a.call);
            (MetaOf(a.call.critical, a.call.failures, EngineOf(a)).safe && !Decided(i).safeForAutomation)
              <==> (PublishesSafe(a.call) && AuthorityRefuses(i))
  {
    PublishedSafeIff(a);
    AllowedIff(CanonicalInputs(a.call));
  }

  /**
   * A clean snapshot whose water level forces DANGER is published as safe for automation, which the authority never
   * allows.
   */
  lemma DangerIsPublishedSafe(a: Assessment)
    requires !a.engineRaises && a.call.failures == [] && !a.call.critical && a.call.plausibility >= 0.30
    requires a.call.completeness.Some? && a.call.completeness.value >= 0.50
    requires a.call.freshness.Some? && a.call.freshness.value <= 60.0 && WaterRatio(a.call.hydrology) >= 0.95
    ensures var d := Decided(CanonicalInputs(a.call));
            d.risk.DANGER? && !d.safeForAutomation && MetaOf(a.call.critical, a.call.failures, EngineOf(a)).safe
  {
    PublishedSafeIff(a);
    SafeForAutomationIff(CanonicalInputs(a.call));
  }
}
