/** The pipeline's stages, the contract gate before its return, and best-effort persistence after it. */
module Pipeline {
  import opened Common
  import opened Rounding
  import opened Decision
  import opened Adapter
  import opened Contract
  import Writer = PipelineWriter

  // ---------------------------------------------------------------- what a run meets

  /** A label of an alert: falsy, text, or a truthy value of another type. */
  datatype Label = Empty | Text | NotText

  datatype Alert = Alert(inJakarta: bool, severity: Label, certainty: Label, urgency: Label)

  /** A trend field: falsy, a finite number, the text of one, a NaN or infinity, or anything `float` rejects. */
  datatype Scalar = Falsy | Real | RealText(whole: bool) | NotFinite | Rejected

  datatype TrendBlock =
    | NotMapping
    | Fields(delta: Scalar, points: Scalar, rate: Scalar, strength: Scalar, confidence: Scalar)

  /** Routing: it raises, or it may add a failure record (of the unreliable source or not) and a trace line. */
  datatype Routing = RoutingRaises | Routed(failure: Option<bool>, advisory: bool)

  /** What each stage does in one run; the action stage's output is arbitrary, None when it raises. */
  datatype Stages = Stages(perceptionRaises: bool, critical: bool, alerts: seq<Alert>, reasoningRaises: bool,
                           evaluationRaises: bool, action: Option<Output>, routing: Routing, trend: TrendBlock,
                           write: Writer.Outcome)

  datatype Site = CriticalBlock | TrendAnalysis | FailureScan | ReliabilityNote | ContractGate | ResultHash

  datatype RunResult = Returned(output: Output) | ContractRaised(violation: Violation) | Escaped(site: Site)

  const HYDRO_DRIVERS := {"critical_hydrology", "hydrology_stress"}

  // ---------------------------------------------------------------- what raises outside every handler

  predicate LabelBreaks(a: Alert) {
    a.severity.NotText? || a.certainty.NotText? || a.urgency.NotText?
  }

  /** The alerts scored: those in Jakarta, or all of them when none is. */
  predicate Scored(alerts: seq<Alert>, i: nat)
    requires i < |alerts|
  {
    alerts[i].inJakarta || (forall j | 0 <= j < |alerts| :: !alerts[j].inJakarta)
  }

  predicate AlertsBreak(alerts: seq<Alert>) {
    exists i :: 0 <= i < |alerts| && Scored(alerts, i) && LabelBreaks(alerts[i])
  }

  /** `float(x or 0.0)` raises. */
  predicate FloatBreaks(x: Scalar) {
    x.Rejected?
  }

  /** `int(x or 0)` raises. */
  predicate IntBreaks(x: Scalar) {
    x.Rejected? || x.NotFinite? || (x.RealText? && !x.whole)
  }

  predicate TrendBreaks(t: TrendBlock) {
    t.NotMapping? || FloatBreaks(t.delta) || IntBreaks(t.points) || FloatBreaks(t.rate) || FloatBreaks(t.strength)
    || FloatBreaks(t.confidence)
  }

  /** The failure records scanned: the output's, then routing's own. */
  function Scanned(o: Output, r: Routing): seq<FailureEntry> {
    (if o.failures.Given? then o.failures.value else [])
    + (if r.Routed? && r.failure.Some? then [Record(r.failure.value)] else [])
  }

  /** The first k entries are records of other failures. */
  predicate OtherRecords(entries: seq<FailureEntry>, k: nat) {
    k <= |entries| && (forall j | 0 <= j < k :: entries[j] == Record(false))
  }

  /** The scan meets the unreliable source, and nothing but records before it. */
  predicate SourceUnreliable(entries: seq<FailureEntry>) {
    exists k :: 0 <= k < |entries| && OtherRecords(entries, k) && entries[k] == Record(true)
  }

  /** The list is none, or the scan meets something that is no record. */
  predicate ScanBreaks(o: Output, r: Routing) {
    || o.failures.Malformed? || o.failures.Unhashable?
    || (exists k :: 0 <= k < |Scanned(o, r)| && OtherRecords(Scanned(o, r), k) && Scanned(o, r)[k].NotRecord?)
  }

  predicate HydroDriver(o: Output) {
    o.driver.Given? && o.driver.value in HYDRO_DRIVERS
  }

  /** Replacing a hydrology driver raises: it is unhashable, the interpretation no text, or the confidence no number. */
  predicate NoteBreaks(o: Output) {
    || o.driver.Unhashable?
    || (HydroDriver(o) && (o.interpretation.Malformed? || o.interpretation.Unhashable? || o.confidence.Malformed?
                           || o.confidence.Unhashable? || o.confidence == Given(TooLarge)))
  }

  /** The result cannot be encoded: some mapping has keys that JSON lacks or that cannot be sorted together. */
  predicate DumpBreaks(v: Json)
    decreases v
  {
    match v
    case Leaf => false
    case Array(items) => exists i :: 0 <= i < |items| && DumpBreaks(items[i])
    case Object(keys, values) => KeysBreak(keys) || (exists i :: 0 <= i < |values| && DumpBreaks(values[i]))
  }

  predicate KeysBreak(keys: seq<KeyKind>) {
    || OtherKey in keys
    || (exists i, j :: 0 <= i < j < |keys| && (keys[i] != keys[j] || keys[i].NullKey?))
  }

  // ---------------------------------------------------------------- the run

  /** One more trace line; a trace that is not a list is left alone. */
  function OneLineLonger(trace: Field<nat>): Field<nat> {
    match trace case Missing => Given(1) case Given(n) => Given(n + 1) case _ => trace
  }

  function WithAdvisory(o: Output, r: Routing): Output {
    if r.Routed? && r.advisory then o.(trace := OneLineLonger(o.trace)) else o
  }

  /** The hydrology driver declared unverified when its source is unreliable. */
  function WithNote(o: Output, r: Routing): Output {
    if SourceUnreliable(Scanned(o, r)) && HydroDriver(o) then
      o.(driver := Given("hydrology_unverified"),
         interpretation := Given((if o.interpretation.Given? then o.interpretation.value else "")
                                 + " [RELIABILITY NOTE]"))
    else o
  }

  function Assembled(o: Output, r: Routing): Output {
    WithNote(WithAdvisory(o, r), r)
  }

  predicate StageRaises(s: Stages) {
    s.perceptionRaises || (!s.critical && s.reasoningRaises) || s.evaluationRaises || s.action.None?
  }

  /** Where assembling the result from an action's output raises, in order. */
  function AssemblyBreak(o: Output, s: Stages): Option<Site> {
    if TrendBreaks(s.trend) then Some(TrendAnalysis)
    else if ScanBreaks(o, s.routing) then Some(FailureScan)
    else if SourceUnreliable(Scanned(o, s.routing)) && NoteBreaks(o) then Some(ReliabilityNote)
    else None
  }

  function AfterPersist(o: Output, write: Writer.Outcome): Output {
    if write.Returned? then o.(persisted := Stored)
    else if o.status.Missing? || o.status == Given(OK) then o.(persisted := PersistenceError, status := Given(DEGRADED))
    else o.(persisted := PersistenceError)
  }

  function RunOf(strict: bool, persist: bool, s: Stages): RunResult {
    if s.perceptionRaises then Returned(EmergencyOutput())
    else if s.critical && AlertsBreak(s.alerts) then Escaped(CriticalBlock)
    else if StageRaises(s) then Returned(EmergencyOutput())
    else if AssemblyBreak(s.action.value, s).Some? then Escaped(AssemblyBreak(s.action.value, s).value)
    else PastGate(strict, persist, Assembled(s.action.value, s.routing), s.write)
  }

  /** The contract gate, then persistence with the result hashed before and after. */
  function PastGate(strict: bool, persist: bool, o: Output, write: Writer.Outcome): RunResult {
    var violation := ValidateOutputSchema(o);
    if violation == Some(Breaks) then Escaped(ContractGate)
    else if violation.Some? then (if strict then ContractRaised(violation.value) else Returned(SafeFallback()))
    else if persist && DumpBreaks(o.rest) then Escaped(ResultHash)
    else Returned(if persist then AfterPersist(o, write) else o)
  }

  /** The output that reaches the gate, None when the run ended before it. */
  function AtGate(s: Stages): Option<Output> {
    if (!s.perceptionRaises && s.critical && AlertsBreak(s.alerts)) || StageRaises(s)
    || AssemblyBreak(s.action.value, s).Some?
    then None
    else Some(Assembled(s.action.value, s.routing))
  }

  /** The output as hashed: everything but the persistence fields. */
  function AuditCopy(o: Output): Output {
    o.(persisted := NotTried)
  }

  /** The run whose hash changes: it reaches persistence with status OK and the write does not return. */
  predicate HashMismatch(persist: bool, s: Stages) {
    && persist && AtGate(s).Some? && ValidateOutputSchema(AtGate(s).value).None? && !DumpBreaks(AtGate(s).value.rest)
    && AtGate(s).value.status == Given(OK) && !s.write.Returned?
  }

  /** Scans for the unreliable source; None when an entry is no record. */
  method ScanFailures(entries: seq<FailureEntry>) returns (found: Option<bool>)
    ensures found.None? <==> (exists k :: 0 <= k < |entries| && OtherRecords(entries, k) && entries[k].NotRecord?)
    ensures found == Some(true) <==> SourceUnreliable(entries)
  {
    for i := 0 to |entries|
      invariant OtherRecords(entries, i)
    {
      if entries[i].NotRecord? {
        return None;
      }
      if entries[i].unreliable {
        return Some(true);
      }
    }
    found := Some(false);
  }

  class FloodDecisionPipeline {
    const strict: bool
    const persistEnabled: bool
    var mismatches: nat   // the result-hash mismatch counter

    constructor (strict: bool, persist: bool)
      ensures this.strict == strict && persistEnabled == persist && mismatches == 0
    {
      this.strict, persistEnabled, mismatches := strict, persist, 0;
    }

    /** Writes the result's rows; a failure is recorded in the result, never raised, and spoils a clean status only. */
    method Persist(o: Output, write: Writer.Outcome) returns (r: Output)
      ensures r.persisted == if write.Returned? then Stored else PersistenceError
      ensures r.status != o.status <==> !write.Returned? && (o.status.Missing? || o.status == Given(OK))
      ensures r.status != o.status ==> r.status == Given(DEGRADED)
      ensures r == o.(status := r.status, persisted := r.persisted)
    {
      r := o;
      if write.Returned? {
        r := r.(persisted := Stored);
      } else {
        r := r.(persisted := PersistenceError);
        if r.status.Missing? || r.status == Given(OK) {
          r := r.(status := Given(DEGRADED));
        }
      }
    }

    /** Trend fields, failure scan and reliability note, or the site that raises. */
    method Assemble(o: Output, s: Stages) returns (r: Result<Output, Site>)
      ensures r == if AssemblyBreak(o, s).Some? then Err(AssemblyBreak(o, s).value) else Ok(Assembled(o, s.routing))
    {
      var result := o;
      if s.routing.Routed? && s.routing.advisory {
        result := result.(trace := OneLineLonger(result.trace));
      }
      if TrendBreaks(s.trend) {
        return Err(TrendAnalysis);
      }
      if result.failures.Malformed? || result.failures.Unhashable? {
        return Err(FailureScan);
      }
      var found := ScanFailures(Scanned(result, s.routing));
      if found.None? {
        return Err(FailureScan);
      }
      if found.value {
        if NoteBreaks(result) {
          return Err(ReliabilityNote);
        }
        if HydroDriver(result) {
          var text := if result.interpretation.Given? then result.interpretation.value else "";
          result := result.(driver := Given("hydrology_unverified"));
          result := result.(interpretation := Given(text + " [RELIABILITY NOTE]"));
        }
      }
      r := Ok(result);
    }

    /** The gate and, behind it, persistence with the result hashed around it. */
    method GateAndPersist(o: Output, write: Writer.Outcome) returns (out: RunResult)
      modifies this
      ensures out == PastGate(strict, persistEnabled, o, write)
      ensures mismatches == old(mismatches)
           + (if persistEnabled && ValidateOutputSchema(o).None? && !DumpBreaks(o.rest) && o.status == Given(OK)
              && !write.Returned?
              then 1 else 0)
    {
      var result := o;
      var violation := ValidateOutputSchema(result);
      if violation == Some(Breaks) {
        return Escaped(ContractGate);
      }
      if violation.Some? {
        if strict {
          return ContractRaised(violation.value);
        }
        return Returned(SafeFallback());
      }
      if persistEnabled {
        if DumpBreaks(result.rest) {
          return Escaped(ResultHash);
        }
        var before := AuditCopy(result);
        result := Persist(result, write);
        if before != AuditCopy(result) {
          mismatches := mismatches + 1;
        }
      }
      out := Returned(result);
    }

    /** The stages in order, the contract gate, then persistence with the result hashed around it. */
    method Run(s: Stages) returns (out: RunResult)
      modifies this
      ensures out == RunOf(strict, persistEnabled, s)
      ensures mismatches == old(mismatches) + if HashMismatch(persistEnabled, s) then 1 else 0
    {
      if s.perceptionRaises {
        return Returned(EmergencyOutput());
      }
      if s.critical {
        if AlertsBreak(s.alerts) {
          return Escaped(CriticalBlock);
        }
      } else if s.reasoningRaises {
        return Returned(EmergencyOutput());
      }
      if s.evaluationRaises {
        return Returned(EmergencyOutput());
      }
      if s.action.None? {
        return Returned(EmergencyOutput());
      }
      var result := Assemble(s.action.value, s);
      if result.Err? {
        return Escaped(result.error);
      }
      out := GateAndPersist(result.value, s.write);
    }
  }

  // ---------------------------------------------------------------- what a run returns

  lemma FallbacksAreWellFormed()
    ensures WellFormed(SafeFallback()) && WellFormed(EmergencyOutput())
  {
  }

  /** Whatever the stages do, an output a run returns satisfies the contract, also after persistence degraded it. */
  lemma ReturnedIsWellFormed(strict: bool, persist: bool, s: Stages)
    requires RunOf(strict, persist, s).Returned?
    ensures WellFormed(RunOf(strict, persist, s).output)
    ensures ValidateOutputSchema(RunOf(strict, persist, s).output).None?
  {
    FallbacksAreWellFormed();
    if !StageRaises(s) && RunOf(strict, persist, s)
        == PastGate(strict, persist, Assembled(s.action.value, s.routing), s.write) {
      PastGateIsWellFormed(strict, persist, Assembled(s.action.value, s.routing), s.write);
    }
    AcceptedIffWellFormed(RunOf(strict, persist, s).output);
  }

  lemma PastGateIsWellFormed(strict: bool, persist: bool, o: Output, write: Writer.Outcome)
    requires PastGate(strict, persist, o, write).Returned?
    ensures WellFormed(PastGate(strict, persist, o, write).output)
  {
    FallbacksAreWellFormed();
    AcceptedIffWellFormed(o);
    if ValidateOutputSchema(o).None? { PersistKeepsWellFormed(o, write); }
  }

  lemma PersistKeepsWellFormed(o: Output, write: Writer.Outcome)
    requires WellFormed(o)
    ensures WellFormed(AfterPersist(o, write))
  {
  }

  /**
   * What a caller must rule out for a run to return: the guards of every statement that can raise outside a handler.
   */
  ghost predicate Unhandled(strict: bool, persist: bool, s: Stages) {
    || (!s.perceptionRaises && s.critical && AlertsBreak(s.alerts))
    || (!StageRaises(s)
        && (var o := s.action.value;
            || TrendBreaks(s.trend)
            || ScanBreaks(o, s.routing)
            || (SourceUnreliable(Scanned(o, s.routing)) && NoteBreaks(o))
            || BreaksGate(Assembled(o, s.routing))
            || (strict && !WellFormed(Assembled(o, s.routing)))
            || (persist && WellFormed(Assembled(o, s.routing)) && DumpBreaks(o.rest))))
  }

  /**
   * A run returns nothing exactly when one of these guards holds: under a critical violation a scored alert has a label
   * that is no text; a trend field is no number; the failure list is no list of records; the reliability note meets a
   * value it cannot use; the gate meets one it cannot look up; strict mode refuses; or the result cannot be hashed.
   */
  lemma NoOutputIff(strict: bool, persist: bool, s: Stages)
    ensures !RunOf(strict, persist, s).Returned? <==> Unhandled(strict, persist, s)
  {
    if !StageRaises(s) {
      var o := Assembled(s.action.value, s.routing);
      GateBreaksIff(o);
      AcceptedIffWellFormed(o);
    }
  }

  /** A critical violation beside one Jakarta alert whose severity is the number 3: a lenient run returns nothing. */
  lemma NumericSeverityEscapes(persist: bool, s: Stages)
    requires !s.perceptionRaises && s.critical && s.alerts == [Alert(true, NotText, Empty, Empty)]
    ensures RunOf(false, persist, s) == Escaped(CriticalBlock)
  {
    assert Scored(s.alerts, 0) && LabelBreaks(s.alerts[0]);
  }

  // ---------------------------------------------------------------- a run, told by what its stages do

  /** Five fields that must be numbers, or the text of one, the count of points a finite and whole one. */
  lemma TrendTold(t: TrendBlock)
    ensures TrendBreaks(t)
       <==> || t == NotMapping
            || Rejected in [t.delta, t.points, t.rate, t.strength, t.confidence]
            || t.points == NotFinite || t.points == RealText(false)
  {
  }

  /** Labels are looked at in the Jakarta alerts when there are any, else in all of them. */
  lemma AlertsTold(alerts: seq<Alert>)
    ensures AlertsBreak(alerts)
       <==> exists a :: a in alerts && NotText in [a.severity, a.certainty, a.urgency]
                        && (a.inJakarta || forall b | b in alerts :: !b.inJakarta)
  {
    if a :| a in alerts && NotText in [a.severity, a.certainty, a.urgency]
            && (a.inJakarta || forall b | b in alerts :: !b.inJakarta) {
      var i :| 0 <= i < |alerts| && alerts[i] == a;
      assert Scored(alerts, i) && LabelBreaks(alerts[i]);
    }
    if i :| 0 <= i < |alerts| && Scored(alerts, i) && LabelBreaks(alerts[i]) {
      assert alerts[i] in alerts;
    }
  }

  /**
   * Of a list of plain failure records, the unreliable source is found exactly when one of them names it or, behind
   * them, routing's own failure does.
   */
  lemma UnreliableTold(o: Output, r: Routing)
    requires !ScanBreaks(o, r) && (o.failures.Given? ==> NotRecord !in o.failures.value)
    ensures SourceUnreliable(Scanned(o, r))
       <==> (o.failures.Given? && Record(true) in o.failures.value) || (r.Routed? && r.failure == Some(true))
  {
    var entries := Scanned(o, r);
    FirstUnreliable(entries);
    assert Record(true) in entries
      <==> (o.failures.Given? && Record(true) in o.failures.value) || (r.Routed? && r.failure == Some(true));
  }

  lemma {:induction false} FirstUnreliable(entries: seq<FailureEntry>)
    requires NotRecord !in entries
    ensures SourceUnreliable(entries) <==> Record(true) in entries
  {
    if entries != [] {
      var n := |entries| - 1;
      var front := entries[..n];
      FirstUnreliable(front);
      assert entries == front + [entries[n]];
      if k :| 0 <= k < |front| && OtherRecords(front, k) && front[k] == Record(true) {
        assert OtherRecords(entries, k) && entries[k] == Record(true);
      }
      if Record(true) !in front {
        forall j | 0 <= j < n ensures entries[j] == Record(false) { assert entries[j] in front; }
        assert OtherRecords(entries, n);
      }
    }
  }

  /** Between the action stage and the gate only the trace, the driver and the text can change. */
  lemma AssembledTold(o: Output, r: Routing)
    ensures var a := Assembled(o, r);
            && a == o.(trace := a.trace, driver := a.driver, interpretation := a.interpretation)
            && (a.trace != o.trace ==> r.Routed? && r.advisory)
            && (r.Routed? && r.advisory && o.trace.Given? ==> a.trace == Given(o.trace.value + 1))
            && (a.driver != o.driver <==>
                  && SourceUnreliable(Scanned(o, r))
                  && (o.driver == Given("critical_hydrology") || o.driver == Given("hydrology_stress")))
            && (a.driver != o.driver ==> a.driver == Given("hydrology_unverified"))
            && (a.driver == o.driver ==> a.interpretation == o.interpretation)
            && (a.driver != o.driver && o.interpretation.Given? ==>
                  a.interpretation == Given(o.interpretation.value + " [RELIABILITY NOTE]"))
  {
  }

  /** A stage raises: perception, reasoning unless it is skipped for a critical violation, evaluation, or action. */
  ghost predicate Fails(s: Stages) {
    s.perceptionRaises || (s.reasoningRaises && !s.critical) || s.evaluationRaises || s.action == None
  }

  /**
   * What a run that returns hands back: the emergency output when a stage raises; the fallback when the gate refuses;
   * else the action's own output, its decision untouched, as persistence left it.
   */
  lemma ReturnedTold(strict: bool, persist: bool, s: Stages)
    requires RunOf(strict, persist, s).Returned?
    ensures var out := RunOf(strict, persist, s).output;
            && (Fails(s) ==> out == EmergencyOutput())
            && (!Fails(s) && !WellFormed(Assembled(s.action.value, s.routing)) ==> out == SafeFallback() && !strict)
            && (!Fails(s) && WellFormed(Assembled(s.action.value, s.routing)) ==> Untouched(s.action.value, out))
  {
    if !Fails(s) { AcceptedIffWellFormed(Assembled(s.action.value, s.routing)); }
  }

  /** Persistence settles whether the rows are stored, and degrades a status OK when they are not. */
  lemma PersistedTold(strict: bool, persist: bool, s: Stages)
    requires RunOf(strict, persist, s).Returned? && !Fails(s) && WellFormed(Assembled(s.action.value, s.routing))
    ensures var o, out := s.action.value, RunOf(strict, persist, s).output;
            if !persist then out.status == o.status && out.persisted == o.persisted
            else if s.write.Returned? then out.status == o.status && out.persisted == Stored
            else out.status == (if o.status == Given(OK) then Given(DEGRADED) else o.status)
                 && out.persisted == PersistenceError
  {
    AcceptedIffWellFormed(Assembled(s.action.value, s.routing));
  }

  /** The decision, its meta block, confidence, failures and further content are handed on as they are. */
  ghost predicate Untouched(o: Output, out: Output) {
    && out.risk == o.risk && out.reason == o.reason && out.valid == o.valid && out.mlFull == o.mlFull
    && out.safe == o.safe && out.confidence == o.confidence && out.review == o.review && out.failures == o.failures
    && out.probability == o.probability && out.rest == o.rest
  }

  /** Both replacement outputs say that the pipeline failed, claim no risk and no confidence, and ask for a review. */
  lemma ReplacementsTold()
    ensures var f, e := SafeFallback(), EmergencyOutput();
            && f.status == e.status == Given(PIPELINE_FAILURE) && f.risk == e.risk == Given(UNKNOWN)
            && f.reason == e.reason == Given(FALLBACK) && f.valid == e.valid == Given(false)
            && f.safe == e.safe == f.mlFull == e.mlFull == Given(false) && f.review == e.review == Given(true)
            && f.confidence == e.confidence == Given(Finite(0.0))
  {
  }

  // ---------------------------------------------------------------- the hash around persistence

  /** The counter rises exactly when persistence rewrites an OK status, and only the status is rewritten. */
  lemma MismatchIsTheRewrite(strict: bool, persist: bool, s: Stages)
    requires RunOf(strict, persist, s).Returned? && AtGate(s).Some? && ValidateOutputSchema(AtGate(s).value).None?
    ensures var o, r := AtGate(s).value, RunOf(strict, persist, s).output;
            && (HashMismatch(persist, s) <==> AuditCopy(o) != AuditCopy(r))
            && (HashMismatch(persist, s) <==> r.status != o.status)
            && (r.status != o.status ==>
                  AuditCopy(r) == AuditCopy(o).(status := Given(DEGRADED)) && r.persisted.PersistenceError?)
  {
    AcceptedIffWellFormed(AtGate(s).value);
  }

  // ---------------------------------------------------------------- the chain through the real stages

  const UNRELIABLE_SOURCE := "external_source_unreliable"

  function Records(failures: seq<RawFailure>): (r: seq<FailureEntry>)
    ensures |r| == |failures|
    ensures forall i | 0 <= i < |r| :: r[i] == Record(failures[i].kind == OtherFailure(UNRELIABLE_SOURCE))
  {
    if failures == [] then []
    else
      var n := |failures| - 1;
      Records(failures[..n]) + [Record(failures[n].kind == OtherFailure(UNRELIABLE_SOURCE))]
  }

  /** The parts of an output the chain does not decide. */
  datatype Extras = Extras(review: bool, probability: real, driver: string, text: string, rest: Json)

  /** The output the action stage packs from the engine's answer and the meta block. */
  function Packed(r: Legacy, m: Meta, failures: seq<RawFailure>, x: Extras): Output {
    Output(Given(r.status), Given(r.risk), Given(m.reason), Given(m.valid), Given(m.mlFull), Given(m.safe),
           Given(Finite(Round(r.confidence, SCALE_4))), Given(x.review), Given(Records(failures)), Given(|r.trace|),
           Given(x.probability), Given(x.driver), Given(x.text), x.rest, NotTried)
  }

  /** The action stage on an evaluation: its output, or None when the meta block raises. */
  ghost function ActionOutput(a: Assessment, x: Extras): Option<Output> {
    var meta := ComputeDecisionMeta(a.call.critical, a.call.failures, EngineOf(a));
    if meta.Err? then None else Some(Packed(EngineOf(a), meta.value, a.call.failures, x))
  }

  lemma PackedIsAccepted(r: Legacy, m: Meta, failures: seq<RawFailure>, x: Extras, routing: Routing)
    requires 0.0 <= r.confidence <= 1.0
    requires ValidateDecisionMeta(Given(m.reason), Given(m.valid), Given(m.mlFull), Given(m.safe), Given(r.risk),
                                  Given(r.status)).None?
    ensures ValidateOutputSchema(Assembled(Packed(r, m, failures, x), routing)).None?
    ensures !ScanBreaks(Packed(r, m, failures, x), routing) && !NoteBreaks(Packed(r, m, failures, x))
  {
    RoundedUnit(r.confidence);
  }

  lemma ConfidenceInRange(i: Inputs)
    requires 0.0 <= i.reasoning.confidence <= 1.0
    ensures 0.0 <= Decided(i).confidence <= 1.0
  {
  }

  /**
   * From a confidence score in [0, 1], an evaluation whose meta block does not raise is returned as an accepted output,
   * provided the alerts' labels are text, the trend fields are numbers and the rest of the result can be hashed.
   */
  lemma ActionOutputIsReturned(a: Assessment, x: Extras, strict: bool, persist: bool, s: Stages)
    requires 0.0 <= a.call.confidence <= 1.0 && s.action.Some? && s.action == ActionOutput(a, x)
    requires !StageRaises(s) && !(s.critical && AlertsBreak(s.alerts)) && !TrendBreaks(s.trend) && !DumpBreaks(x.rest)
    ensures ValidateOutputSchema(Assembled(s.action.value, s.routing)).None?
    ensures RunOf(strict, persist, s)
         == Returned(if persist then AfterPersist(Assembled(s.action.value, s.routing), s.write)
                     else Assembled(s.action.value, s.routing))
  {
    EngineConfidence(a);
    var meta := ComputeDecisionMeta(a.call.critical, a.call.failures, EngineOf(a));
    PackedIsAccepted(EngineOf(a), meta.value, a.call.failures, x, s.routing);
  }

  lemma EngineConfidence(a: Assessment)
    requires 0.0 <= a.call.confidence <= 1.0
    ensures 0.0 <= EngineOf(a).confidence <= 1.0
  {
    if a.engineRaises {
      RoundedUnit(Min(a.call.confidence, 0.5));
    } else {
      var i := CanonicalInputs(a.call);
      ConfidenceInRange(i);
      RoundedUnit(Decided(i).confidence);
    }
  }

  /**
   * A snapshot only too incomplete (below 0.30, but not 0) with no other finding is not reported as INVALID_INPUT:
   * the meta block raises, and the run ends in the emergency output.
   */
  lemma IncompleteSnapshotEndsAsPipelineFailure(a: Assessment, completeness: real, strict: bool, persist: bool,
                                                s: Stages, x: Extras)
    requires !a.engineRaises && !DataInvalid(a.call) && s.critical == a.call.critical
    requires a.call.completeness == Some(PassedCompleteness(completeness)) && completeness < 0.30 && completeness != 0.0
    requires s.action == ActionOutput(a, x)
    ensures RunOf(strict, persist, s) == Returned(EmergencyOutput())
  {
    InvalidIff(a.call, completeness);
    MetaRaisesIff(a);
  }

  // ---------------------------------------------------------------- numbers at the persistence boundary

  /** A value met in a result: not a number (or a boolean), NaN or infinite, or a finite number. */
  datatype Raw = NotNumber | InfiniteOrNaN | Number(value: real)

  function SafeFiniteFloat(x: Raw, minimum: Option<real>, maximum: Option<real>, default: real): real {
    if !x.Number? then default
    else if minimum.Some? && x.value < minimum.value then minimum.value
    else if maximum.Some? && x.value > maximum.value then maximum.value
    else x.value
  }

  /** Any value becomes one within the bounds, in-range values stay, and doing it again changes nothing. */
  lemma SafeFiniteFloatSound(x: Raw, lo: real, hi: real, default: real)
    requires lo <= default <= hi
    ensures var y := SafeFiniteFloat(x, Some(lo), Some(hi), default);
            && lo <= y <= hi && (x.Number? && lo <= x.value <= hi ==> y == x.value)
            && SafeFiniteFloat(Number(y), Some(lo), Some(hi), default) == y
  {
  }
}
