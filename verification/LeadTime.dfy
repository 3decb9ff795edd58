/** The lead-time detector of the historical replay: first signal, and first warning that persists. */
module LeadTime {
  import opened Common
  import opened Rounding
  import opened Decision

  const SCALE_1: int := 10

  /**
   * One step of a replayed event: how many hours before it, and the risk the pipeline reported (UNKNOWN if it raised).
   */
  datatype Step = Step(hours: real, risk: RiskLevel)

  predicate Signals(s: Step) {
    s.risk.PRE_ALERT? || s.risk.WARNING? || s.risk.DANGER?
  }

  predicate Warns(s: Step) {
    s.risk.WARNING? || s.risk.DANGER?
  }

  /** The steps before the event, in order. */
  function BeforeEvent(steps: seq<Step>): seq<Step> {
    if steps == [] then []
    else if steps[|steps| - 1].hours > 0.0 then BeforeEvent(steps[..|steps| - 1]) + [steps[|steps| - 1]]
    else BeforeEvent(steps[..|steps| - 1])
  }

  predicate PairAt(steps: seq<Step>, k: int) {
    0 <= k && k + 1 < |steps| && Warns(steps[k]) && Warns(steps[k + 1])
  }

  /** The hour of the first signal, if there is one. */
  ghost predicate IsFirstSignal(steps: seq<Step>, hour: Option<real>) {
    match hour
    case None => forall k | 0 <= k < |steps| :: !Signals(steps[k])
    case Some(h) => exists k :: 0 <= k < |steps| && Signals(steps[k]) && h == steps[k].hours
                                && (forall j | 0 <= j < k :: !Signals(steps[j]))
  }

  /** The hour of the step that begins the first two consecutive warnings, if there are two. */
  ghost predicate IsFirstPair(steps: seq<Step>, hour: Option<real>) {
    match hour
    case None => forall k :: !PairAt(steps, k)
    case Some(h) => exists k :: PairAt(steps, k) && h == steps[k].hours && (forall j | j < k :: !PairAt(steps, j))
  }

  function RoundedHour(hour: Option<real>): Option<real> {
    if hour.None? then None else Some(Round(hour.value, SCALE_1))
  }

  lemma SignalAppended(steps: seq<Step>, s: Step, hour: Option<real>)
    requires IsFirstSignal(steps, hour)
    ensures IsFirstSignal(steps + [s], if hour.None? && Signals(s) then Some(s.hours) else hour)
  {
    var longer := steps + [s];
    if hour.Some? {
      var k :| 0 <= k < |steps| && Signals(steps[k]) && hour.value == steps[k].hours
               && (forall j | 0 <= j < k :: !Signals(steps[j]));
      assert Signals(longer[k]) && hour.value == longer[k].hours;
    } else if Signals(s) {
      assert Signals(longer[|steps|]) && s.hours == longer[|steps|].hours;
    }
  }

  lemma PairAppended(steps: seq<Step>, s: Step, hour: Option<real>)
    requires IsFirstPair(steps, hour)
    ensures var n := |steps|;
            var begins := hour.None? && n > 0 && Warns(steps[n - 1]) && Warns(s);
            IsFirstPair(steps + [s], if begins then Some(steps[n - 1].hours) else hour)
  {
    var n, longer := |steps|, steps + [s];
    assert forall k | k < n - 1 :: PairAt(longer, k) <==> PairAt(steps, k);
    if hour.Some? {
      var k :| PairAt(steps, k) && hour.value == steps[k].hours && (forall j | j < k :: !PairAt(steps, j));
      assert PairAt(longer, k) && hour.value == longer[k].hours;
    } else if n > 0 && Warns(steps[n - 1]) && Warns(s) {
      assert PairAt(longer, n - 1) && steps[n - 1].hours == longer[n - 1].hours;
    }
  }

  /** The online detector: one pass, a streak counter, the hour the streak began, and the first hours found. */
  method Detect(profile: seq<Step>) returns (signal: Option<real>, warning: Option<real>)
    ensures exists s, w :: IsFirstSignal(BeforeEvent(profile), s) && IsFirstPair(BeforeEvent(profile), w)
                           && signal == RoundedHour(s) && warning == RoundedHour(w)
  {
    var earliestSignal: Option<real>, pending: Option<real>, earliestWarning: Option<real> := None, None, None;
    var consecutive := 0;
    for i := 0 to |profile|
      invariant IsFirstSignal(BeforeEvent(profile[..i]), earliestSignal)
      invariant IsFirstPair(BeforeEvent(profile[..i]), earliestWarning)
      invariant var seen := BeforeEvent(profile[..i]);
                && (consecutive > 0 <==> seen != [] && Warns(seen[|seen| - 1]))
                && (consecutive == 1 ==> pending == Some(seen[|seen| - 1].hours))
                && (consecutive > 0 ==> pending.Some?)
                && (earliestWarning.None? ==> consecutive <= 1)
    {
      var step := profile[i];
      assert profile[..i + 1][..i] == profile[..i];
      ghost var seen := BeforeEvent(profile[..i]);
      if step.hours > 0.0 {
        SignalAppended(seen, step, earliestSignal);
        PairAppended(seen, step, earliestWarning);
        if Signals(step) && earliestSignal.None? {
          earliestSignal := Some(step.hours);
        }
        if Warns(step) {
          if consecutive == 0 {
            pending := Some(step.hours);
          }
          consecutive := consecutive + 1;
          if consecutive >= 2 && earliestWarning.None? {
            earliestWarning := pending;
          }
        } else {
          consecutive := 0;
          pending := None;
        }
      }
    }
    assert profile[..|profile|] == profile;
    signal, warning := RoundedHour(earliestSignal), RoundedHour(earliestWarning);
  }

  // ---------------------------------------------------------------- lead times

  /** The replay walks toward the event. */
  ghost predicate Descending(steps: seq<Step>) {
    forall i, j | 0 <= i < j < |steps| :: steps[i].hours > steps[j].hours
  }

  lemma {:induction false} BeforeEventMembers(steps: seq<Step>)
    ensures forall k | 0 <= k < |BeforeEvent(steps)| ::
              BeforeEvent(steps)[k] in steps && BeforeEvent(steps)[k].hours > 0.0
  {
    if steps != [] {
      BeforeEventMembers(steps[..|steps| - 1]);
      assert forall s :: s in steps[..|steps| - 1] ==> s in steps;
    }
  }

  lemma {:induction false} BeforeKeepsDescending(steps: seq<Step>)
    requires Descending(steps)
    ensures Descending(BeforeEvent(steps))
  {
    if steps != [] {
      var front, last := steps[..|steps| - 1], steps[|steps| - 1];
      BeforeKeepsDescending(front);
      BeforeEventMembers(front);
      var rest := BeforeEvent(front);
      forall k | 0 <= k < |rest| ensures rest[k].hours > last.hours {
        var j :| 0 <= j < |front| && front[j] == rest[k];
        assert steps[j].hours > steps[|steps| - 1].hours;
      }
    }
  }

  /** Both first hours are determined by the profile. */
  lemma FirstsAreUnique(steps: seq<Step>, s: Option<real>, s': Option<real>, w: Option<real>, w': Option<real>)
    requires IsFirstSignal(steps, s) && IsFirstSignal(steps, s') && IsFirstPair(steps, w) && IsFirstPair(steps, w')
    ensures s == s' && w == w'
  {
    if s.Some? && s'.Some? {
      var k :| 0 <= k < |steps| && Signals(steps[k]) && s.value == steps[k].hours
               && (forall j | 0 <= j < k :: !Signals(steps[j]));
      var k' :| 0 <= k' < |steps| && Signals(steps[k']) && s'.value == steps[k'].hours
                && (forall j | 0 <= j < k' :: !Signals(steps[j]));
      assert k == k';
    }
    if w.Some? && w'.Some? {
      var k :| PairAt(steps, k) && w.value == steps[k].hours && (forall j | j < k :: !PairAt(steps, j));
      var k' :| PairAt(steps, k') && w'.value == steps[k'].hours && (forall j | j < k' :: !PairAt(steps, j));
      assert k == k';
    }
  }

  /** A reported warning lead time comes with a signal lead time at least as long, as rounded. */
  lemma WarningNeverLeadsSignal(profile: seq<Step>, s: Option<real>, w: Option<real>)
    requires Descending(profile) && IsFirstSignal(BeforeEvent(profile), s) && IsFirstPair(BeforeEvent(profile), w)
    requires w.Some?
    ensures s.Some? && RoundedHour(w).value <= RoundedHour(s).value
  {
    var steps := BeforeEvent(profile);
    BeforeKeepsDescending(profile);
    var k :| PairAt(steps, k) && w.value == steps[k].hours && (forall j | j < k :: !PairAt(steps, j));
    assert Signals(steps[k]);
    if s.Some? {
      var m :| 0 <= m < |steps| && Signals(steps[m]) && s.value == steps[m].hours
               && (forall j | 0 <= j < m :: !Signals(steps[j]));
      assert m <= k;
      RoundMonotone(w.value, s.value, SCALE_1);
    }
  }

  // ---------------------------------------------------------------- the hours, told by the steps

  /** Walking toward the event, the steps before it are the leading ones. */
  lemma {:induction false} BeforeIsPrefix(steps: seq<Step>)
    requires Descending(steps)
    ensures BeforeEvent(steps) <= steps
    ensures forall i | |BeforeEvent(steps)| <= i < |steps| :: steps[i].hours <= 0.0
  {
    if steps != [] {
      var front := steps[..|steps| - 1];
      BeforeIsPrefix(front);
      if steps[|steps| - 1].hours > 0.0 {
        forall i | 0 <= i < |front| ensures front[i].hours > 0.0 { assert steps[i].hours > steps[|front|].hours; }
        assert BeforeEvent(front) == front;
      } else {
        assert forall i | |BeforeEvent(front)| <= i < |front| :: front[i].hours <= 0.0;
      }
    }
  }

  ghost predicate Quiet(s: Step) {
    s.risk == SAFE || s.risk == UNKNOWN
  }

  /** Two consecutive steps before the event, both of them WARNING or DANGER. */
  ghost predicate WarnsTwice(profile: seq<Step>, k: nat) {
    && k + 1 < |profile| && profile[k + 1].hours > 0.0
    && (profile[k].risk == WARNING || profile[k].risk == DANGER)
    && (profile[k + 1].risk == WARNING || profile[k + 1].risk == DANGER)
  }

  ghost predicate LoudAt(profile: seq<Step>, k: nat) {
    k < |profile| && profile[k].hours > 0.0 && !Quiet(profile[k])
  }

  /** The first signal is the hour of the earliest step before the event that is neither SAFE nor UNKNOWN. */
  lemma FirstSignalTold(profile: seq<Step>, s: Option<real>)
    requires Descending(profile) && IsFirstSignal(BeforeEvent(profile), s)
    ensures s.None? ==> forall k: nat :: !LoudAt(profile, k)
    ensures s.Some? ==>
              exists k: nat :: LoudAt(profile, k) && profile[k].hours == s.value
                               && forall j: nat | j < k :: !LoudAt(profile, j)
  {
    var steps := BeforeEvent(profile);
    forall k: nat ensures LoudAt(profile, k) <==> k < |steps| && Signals(steps[k]) {
      LoudIsSignal(profile, k);
    }
    BeforeIsPrefix(profile);
    if s.Some? {
      var k :| 0 <= k < |steps| && Signals(steps[k]) && s.value == steps[k].hours
               && (forall j | 0 <= j < k :: !Signals(steps[j]));
      assert LoudAt(profile, k);
    }
  }

  lemma LoudIsSignal(profile: seq<Step>, k: nat)
    requires Descending(profile)
    ensures LoudAt(profile, k) <==> k < |BeforeEvent(profile)| && Signals(BeforeEvent(profile)[k])
  {
    BeforeIsPrefix(profile);
    BeforeEventMembers(profile);
  }

  /** The first warning is the hour of the step that begins the earliest such pair before the event. */
  lemma FirstPairTold(profile: seq<Step>, w: Option<real>)
    requires Descending(profile) && IsFirstPair(BeforeEvent(profile), w)
    ensures w.None? ==> forall k: nat :: !WarnsTwice(profile, k)
    ensures w.Some? ==>
              exists k: nat :: WarnsTwice(profile, k) && profile[k].hours == w.value
                               && forall j: nat | j < k :: !WarnsTwice(profile, j)
  {
    var steps := BeforeEvent(profile);
    BeforeIsPrefix(profile);
    BeforeEventMembers(profile);
    forall k: nat ensures WarnsTwice(profile, k) <==> PairAt(steps, k) {
      if WarnsTwice(profile, k) { assert k + 1 < |steps|; }
      if PairAt(steps, k) { assert steps[k + 1].hours > 0.0; }
    }
    if w.Some? {
      var k :| PairAt(steps, k) && w.value == steps[k].hours && (forall j | j < k :: !PairAt(steps, j));
      assert WarnsTwice(profile, k);
    }
  }

  /** A reported hour is the hour found, to within half of 0.1. */
  lemma ReportedHourTold(hour: Option<real>)
    ensures RoundedHour(hour).None? <==> hour.None?
    ensures hour.Some? ==> Abs(RoundedHour(hour).value - hour.value) <= 0.05
  {
    if hour.Some? { RoundError(hour.value, SCALE_1); }
  }
}
