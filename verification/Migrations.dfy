/** The migration runner over its tracking table, with SQL and tracking-write failures anywhere. */
module Migrations {
  import opened Common

  datatype Migration = Migration(filename: string, checksum: string)

  datatype Record = Record(sha256: string, success: bool)

  type Tracking = map<string, Record>

  /** One execution of a file's SQL: whether it raised, and whether any tracking write for it took effect. */
  datatype Attempt = Attempt(filename: string, raised: bool, recorded: bool)

  /** The database: the tracking table once bootstrapped, and every SQL execution so far. */
  datatype Database = Database(tracking: Option<Tracking>, attempts: seq<Attempt>)

  /** One tracking write: it works, raises without effect, or raises although the row is stored. */
  datatype Write = Works | RaisesLost | RaisesStored

  /** Faults of one pending file: its SQL, the success record, the failure record. */
  datatype Faults = Faults(sqlRaises: bool, first: Write, second: Write)

  datatype Error = FailedBefore(filename: string) | Drift(filename: string) | ApplyFailed(filename: string)

  datatype Outcome = Exit(code: int) | Raised(error: Error)

  /** One invocation. Faults are given per pending file, in order; files beyond the list meet none. */
  datatype Call = Call(listing: seq<Migration>, dryRun: bool, verify: bool, faults: seq<Faults>)

  const NO_FAULTS := Faults(false, Works, Works)

  function FaultsAt(faults: seq<Faults>, i: nat): Faults {
    if i < |faults| then faults[i] else NO_FAULTS
  }

  function Rest(faults: seq<Faults>, i: nat): seq<Faults> {
    if i <= |faults| then faults[i..] else []
  }

  // ---------------------------------------------------------------- specification

  predicate AnyApplied(ms: seq<Migration>, applied: Tracking) {
    exists m | m in ms :: m.filename in applied
  }

  function Gaps(ms: seq<Migration>, applied: Tracking): seq<string> {
    if ms == [] then []
    else (if ms[0].filename !in applied && AnyApplied(ms[1..], applied) then [ms[0].filename] else [])
         + Gaps(ms[1..], applied)
  }

  /** The first recorded failure or checksum drift, in listing order. */
  function Preflight(ms: seq<Migration>, applied: Tracking): Option<Error> {
    if ms == [] then None
    else if ms[0].filename !in applied then Preflight(ms[1..], applied)
    else if !applied[ms[0].filename].success then Some(FailedBefore(ms[0].filename))
    else if applied[ms[0].filename].sha256 != ms[0].checksum then Some(Drift(ms[0].filename))
    else Preflight(ms[1..], applied)
  }

  function Pending(ms: seq<Migration>, applied: Tracking): seq<Migration> {
    if ms == [] then []
    else (if ms[0].filename !in applied then [ms[0]] else []) + Pending(ms[1..], applied)
  }

  function Upsert(t: Tracking, m: Migration, success: bool, w: Write): Tracking {
    if w.RaisesLost? then t else t[m.filename := Record(m.checksum, success)]
  }

  /** Applying one file: the database afterwards and whether the runner goes on. */
  function ApplyOne(t: Tracking, m: Migration, f: Faults): (Tracking, Attempt, bool) {
    if f.sqlRaises then
      (Upsert(t, m, false, f.second), Attempt(m.filename, true, !f.second.RaisesLost?), false)
    else if f.first.Works? then
      (Upsert(t, m, true, f.first), Attempt(m.filename, false, true), true)
    else
      (Upsert(Upsert(t, m, true, f.first), m, false, f.second),
       Attempt(m.filename, false, !f.first.RaisesLost? || !f.second.RaisesLost?), false)
  }

  function ApplyAll(t: Tracking, log: seq<Attempt>, pending: seq<Migration>, faults: seq<Faults>)
    : (Tracking, seq<Attempt>, Outcome)
    decreases |pending|
  {
    if pending == [] then (t, log, Exit(0))
    else
      var (t', a, ok) := ApplyOne(t, pending[0], FaultsAt(faults, 0));
      if ok then ApplyAll(t', log + [a], pending[1..], Rest(faults, 1))
      else (t', log + [a], Raised(ApplyFailed(pending[0].filename)))
  }

  function Problems(ms: seq<Migration>, applied: Tracking): nat {
    if ms == [] then 0
    else Problems(ms[..|ms| - 1], applied) + if Problem(ms[|ms| - 1], applied) then 1 else 0
  }

  predicate Problem(m: Migration, applied: Tracking) {
    m.filename in applied && (!applied[m.filename].success || applied[m.filename].sha256 != m.checksum)
  }

  function Loaded(db: Database): Tracking {
    if db.tracking.Some? then db.tracking.value else map[]
  }

  function Run(db: Database, call: Call): (Database, Outcome) {
    var applied := Loaded(db);
    var db1 := if call.dryRun then db else db.(tracking := Some(applied));
    if call.verify then (db1, Exit(if Problems(call.listing, applied) == 0 then 0 else 1))
    else if Gaps(call.listing, applied) != [] then (db1, Exit(1))
    else if Preflight(call.listing, applied).Some? then (db1, Raised(Preflight(call.listing, applied).value))
    else if call.dryRun then (db1, Exit(0))
    else
      var (t, log, out) := ApplyAll(applied, db.attempts, Pending(call.listing, applied), call.faults);
      (Database(Some(t), log), out)
  }

  // ---------------------------------------------------------------- the runner

  method IsAnyApplied(ms: seq<Migration>, applied: Tracking) returns (any: bool)
    ensures any == AnyApplied(ms, applied)
  {
    any := false;
    for j := 0 to |ms|
      invariant any == AnyApplied(ms[..j], applied)
    {
      assert ms[..j + 1] == ms[..j] + [ms[j]];
      if ms[j].filename in applied {
        any := true;
      }
    }
    assert ms[..|ms|] == ms;
  }

  predicate GapAt(ms: seq<Migration>, applied: Tracking, i: nat)
    requires i < |ms|
  {
    ms[i].filename !in applied && AnyApplied(ms[i + 1..], applied)
  }

  lemma GapsStep(ms: seq<Migration>, applied: Tracking, i: nat, found: seq<string>)
    requires i < |ms|
    ensures found + Gaps(ms[i..], applied)
         == (if GapAt(ms, applied, i) then found + [ms[i].filename] else found) + Gaps(ms[i + 1..], applied)
  {
    assert ms[i..][0] == ms[i] && ms[i..][1..] == ms[i + 1..];
  }

  /** The unapplied files that some later file of the listing has overtaken. */
  method DetectGaps(ms: seq<Migration>, applied: Tracking) returns (gaps: seq<string>)
    ensures gaps == Gaps(ms, applied)
  {
    gaps := [];
    for i := 0 to |ms|
      invariant gaps + Gaps(ms[i..], applied) == Gaps(ms, applied)
    {
      GapsStep(ms, applied, i, gaps);
      if ms[i].filename !in applied {
        var superseded := IsAnyApplied(ms[i + 1..], applied);
        if superseded {
          gaps := gaps + [ms[i].filename];
        }
      }
    }
    assert ms[|ms|..] == [];
  }

  /** Stops at the first listed file recorded as failed or with another checksum. */
  method CheckApplied(ms: seq<Migration>, applied: Tracking) returns (problem: Option<Error>)
    ensures problem == Preflight(ms, applied)
  {
    for i := 0 to |ms|
      invariant Preflight(ms[i..], applied) == Preflight(ms, applied)
    {
      if ms[i].filename !in applied {
        continue;
      }
      var rec := applied[ms[i].filename];
      if !rec.success {
        return Some(FailedBefore(ms[i].filename));
      }
      if rec.sha256 != ms[i].checksum {
        return Some(Drift(ms[i].filename));
      }
    }
    return None;
  }

  /** Counts the listed files recorded as failed or drifted. */
  method RunVerify(ms: seq<Migration>, applied: Tracking) returns (code: int)
    ensures code == if Problems(ms, applied) == 0 then 0 else 1
  {
    var problems := 0;
    for i := 0 to |ms|
      invariant problems == Problems(ms[..i], applied)
    {
      assert ms[..i + 1][..i] == ms[..i];
      if ms[i].filename !in applied {
        continue;
      }
      var rec := applied[ms[i].filename];
      if !rec.success {
        problems := problems + 1;
      } else if rec.sha256 != ms[i].checksum {
        problems := problems + 1;
      }
    }
    assert ms[..|ms|] == ms;
    code := if problems == 0 then 0 else 1;
  }

  class MigrationRunner {
    var tracking: Option<Tracking>
    var attempts: seq<Attempt>

    constructor ()
      ensures tracking == None && attempts == []
    {
      tracking, attempts := None, [];
    }

    function State(): Database
      reads this
    {
      Database(tracking, attempts)
    }

    /** Upserts one row; a write may raise, and a raising write may still have been stored. */
    method RecordMigration(m: Migration, success: bool, w: Write) returns (raised: bool)
      requires tracking.Some?
      modifies this`tracking
      ensures tracking == Some(Upsert(old(tracking).value, m, success, w))
      ensures raised == !w.Works?
    {
      if !w.RaisesLost? {
        tracking := Some(tracking.value[m.filename := Record(m.checksum, success)]);
      }
      raised := !w.Works?;
    }

    /** Bootstraps, checks the table against the listing, then applies the pending files in order until one raises. */
    method RunMigrations(call: Call) returns (out: Outcome)
      modifies this
      ensures (State(), out) == Run(old(State()), call)
    {
      var applied: Tracking;
      if call.dryRun {
        applied := if tracking.Some? then tracking.value else map[];
      } else {
        if tracking.None? {
          tracking := Some(map[]);
        }
        applied := tracking.value;
      }
      var ms := call.listing;
      if call.verify {
        var code := RunVerify(ms, applied);
        return Exit(code);
      }
      var gaps := DetectGaps(ms, applied);
      if gaps != [] {
        return Exit(1);
      }
      var problem := CheckApplied(ms, applied);
      if problem.Some? {
        return Raised(problem.value);
      }
      var pending := Pending(ms, applied);
      if pending == [] || call.dryRun {
        return Exit(0);
      }
      ghost var log := attempts;
      for i := 0 to |pending|
        invariant tracking.Some?
        invariant ApplyAll(tracking.value, attempts, pending[i..], Rest(call.faults, i))
               == ApplyAll(applied, log, pending, call.faults)
      {
        var m, f := pending[i], FaultsAt(call.faults, i);
        assert Rest(Rest(call.faults, i), 1) == Rest(call.faults, i + 1);
        var raised, stored := f.sqlRaises, false;
        if !raised {
          raised := RecordMigration(m, true, f.first);
          stored := !f.first.RaisesLost?;
        }
        if raised {
          var _ := RecordMigration(m, false, f.second);
          attempts := attempts + [Attempt(m.filename, f.sqlRaises, stored || !f.second.RaisesLost?)];
          return Raised(ApplyFailed(m.filename));
        }
        attempts := attempts + [Attempt(m.filename, false, true)];
      }
      return Exit(0);
    }
  }

  // ---------------------------------------------------------------- pre-flight, for any table

  ghost predicate AppliedExactly(ms: seq<Migration>, applied: Tracking, k: nat) {
    k <= |ms| && forall i | 0 <= i < |ms| :: ms[i].filename in applied <==> i < k
  }

  /** No gap is reported exactly when the applied files are a prefix of the listing. */
  lemma {:induction false} NoGapIffPrefix(ms: seq<Migration>, applied: Tracking)
    ensures Gaps(ms, applied) == [] <==> exists k: nat :: AppliedExactly(ms, applied, k)
  {
    if ms == [] {
      assert AppliedExactly(ms, applied, 0);
    } else {
      var rest := ms[1..];
      NoGapIffPrefix(rest, applied);
      if ms[0].filename in applied {
        forall k: nat | AppliedExactly(rest, applied, k) ensures AppliedExactly(ms, applied, k + 1) {
          forall i | 0 <= i < |ms| ensures ms[i].filename in applied <==> i < k + 1 {
            if i > 0 { assert ms[i] == rest[i - 1]; }
          }
        }
        forall k: nat | AppliedExactly(ms, applied, k) ensures AppliedExactly(rest, applied, k - 1) {
          assert ms[0].filename in applied;
        }
      } else {
        if !AnyApplied(rest, applied) {
          forall i | 0 <= i < |ms| ensures ms[i].filename !in applied {
            if i > 0 { assert ms[i] in rest; }
          }
          assert AppliedExactly(ms, applied, 0);
          assert AppliedExactly(rest, applied, 0);
        } else {
          var m :| m in rest && m.filename in applied;
          var i :| 0 <= i < |rest| && rest[i] == m;
          assert ms[i + 1] == m;
          forall k: nat ensures !AppliedExactly(ms, applied, k) {
            AppliedAt(ms, applied, k, 0);
            AppliedAt(ms, applied, k, i + 1);
          }
        }
      }
    }
  }

  lemma AppliedAt(ms: seq<Migration>, applied: Tracking, k: nat, i: nat)
    requires i < |ms|
    ensures AppliedExactly(ms, applied, k) ==> (ms[i].filename in applied <==> i < k)
  {
  }

  /** The pre-flight passes exactly when every listed, recorded file succeeded with its current checksum. */
  lemma {:induction false} PreflightPasses(ms: seq<Migration>, applied: Tracking)
    ensures Preflight(ms, applied) == None <==> forall i | 0 <= i < |ms| :: !Problem(ms[i], applied)
  {
    if ms != [] {
      var rest := ms[1..];
      PreflightPasses(rest, applied);
      if !Problem(ms[0], applied) {
        assert forall i | 0 <= i < |ms| :: i > 0 ==> ms[i] == rest[i - 1];
        if forall i | 0 <= i < |ms| :: !Problem(ms[i], applied) {
          forall i | 0 <= i < |rest| ensures !Problem(rest[i], applied) { assert rest[i] == ms[i + 1]; }
        }
      }
    }
  }

  lemma {:induction false} NoProblems(ms: seq<Migration>, applied: Tracking)
    ensures Problems(ms, applied) == 0 <==> forall i | 0 <= i < |ms| :: !Problem(ms[i], applied)
  {
    if ms != [] {
      NoProblems(ms[..|ms| - 1], applied);
    }
  }

  lemma {:induction false} PendingFilters(ms: seq<Migration>, applied: Tracking)
    ensures forall m :: m in Pending(ms, applied) <==> m in ms && m.filename !in applied
  {
    if ms != [] {
      PendingFilters(ms[1..], applied);
      assert ms == [ms[0]] + ms[1..];
    }
  }

  lemma {:induction false} PendingOfPrefix(ms: seq<Migration>, applied: Tracking, k: nat)
    requires AppliedExactly(ms, applied, k)
    ensures Pending(ms, applied) == ms[k..]
  {
    if ms != [] {
      assert ms[0].filename in applied <==> 0 < k;
      var rest := ms[1..];
      var j := if k == 0 then 0 else k - 1;
      forall i | 0 <= i < |rest| ensures rest[i].filename in applied <==> i < j {
        assert rest[i] == ms[i + 1];
      }
      PendingOfPrefix(rest, applied, j);
    }
  }

  /**
   * Verify mode answers 0 exactly when the pre-flight of a real run would find no failure or drift, and changes
   * nothing.
   */
  lemma VerifyIsPreflight(db: Database, call: Call)
    requires call.verify
    ensures Run(db, call).1 == Exit(if Preflight(call.listing, Loaded(db)) == None then 0 else 1)
    ensures Loaded(Run(db, call).0) == Loaded(db) && Run(db, call).0.attempts == db.attempts
  {
    NoProblems(call.listing, Loaded(db));
    PreflightPasses(call.listing, Loaded(db));
  }

  /** A dry run changes nothing and answers what the real run would answer if nothing failed. */
  lemma DryRunPredicts(db: Database, listing: seq<Migration>, faults: seq<Faults>)
    ensures var dry := Run(db, Call(listing, true, false, faults));
            dry.0 == db && dry.1 == Run(db, Call(listing, false, false, [])).1
  {
    if Gaps(listing, Loaded(db)) == [] && Preflight(listing, Loaded(db)) == None {
      FaultFreeApply(Loaded(db), db.attempts, Pending(listing, Loaded(db)));
    }
  }

  lemma {:induction false} FaultFreeApply(t: Tracking, log: seq<Attempt>, pending: seq<Migration>)
    ensures ApplyAll(t, log, pending, []).2 == Exit(0)
    decreases |pending|
  {
    if pending != [] {
      var (t', a, ok) := ApplyOne(t, pending[0], NO_FAULTS);
      FaultFreeApply(t', log + [a], pending[1..]);
    }
  }

  // ---------------------------------------------------------------- applying

  ghost predicate DistinctNames(ms: seq<Migration>) {
    forall i, j | 0 <= i < j < |ms| :: ms[i].filename != ms[j].filename
  }

  /** The first k files are recorded, all but perhaps the last of them as successful; nothing else is. */
  ghost predicate Prefix(t: Tracking, names: seq<string>, k: nat) {
    && k <= |names|
    && (forall n :: n in t <==> n in names[..k])
    && (forall i | 0 <= i < k - 1 :: names[i] in t && t[names[i]].success)
  }

  ghost predicate AllGood(t: Tracking, names: seq<string>, k: nat) {
    k <= |names| && forall i | 0 <= i < k :: names[i] in t && t[names[i]].success
  }

  function Names(ms: seq<Migration>): (names: seq<string>)
    ensures |names| == |ms| && forall i | 0 <= i < |ms| :: names[i] == ms[i].filename
  {
    seq(|ms|, i requires 0 <= i < |ms| => ms[i].filename)
  }

  /** Every execution of a recorded attempt's file is over: no later attempt names it, and it is in the table. */
  ghost predicate OnceRecorded(t: Tracking, log: seq<Attempt>) {
    && (forall i | 0 <= i < |log| && log[i].recorded :: log[i].filename in t)
    && (forall i, j | 0 <= i < j < |log| && log[i].recorded :: log[i].filename != log[j].filename)
  }

  /** Rows that were there stay as they are; the runner never rewrites a recorded file. */
  ghost predicate Extends(t: Tracking, t': Tracking) {
    forall n | n in t :: n in t' && t'[n] == t[n]
  }

  lemma ApplyOneExtends(t: Tracking, m: Migration, f: Faults)
    requires m.filename !in t
    ensures var (t', a, ok) := ApplyOne(t, m, f);
            && Extends(t, t') && t'.Keys == t.Keys + (if m.filename in t' then {m.filename} else {})
            && (m.filename in t' <==> a.recorded) && a.filename == m.filename
            && (ok ==> a.recorded && t'[m.filename] == Record(m.checksum, true))
  {
  }

  lemma PrefixGrows(t: Tracking, t': Tracking, names: seq<string>, k: nat)
    requires k < |names| && Prefix(t, names, k) && AllGood(t, names, k) && Extends(t, t')
    requires t'.Keys == t.Keys + {names[k]}
    ensures Prefix(t', names, k + 1)
    ensures names[k] in t' && t'[names[k]].success ==> AllGood(t', names, k + 1)
  {
    assert names[..k + 1] == names[..k] + [names[k]];
    forall n ensures n in t' <==> n in names[..k + 1] {
      assert n in t'.Keys <==> n in t.Keys || n == names[k];
    }
    forall i | 0 <= i < k ensures names[i] in t' && t'[names[i]].success {
      assert names[i] in t && t'[names[i]] == t[names[i]];
    }
  }

  lemma OnceRecordedGrows(t: Tracking, t': Tracking, log: seq<Attempt>, a: Attempt)
    requires OnceRecorded(t, log) && Extends(t, t') && a.filename !in t && (a.recorded ==> a.filename in t')
    ensures OnceRecorded(t', log + [a])
  {
    forall i | 0 <= i < |log| && log[i].recorded ensures log[i].filename in t' && log[i].filename != a.filename {
      assert log[i].filename in t;
    }
  }

  lemma NotYetRecorded(t: Tracking, ms: seq<Migration>, k: nat)
    requires DistinctNames(ms) && k < |ms| && Prefix(t, Names(ms), k)
    ensures ms[k].filename !in t
  {
    forall n | n in Names(ms)[..k] ensures n != ms[k].filename {
      var i :| 0 <= i < k && Names(ms)[i] == n;
    }
  }

  ghost predicate SomePrefix(t: Tracking, names: seq<string>) {
    exists k: nat :: Prefix(t, names, k)
  }

  ghost predicate Current(t: Tracking, ms: seq<Migration>) {
    forall m | m in ms :: m.filename in t && t[m.filename] == Record(m.checksum, true)
  }

  lemma {:induction false} ApplyKeepsPrefix(t: Tracking, log: seq<Attempt>, ms: seq<Migration>, k: nat,
                                            faults: seq<Faults>)
    requires DistinctNames(ms) && Prefix(t, Names(ms), k) && AllGood(t, Names(ms), k) && OnceRecorded(t, log)
    ensures var (t', log', out) := ApplyAll(t, log, ms[k..], faults);
            OnceRecorded(t', log') && SomePrefix(t', Names(ms)) && Extends(t, t')
    decreases |ms| - k
  {
    if k < |ms| {
      var m := ms[k];
      var (t1, a, ok) := ApplyOne(t, m, FaultsAt(faults, 0));
      NotYetRecorded(t, ms, k);
      ApplyOneExtends(t, m, FaultsAt(faults, 0));
      OnceRecordedGrows(t, t1, log, a);
      assert ms[k..][1..] == ms[k + 1..];
      if m.filename in t1 {
        PrefixGrows(t, t1, Names(ms), k);
      } else {
        assert t1 == t;
      }
      if ok {
        ApplyKeepsPrefix(t1, log + [a], ms, k + 1, Rest(faults, 1));
      }
    }
  }

  /** When applying ends with exit code 0, every pending file is recorded as a success with its checksum. */
  lemma {:induction false} ApplyRecordsAll(t: Tracking, log: seq<Attempt>, pending: seq<Migration>, faults: seq<Faults>)
    requires DistinctNames(pending) && forall m | m in pending :: m.filename !in t
    ensures var (t', log', out) := ApplyAll(t, log, pending, faults);
            out == Exit(0) ==> Extends(t, t') && Current(t', pending)
    decreases |pending|
  {
    if pending != [] {
      var m, rest := pending[0], pending[1..];
      var (t1, a, ok) := ApplyOne(t, m, FaultsAt(faults, 0));
      assert m in pending && forall x | x in rest :: x in pending;
      ApplyOneExtends(t, m, FaultsAt(faults, 0));
      if ok {
        forall x | x in rest ensures x.filename !in t1 {
          var i :| 0 <= i < |rest| && rest[i] == x;
          assert pending[i + 1] == x;
          assert x.filename in t1.Keys <==> x.filename in t.Keys || x.filename == m.filename;
        }
        ApplyRecordsAll(t1, log + [a], rest, Rest(faults, 1));
        assert pending == [m] + rest;
      }
    }
  }

  // ---------------------------------------------------------------- runs of calls

  function After(history: seq<Call>): Database {
    if history == [] then Database(None, [])
    else Run(After(history[..|history| - 1]), history[|history| - 1]).0
  }

  /** Each call sees at least the files of the call before it, any new ones sorting later. */
  ghost predicate Growing(history: seq<Call>) {
    && (forall i | 0 <= i < |history| :: DistinctNames(history[i].listing))
    && (forall i | 0 <= i < |history| - 1 :: Names(history[i].listing) <= Names(history[i + 1].listing))
  }

  lemma LongerListing(t: Tracking, names: seq<string>, longer: seq<string>)
    requires SomePrefix(t, names) && names <= longer
    ensures SomePrefix(t, longer)
  {
    var k: nat :| Prefix(t, names, k);
    assert longer[..k] == names[..k];
    assert Prefix(t, longer, k);
  }

  lemma RunKeepsPrefix(db: Database, call: Call)
    requires DistinctNames(call.listing) && SomePrefix(Loaded(db), Names(call.listing))
    requires OnceRecorded(Loaded(db), db.attempts)
    ensures var db' := Run(db, call).0;
            && SomePrefix(Loaded(db'), Names(call.listing)) && OnceRecorded(Loaded(db'), db'.attempts)
            && Extends(Loaded(db), Loaded(db'))
    ensures !call.verify ==> Run(db, call).1 != Exit(1)
  {
    var t, ms := Loaded(db), call.listing;
    var k: nat :| Prefix(t, Names(ms), k);
    PrefixIsApplied(t, ms, k);
    NoGapIffPrefix(ms, t);
    if !call.verify && !call.dryRun && Preflight(ms, t) == None {
      PreflightPasses(ms, t);
      forall i | 0 <= i < k ensures Names(ms)[i] in t && t[Names(ms)[i]].success {
        assert ms[i].filename in t && !Problem(ms[i], t);
      }
      PendingOfPrefix(ms, t, k);
      ApplyKeepsPrefix(t, db.attempts, ms, k, call.faults);
      ApplyNeverExitsOne(t, db.attempts, ms[k..], call.faults);
    }
  }

  lemma {:induction false} ApplyNeverExitsOne(t: Tracking, log: seq<Attempt>, pending: seq<Migration>,
                                              faults: seq<Faults>)
    ensures ApplyAll(t, log, pending, faults).2 != Exit(1)
    decreases |pending|
  {
    if pending != [] {
      var (t', a, ok) := ApplyOne(t, pending[0], FaultsAt(faults, 0));
      if ok { ApplyNeverExitsOne(t', log + [a], pending[1..], Rest(faults, 1)); }
    }
  }

  lemma PrefixIsApplied(t: Tracking, ms: seq<Migration>, k: nat)
    requires DistinctNames(ms) && Prefix(t, Names(ms), k)
    ensures AppliedExactly(ms, t, k)
  {
    forall i | 0 <= i < |ms| ensures ms[i].filename in t <==> i < k {
      if ms[i].filename in Names(ms)[..k] {
        var j :| 0 <= j < k && Names(ms)[j] == ms[i].filename;
      }
    }
  }

  /**
   * Over every sequence of calls: the recorded files are a prefix of the listing, only the last of them can be a
   * failure, and a file whose execution left any tracking row is never executed again.
   */
  lemma {:induction false} EveryHistory(history: seq<Call>)
    requires history != [] && Growing(history)
    ensures var db := After(history);
            && SomePrefix(Loaded(db), Names(history[|history| - 1].listing))
            && OnceRecorded(Loaded(db), db.attempts)
  {
    var n := |history| - 1;
    var before := history[..n];
    if n == 0 {
      assert Prefix(map[], Names(history[0].listing), 0);
      assert before == [];
    } else {
      EveryHistory(before);
      assert Names(history[n - 1].listing) <= Names(history[n - 1 + 1].listing);
      LongerListing(Loaded(After(before)), Names(before[n - 1].listing), Names(history[n].listing));
    }
    RunKeepsPrefix(After(before), history[n]);
  }

  /** Once a listed file is recorded as failed, no call executes any SQL or touches the table, whatever happens. */
  lemma FailureBlocks(db: Database, call: Call, m: Migration)
    requires m in call.listing && m.filename in Loaded(db) && !Loaded(db)[m.filename].success
    ensures Run(db, call).0.attempts == db.attempts && Loaded(Run(db, call).0) == Loaded(db)
    ensures !call.verify ==> Run(db, call).1 == Exit(1) || Run(db, call).1.Raised?
    ensures call.verify ==> Run(db, call).1 == Exit(1)
  {
    var i :| 0 <= i < |call.listing| && call.listing[i] == m;
    assert Problem(call.listing[i], Loaded(db));
    PreflightPasses(call.listing, Loaded(db));
    NoProblems(call.listing, Loaded(db));
  }

  /** Nothing can move a table in which a file that stays listed is recorded as failed. */
  lemma {:induction false} FailureBlocksHistory(db: Database, rest: seq<Call>, name: string)
    requires name in Loaded(db) && !Loaded(db)[name].success
    requires forall i | 0 <= i < |rest| :: name in Names(rest[i].listing)
    ensures Loaded(RunAll(db, rest)) == Loaded(db) && RunAll(db, rest).attempts == db.attempts
    decreases |rest|
  {
    if rest != [] {
      var n := |rest| - 1;
      FailureBlocksHistory(db, rest[..n], name);
      var listing := rest[n].listing;
      var i :| 0 <= i < |listing| && Names(listing)[i] == name;
      FailureBlocks(RunAll(db, rest[..n]), rest[n], listing[i]);
    }
  }

  /** The database after further calls. */
  function RunAll(db: Database, calls: seq<Call>): Database {
    if calls == [] then db else Run(RunAll(db, calls[..|calls| - 1]), calls[|calls| - 1]).0
  }

  lemma AfterStep(history: seq<Call>, call: Call)
    ensures After(history + [call]) == Run(After(history), call).0
  {
    assert (history + [call])[..|history|] == history;
  }

  lemma {:induction false} HistoryContinues(history: seq<Call>, rest: seq<Call>)
    ensures After(history + rest) == RunAll(After(history), rest)
    decreases |rest|
  {
    if rest == [] {
      assert history + rest == history;
    } else {
      var n := |rest| - 1;
      HistoryContinues(history, rest[..n]);
      AfterStep(history + rest[..n], rest[n]);
      assert history + rest == history + rest[..n] + [rest[n]];
    }
  }

  /** Listings only grow, so a listed name stays listed. */
  lemma {:induction false} StaysListed(history: seq<Call>, j: nat, k: nat, name: string)
    requires Growing(history) && j <= k < |history| && name in Names(history[j].listing)
    ensures name in Names(history[k].listing)
    decreases k - j
  {
    if j < k {
      StaysListed(history, j, k - 1, name);
      assert Names(history[k - 1].listing) <= Names(history[k - 1 + 1].listing);
    }
  }

  lemma ListedThroughout(history: seq<Call>, rest: seq<Call>, name: string)
    requires history != [] && Growing(history + rest) && name in Names(history[|history| - 1].listing)
    ensures forall i | 0 <= i < |rest| :: name in Names(rest[i].listing)
  {
    var all, n := history + rest, |history|;
    forall i | 0 <= i < |rest| ensures name in Names(rest[i].listing) {
      assert all[n - 1] == history[n - 1] && all[n + i] == rest[i];
      StaysListed(all, n - 1, n + i, name);
    }
  }

  /**
   * Once any growing history has left a listed file recorded as failed, no continuation of it, whatever its calls and
   * faults, executes any SQL or touches the table.
   */
  lemma FailureIsForever(history: seq<Call>, rest: seq<Call>, name: string)
    requires history != [] && Growing(history + rest)
    requires name in Names(history[|history| - 1].listing)
    requires name in Loaded(After(history)) && !Loaded(After(history))[name].success
    ensures Loaded(After(history + rest)) == Loaded(After(history))
    ensures After(history + rest).attempts == After(history).attempts
  {
    HistoryContinues(history, rest);
    ListedThroughout(history, rest, name);
    FailureBlocksHistory(After(history), rest, name);
  }

  /**
   * A real run that answers 0 leaves every listed file recorded as a success with its current checksum,
   * and running again at once executes nothing and answers 0.
   */
  lemma SuccessIsComplete(db: Database, call: Call, again: seq<Faults>)
    requires DistinctNames(call.listing) && !call.dryRun && !call.verify && Run(db, call).1 == Exit(0)
    ensures var db' := Run(db, call).0;
            && Current(Loaded(db'), call.listing)
            && Run(db', call.(faults := again)) == (db', Exit(0))
  {
    var t, ms := Loaded(db), call.listing;
    var pending := Pending(ms, t);
    NoGapIffPrefix(ms, t);
    var k: nat :| AppliedExactly(ms, t, k);
    PendingOfPrefix(ms, t, k);
    PreflightPasses(ms, t);
    forall m | m in pending ensures m.filename !in t { PendingFilters(ms, t); }
    ApplyRecordsAll(t, db.attempts, pending, call.faults);
    var t' := Loaded(Run(db, call).0);
    forall m | m in ms ensures m.filename in t' && t'[m.filename] == Record(m.checksum, true) {
      var i :| 0 <= i < |ms| && ms[i] == m;
      if i < k { assert !Problem(ms[i], t) && m.filename in t; } else { assert m == pending[i - k]; }
    }
    CurrentIsDone(t', ms);
  }

  lemma CurrentIsDone(t: Tracking, ms: seq<Migration>)
    requires Current(t, ms)
    ensures Gaps(ms, t) == [] && Preflight(ms, t) == None && Pending(ms, t) == []
  {
    assert AppliedExactly(ms, t, |ms|);
    NoGapIffPrefix(ms, t);
    PreflightPasses(ms, t);
    PendingOfPrefix(ms, t, |ms|);
  }

  /** A real run answers 0 exactly when the pre-flight is clean and no pending file's SQL or success record raises. */
  lemma SucceedsIff(db: Database, call: Call)
    requires !call.dryRun && !call.verify
    ensures Run(db, call).1 == Exit(0)
       <==> && Gaps(call.listing, Loaded(db)) == [] && Preflight(call.listing, Loaded(db)) == None
            && forall i: nat | i < |Pending(call.listing, Loaded(db))| :: Clean(call.faults, i)
  {
    if Gaps(call.listing, Loaded(db)) == [] && Preflight(call.listing, Loaded(db)) == None {
      ApplySucceedsIff(Loaded(db), db.attempts, Pending(call.listing, Loaded(db)), call.faults);
    }
  }

  predicate Clean(faults: seq<Faults>, i: nat) {
    !FaultsAt(faults, i).sqlRaises && FaultsAt(faults, i).first.Works?
  }

  lemma {:induction false} ApplySucceedsIff(t: Tracking, log: seq<Attempt>, pending: seq<Migration>,
                                            faults: seq<Faults>)
    ensures ApplyAll(t, log, pending, faults).2 == Exit(0) <==> forall i: nat | i < |pending| :: Clean(faults, i)
    decreases |pending|
  {
    if pending != [] {
      var (t', a, ok) := ApplyOne(t, pending[0], FaultsAt(faults, 0));
      var rest := Rest(faults, 1);
      assert ok <==> Clean(faults, 0);
      if ok {
        ApplySucceedsIff(t', log + [a], pending[1..], rest);
        forall i: nat ensures Clean(rest, i) <==> Clean(faults, i + 1) {
          assert FaultsAt(rest, i) == FaultsAt(faults, i + 1);
        }
        if forall i: nat | i < |pending| - 1 :: Clean(rest, i) {
          forall i: nat | i < |pending| ensures Clean(faults, i) {
            if i > 0 { assert Clean(rest, i - 1); }
          }
        }
      }
    }
  }

  /** A run executes a leading part of the pending files in listing order, stopping at the first that raises. */
  lemma {:induction false} ExecutesInOrder(t: Tracking, log: seq<Attempt>, pending: seq<Migration>, faults: seq<Faults>)
    ensures var (t', log', out) := ApplyAll(t, log, pending, faults);
            var done := |log'| - |log|;
            && 0 <= done <= |pending| && log'[..|log|] == log
            && (forall i | 0 <= i < done :: log'[|log| + i].filename == pending[i].filename)
            && (forall i: nat | i < done - 1 :: Clean(faults, i))
            && (out == Exit(0) ==> done == |pending|)
            && (out != Exit(0) ==>
                  done > 0 && out == Raised(ApplyFailed(pending[done - 1].filename)) && !Clean(faults, done - 1))
    decreases |pending|
  {
    if pending != [] {
      var (t', a, ok) := ApplyOne(t, pending[0], FaultsAt(faults, 0));
      if ok {
        var rest := Rest(faults, 1);
        ExecutesInOrder(t', log + [a], pending[1..], rest);
        forall i: nat ensures Clean(rest, i) <==> Clean(faults, i + 1) {
          assert FaultsAt(rest, i) == FaultsAt(faults, i + 1);
        }
        assert forall i: nat :: i > 0 && Clean(rest, i - 1) ==> Clean(faults, i);
        var log' := ApplyAll(t, log, pending, faults).1;
        assert log'[..|log|] == log'[..|log| + 1][..|log|];
        assert log'[|log|] == log'[..|log| + 1][|log|] == a;
        forall i | 0 < i < |log'| - |log| ensures log'[|log| + i].filename == pending[i].filename {
          assert pending[i] == pending[1..][i - 1];
        }
      }
    }
  }

  // ---------------------------------------------------------------- sorted listings

  /** What scanning a directory yields: the file names in strictly ascending lexical order. */
  ghost predicate Scanned(names: seq<string>) {
    forall i, j | 0 <= i < j < |names| :: Before(names[i], names[j])
  }

  /** A directory that only gains later-sorting files yields a listing that extends the old one. */
  lemma GainingLaterFilesExtends(names: seq<string>, longer: seq<string>)
    requires Scanned(names) && Scanned(longer)
    requires forall n | n in names :: n in longer
    requires forall n, m | n in names && m in longer && m !in names :: Before(n, m)
    ensures names <= longer
  {
    ExtendsUpTo(names, longer, |names|);
  }

  lemma {:induction false} ExtendsUpTo(names: seq<string>, longer: seq<string>, k: nat)
    requires Scanned(names) && Scanned(longer) && k <= |names|
    requires forall n | n in names :: n in longer
    requires forall n, m | n in names && m in longer && m !in names :: Before(n, m)
    ensures k <= |longer| && names[..k] == longer[..k]
  {
    if k > 0 {
      ExtendsUpTo(names, longer, k - 1);
      var i := k - 1;
      assert names[i] in longer;
      var j :| 0 <= j < |longer| && longer[j] == names[i];
      if j < i {
        assert longer[..i][j] == names[..i][j];
        BeforeIsStrict(names[i]);
      }
      if longer[i] in names {
        var l :| 0 <= l < |names| && names[l] == longer[i];
        SamePlace(names, longer, i, j, l);
      } else if i < j {
        assert Before(longer[i], longer[j]) && Before(names[i], longer[i]);
        BeforeTransitive(names[i], longer[i], names[i]);
        BeforeIsStrict(names[i]);
      }
    }
  }

  lemma SamePlace(names: seq<string>, longer: seq<string>, i: nat, j: nat, l: nat)
    requires Scanned(names) && Scanned(longer) && i < |names| && i <= j < |longer| && l < |names|
    requires names[..i] == longer[..i] && longer[j] == names[i] && longer[i] == names[l]
    ensures i == j
  {
    forall q | 0 <= q < i ensures names[q] == longer[q] {
      assert names[..i][q] == longer[..i][q];
    }
    BeforeIsStrict(longer[i]);
    if i < l && i < j {
      BeforeTransitive(names[i], names[l], longer[j]);
      BeforeIsStrict(names[i]);
    }
  }

  // ---------------------------------------------------------------- the answers, told by rows and faults

  /** A file is listed as a gap exactly when it is unapplied and some later file of the listing is applied. */
  lemma {:induction false} GapsTold(ms: seq<Migration>, applied: Tracking, name: string)
    ensures name in Gaps(ms, applied)
       <==> exists i, j :: 0 <= i < j < |ms| && ms[i].filename == name && name !in applied && ms[j].filename in applied
  {
    if ms != [] {
      var rest := ms[1..];
      GapsTold(rest, applied, name);
      assert forall i | 0 < i < |ms| :: ms[i] == rest[i - 1];
      if i, j :| 0 <= i < j < |rest| && rest[i].filename == name && name !in applied && rest[j].filename in applied {
        assert ms[i + 1].filename == name && ms[j + 1].filename in applied;
      }
      if ms[0].filename == name && name !in applied && AnyApplied(rest, applied) {
        var m :| m in rest && m.filename in applied;
        var j :| 0 <= j < |rest| && rest[j] == m;
        assert ms[j + 1].filename in applied;
      }
      if i, j :| 0 <= i < j < |ms| && ms[i].filename == name && name !in applied && ms[j].filename in applied {
        assert ms[j] == rest[j - 1] && rest[j - 1] in rest;
        if i > 0 { assert rest[i - 1].filename == name && rest[j - 1].filename in applied; }
      }
    }
  }

  /** The gaps of a sorted listing are reported in its order, each once. */
  lemma {:induction false} GapsInOrder(ms: seq<Migration>, applied: Tracking)
    requires Scanned(Names(ms))
    ensures Scanned(Gaps(ms, applied))
  {
    if ms != [] {
      var rest, gaps := ms[1..], Gaps(ms[1..], applied);
      assert Names(rest) == Names(ms)[1..];
      GapsInOrder(rest, applied);
      forall i | 0 <= i < |gaps| ensures Before(ms[0].filename, gaps[i]) {
        GapsTold(rest, applied, gaps[i]);
        var k :| 0 <= k < |rest| && rest[k].filename == gaps[i];
        assert Names(ms)[k + 1] == gaps[i] && Names(ms)[0] == ms[0].filename;
      }
    }
  }

  /** The row of a listed file stops a run: a recorded failure, or a success under another checksum. */
  ghost predicate Stops(m: Migration, applied: Tracking) {
    m.filename in applied && !(applied[m.filename].success && applied[m.filename].sha256 == m.checksum)
  }

  /** The pre-flight's error is about the first listed file whose row stops the run; a failure goes before a drift. */
  lemma {:induction false} PreflightTold(ms: seq<Migration>, applied: Tracking, k: nat)
    requires k < |ms| && Stops(ms[k], applied) && forall i | 0 <= i < k :: !Stops(ms[i], applied)
    ensures var name := ms[k].filename;
            Preflight(ms, applied) == Some(if applied[name].success then Drift(name) else FailedBefore(name))
  {
    if k > 0 {
      assert !Stops(ms[0], applied);
      PreflightTold(ms[1..], applied, k - 1);
    }
  }

  /**
   * The row of the file a run stopped at: a failure when that could be recorded; else the success row when the SQL
   * passed and the write that raised had stored it; else none.
   */
  ghost predicate StoppedAt(t: Tracking, m: Migration, f: Faults) {
    if !f.second.RaisesLost? then m.filename in t && t[m.filename] == Record(m.checksum, false)
    else if !f.sqlRaises && f.first.RaisesStored? then m.filename in t && t[m.filename] == Record(m.checksum, true)
    else m.filename !in t
  }

  /** The rows of the first n files are successes under their checksums. */
  ghost predicate Succeeded(t: Tracking, ms: seq<Migration>, n: int) {
    n <= |ms| && forall i | 0 <= i < n :: ms[i].filename in t && t[ms[i].filename] == Record(ms[i].checksum, true)
  }

  /** The rows a run leaves: old ones as they were, a success for each file passed, that of the file it stopped at. */
  lemma {:induction false} RowsTold(t: Tracking, log: seq<Attempt>, pending: seq<Migration>, faults: seq<Faults>)
    requires DistinctNames(pending) && forall i | 0 <= i < |pending| :: pending[i].filename !in t
    ensures var (t', log', out) := ApplyAll(t, log, pending, faults);
            var done := |log'| - |log|;
            && Extends(t, t') && 0 <= done <= |pending|
            && (out == Exit(0) ==> Succeeded(t', pending, |pending|))
            && (out != Exit(0) ==>
                  && done > 0 && Succeeded(t', pending, done - 1)
                  && StoppedAt(t', pending[done - 1], FaultsAt(faults, done - 1)))
    decreases |pending|
  {
    if pending != [] {
      var m, f, rest := pending[0], FaultsAt(faults, 0), pending[1..];
      var (t1, a, ok) := ApplyOne(t, m, f);
      OneRowTold(t, m, f);
      if ok {
        forall i | 0 <= i < |rest| ensures rest[i].filename !in t1 { assert rest[i] == pending[i + 1]; }
        RowsTold(t1, log + [a], rest, Rest(faults, 1));
        MoreRowsTold(t1, log + [a], pending, faults);
      }
    }
  }

  lemma OneRowTold(t: Tracking, m: Migration, f: Faults)
    requires m.filename !in t
    ensures var (t', a, ok) := ApplyOne(t, m, f);
            && Extends(t, t') && (forall n | n in t' :: n in t || n == m.filename)
            && (ok <==> !f.sqlRaises && f.first.Works?)
            && (ok ==> m.filename in t' && t'[m.filename] == Record(m.checksum, true))
            && (!ok ==> StoppedAt(t', m, f))
            && a.raised == f.sqlRaises && (a.recorded <==> m.filename in t')
  {
  }

  lemma MoreRowsTold(t: Tracking, log: seq<Attempt>, pending: seq<Migration>, faults: seq<Faults>)
    requires pending != [] && pending[0].filename in t
    requires t[pending[0].filename] == Record(pending[0].checksum, true)
    requires Extends(t, ApplyAll(t, log, pending[1..], Rest(faults, 1)).0)
    ensures var t' := ApplyAll(t, log, pending[1..], Rest(faults, 1)).0;
            && (forall n | 0 <= n < |pending| && Succeeded(t', pending[1..], n) :: Succeeded(t', pending, n + 1))
            && (forall k: nat :: FaultsAt(Rest(faults, 1), k) == FaultsAt(faults, k + 1))
  {
    var t' := ApplyAll(t, log, pending[1..], Rest(faults, 1)).0;
    forall n | 0 <= n < |pending| && Succeeded(t', pending[1..], n) ensures Succeeded(t', pending, n + 1) {
      forall i | 0 <= i < n + 1
        ensures pending[i].filename in t' && t'[pending[i].filename] == Record(pending[i].checksum, true)
      {
        if i > 0 { assert pending[i] == pending[1..][i - 1]; }
      }
    }
  }
}
