/**
 * The process-wide connection pool: double-checked creation and closing under one lock,
 * as interleaved steps of any number of threads, each making any number of calls.
 */
module ConnectionPool {
  import opened Common

  type Tid = nat
  type PoolId = nat

  /** Where a thread stands inside `_init_pool` or `close_pool`; each step touches shared state once. */
  datatype PC =
    | Idle
    | InitCheck | InitLock | InitRecheck | InitBuild | InitAssign(built: PoolId) | InitRelease | InitFail | InitReturn
    | CloseCheck | CloseLock | CloseRecheck | CloseAll | CloseClear | CloseRelease

  /** `open` are the pools built and not closed; `returned` what the finished init calls returned, in order. */
  datatype State = State(pool: Option<PoolId>, lock: Option<Tid>, threads: map<Tid, PC>,
                         open: set<PoolId>, nextId: nat, returned: seq<Option<PoolId>>)

  /** One scheduling decision: a thread begins a call, or takes its next step (whose build may fail). */
  datatype Event =
    | BeginInit(t: Tid)
    | BeginClose(t: Tid)
    | Step(t: Tid, buildFails: bool)

  const START := State(None, None, map[], {}, 0, [])

  function At(s: State, t: Tid): PC {
    if t in s.threads then s.threads[t] else Idle
  }

  function Goto(s: State, t: Tid, pc: PC): State {
    s.(threads := s.threads[t := pc])
  }

  /** The state after an event; an event that is not enabled changes nothing. */
  function After(s: State, e: Event): State {
    match e
    case BeginInit(t) => if At(s, t).Idle? then Goto(s, t, InitCheck) else s
    case BeginClose(t) => if At(s, t).Idle? then Goto(s, t, CloseCheck) else s
    case Step(t, buildFails) => AfterStep(s, t, buildFails)
  }

  function AfterStep(s: State, t: Tid, buildFails: bool): State {
    match At(s, t)
    case Idle => s
    case InitCheck => Goto(s, t, if s.pool.None? then InitLock else InitReturn)
    case InitLock => if s.lock.None? then Goto(s, t, InitRecheck).(lock := Some(t)) else s
    case InitRecheck => Goto(s, t, if s.pool.None? then InitBuild else InitRelease)
    case InitBuild =>
      if buildFails then Goto(s, t, InitFail)
      else Goto(s, t, InitAssign(s.nextId)).(open := s.open + {s.nextId}, nextId := s.nextId + 1)
    case InitAssign(p) => Goto(s, t, InitRelease).(pool := Some(p))
    case InitRelease => Goto(s, t, InitReturn).(lock := None)
    case InitFail => Goto(s, t, Idle).(lock := None)
    case InitReturn => Goto(s, t, Idle).(returned := s.returned + [s.pool])
    case CloseCheck => Goto(s, t, if s.pool.Some? then CloseLock else Idle)
    case CloseLock => if s.lock.None? then Goto(s, t, CloseRecheck).(lock := Some(t)) else s
    case CloseRecheck => Goto(s, t, if s.pool.Some? then CloseAll else CloseRelease)
    case CloseAll => Goto(s, t, CloseClear).(open := s.open - Held(s.pool))
    case CloseClear => Goto(s, t, CloseRelease).(pool := None)
    case CloseRelease => Goto(s, t, Idle).(lock := None)
  }

  function Held(pool: Option<PoolId>): set<PoolId> {
    if pool.Some? then {pool.value} else {}
  }

  function Exec(schedule: seq<Event>): State {
    if schedule == [] then START else After(Exec(schedule[..|schedule| - 1]), schedule[|schedule| - 1])
  }

  predicate Critical(pc: PC) {
    pc.InitRecheck? || pc.InitBuild? || pc.InitAssign? || pc.InitRelease? || pc.InitFail?
    || pc.CloseRecheck? || pc.CloseAll? || pc.CloseClear? || pc.CloseRelease?
  }

  /** Which pools are open, given the global and what the lock holder is about to do. */
  predicate Consistent(pool: Option<PoolId>, open: set<PoolId>, holder: PC) {
    match holder
    case InitBuild => pool.None? && open == {}
    case InitAssign(p) => pool.None? && open == {p}
    case CloseAll => pool.Some? && open == Held(pool)
    case CloseClear => pool.Some? && open == {}
    case _ => open == Held(pool)
  }

  ghost predicate Exclusive(s: State) {
    forall t: Tid :: Critical(At(s, t)) <==> s.lock == Some(t)
  }

  function Holder(s: State): PC {
    if s.lock.Some? then At(s, s.lock.value) else Idle
  }

  ghost predicate Inv(s: State) {
    && Exclusive(s)
    && Consistent(s.pool, s.open, Holder(s))
  }

  lemma OthersStay(s: State, e: Event)
    ensures forall u: Tid | u != e.t :: At(After(s, e), u) == At(s, u)
  {
  }

  lemma StepKeepsExclusive(s: State, e: Event)
    requires Exclusive(s)
    ensures Exclusive(After(s, e))
  {
    OthersStay(s, e);
    var after, t := After(s, e), e.t;
    assert Critical(At(s, t)) <==> s.lock == Some(t);
    assert Critical(At(after, t)) <==> after.lock == Some(t);
    forall u: Tid | u != t ensures Critical(At(after, u)) <==> after.lock == Some(u) {
      assert Critical(At(s, u)) <==> s.lock == Some(u);
    }
  }

  lemma StepKeepsInv(s: State, e: Event)
    requires Inv(s)
    ensures Inv(After(s, e))
  {
    OthersStay(s, e);
    StepKeepsExclusive(s, e);
    assert Critical(At(s, e.t)) <==> s.lock == Some(e.t);
  }

  /** In every interleaving, the lock excludes and at most one pool is open. */
  lemma {:induction false} AtMostOneOpen(schedule: seq<Event>)
    ensures Inv(Exec(schedule))
    ensures |Exec(schedule).open| <= 1
  {
    if schedule != [] {
      AtMostOneOpen(schedule[..|schedule| - 1]);
      StepKeepsInv(Exec(schedule[..|schedule| - 1]), schedule[|schedule| - 1]);
    }
  }

  /** While no thread holds the lock, the open pools are exactly the one the global names, if it names one. */
  lemma OpenWhenUnlocked(schedule: seq<Event>)
    requires Exec(schedule).lock == None
    ensures Exec(schedule).pool == None ==> Exec(schedule).open == {}
    ensures Exec(schedule).pool != None ==> Exec(schedule).open == {Exec(schedule).pool.value}
  {
    AtMostOneOpen(schedule);
  }

  // ---------------------------------------------------------------- without closing

  ghost predicate NoClose(schedule: seq<Event>) {
    forall e | e in schedule :: !e.BeginClose?
  }

  predicate Closing(pc: PC) {
    pc.CloseCheck? || pc.CloseLock? || pc.CloseRecheck? || pc.CloseAll? || pc.CloseClear? || pc.CloseRelease?
  }

  /** What a thread's position says about the one pool when nothing closes. */
  predicate Placed(pc: PC, pool: Option<PoolId>) {
    && !Closing(pc)
    && (pc.InitRelease? || pc.InitReturn? ==> pool == Some(0))
    && (pc.InitAssign? ==> pc.built == 0)
  }

  ghost predicate OnePool(s: State) {
    && (forall t: Tid :: Placed(At(s, t), s.pool))
    && (s.pool.Some? ==> s.pool == Some(0) && s.nextId == 1)
    && (s.pool.None? ==> s.nextId == if Holder(s).InitAssign? then 1 else 0)
    && (forall r | r in s.returned :: r == Some(0) == s.pool)
  }

  lemma StepKeepsOnePool(s: State, e: Event)
    requires Inv(s) && OnePool(s) && !e.BeginClose?
    ensures OnePool(After(s, e))
  {
    OthersStay(s, e);
    StepKeepsInv(s, e);
    var after, t := After(s, e), e.t;
    assert Critical(At(s, t)) <==> s.lock == Some(t);
    assert Placed(At(s, t), s.pool);
    assert Placed(At(after, t), after.pool);
    forall u: Tid | u != t ensures Placed(At(after, u), after.pool) {
      assert Placed(At(s, u), s.pool);
    }
  }

  /** Without closing, one pool is ever built and every finished call returned that same pool. */
  lemma {:induction false} OnePoolWithoutClose(schedule: seq<Event>)
    requires NoClose(schedule)
    ensures OnePool(Exec(schedule))
    ensures var s := Exec(schedule);
            && s.nextId <= 1
            && (s.returned != [] ==> s.nextId == 1 && s.open == {0})
            && (forall r | r in s.returned :: r == Some(0))
  {
    if schedule != [] {
      var before := schedule[..|schedule| - 1];
      assert schedule[|schedule| - 1] in schedule && forall e | e in before :: e in schedule;
      OnePoolWithoutClose(before);
      AtMostOneOpen(before);
      StepKeepsOnePool(Exec(before), schedule[|schedule| - 1]);
    }
    AtMostOneOpen(schedule);
    HeadReturned(Exec(schedule).returned);
  }

  lemma HeadReturned(xs: seq<Option<PoolId>>)
    ensures xs == [] || xs[0] in xs
  {
  }

  // ---------------------------------------------------------------- with closing

  /** The state before the k-th event of a schedule. */
  function StateBefore(schedule: seq<Event>, k: nat): State
    requires k <= |schedule|
  {
    Exec(schedule[..k])
  }

  lemma NextState(schedule: seq<Event>, k: nat)
    requires k < |schedule|
    ensures StateBefore(schedule, k + 1) == After(StateBefore(schedule, k), schedule[k])
  {
    assert schedule[..k + 1][..k] == schedule[..k];
  }

  /** The k-th event is a step of thread t. */
  predicate StepsAt(schedule: seq<Event>, k: nat, t: Tid)
    requires k < |schedule|
  {
    schedule[k].Step? && schedule[k].t == t
  }

  predicate Assigns(schedule: seq<Event>, k: int) {
    0 <= k < |schedule| && schedule[k].Step? && At(StateBefore(schedule, k), schedule[k].t).InitAssign?
  }

  predicate Clears(schedule: seq<Event>, k: int) {
    0 <= k < |schedule| && schedule[k].Step? && At(StateBefore(schedule, k), schedule[k].t).CloseClear?
  }

  lemma PoolChanges(schedule: seq<Event>, k: nat)
    requires k < |schedule|
    ensures Assigns(schedule, k) ==> StateBefore(schedule, k + 1).pool.Some?
    ensures Clears(schedule, k) ==> StateBefore(schedule, k + 1).pool.None?
    ensures !Assigns(schedule, k) && !Clears(schedule, k)
       ==> StateBefore(schedule, k + 1).pool == StateBefore(schedule, k).pool
  {
    NextState(schedule, k);
  }

  ghost predicate AssignedLast(schedule: seq<Event>, k: nat) {
    exists a :: a < k && Assigns(schedule, a) && (forall d | a < d < k :: !Clears(schedule, d))
  }

  /** Some step from m on cleared the global, and none assigned it after that, before event k. */
  ghost predicate ClearedSince(schedule: seq<Event>, m: nat, k: nat) {
    exists c :: m <= c < k && Clears(schedule, c) && (forall d | c < d < k :: !Assigns(schedule, d))
  }

  /** The global holds a pool exactly when some assignment has not been cleared since. */
  lemma {:induction false} PoolSetIff(schedule: seq<Event>, k: nat)
    requires k <= |schedule|
    ensures StateBefore(schedule, k).pool.Some? <==> AssignedLast(schedule, k)
  {
    if k > 0 {
      PoolSetIff(schedule, k - 1);
      PoolChanges(schedule, k - 1);
      if Assigns(schedule, k - 1) {
        assert AssignedLast(schedule, k);
      } else if AssignedLast(schedule, k - 1) && !Clears(schedule, k - 1) {
        var a :| a < k - 1 && Assigns(schedule, a) && (forall d | a < d < k - 1 :: !Clears(schedule, d));
        assert forall d | a < d < k :: !Clears(schedule, d);
      }
    }
  }

  /** A pool held before event m is gone before event k exactly when it was cleared in between for good. */
  lemma {:induction false} PoolGoneIff(schedule: seq<Event>, m: nat, k: nat)
    requires m <= k <= |schedule| && StateBefore(schedule, m).pool.Some?
    ensures StateBefore(schedule, k).pool.None? <==> ClearedSince(schedule, m, k)
  {
    if m < k {
      PoolGoneIff(schedule, m, k - 1);
      PoolChanges(schedule, k - 1);
      if Clears(schedule, k - 1) {
        assert ClearedSince(schedule, m, k);
      } else if ClearedSince(schedule, m, k - 1) && !Assigns(schedule, k - 1) {
        var c :| m <= c < k - 1 && Clears(schedule, c) && (forall d | c < d < k - 1 :: !Assigns(schedule, d));
        assert forall d | c < d < k :: !Assigns(schedule, d);
      }
    }
  }

  predicate Leaving(pc: PC) {
    pc.InitRelease? || pc.InitReturn?
  }

  /** At event m the thread saw or wrote the pool, and from then to event k it has only been on its way out. */
  ghost predicate LastLook(schedule: seq<Event>, t: Tid, m: nat, k: nat)
    requires k <= |schedule|
  {
    && m < k && StepsAt(schedule, m, t) && StateBefore(schedule, m + 1).pool.Some?
    && (var pc := At(StateBefore(schedule, m), t); pc.InitCheck? || pc.InitRecheck? || pc.InitAssign?)
    && (forall d | m < d <= k :: Leaving(At(StateBefore(schedule, d), t)))
  }

  /** Stepping onto the way out is seeing or writing a pool. */
  lemma TurnsToLeave(s: State, e: Event, t: Tid)
    requires Leaving(At(After(s, e), t)) && !Leaving(At(s, t))
    ensures e.Step? && e.t == t && After(s, e).pool.Some?
    ensures At(s, t).InitCheck? || At(s, t).InitRecheck? || At(s, t).InitAssign?
  {
    OthersStay(s, e);
  }

  /** A thread on its way out of `_init_pool` has looked at a pool that was there. */
  lemma {:induction false} HasLooked(schedule: seq<Event>, t: Tid, k: nat) returns (m: nat)
    requires k <= |schedule| && Leaving(At(StateBefore(schedule, k), t))
    ensures LastLook(schedule, t, m, k)
  {
    NextState(schedule, k - 1);
    if Leaving(At(StateBefore(schedule, k - 1), t)) {
      m := HasLooked(schedule, t, k - 1);
    } else {
      m := k - 1;
      TurnsToLeave(StateBefore(schedule, m), schedule[m], t);
    }
  }

  /**
   * A finishing call returns no pool exactly when, since it last saw or wrote the global, some thread cleared it and
   * none assigned it again.
   */
  lemma InitReturnsNoneIff(schedule: seq<Event>, k: nat) returns (m: nat)
    requires k < |schedule| && schedule[k].Step? && At(StateBefore(schedule, k), schedule[k].t).InitReturn?
    ensures LastLook(schedule, schedule[k].t, m, k)
    ensures StateBefore(schedule, k + 1).returned == StateBefore(schedule, k).returned + [StateBefore(schedule, k).pool]
    ensures StateBefore(schedule, k).pool.None? <==> ClearedSince(schedule, m + 1, k)
  {
    NextState(schedule, k);
    m := HasLooked(schedule, schedule[k].t, k);
    PoolGoneIff(schedule, m + 1, k);
  }

  /**
   * With a concurrent close the final read of the global in `_init_pool` may see it cleared: thread 0 builds and
   * releases, thread 1 closes, thread 0 returns no pool although its call succeeded.
   */
  lemma InitMayReturnNone() returns (schedule: seq<Event>)
    ensures Exec(schedule).returned == [None] && Exec(schedule).nextId == 1
  {
    schedule := BuildAndRelease();
    schedule := CloseMeanwhile(schedule);
    schedule := Then(schedule, Step(0, false));
  }

  lemma BuildAndRelease() returns (schedule: seq<Event>)
    ensures Exec(schedule) == State(Some(0), None, map[0 := InitReturn], {0}, 1, [])
  {
    schedule := Then([], BeginInit(0));
    schedule := Then(schedule, Step(0, false));
    schedule := Then(schedule, Step(0, false));
    schedule := Then(schedule, Step(0, false));
    schedule := Then(schedule, Step(0, false));
    assert Exec(schedule) == State(None, Some(0), map[0 := InitAssign(0)], {0}, 1, []);
    schedule := Then(schedule, Step(0, false));
    schedule := Then(schedule, Step(0, false));
  }

  lemma CloseMeanwhile(before: seq<Event>) returns (schedule: seq<Event>)
    requires Exec(before) == State(Some(0), None, map[0 := InitReturn], {0}, 1, [])
    ensures Exec(schedule) == State(None, Some(1), map[0 := InitReturn, 1 := CloseRelease], {}, 1, [])
  {
    schedule := Then(before, BeginClose(1));
    schedule := Then(schedule, Step(1, false));
    schedule := Then(schedule, Step(1, false));
    assert Exec(schedule) == State(Some(0), Some(1), map[0 := InitReturn, 1 := CloseRecheck], {0}, 1, []);
    schedule := Then(schedule, Step(1, false));
    schedule := Then(schedule, Step(1, false));
    schedule := Then(schedule, Step(1, false));
  }

  lemma Then(schedule: seq<Event>, e: Event) returns (longer: seq<Event>)
    ensures longer == schedule + [e] && Exec(longer) == After(Exec(schedule), e)
  {
    longer := schedule + [e];
    assert longer[..|schedule|] == schedule;
  }
}
