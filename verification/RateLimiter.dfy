/** API-key check with a per-key sliding-window limit over a deque of admission times. */
module RateLimiter {
  import opened Common

  const WINDOW_SECONDS := 60.0
  const DEFAULT_LIMIT := 30

  datatype HttpError = NotConfigured | InvalidKey | LimitExceeded

  /** One call: its HTTP method, the header value and the monotonic clock at the call. */
  datatype Request = Request(options: bool, key: string, now: real)

  type Outcome = Result<string, HttpError>

  /** The configured limit; an unparsable setting falls back to the default. */
  function RateLimit(setting: Option<int>): (limit: int)
    ensures limit >= 1
  {
    match setting
    case None => DEFAULT_LIMIT
    case Some(n) => if n < 1 then 1 else n
  }

  // ---------------------------------------------------------------- one request

  /** Drops the leading times that are more than a window old. */
  function Evict(bucket: seq<real>, now: real): seq<real> {
    if bucket != [] && now - bucket[0] > WINDOW_SECONDS then Evict(bucket[1..], now) else bucket
  }

  type Buckets = map<string, seq<real>>

  function Bucket(buckets: Buckets, key: string): seq<real> {
    if key in buckets then buckets[key] else []
  }

  function Handle(buckets: Buckets, q: Request, keys: set<string>, limit: int): (Buckets, Outcome) {
    if q.options then (buckets, Ok(""))
    else if keys == {} then (buckets, Err(NotConfigured))
    else if q.key !in keys then (buckets, Err(InvalidKey))
    else
      var live := Evict(Bucket(buckets, q.key), q.now);
      if |live| >= limit then (buckets[q.key := live], Err(LimitExceeded))
      else (buckets[q.key := live + [q.now]], Ok(q.key))
  }

  class Limiter {
    var buckets: Buckets

    constructor ()
      ensures buckets == map[]
    {
      buckets := map[];
    }

    /** Evicts what left the window, then admits and records the request unless the bucket is full. */
    method RequireApiKey(q: Request, keys: set<string>, setting: Option<int>) returns (r: Outcome)
      modifies this
      ensures (buckets, r) == Handle(old(buckets), q, keys, RateLimit(setting))
    {
      if q.options {
        return Ok("");
      }
      if keys == {} {
        return Err(NotConfigured);
      }
      if q.key !in keys {
        return Err(InvalidKey);
      }
      var bucket := if q.key in buckets then buckets[q.key] else [];
      while |bucket| > 0 && q.now - bucket[0] > WINDOW_SECONDS
        invariant Evict(bucket, q.now) == Evict(Bucket(old(buckets), q.key), q.now)
        decreases |bucket|
      {
        bucket := bucket[1..];
      }
      if |bucket| >= RateLimit(setting) {
        buckets := buckets[q.key := bucket];
        return Err(LimitExceeded);
      }
      buckets := buckets[q.key := bucket + [q.now]];
      return Ok(q.key);
    }
  }

  // ---------------------------------------------------------------- runs

  /** The buckets after a run of requests from empty buckets, with fixed keys and limit. */
  function After(run: seq<Request>, keys: set<string>, limit: int): Buckets {
    if run == [] then map[]
    else Handle(After(run[..|run| - 1], keys, limit), run[|run| - 1], keys, limit).0
  }

  /** What the last request of a nonempty run is answered. */
  function LastOutcome(run: seq<Request>, keys: set<string>, limit: int): Outcome
    requires run != []
  {
    Handle(After(run[..|run| - 1], keys, limit), run[|run| - 1], keys, limit).1
  }

  /** The times at which a run admitted requests of one key, in order. */
  function Admitted(run: seq<Request>, keys: set<string>, limit: int, key: string): seq<real> {
    if run == [] then []
    else
      var q := run[|run| - 1];
      var before := Admitted(run[..|run| - 1], keys, limit, key);
      if !q.options && q.key == key && LastOutcome(run, keys, limit).Ok? then before + [q.now] else before
  }

  function CountWithin(times: seq<real>, lo: real, hi: real): nat {
    if times == [] then 0
    else CountWithin(times[..|times| - 1], lo, hi) + if lo <= times[|times| - 1] <= hi then 1 else 0
  }

  ghost predicate ClockNondecreasing(run: seq<Request>) {
    forall i, j | 0 <= i < j < |run| :: run[i].now <= run[j].now
  }

  ghost predicate Sorted(times: seq<real>) {
    forall i, j | 0 <= i < j < |times| :: times[i] <= times[j]
  }

  /** Any two admissions with limit-1 others between them are more than a window apart. */
  ghost predicate Spread(times: seq<real>, limit: int)
    requires limit >= 1
  {
    forall i | 0 <= i < |times| - limit :: times[i + limit] - times[i] > WINDOW_SECONDS
  }

  /** What every run keeps for one key: the bucket is the tail of the admissions that may still count at time t. */
  ghost predicate BucketInvariant(bucket: seq<real>, times: seq<real>, limit: int, t: real)
    requires limit >= 1
  {
    && Sorted(times) && Spread(times, limit)
    && (forall i | 0 <= i < |times| :: times[i] <= t)
    && |bucket| <= |times| && bucket == times[|times| - |bucket|..]
    && (forall i | 0 <= i < |times| - |bucket| :: t - times[i] > WINDOW_SECONDS)
  }

  lemma {:induction false} EvictDropsOld(bucket: seq<real>, now: real)
    requires Sorted(bucket)
    ensures var live := Evict(bucket, now);
            && |live| <= |bucket| && live == bucket[|bucket| - |live|..]
            && (forall i | 0 <= i < |bucket| - |live| :: now - bucket[i] > WINDOW_SECONDS)
            && (forall x | x in live :: now - x <= WINDOW_SECONDS)
  {
    if bucket != [] && now - bucket[0] > WINDOW_SECONDS {
      var rest := bucket[1..];
      EvictDropsOld(rest, now);
      var cut := |bucket| - |Evict(bucket, now)|;
      assert forall i | 0 < i < cut :: bucket[i] == rest[i - 1];
    }
  }

  lemma InvariantLater(bucket: seq<real>, times: seq<real>, limit: int, t: real, later: real)
    requires limit >= 1 && BucketInvariant(bucket, times, limit, t) && t <= later
    ensures BucketInvariant(bucket, times, limit, later)
  {
  }

  /** Evicting at `now` keeps the invariant and leaves exactly the admissions of the last window. */
  lemma EvictKeepsInvariant(bucket: seq<real>, times: seq<real>, limit: int, now: real)
    requires limit >= 1 && BucketInvariant(bucket, times, limit, now)
    ensures BucketInvariant(Evict(bucket, now), times, limit, now)
    ensures forall x | x in Evict(bucket, now) :: now - WINDOW_SECONDS <= x <= now
  {
    EvictDropsOld(bucket, now);
    var live := Evict(bucket, now);
    var k, j := |times| - |bucket|, |times| - |live|;
    assert live == times[j..];
    forall i | k <= i < j ensures now - times[i] > WINDOW_SECONDS {
      assert times[i] == bucket[i - k];
    }
  }

  lemma AdmitKeepsInvariant(live: seq<real>, times: seq<real>, limit: int, now: real)
    requires limit >= 1 && BucketInvariant(live, times, limit, now) && |live| < limit
    ensures BucketInvariant(live + [now], times + [now], limit, now)
  {
    var after := times + [now];
    forall i | 0 <= i < |after| - limit ensures after[i + limit] - after[i] > WINDOW_SECONDS {
      if i + limit < |times| { assert times[i + limit] - times[i] > WINDOW_SECONDS; }
    }
  }

  /** Handling one request of the key, at a time not before any earlier one, keeps the invariant. */
  lemma HandleKeepsInvariant(buckets: Buckets, times: seq<real>, q: Request, keys: set<string>, limit: int)
    requires limit >= 1 && BucketInvariant(Bucket(buckets, q.key), times, limit, q.now)
    ensures var (after, out) := Handle(buckets, q, keys, limit);
            BucketInvariant(Bucket(after, q.key), if !q.options && out.Ok? then times + [q.now] else times, limit,
                            q.now)
  {
    if !q.options && q.key in keys {
      var live := Evict(Bucket(buckets, q.key), q.now);
      EvictKeepsInvariant(Bucket(buckets, q.key), times, limit, q.now);
      if |live| < limit {
        AdmitKeepsInvariant(live, times, limit, q.now);
      }
    }
  }

  lemma {:induction false} RunInvariant(run: seq<Request>, keys: set<string>, limit: int, key: string, t: real)
    requires limit >= 1 && ClockNondecreasing(run)
    requires forall i | 0 <= i < |run| :: run[i].now <= t
    ensures BucketInvariant(Bucket(After(run, keys, limit), key), Admitted(run, keys, limit, key), limit, t)
  {
    if run != [] {
      var q, before := run[|run| - 1], run[..|run| - 1];
      RunInvariant(before, keys, limit, key, q.now);
      if q.key == key {
        HandleKeepsInvariant(After(before, keys, limit), Admitted(before, keys, limit, key), q, keys, limit);
      }
      assert BucketInvariant(Bucket(After(run, keys, limit), key), Admitted(run, keys, limit, key), limit, q.now);
      InvariantLater(Bucket(After(run, keys, limit), key), Admitted(run, keys, limit, key), limit, q.now, t);
    }
  }

  // ---------------------------------------------------------------- counting

  lemma {:induction false} CountSplits(times: seq<real>, k: nat, lo: real, hi: real)
    requires k <= |times|
    ensures CountWithin(times, lo, hi) == CountWithin(times[..k], lo, hi) + CountWithin(times[k..], lo, hi)
  {
    if k == |times| {
      assert times[..k] == times;
    } else {
      var n := |times| - 1;
      CountSplits(times[..n], k, lo, hi);
      assert times[..n][..k] == times[..k] && times[..n][k..] == times[k..][..n - k];
    }
  }

  lemma {:induction false} CountExtremes(times: seq<real>, lo: real, hi: real)
    ensures CountWithin(times, lo, hi) <= |times|
    ensures (forall x | x in times :: x < lo || x > hi) ==> CountWithin(times, lo, hi) == 0
    ensures (forall x | x in times :: lo <= x <= hi) ==> CountWithin(times, lo, hi) == |times|
  {
    if times != [] {
      var n := |times| - 1;
      assert times[n] in times && forall x | x in times[..n] :: x in times;
      CountExtremes(times[..n], lo, hi);
    }
  }

  lemma {:induction false} SpreadBoundsCount(times: seq<real>, limit: int, lo: real)
    requires limit >= 1 && Sorted(times) && Spread(times, limit)
    ensures CountWithin(times, lo, lo + WINDOW_SECONDS) <= limit
  {
    var hi := lo + WINDOW_SECONDS;
    var n := |times|;
    if n <= limit {
      CountExtremes(times, lo, hi);
    } else if times[n - 1] > hi {
      SpreadBoundsCount(times[..n - 1], limit, lo);
    } else {
      var k := n - limit;
      CountSplits(times, k, lo, hi);
      assert times[k - 1 + limit] - times[k - 1] > WINDOW_SECONDS;
      forall x | x in times[..k] ensures x < lo {
        var i :| 0 <= i < k && times[i] == x;
        assert times[i] <= times[k - 1] || i == k - 1;
      }
      CountExtremes(times[..k], lo, hi);
      CountExtremes(times[k..], lo, hi);
    }
  }

  // ---------------------------------------------------------------- main results

  /** In every run, every closed 60-second interval holds at most `limit` admissions of each key. */
  lemma WindowLimit(run: seq<Request>, keys: set<string>, limit: int, key: string, lo: real)
    requires limit >= 1 && ClockNondecreasing(run)
    ensures CountWithin(Admitted(run, keys, limit, key), lo, lo + 60.0) <= limit
  {
    if run == [] {
    } else {
      RunInvariant(run, keys, limit, key, run[|run| - 1].now);
      SpreadBoundsCount(Admitted(run, keys, limit, key), limit, lo);
    }
  }

  /** After eviction, the bucket's length is the number of the run's admissions in the last window. */
  lemma LiveIsWindowCount(run: seq<Request>, keys: set<string>, limit: int, key: string, now: real)
    requires limit >= 1 && ClockNondecreasing(run)
    requires forall i | 0 <= i < |run| :: run[i].now <= now
    ensures |Evict(Bucket(After(run, keys, limit), key), now)|
         == CountWithin(Admitted(run, keys, limit, key), now - WINDOW_SECONDS, now) <= limit
  {
    var bucket, times := Bucket(After(run, keys, limit), key), Admitted(run, keys, limit, key);
    RunInvariant(run, keys, limit, key, now);
    EvictKeepsInvariant(bucket, times, limit, now);
    LiveCount(Evict(bucket, now), times, limit, now);
  }

  /** A request with a valid key is refused exactly when `limit` admissions lie in the 60 seconds up to it. */
  lemma RejectedIffWindowFull(before: seq<Request>, q: Request, keys: set<string>, limit: int)
    requires limit >= 1 && ClockNondecreasing(before) && !q.options && q.key in keys
    requires forall i | 0 <= i < |before| :: before[i].now <= q.now
    ensures LastOutcome(before + [q], keys, limit)
         == if CountWithin(Admitted(before, keys, limit, q.key), q.now - 60.0, q.now) == limit
            then Err(LimitExceeded) else Ok(q.key)
  {
    LiveIsWindowCount(before, keys, limit, q.key, q.now);
    OutcomeByLength(After(before, keys, limit), q, keys, limit);
    assert (before + [q])[..|before|] == before;
  }

  lemma OutcomeByLength(buckets: Buckets, q: Request, keys: set<string>, limit: int)
    requires !q.options && q.key in keys
    ensures Handle(buckets, q, keys, limit).1
         == if |Evict(Bucket(buckets, q.key), q.now)| >= limit then Err(LimitExceeded) else Ok(q.key)
  {
  }

  /** With nothing older left in it, the bucket's length is the number of admissions in the last window. */
  lemma LiveCount(live: seq<real>, times: seq<real>, limit: int, now: real)
    requires limit >= 1 && BucketInvariant(live, times, limit, now)
    requires forall x | x in live :: now - WINDOW_SECONDS <= x <= now
    ensures |live| == CountWithin(times, now - WINDOW_SECONDS, now) <= limit
  {
    var k, lo := |times| - |live|, now - WINDOW_SECONDS;
    OldOnes(times, k, now);
    CountSplits(times, k, lo, now);
    CountExtremes(times[..k], lo, now);
    CountExtremes(live, lo, now);
    SpreadBoundsCount(times, limit, lo);
  }

  lemma OldOnes(times: seq<real>, k: nat, now: real)
    requires k <= |times| && forall i | 0 <= i < k :: now - times[i] > WINDOW_SECONDS
    ensures forall x | x in times[..k] :: x < now - WINDOW_SECONDS
  {
  }

  /** The requests of one key, in order. */
  function Only(run: seq<Request>, key: string): seq<Request> {
    if run == [] then []
    else
      var q := run[|run| - 1];
      Only(run[..|run| - 1], key) + if q.key == key then [q] else []
  }

  /** One more request on a run. */
  lemma RunStep(run: seq<Request>, q: Request, keys: set<string>, limit: int, key: string)
    ensures var buckets, times := After(run, keys, limit), Admitted(run, keys, limit, key);
            var (next, outcome) := Handle(buckets, q, keys, limit);
            && After(run + [q], keys, limit) == next && LastOutcome(run + [q], keys, limit) == outcome
            && Admitted(run + [q], keys, limit, key)
               == (if !q.options && q.key == key && outcome.Ok? then times + [q.now] else times)
            && Only(run + [q], key) == Only(run, key) + (if q.key == key then [q] else [])
  {
    assert (run + [q])[..|run|] == run;
  }

  /** A request is answered from its own key's bucket and changes no other. */
  lemma HandleIsLocal(b: Buckets, c: Buckets, q: Request, keys: set<string>, limit: int, key: string)
    ensures key != q.key ==> Bucket(Handle(b, q, keys, limit).0, key) == Bucket(b, key)
    ensures Bucket(b, q.key) == Bucket(c, q.key) ==>
              && Handle(b, q, keys, limit).1 == Handle(c, q, keys, limit).1
              && Bucket(Handle(b, q, keys, limit).0, q.key) == Bucket(Handle(c, q, keys, limit).0, q.key)
  {
  }

  /** Keys do not affect each other: dropping every other key's requests changes nothing for this one. */
  lemma {:induction false} KeysAreIndependent(run: seq<Request>, keys: set<string>, limit: int, key: string)
    ensures Bucket(After(run, keys, limit), key) == Bucket(After(Only(run, key), keys, limit), key)
    ensures Admitted(run, keys, limit, key) == Admitted(Only(run, key), keys, limit, key)
    ensures run != [] && run[|run| - 1].key == key
            ==> LastOutcome(run, keys, limit) == LastOutcome(Only(run, key), keys, limit)
    decreases |run|
  {
    if run != [] {
      var before, q := run[..|run| - 1], run[|run| - 1];
      assert run == before + [q];
      KeysAreIndependent(before, keys, limit, key);
      RunStep(before, q, keys, limit, key);
      HandleIsLocal(After(before, keys, limit), After(Only(before, key), keys, limit), q, keys, limit, key);
      if q.key == key {
        RunStep(Only(before, key), q, keys, limit, key);
      } else {
        assert Only(run, key) == Only(before, key);
      }
    }
  }

  /** Counting admissions one by one: those no earlier than lo and no later than hi. */
  lemma OneMoreCounted(times: seq<real>, now: real, lo: real, hi: real)
    ensures CountWithin([], lo, hi) == 0
    ensures CountWithin(times + [now], lo, hi) == CountWithin(times, lo, hi) + (if lo <= now && now <= hi then 1 else 0)
  {
    assert (times + [now])[..|times|] == times;
  }

  /** What is answered before the limit is looked at, in this order, and the buckets it leaves alone. */
  lemma AnswersTold(before: seq<Request>, q: Request, keys: set<string>, limit: int)
    ensures var out := LastOutcome(before + [q], keys, limit);
            && (q.options ==> out == Ok(""))
            && (!q.options && keys == {} ==> out == Err(NotConfigured))
            && (!q.options && keys != {} && q.key !in keys ==> out == Err(InvalidKey))
            && (q.options || q.key !in keys ==> After(before + [q], keys, limit) == After(before, keys, limit))
  {
    assert (before + [q])[..|before|] == before;
  }

  /** The limit in force: at least 1, 30 when the setting cannot be read. */
  lemma LimitTold(setting: Option<int>)
    ensures RateLimit(None) == 30
    ensures setting.Some? ==> RateLimit(setting) >= setting.value && RateLimit(setting) >= 1
    ensures setting.Some? ==> RateLimit(setting) == setting.value || (RateLimit(setting) == 1 && setting.value < 1)
  {
  }
}
