/**
 * The feature history: a capped table of observations, the window a replay reads from it, and what is computed from it.
 */
module FeatureHistory {
  import opened Common
  import opened Rounding

  const CAP: nat := 2000
  const TREND_WINDOW: nat := 4

  datatype Row = Row(id: nat, at: real, rain: real, water: real)

  /** The observation being scored: its own rainfall, the three-hour proxy, water level and humidity. */
  datatype Current = Current(at: real, rain: real, rain3hProxy: real, water: real, humidity: real)

  // ---------------------------------------------------------------- the table, in (observed_at, id) order

  predicate Older(r: Row, s: Row) {
    r.at < s.at || (r.at == s.at && r.id < s.id)
  }

  ghost predicate Ordered(t: seq<Row>) {
    forall i, j | 0 <= i < j < |t| :: Older(t[i], t[j])
  }

  function Newest<T>(t: seq<T>, k: nat): (r: seq<T>)
    ensures |r| == if |t| <= k then |t| else k
    ensures r == t[|t| - |r|..]
  {
    if |t| <= k then t else t[|t| - k..]
  }

  function Inserted(t: seq<Row>, r: Row): seq<Row> {
    if t == [] || t[|t| - 1].at <= r.at then t + [r] else Inserted(t[..|t| - 1], r) + [t[|t| - 1]]
  }

  /** The rows stamped no later than the cutoff, in order. */
  function UpTo(t: seq<Row>, cutoff: real): seq<Row> {
    if t == [] then []
    else
      var rest, last := UpTo(t[..|t| - 1], cutoff), t[|t| - 1];
      if last.at <= cutoff then rest + [last] else rest
  }

  /** The history a call sees: the newest CAP rows, those after the cutoff removed. */
  function Visible(t: seq<Row>, cutoff: Option<real>): seq<Row> {
    if cutoff.None? then Newest(t, CAP) else UpTo(Newest(t, CAP), cutoff.value)
  }

  function NewerThan(t: seq<Row>, cutoff: real): int {
    |t| - |UpTo(t, cutoff)|
  }

  function Appended(t: seq<Row>, r: Row): seq<Row> {
    Newest(Inserted(t, r), CAP)
  }

  // ---------------------------------------------------------------- what is computed from the history

  datatype Lags = Lags(rainLag1: real, rainLag2: real, rainMean: real, waterLag: real, waterDelta: real)

  function Mean2(a: real, b: real): real { (a + b) / 2.0 }
  function Mean3(a: real, b: real, c: real): real { (a + b + c) / 3.0 }

  function LagsOf(h: seq<Row>, c: Current): Lags {
    var n := |h|;
    var lag1 := if n >= 1 then h[n - 1].rain else c.rain3hProxy;
    var waterLag := if n >= 1 then h[n - 1].water else c.water;
    Lags(lag1, if n >= 2 then h[n - 2].rain else lag1,
         if n >= 2 then Mean3(h[n - 2].rain, h[n - 1].rain, c.rain) else if n == 1 then Mean2(h[0].rain, c.rain)
         else c.rain,
         waterLag, c.water - waterLag)
  }

  datatype Direction = Insufficient | Up | Flat | Down

  datatype Anomaly = NoAnomaly | Spike | SlowAccumulation

  datatype TrendState = TrendState(recent: seq<real>, risk: Direction, water: Direction, rain: Direction, points: nat,
                                   strength: real, confidence: real, anomaly: Anomaly)

  function Score(rain: real, water: real): real {
    Round(Unit(rain / 40.0) * 0.55 + Unit(water / 0.85) * 0.45, SCALE_4)
  }

  function Scores(rows: seq<Row>): (s: seq<real>)
    ensures |s| == |rows|
  {
    if rows == [] then [] else Scores(rows[..|rows| - 1]) + [Score(rows[|rows| - 1].rain, rows[|rows| - 1].water)]
  }

  function Deltas(s: seq<real>): (d: seq<real>)
    ensures |d| == if s == [] then 0 else |s| - 1
    ensures forall i | 0 <= i < |d| :: d[i] == s[i + 1] - s[i]
  {
    if |s| <= 1 then [] else Deltas(s[..|s| - 1]) + [s[|s| - 1] - s[|s| - 2]]
  }

  function Rises(d: seq<real>): (n: nat)
    ensures n <= |d|
  {
    if d == [] then 0 else Rises(d[..|d| - 1]) + (if d[|d| - 1] > 0.0 then 1 else 0)
  }

  function Falls(d: seq<real>): (n: nat)
    ensures n <= |d|
  {
    if d == [] then 0 else Falls(d[..|d| - 1]) + (if d[|d| - 1] < 0.0 then 1 else 0)
  }

  function DirectionOf(change: real, threshold: real): Direction {
    if change > threshold then Up else if change < -threshold then Down else Flat
  }

  function MajorityShare(d: seq<real>): real {
    var majority := if Rises(d) >= Falls(d) then Rises(d) else Falls(d);
    Round(majority as real / (if |d| == 0 then 1 else |d|) as real, SCALE_4)
  }

  function Strength(change: real): real {
    Round(Min(Abs(change) / 0.40, 1.0), SCALE_4)
  }

  /** Some step is 0.20 or more, either way. */
  predicate HasSpike(deltas: seq<real>) {
    deltas != [] && (HasSpike(deltas[..|deltas| - 1]) || Abs(deltas[|deltas| - 1]) >= 0.20)
  }

  /** Each score is above the one before. */
  predicate StrictlyRising(s: seq<real>) {
    |s| <= 1 || (StrictlyRising(s[..|s| - 1]) && s[|s| - 2] < s[|s| - 1])
  }

  function AnomalyOf(deltas: seq<real>, recent: seq<real>): Anomaly {
    if HasSpike(deltas) then Spike
    else if |recent| >= 3 && StrictlyRising(recent) then SlowAccumulation
    else NoAnomaly
  }

  /** The trend over a window of rows and the current observation, no count filled in. */
  function TrendOver(window: seq<Row>, c: Current): TrendState
    requires window != []
  {
    var scores := Scores(window) + [Score(c.rain, c.water)];
    var change := scores[|scores| - 1] - scores[0];
    var deltas := Deltas(scores);
    var recent := Newest(scores, 3);
    TrendState(recent, DirectionOf(change, 0.08), DirectionOf(c.water - window[0].water, 0.04),
               DirectionOf(c.rain - window[0].rain, 4.0),
               0, Strength(change), MajorityShare(deltas), AnomalyOf(deltas, recent))
  }

  /** The trend over the last four rows of the history. */
  function TrendOf(h: seq<Row>, c: Current): TrendState {
    if h == [] then TrendState([], Insufficient, Insufficient, Insufficient, 0, 0.0, 0.0, NoAnomaly)
    else TrendOver(Newest(h, TREND_WINDOW), c).(points := |h|)
  }

  datatype Features = Features(lags: Lags, index: real, trend: TrendState, rainChange: real, rain6h: real,
                               rowsUsed: nat, ready: bool)

  function HydroIndex(mean: real, c: Current): real {
    mean * (c.humidity / 100.0) * (1.0 + c.water)
  }

  function FeaturesFrom(l: Lags, trend: TrendState, c: Current, rows: nat): Features {
    Features(l, HydroIndex(l.rainMean, c), trend, Round(c.rain - l.rainLag1, SCALE_4),
             Round(c.rain + l.rainLag1 + l.rainLag2, SCALE_4), rows, rows >= 2)
  }

  function FeaturesOf(h: seq<Row>, c: Current): Features {
    FeaturesFrom(LagsOf(h, c), TrendOf(h, c), c, |h|)
  }

  /** Features up to their two row counts. */
  function WithoutCounts(f: Features): Features {
    f.(rowsUsed := 0, trend := f.trend.(points := 0))
  }

  // ---------------------------------------------------------------- the table's operations

  class History {
    var rows: seq<Row>
    var nextId: nat

    ghost predicate Valid()
      reads this
    {
      Ordered(rows) && (forall i | 0 <= i < |rows| :: rows[i].id < nextId)
    }

    constructor ()
      ensures Valid() && rows == []
    {
      rows, nextId := [], 0;
    }

    /** The newest rows, up to the cutoff; nothing when the read fails. */
    method Load(fails: bool, cutoff: Option<real>) returns (h: seq<Row>)
      ensures h == if fails then [] else Visible(rows, cutoff)
    {
      if fails {
        return [];
      }
      h := Newest(rows, CAP);
      if cutoff.Some? {
        h := UpTo(h, cutoff.value);
      }
    }

    /** Inserts one row and prunes the table to the newest CAP; a failure leaves it as it was. */
    method Append(c: Current, fails: bool)
      requires Valid()
      modifies this
      ensures Valid()
      ensures rows == if fails then old(rows) else Appended(old(rows), Row(old(nextId), c.at, c.rain, c.water))
    {
      if !fails {
        var r := Row(nextId, c.at, c.rain, c.water);
        InsertedOrdered(rows, r, nextId + 1);
        NewestOrdered(Inserted(rows, r), CAP);
        rows := Inserted(rows, r);
        nextId := nextId + 1;
        rows := Newest(rows, CAP);
      }
    }

    /** The lag columns of an observation, from the last rows of its history. */
    method AddTemporalColumns(c: Current, h: seq<Row>) returns (lags: Lags)
      ensures lags == LagsOf(h, c)
    {
      var n := |h|;
      var lag1, waterLag := c.rain3hProxy, c.water;
      if n >= 1 {
        lag1, waterLag := h[n - 1].rain, h[n - 1].water;
      }
      var lag2 := lag1;
      if n >= 2 {
        lag2 := h[n - 2].rain;
      }
      var mean := c.rain;
      if n >= 2 {
        mean := Mean3(h[n - 2].rain, h[n - 1].rain, c.rain);
      } else if n == 1 {
        mean := Mean2(h[0].rain, c.rain);
      }
      lags := Lags(lag1, lag2, mean, waterLag, c.water - waterLag);
    }

    method ComputeFeatures(c: Current, h: seq<Row>) returns (f: Features)
      ensures f == FeaturesOf(h, c)
    {
      var lags := AddTemporalColumns(c, h);
      f := FeaturesFrom(lags, TrendOf(h, c), c, |h|);
    }

    /** Scores one observation against the visible history and, unless replaying, records it afterwards. */
    method BuildFeatures(c: Current, persist: bool, cutoff: Option<real>, loadFails: bool, appendFails: bool)
      returns (f: Features)
      requires Valid()
      modifies this
      ensures Valid()
      ensures f == FeaturesOf(if loadFails then [] else Visible(old(rows), cutoff), c)
      ensures !persist ==> rows == old(rows) && nextId == old(nextId)
      ensures persist
         ==> rows == if appendFails then old(rows) else Appended(old(rows), Row(old(nextId), c.at, c.rain, c.water))
    {
      var h := Load(loadFails, cutoff);
      f := ComputeFeatures(c, h);
      if persist {
        Append(c, appendFails);
      }
    }
  }

  // ---------------------------------------------------------------- order and cutoffs

  lemma {:induction false} InsertedMembers(t: seq<Row>, r: Row)
    ensures |Inserted(t, r)| == |t| + 1
    ensures forall i | 0 <= i < |t| + 1 :: Inserted(t, r)[i] == r || Inserted(t, r)[i] in t
  {
    if t != [] && t[|t| - 1].at > r.at { InsertedMembers(t[..|t| - 1], r); }
  }

  lemma {:induction false} InsertedOrdered(t: seq<Row>, r: Row, bound: nat)
    requires Ordered(t) && (forall i | 0 <= i < |t| :: t[i].id < r.id) && r.id < bound
    ensures Ordered(Inserted(t, r))
    ensures forall i | 0 <= i < |Inserted(t, r)| :: Inserted(t, r)[i].id < bound
  {
    InsertedMembers(t, r);
    if t != [] && t[|t| - 1].at > r.at {
      InsertedOrdered(t[..|t| - 1], r, bound);
      InsertedMembers(t[..|t| - 1], r);
    }
  }

  lemma {:induction false} UpToUnique(t: seq<Row>, cutoff: real, p: nat)
    requires p <= |t|
    requires (forall i | 0 <= i < p :: t[i].at <= cutoff) && (forall i | p <= i < |t| :: t[i].at > cutoff)
    ensures UpTo(t, cutoff) == t[..p]
  {
    if t != [] {
      var n := |t| - 1;
      if p <= n {
        UpToUnique(t[..n], cutoff, p);
        assert t[..n][..p] == t[..p];
      } else {
        UpToUnique(t[..n], cutoff, n);
        assert t[..p] == t[..n][..n] + [t[n]];
      }
    }
  }

  /** In an ordered table the rows up to a cutoff are a prefix. */
  lemma {:induction false} UpToIsPrefix(t: seq<Row>, cutoff: real)
    requires Ordered(t)
    ensures |UpTo(t, cutoff)| <= |t| && UpTo(t, cutoff) == t[..|UpTo(t, cutoff)|]
    ensures forall i | |UpTo(t, cutoff)| <= i < |t| :: t[i].at > cutoff
    ensures forall i | 0 <= i < |UpTo(t, cutoff)| :: t[i].at <= cutoff
  {
    if t != [] {
      var n := |t| - 1;
      if t[n].at <= cutoff {
        forall i | 0 <= i < |t| ensures t[i].at <= cutoff {
          if i < n { assert Older(t[i], t[n]); }
        }
        UpToUnique(t, cutoff, |t|);
      } else {
        UpToIsPrefix(t[..n], cutoff);
        var p := |UpTo(t[..n], cutoff)|;
        assert t[..n][..p] == t[..p];
        forall i | p <= i < |t| ensures t[i].at > cutoff {
          if i < n { assert t[..n][i].at > cutoff; }
        }
      }
    }
  }

  lemma NewestOrdered(t: seq<Row>, k: nat)
    requires Ordered(t)
    ensures Ordered(Newest(t, k))
  {
    var s := Newest(t, k);
    var cut := |t| - |s|;
    forall i, j | 0 <= i < j < |s| ensures Older(s[i], s[j]) {
      assert s[i] == t[cut + i] && s[j] == t[cut + j];
    }
  }

  /** Cutting rows off the front of a table cuts them off its past. */
  lemma CutPast(t: seq<Row>, cutoff: real, p: nat, cut: nat)
    requires p <= |t| && cut <= |t|
    requires (forall i | 0 <= i < p :: t[i].at <= cutoff) && (forall i | p <= i < |t| :: t[i].at > cutoff)
    ensures UpTo(t[cut..], cutoff) == if cut <= p then t[cut..p] else []
  {
    var q := if cut <= p then p - cut else 0;
    forall i | 0 <= i < |t| - cut ensures t[cut..][i] == t[cut + i] { }
    UpToUnique(t[cut..], cutoff, q);
    if cut <= p { assert t[cut..][..q] == t[cut..p]; }
  }

  /** Pruning to the newest rows takes the oldest of the past, and leaves min(past, cap - newer) of it. */
  lemma PruneKeepsRecentPast(t: seq<Row>, cutoff: real, k: nat)
    requires Ordered(t)
    ensures var newer := NewerThan(t, cutoff);
            newer >= 0 && UpTo(Newest(t, k), cutoff) == Newest(UpTo(t, cutoff), if newer <= k then k - newer else 0)
  {
    UpToIsPrefix(t, cutoff);
    var p := |UpTo(t, cutoff)|;
    var cut := |t| - |Newest(t, k)|;
    CutPast(t, cutoff, p, cut);
    if cut <= p { assert t[cut..p] == t[..p][cut..]; }
  }

  /** A row stamped after the cutoff leaves the past alone. */
  lemma {:induction false} LaterRowKeepsPast(t: seq<Row>, r: Row, cutoff: real)
    requires r.at > cutoff
    ensures UpTo(Inserted(t, r), cutoff) == UpTo(t, cutoff) && |Inserted(t, r)| == |t| + 1
  {
    if t == [] || t[|t| - 1].at <= r.at {
      assert (t + [r])[..|t|] == t;
    } else {
      LaterRowKeepsPast(t[..|t| - 1], r, cutoff);
      var u := Inserted(t[..|t| - 1], r) + [t[|t| - 1]];
      assert u[..|u| - 1] == Inserted(t[..|t| - 1], r);
    }
  }

  // ---------------------------------------------------------------- replays

  /** Exactly min(past, CAP - newer) rows of the past are visible, the most recent ones. */
  lemma VisibleIsRecentPast(t: seq<Row>, cutoff: real)
    requires Ordered(t)
    ensures var newer := NewerThan(t, cutoff);
            newer >= 0 && Visible(t, Some(cutoff)) == Newest(UpTo(t, cutoff), if newer <= CAP then CAP - newer else 0)
  {
    PruneKeepsRecentPast(t, cutoff, CAP);
  }

  /** Rows appended one after another, each insert pruned. */
  function AppendedAll(t: seq<Row>, rows: seq<Row>): seq<Row>
    decreases |rows|
  {
    if rows == [] then t else AppendedAll(Appended(t, rows[0]), rows[1..])
  }

  /** The rows come with fresh, growing ids. */
  ghost predicate FreshIds(t: seq<Row>, rows: seq<Row>) {
    && (forall i, j | 0 <= i < |t| && 0 <= j < |rows| :: t[i].id < rows[j].id)
    && (forall i, j | 0 <= i < j < |rows| :: rows[i].id < rows[j].id)
  }

  ghost predicate AllLater(rows: seq<Row>, cutoff: real) {
    forall j | 0 <= j < |rows| :: rows[j].at > cutoff
  }

  /** At most CAP - m rows are newer than the cutoff. */
  ghost predicate Roomy(t: seq<Row>, cutoff: real, m: nat) {
    NewerThan(t, cutoff) <= CAP - m
  }

  ghost function RecentPast(t: seq<Row>, cutoff: real, m: nat): seq<Row> {
    Newest(UpTo(t, cutoff), m)
  }

  /** The last m rows of the past, whatever later rows push into the table, while at most CAP - m rows are newer. */
  lemma {:induction false} LaterRowsKeepRecentPast(t: seq<Row>, rows: seq<Row>, cutoff: real, m: nat)
    requires Ordered(t) && FreshIds(t, rows) && 1 <= m <= CAP
    requires AllLater(rows, cutoff)
    requires Roomy(AppendedAll(t, rows), cutoff, m)
    ensures Ordered(AppendedAll(t, rows))
    ensures Roomy(t, cutoff, m)
    ensures RecentPast(AppendedAll(t, rows), cutoff, m) == RecentPast(t, cutoff, m)
    decreases |rows|
  {
    if rows != [] {
      AppendKeepsRecentPast(t, rows[0], cutoff, m);
      var t1 := Appended(t, rows[0]);
      FreshAfterAppend(t, rows);
      assert AllLater(rows[1..], cutoff);
      LaterRowsKeepRecentPast(t1, rows[1..], cutoff, m);
    }
  }

  lemma FreshAfterAppend(t: seq<Row>, rows: seq<Row>)
    requires FreshIds(t, rows) && rows != []
    ensures FreshIds(Appended(t, rows[0]), rows[1..])
  {
    InsertedMembers(t, rows[0]);
    var u, s := Inserted(t, rows[0]), Appended(t, rows[0]);
    forall i, j | 0 <= i < |s| && 0 <= j < |rows| - 1 ensures s[i].id < rows[1..][j].id {
      assert s[i] == u[|u| - |s| + i];
      assert rows[1..][j] == rows[j + 1];
    }
  }

  lemma AppendKeepsRecentPast(t: seq<Row>, r: Row, cutoff: real, m: nat)
    requires Ordered(t) && (forall i | 0 <= i < |t| :: t[i].id < r.id) && r.at > cutoff && 1 <= m <= CAP
    ensures Ordered(Appended(t, r))
    ensures Roomy(Appended(t, r), cutoff, m) ==>
              && Roomy(t, cutoff, m)
              && RecentPast(Appended(t, r), cutoff, m) == RecentPast(t, cutoff, m)
  {
    InsertedOrdered(t, r, r.id + 1);
    LaterRowKeepsPast(t, r, cutoff);
    UpToIsPrefix(t, cutoff);
    PruneKeepsRecentPast(Inserted(t, r), cutoff, CAP);
    NewestOrdered(Inserted(t, r), CAP);
    var left := CAP - NewerThan(Inserted(t, r), cutoff);
    if left >= m { NewestOfNewest(UpTo(t, cutoff), left, m); }
  }

  /** Features depend on the last four rows of the history only, but for the counts. */
  lemma FeaturesNeedLastFour(h: seq<Row>, g: seq<Row>, c: Current)
    requires Newest(h, TREND_WINDOW) == Newest(g, TREND_WINDOW)
    ensures WithoutCounts(FeaturesOf(h, c)) == WithoutCounts(FeaturesOf(g, c))
  {
    NewestOfNewest(h, TREND_WINDOW, 2);
    NewestOfNewest(g, TREND_WINDOW, 2);
    LagsNeedLastTwo(h, g, c);
    TrendNeedsLastFour(h, g, c);
  }

  lemma TrendNeedsLastFour(h: seq<Row>, g: seq<Row>, c: Current)
    requires Newest(h, TREND_WINDOW) == Newest(g, TREND_WINDOW)
    ensures TrendOf(h, c).(points := 0) == TrendOf(g, c).(points := 0)
  {
    assert h == [] <==> g == [];
    if h != [] { SameButPoints(TrendOver(Newest(h, TREND_WINDOW), c), |h|, |g|); }
  }

  lemma SameButPoints(t: TrendState, m: nat, n: nat)
    ensures t.(points := m).(points := 0) == t.(points := n).(points := 0)
  {
  }

  lemma LagsNeedLastTwo(h: seq<Row>, g: seq<Row>, c: Current)
    requires Newest(h, 2) == Newest(g, 2)
    ensures LagsOf(h, c) == LagsOf(g, c)
    ensures (|h| >= 2 <==> |g| >= 2) && (h == [] <==> g == [])
  {
    var s := Newest(h, 2);
    if |s| == 2 {
      assert h[|h| - 1] == s[1] && h[|h| - 2] == s[0] && g[|g| - 1] == s[1] && g[|g| - 2] == s[0];
    } else {
      assert h == s && g == s;
    }
  }

  lemma NewestOfNewest<T>(t: seq<T>, k: nat, m: nat)
    requires m <= k
    ensures Newest(Newest(t, k), m) == Newest(t, m)
  {
  }

  /**
   * A replay pinned to a cutoff computes the same features, but for the row counts, after any number of appends
   * stamped later than the cutoff, as long as at most 1996 rows of the table are newer than it.
   */
  lemma ReplayIsStable(t: seq<Row>, rows: seq<Row>, cutoff: real, c: Current)
    requires Ordered(t) && FreshIds(t, rows)
    requires AllLater(rows, cutoff)
    requires Roomy(AppendedAll(t, rows), cutoff, TREND_WINDOW)
    ensures WithoutCounts(FeaturesOf(Visible(AppendedAll(t, rows), Some(cutoff)), c))
         == WithoutCounts(FeaturesOf(Visible(t, Some(cutoff)), c))
  {
    VisibleTail(t, rows, cutoff, TREND_WINDOW);
    FeaturesNeedLastFour(Visible(AppendedAll(t, rows), Some(cutoff)), Visible(t, Some(cutoff)), c);
  }

  /** The lags and the rolling mean alone stay fixed up to 1998 newer rows. */
  lemma ReplayLagsAreStable(t: seq<Row>, rows: seq<Row>, cutoff: real, c: Current)
    requires Ordered(t) && FreshIds(t, rows)
    requires AllLater(rows, cutoff)
    requires Roomy(AppendedAll(t, rows), cutoff, 2)
    ensures LagsOf(Visible(AppendedAll(t, rows), Some(cutoff)), c) == LagsOf(Visible(t, Some(cutoff)), c)
  {
    VisibleTail(t, rows, cutoff, 2);
    LagsNeedLastTwo(Visible(AppendedAll(t, rows), Some(cutoff)), Visible(t, Some(cutoff)), c);
  }

  lemma VisibleTail(t: seq<Row>, rows: seq<Row>, cutoff: real, m: nat)
    requires Ordered(t) && FreshIds(t, rows) && 1 <= m <= CAP
    requires AllLater(rows, cutoff)
    requires Roomy(AppendedAll(t, rows), cutoff, m)
    ensures Newest(Visible(AppendedAll(t, rows), Some(cutoff)), m) == Newest(Visible(t, Some(cutoff)), m)
  {
    var u := AppendedAll(t, rows);
    LaterRowsKeepRecentPast(t, rows, cutoff, m);
    VisibleIsRecentPast(t, cutoff);
    VisibleIsRecentPast(u, cutoff);
    NewestOfNewest(UpTo(t, cutoff), CAP - NewerThan(t, cutoff), m);
    NewestOfNewest(UpTo(u, cutoff), CAP - NewerThan(u, cutoff), m);
  }

  // ---------------------------------------------------------------- the ranges the decision layers rely on

  lemma ScoreInRange(rain: real, water: real)
    ensures 0.0 <= Score(rain, water) <= 1.0
  {
    RoundedUnit(Unit(rain / 40.0) * 0.55 + Unit(water / 0.85) * 0.45);
  }

  lemma {:induction false} ScoresInRange(rows: seq<Row>)
    ensures forall i | 0 <= i < |rows| :: 0.0 <= Scores(rows)[i] <= 1.0
  {
    if rows != [] {
      ScoresInRange(rows[..|rows| - 1]);
      ScoreInRange(rows[|rows| - 1].rain, rows[|rows| - 1].water);
    }
  }

  lemma ShareInRange(d: seq<real>)
    ensures 0.0 <= MajorityShare(d) <= 1.0
  {
    var majority := if Rises(d) >= Falls(d) then Rises(d) else Falls(d);
    var n := if |d| == 0 then 1 else |d|;
    RatioInRange(majority, n);
    RoundedUnit(majority as real / n as real);
  }

  lemma RatioInRange(m: nat, n: nat)
    requires m <= n && n > 0
    ensures 0.0 <= m as real / n as real <= 1.0
  {
  }

  /** Whatever is in the history, the trend hands on at most three scores, and every number in it is within [0, 1]. */
  lemma TrendInRange(h: seq<Row>, c: Current)
    ensures var t := TrendOf(h, c);
            && |t.recent| <= 3 && (forall i | 0 <= i < |t.recent| :: 0.0 <= t.recent[i] <= 1.0)
            && 0.0 <= t.strength <= 1.0 && 0.0 <= t.confidence <= 1.0
  {
    if h != [] { TrendOverInRange(Newest(h, TREND_WINDOW), c); }
  }

  lemma StrengthInRange(change: real)
    ensures 0.0 <= Strength(change) <= 1.0
  {
    RoundedUnit(Min(Abs(change) / 0.40, 1.0));
  }

  lemma TrendOverInRange(window: seq<Row>, c: Current)
    requires window != []
    ensures var t := TrendOver(window, c);
            && |t.recent| <= 3 && (forall i | 0 <= i < |t.recent| :: 0.0 <= t.recent[i] <= 1.0)
            && 0.0 <= t.strength <= 1.0 && 0.0 <= t.confidence <= 1.0
  {
    var scores := Scores(window) + [Score(c.rain, c.water)];
    ScoresInRange(window);
    ScoreInRange(c.rain, c.water);
    assert forall i | 0 <= i < |scores| :: 0.0 <= scores[i] <= 1.0;
    ShareInRange(Deltas(scores));
    StrengthInRange(scores[|scores| - 1] - scores[0]);
  }

  // ---------------------------------------------------------------- what the table holds, told by its rows

  /** Inserting adds the row and nothing else. */
  lemma {:induction false} InsertedTold(t: seq<Row>, r: Row)
    ensures multiset(Inserted(t, r)) == multiset(t) + multiset{r}
  {
    if t != [] && t[|t| - 1].at > r.at {
      InsertedTold(t[..|t| - 1], r);
      assert t == t[..|t| - 1] + [t[|t| - 1]];
    }
  }

  /** The table is kept oldest first, the smaller id first among rows of one instant. */
  lemma OrderTold(t: seq<Row>, r: Row, i: nat, j: nat)
    requires Ordered(t) && (forall k | 0 <= k < |t| :: t[k].id < r.id) && i < j < |Inserted(t, r)|
    ensures var u := Inserted(t, r);
            u[i].at < u[j].at || (u[i].at == u[j].at && u[i].id < u[j].id)
  {
    InsertedOrdered(t, r, r.id + 1);
    assert Older(Inserted(t, r)[i], Inserted(t, r)[j]);
  }

  /** Each row is stamped no later than the next. */
  ghost predicate InTime(t: seq<Row>) {
    forall i | 0 <= i < |t| - 1 :: t[i].at <= t[i + 1].at
  }

  /** Rows that come in the order of their times are kept in that order, the newest 2000 of them. */
  lemma {:induction false} InOrderTold(t: seq<Row>, rows: seq<Row>)
    requires InTime(t + rows) && (|t| <= CAP || rows != [])
    ensures AppendedAll(t, rows) == Newest(t + rows, 2000)
    decreases |rows|
  {
    if rows == [] {
      assert t + rows == t;
    } else {
      var u := Newest(t + [rows[0]], CAP);
      FirstInOrder(t, rows);
      OneInOrder(t, u, rows);
      InOrderTold(u, rows[1..]);
    }
  }

  lemma FirstInOrder(t: seq<Row>, rows: seq<Row>)
    requires InTime(t + rows) && rows != []
    ensures AppendedAll(t, rows) == AppendedAll(Newest(t + [rows[0]], CAP), rows[1..])
  {
    if t != [] { assert (t + rows)[|t| - 1] == t[|t| - 1] && (t + rows)[|t|] == rows[0]; }
    CameLast(t, rows[0]);
  }

  lemma OneInOrder(t: seq<Row>, u: seq<Row>, rows: seq<Row>)
    requires InTime(t + rows) && rows != [] && u == Newest(t + [rows[0]], CAP)
    ensures InTime(u + rows[1..])
    ensures Newest(u + rows[1..], CAP) == Newest(t + rows, CAP)
  {
    var cut := |t| + 1 - |u|;
    CutFront(t, rows, cut);
    LaterInTime(t + rows, cut);
    NewestAfterCut(t + rows, cut, CAP);
  }

  lemma CutFront<T>(t: seq<T>, rows: seq<T>, cut: nat)
    requires rows != [] && cut <= |t| + 1
    ensures (t + [rows[0]])[cut..] + rows[1..] == (t + rows)[cut..]
  {
    assert (t + [rows[0]]) + rows[1..] == t + rows;
  }

  lemma NewestAfterCut<T>(t: seq<T>, cut: nat, k: nat)
    requires cut == 0 || cut + k <= |t|
    ensures Newest(t[cut..], k) == Newest(t, k)
  {
  }

  lemma LaterInTime(t: seq<Row>, cut: nat)
    requires InTime(t) && cut <= |t|
    ensures InTime(t[cut..])
  {
    forall i | 0 <= i < |t| - cut - 1 ensures t[cut..][i].at <= t[cut..][i + 1].at {
      assert t[cut + i].at <= t[cut + i + 1].at;
    }
  }

  /** A replay reads the rows stamped no later than its cutoff, of the newest 2000. */
  lemma {:induction false} UpToTold(t: seq<Row>, cutoff: real, r: Row)
    ensures multiset(UpTo(t, cutoff))[r] == if r.at <= cutoff then multiset(t)[r] else 0
  {
    if t != [] {
      UpToTold(t[..|t| - 1], cutoff, r);
      assert t == t[..|t| - 1] + [t[|t| - 1]];
    }
  }

  // ---------------------------------------------------------------- what the features hold, told by rows and numbers

  /** Lags, rolling mean and momentum of an observation over any history. */
  lemma LagsTold(h: seq<Row>, c: Current)
    ensures var f, n := FeaturesOf(h, c), |h|;
            && f.lags.rainLag1 == (if n == 0 then c.rain3hProxy else h[n - 1].rain)
            && f.lags.rainLag2 == (if n == 0 then c.rain3hProxy else if n == 1 then h[0].rain else h[n - 2].rain)
            && (n == 0 ==> f.lags.rainMean == c.rain)
            && (n == 1 ==> 2.0 * f.lags.rainMean == h[0].rain + c.rain)
            && (n >= 2 ==> 3.0 * f.lags.rainMean == h[n - 2].rain + h[n - 1].rain + c.rain)
            && f.lags.waterLag == (if n == 0 then c.water else h[n - 1].water)
            && f.lags.waterDelta == (if n == 0 then 0.0 else c.water - h[n - 1].water)
            && f.rowsUsed == n && f.ready == (n >= 2) && f.index == HydroIndex(f.lags.rainMean, c)
            && f.rainChange == Round(c.rain - f.lags.rainLag1, SCALE_4)
            && f.rain6h == Round(c.rain + f.lags.rainLag1 + f.lags.rainLag2, SCALE_4)
  {
  }

  /** The index is the rolling mean, scaled by the humidity in percent and by one more than the water level. */
  lemma IndexTold(mean: real, c: Current)
    ensures 100.0 * HydroIndex(mean, c) == mean * c.humidity * (1.0 + c.water)
  {
    var z, w := mean * (c.humidity / 100.0), 1.0 + c.water;
    assert 100.0 * z == mean * c.humidity;
    Regroup(100.0, z, w);
  }

  lemma Regroup(x: real, y: real, z: real)
    ensures x * (y * z) == x * y * z
  {
  }

  /**
   * The features lag behind two rows: the later one first, the earlier one second, their rainfall in the rolling mean,
   * the water level set against the later one's.
   */
  ghost predicate LagsBehind(f: Features, earlier: Row, later: Row, c: Current) {
    && f.lags.rainLag1 == later.rain && f.lags.rainLag2 == earlier.rain
    && f.lags.rainMean == (earlier.rain + later.rain + c.rain) / 3.0
    && f.lags.waterLag == later.water && f.lags.waterDelta == c.water - later.water
    && f.ready && f.rowsUsed >= 2
  }

  lemma LastTwoTold(h: seq<Row>, c: Current)
    requires |h| >= 2
    ensures LagsBehind(FeaturesOf(h, c), h[|h| - 2], h[|h| - 1], c)
  {
  }

  /**
   * After observations recorded in the order of their times, two at least, the next one's features lag behind the last
   * two of them. A replay sees the same when its cutoff is no earlier than any of the rows.
   */
  lemma RecordedThenNext(t: seq<Row>, rows: seq<Row>, c: Current, cutoff: Option<real>, h: seq<Row>)
    requires InTime(t + rows) && |rows| >= 2
    requires cutoff.None? || forall i | 0 <= i < |t + rows| :: (t + rows)[i].at <= cutoff.value
    requires h == Visible(AppendedAll(t, rows), cutoff)
    ensures LagsBehind(FeaturesOf(h, c), rows[|rows| - 2], rows[|rows| - 1], c)
  {
    InOrderTold(t, rows);
    LastTwoSeen(t, rows, Newest(t + rows, CAP), cutoff, h);
    LastTwoTold(h, c);
  }

  lemma LastTwoSeen(t: seq<Row>, rows: seq<Row>, u: seq<Row>, cutoff: Option<real>, h: seq<Row>)
    requires |rows| >= 2 && u == Newest(t + rows, CAP)
    requires cutoff.None? || forall i | 0 <= i < |t + rows| :: (t + rows)[i].at <= cutoff.value
    requires h == Visible(u, cutoff)
    ensures |h| >= 2 && h[|h| - 2] == rows[|rows| - 2] && h[|h| - 1] == rows[|rows| - 1]
  {
    if cutoff.Some? { UpToUnique(u, cutoff.value, |u|); }
  }

  lemma CameLast(t: seq<Row>, r: Row)
    requires t == [] || t[|t| - 1].at <= r.at
    ensures Appended(t, r) == Newest(t + [r], CAP) && 1 <= |Appended(t, r)| <= CAP
  {
    assert Inserted(t, r) == t + [r];
  }

  /** The score of an observation: 55 parts rainfall against 40 mm, 45 parts water against 0.85, each at most full. */
  lemma ScoreTold(rain: real, water: real)
    ensures var r := if rain < 0.0 then 0.0 else if rain > 40.0 then 40.0 else rain;
            var w := if water < 0.0 then 0.0 else if water > 0.85 then 0.85 else water;
            Abs(Score(rain, water) - (r * 0.55 / 40.0 + w * 0.45 / 0.85)) <= 0.00005
    ensures OnGrid(Score(rain, water), SCALE_4)
  {
    var x := Unit(rain / 40.0) * 0.55 + Unit(water / 0.85) * 0.45;
    RoundError(x, SCALE_4);
    RoundLandsOnGrid(x, SCALE_4);
  }

  /** The scores a trend is taken over: those of the last four rows at most, oldest first, and the current one. */
  ghost predicate AreScores(s: seq<real>, h: seq<Row>, c: Current) {
    var n := if |h| <= 4 then |h| else 4;
    && |s| == n + 1
    && (forall i | 0 <= i < n :: s[i] == Score(h[|h| - n + i].rain, h[|h| - n + i].water))
    && s[n] == Score(c.rain, c.water)
  }

  lemma {:induction false} ScoresAt(rows: seq<Row>, i: nat)
    requires i < |rows|
    ensures Scores(rows)[i] == Score(rows[i].rain, rows[i].water)
  {
    if i < |rows| - 1 { ScoresAt(rows[..|rows| - 1], i); }
  }

  lemma ScoresTold(s: seq<real>, h: seq<Row>, c: Current)
    requires h != [] && AreScores(s, h, c)
    ensures s == Scores(Newest(h, TREND_WINDOW)) + [Score(c.rain, c.water)]
  {
    var w := Newest(h, TREND_WINDOW);
    forall i | 0 <= i < |w| ensures s[i] == Scores(w)[i] {
      ScoresAt(w, i);
      assert w[i] == h[|h| - |w| + i];
    }
  }

  /** Without history there is no trend at all. */
  lemma NoTrendTold(h: seq<Row>, c: Current)
    ensures var t := TrendOf(h, c);
            && (h == [] <==> t.risk.Insufficient?) && (h == [] <==> t.water.Insufficient?)
            && (h == [] <==> t.rain.Insufficient?) && t.points == |h|
            && (h == [] ==> t.recent == [] && t.strength == 0.0 && t.confidence == 0.0 && t.anomaly.NoAnomaly?)
  {
  }

  /** When each trend points up and down: risk past 0.08, water past 0.04 and rain past 4 mm over the window. */
  lemma DirectionsTold(s: seq<real>, h: seq<Row>, c: Current)
    requires h != [] && AreScores(s, h, c)
    ensures var t, oldest := TrendOf(h, c), h[if |h| <= 4 then 0 else |h| - 4];
            && (t.risk == Up <==> s[|s| - 1] - s[0] > 0.08) && (t.risk == Down <==> s[0] - s[|s| - 1] > 0.08)
            && (t.water == Up <==> c.water - oldest.water > 0.04)
            && (t.water == Down <==> oldest.water - c.water > 0.04)
            && (t.rain == Up <==> c.rain - oldest.rain > 4.0) && (t.rain == Down <==> oldest.rain - c.rain > 4.0)
  {
    ScoresTold(s, h, c);
  }

  ghost predicate JumpsAt(s: seq<real>, i: nat) {
    i + 1 < |s| && (s[i + 1] - s[i] >= 0.20 || s[i] - s[i + 1] >= 0.20)
  }

  ghost predicate Jumps(s: seq<real>) {
    exists i: nat :: JumpsAt(s, i)
  }

  ghost predicate LastThreeRise(s: seq<real>) {
    var n := |s|;
    n >= 3 && s[n - 3] < s[n - 2] && s[n - 2] < s[n - 1]
  }

  /** The recent scores are the last three; a jump of 0.20 is a spike, else three rising ones a slow accumulation. */
  lemma AnomalyTold(s: seq<real>, h: seq<Row>, c: Current)
    requires h != [] && AreScores(s, h, c)
    ensures TrendOf(h, c).recent == if |s| <= 3 then s else s[|s| - 3..]
    ensures TrendOf(h, c).anomaly == Spike <==> Jumps(s)
    ensures TrendOf(h, c).anomaly == SlowAccumulation <==> LastThreeRise(s) && !Jumps(s)
  {
    AnomalyOfScores(s, h, c);
    AnomalyOfTold(s);
  }

  lemma AnomalyOfTold(s: seq<real>)
    requires s != []
    ensures AnomalyOf(Deltas(s), Newest(s, 3)) == Spike <==> Jumps(s)
    ensures AnomalyOf(Deltas(s), Newest(s, 3)) == SlowAccumulation <==> LastThreeRise(s) && !Jumps(s)
  {
    SpikeTold(s);
    RisingTold(s, Newest(s, 3));
  }

  lemma AnomalyOfScores(s: seq<real>, h: seq<Row>, c: Current)
    requires h != [] && AreScores(s, h, c)
    ensures TrendOf(h, c).recent == Newest(s, 3) && TrendOf(h, c).anomaly == AnomalyOf(Deltas(s), Newest(s, 3))
  {
    ScoresTold(s, h, c);
  }

  lemma {:induction false} SpikeTold(s: seq<real>)
    ensures HasSpike(Deltas(s)) <==> Jumps(s)
  {
    if |s| > 1 {
      var n := |s| - 1;
      var r, d := s[..n], Deltas(s);
      SpikeTold(r);
      assert d[..n - 1] == Deltas(r);
      if i: nat :| JumpsAt(s, i) {
        assert i == n - 1 || JumpsAt(r, i);
      }
      if i: nat :| JumpsAt(r, i) {
        assert JumpsAt(s, i);
      }
      assert JumpsAt(s, n - 1) <==> Abs(d[n - 1]) >= 0.20;
    }
  }

  lemma RisingTold(s: seq<real>, recent: seq<real>)
    requires recent == if |s| <= 3 then s else s[|s| - 3..]
    ensures |recent| >= 3 && StrictlyRising(recent) <==> LastThreeRise(s)
  {
    var n := |s|;
    if n >= 3 {
      ThreeRise(recent);
      assert recent[0] == s[n - 3] && recent[1] == s[n - 2] && recent[2] == s[n - 1];
    }
  }

  lemma ThreeRise(s: seq<real>)
    requires |s| == 3
    ensures StrictlyRising(s) <==> s[0] < s[1] && s[1] < s[2]
  {
    var pair := s[..2];
    assert StrictlyRising(pair) <==> StrictlyRising(pair[..1]) && pair[0] < pair[1];
  }

  /** The strength is the change over 0.40, at most 1, to within half of 0.0001. */
  lemma StrengthTold(s: seq<real>, h: seq<Row>, c: Current)
    requires h != [] && AreScores(s, h, c)
    ensures var t, change := TrendOf(h, c), Abs(s[|s| - 1] - s[0]);
            && (change >= 0.40 ==> t.strength == 1.0)
            && (change <= 0.40 ==> Abs(t.strength - change / 0.40) <= 0.00005) && OnGrid(t.strength, SCALE_4)
  {
    ScoresTold(s, h, c);
    StrengthOfTold(s[|s| - 1] - s[0]);
  }

  lemma StrengthOfTold(d: real)
    ensures Abs(d) >= 0.40 ==> Strength(d) == 1.0
    ensures Abs(d) <= 0.40 ==> Abs(Strength(d) - Abs(d) / 0.40) <= 0.00005
    ensures OnGrid(Strength(d), SCALE_4)
  {
    var x := Min(Abs(d) / 0.40, 1.0);
    if Abs(d) >= 0.40 { assert x == 1.0; }
    RoundError(x, SCALE_4);
    RoundFixesGrid(1.0, SCALE_4);
    RoundLandsOnGrid(x, SCALE_4);
  }

  /** One when the scores rise, or fall, from place i to the next. */
  ghost function UpAt(s: seq<real>, i: nat): nat {
    if i + 1 < |s| && s[i] < s[i + 1] then 1 else 0
  }

  ghost function DownAt(s: seq<real>, i: nat): nat {
    if i + 1 < |s| && s[i] > s[i + 1] then 1 else 0
  }

  /** How many of at most four steps go the way most of them go. */
  ghost function Majority(s: seq<real>): nat {
    var up := UpAt(s, 0) + UpAt(s, 1) + UpAt(s, 2) + UpAt(s, 3);
    var down := DownAt(s, 0) + DownAt(s, 1) + DownAt(s, 2) + DownAt(s, 3);
    if up >= down then up else down
  }

  /** The confidence is the share of the more frequent direction among the steps, to within half of 0.0001. */
  lemma ConfidenceTold(s: seq<real>, h: seq<Row>, c: Current)
    requires h != [] && AreScores(s, h, c)
    ensures 2 <= |s| <= 5
    ensures Abs(TrendOf(h, c).confidence - Majority(s) as real / (|s| - 1) as real) <= 0.00005
  {
    ScoresTold(s, h, c);
    StepsCounted(s);
    ShareOf(Deltas(s), Majority(s));
  }

  lemma ShareOf(d: seq<real>, majority: nat)
    requires d != [] && majority == if Rises(d) >= Falls(d) then Rises(d) else Falls(d)
    ensures Abs(MajorityShare(d) - majority as real / |d| as real) <= 0.00005
  {
    RoundError(majority as real / |d| as real, SCALE_4);
  }

  lemma {:induction false} StepsCounted(s: seq<real>)
    requires |s| <= 5
    ensures Rises(Deltas(s)) == UpAt(s, 0) + UpAt(s, 1) + UpAt(s, 2) + UpAt(s, 3)
    ensures Falls(Deltas(s)) == DownAt(s, 0) + DownAt(s, 1) + DownAt(s, 2) + DownAt(s, 3)
  {
    if |s| > 1 {
      var n := |s| - 1;
      var r, last := s[..n], s[n] - s[n - 1];
      StepsCounted(r);
      assert Deltas(s) == Deltas(r) + [last];
      RisesOfLast(Deltas(r), last);
      LastStep(s, 0);
      LastStep(s, 1);
      LastStep(s, 2);
      LastStep(s, 3);
    }
  }

  lemma LastStep(s: seq<real>, i: nat)
    requires |s| > 1
    ensures var n := |s| - 1;
            && UpAt(s, i) == UpAt(s[..n], i) + (if i == n - 1 && s[n] > s[n - 1] then 1 else 0)
            && DownAt(s, i) == DownAt(s[..n], i) + (if i == n - 1 && s[n] < s[n - 1] then 1 else 0)
  {
  }

  lemma RisesOfLast(d: seq<real>, last: real)
    ensures Rises(d + [last]) == Rises(d) + (if last > 0.0 then 1 else 0)
    ensures Falls(d + [last]) == Falls(d) + (if last < 0.0 then 1 else 0)
  {
    assert (d + [last])[..|d|] == d;
  }
}
