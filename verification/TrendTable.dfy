/** The bounded trend_history table: insert-if-absent, prune to the newest rows, read back oldest first. */
module TrendTable {
  import opened Common

  datatype Snapshot = Snapshot(probability: real, riskLevel: string, waterLevelRatio: Option<real>,
                               rainfallMm: Option<real>)

  datatype Row = Row(id: nat, station: string, at: int, data: Snapshot)

  datatype Record = Record(at: int, data: Snapshot)

  /** Rows in insertion order, and the next value of the id sequence (which a skipped insert also consumes). */
  datatype Table = Table(rows: seq<Row>, nextId: nat)

  datatype Op =
    | Insert(station: string, at: int, data: Snapshot)
    | Clear(station: string)

  // ---------------------------------------------------------------- SQL clauses

  /** The row conditions the queries use. */
  datatype Clause =
    | All
    | AtStation(station: string)
    | NotAtStation(station: string)
    | Before(asOf: int)
    | IdIn(ids: set<nat>)
    | NotAtStationUnlessIdIn(station: string, ids: set<nat>)

  predicate Holds(c: Clause, r: Row) {
    match c
    case All => true
    case AtStation(s) => r.station == s
    case NotAtStation(s) => r.station != s
    case Before(t) => r.at < t
    case IdIn(ids) => r.id in ids
    case NotAtStationUnlessIdIn(s, ids) => r.station != s || r.id in ids
  }

  function Where(rows: seq<Row>, c: Clause): (out: seq<Row>)
    ensures forall r :: r in out <==> r in rows && Holds(c, r)
  {
    if rows == [] then []
    else Where(rows[..|rows| - 1], c) + if Holds(c, rows[|rows| - 1]) then [rows[|rows| - 1]] else []
  }

  function Place(sorted: seq<Row>, r: Row): seq<Row> {
    if sorted == [] || r.at > sorted[0].at then [r] + sorted else [sorted[0]] + Place(sorted[1..], r)
  }

  /** ORDER BY observed_at DESC. */
  function NewestFirst(rows: seq<Row>): seq<Row> {
    if rows == [] then [] else Place(NewestFirst(rows[..|rows| - 1]), rows[|rows| - 1])
  }

  /** LIMIT n. */
  function Limit<T>(xs: seq<T>, n: nat): seq<T> {
    if n < |xs| then xs[..n] else xs
  }

  function Reverse<T>(xs: seq<T>): seq<T> {
    if xs == [] then [] else [xs[|xs| - 1]] + Reverse(xs[..|xs| - 1])
  }

  predicate Present(rows: seq<Row>, station: string, at: int) {
    exists r | r in rows :: r.station == station && r.at == at
  }

  function StationRows(rows: seq<Row>, station: string): seq<Row> {
    NewestFirst(Where(rows, AtStation(station)))
  }

  function Ids(rows: seq<Row>): set<nat> {
    set r | r in rows :: r.id
  }

  // ---------------------------------------------------------------- the operations

  function AfterInsert(t: Table, op: Op): Table
    requires op.Insert?
  {
    if Present(t.rows, op.station, op.at) then t.(nextId := t.nextId + 1)
    else Table(t.rows + [Row(t.nextId, op.station, op.at, op.data)], t.nextId + 1)
  }

  function AfterPrune(t: Table, station: string, maxHistory: nat): Table {
    var kept := Ids(Limit(StationRows(t.rows, station), maxHistory));
    t.(rows := Where(t.rows, NotAtStationUnlessIdIn(station, kept)))
  }

  function AfterClear(t: Table, station: string): Table {
    t.(rows := Where(t.rows, NotAtStation(station)))
  }

  /** The rows a read is answered from: strictly older than `asOf` when it is given. */
  function Eligible(rows: seq<Row>, station: string, asOf: Option<int>): seq<Row> {
    NewestFirst(Where(Where(rows, AtStation(station)), if asOf.Some? then Before(asOf.value) else All))
  }

  function Answer(rows: seq<Row>, station: string, limit: nat, asOf: Option<int>): seq<Record> {
    Records(Reverse(Limit(Eligible(rows, station, asOf), limit)))
  }

  function Records(rows: seq<Row>): seq<Record> {
    seq(|rows|, i requires 0 <= i < |rows| => Record(rows[i].at, rows[i].data))
  }

  class TrendRepository {
    var table: Table

    constructor ()
      ensures table == Table([], 0)
    {
      table := Table([], 0);
    }

    /** Inserts a record unless its station and time are taken, then prunes the station to its newest rows. */
    method InsertTrendRecord(station: string, at: int, data: Snapshot, maxHistory: nat)
      modifies this
      ensures table == AfterPrune(AfterInsert(old(table), Insert(station, at, data)), station, maxHistory)
    {
      if !Present(table.rows, station, at) {
        table := table.(rows := table.rows + [Row(table.nextId, station, at, data)]);
      }
      table := table.(nextId := table.nextId + 1);
      var newest := Limit(StationRows(table.rows, station), maxHistory);
      var kept := Ids(newest);
      table := table.(rows := Where(table.rows, NotAtStationUnlessIdIn(station, kept)));
    }

    /** The newest `limit` records of a station, oldest first. */
    method GetRecentTrendRecords(station: string, limit: nat, asOf: Option<int>) returns (records: seq<Record>)
      ensures records == Answer(table.rows, station, limit, asOf)
    {
      var rows := Where(table.rows, AtStation(station));
      if asOf.Some? {
        rows := Where(rows, Before(asOf.value));
      } else {
        WhereAll(rows);
      }
      rows := Limit(NewestFirst(rows), limit);
      records := Records(Reverse(rows));
    }

    method DeleteTrendRecords(station: string)
      modifies this
      ensures table == AfterClear(old(table), station)
    {
      table := table.(rows := Where(table.rows, NotAtStation(station)));
    }
  }

  // ---------------------------------------------------------------- runs

  /** The bounded table after a run of operations, all with the same history bound. */
  function Bounded(run: seq<Op>, maxHistory: nat): Table {
    if run == [] then Table([], 0)
    else
      var t, op := Bounded(run[..|run| - 1], maxHistory), run[|run| - 1];
      if op.Clear? then AfterClear(t, op.station)
      else AfterPrune(AfterInsert(t, op), op.station, maxHistory)
  }

  /** The same run on a table that is never pruned: every distinct timestamp with its first value. */
  function Unbounded(run: seq<Op>): Table {
    if run == [] then Table([], 0)
    else
      var t, op := Unbounded(run[..|run| - 1]), run[|run| - 1];
      if op.Clear? then AfterClear(t, op.station) else AfterInsert(t, op)
  }

  // ---------------------------------------------------------------- sorting

  /** Strictly newest first. */
  ghost predicate Descending(rows: seq<Row>) {
    forall i, j | 0 <= i < j < |rows| :: rows[i].at > rows[j].at
  }

  ghost predicate DistinctTimes(rows: seq<Row>) {
    forall i, j | 0 <= i < j < |rows| :: rows[i].at != rows[j].at
  }

  lemma {:induction false} PlaceDescending(sorted: seq<Row>, r: Row)
    requires Descending(sorted) && forall s | s in sorted :: s.at != r.at
    ensures Descending(Place(sorted, r))
    ensures forall s :: s in Place(sorted, r) <==> s in sorted || s == r
  {
    if sorted != [] && r.at <= sorted[0].at {
      var rest := Place(sorted[1..], r);
      assert forall s :: s in sorted <==> s == sorted[0] || s in sorted[1..];
      PlaceDescending(sorted[1..], r);
      forall j | 0 <= j < |rest| ensures sorted[0].at > rest[j].at {
        assert rest[j] in rest;
      }
    } else {
      forall j | 0 <= j < |sorted| ensures r.at > sorted[j].at {
        assert sorted[j] in sorted;
      }
    }
  }

  lemma {:induction false} SortDescending(rows: seq<Row>)
    requires DistinctTimes(rows)
    ensures Descending(NewestFirst(rows))
    ensures forall s :: s in NewestFirst(rows) <==> s in rows
  {
    if rows != [] {
      var n := |rows| - 1;
      SortDescending(rows[..n]);
      forall s | s in rows[..n] ensures s.at != rows[n].at {
        var i :| 0 <= i < n && rows[i] == s;
      }
      PlaceDescending(NewestFirst(rows[..n]), rows[n]);
      assert rows == rows[..n] + [rows[n]];
    }
  }

  lemma HeadIsMember(rows: seq<Row>)
    ensures rows == [] || rows[0] in rows
  {
  }

  /** Strictly descending rows are determined by which rows they are. */
  lemma {:induction false} DescendingUnique(xs: seq<Row>, ys: seq<Row>)
    requires Descending(xs) && Descending(ys) && forall r :: r in xs <==> r in ys
    ensures xs == ys
  {
    if xs == [] {
      HeadIsMember(ys);
    } else {
      assert xs[0] in ys && ys != [] && ys[0] in xs;
      var i :| 0 <= i < |xs| && xs[i] == ys[0];
      var j :| 0 <= j < |ys| && ys[j] == xs[0];
      assert i == 0 && j == 0;
      forall r ensures r in xs[1..] <==> r in ys[1..] {
        if r in xs[1..] { var k :| 0 < k < |xs| && xs[k] == r; assert r.at < xs[0].at && r in ys; }
        if r in ys[1..] { var k :| 0 < k < |ys| && ys[k] == r; assert r.at < ys[0].at && r in xs; }
      }
      DescendingUnique(xs[1..], ys[1..]);
    }
  }

  /** Placing into the newest k and keeping k is placing into all and keeping k. */
  lemma {:induction false} LimitPlace(sorted: seq<Row>, r: Row, k: nat)
    ensures Limit(Place(Limit(sorted, k), r), k) == Limit(Place(sorted, r), k)
  {
    if 0 < k < |sorted| {
      var head, rest := sorted[0], sorted[1..];
      assert sorted == [head] + rest;
      LimitCons(head, rest, k);
      if r.at > head.at {
        assert ([r] + Limit(sorted, k))[..k] == ([r] + sorted)[..k];
      } else {
        LimitPlace(rest, r, k - 1);
        PlaceCons(head, rest, r);
        PlaceCons(head, Limit(rest, k - 1), r);
        LimitCons(head, Place(rest, r), k);
        LimitCons(head, Place(Limit(rest, k - 1), r), k);
      }
    }
  }

  lemma LimitCons<T>(head: T, rest: seq<T>, k: nat)
    requires k > 0
    ensures Limit([head] + rest, k) == [head] + Limit(rest, k - 1)
  {
  }

  lemma PlaceCons(head: Row, rest: seq<Row>, r: Row)
    requires r.at <= head.at
    ensures Place([head] + rest, r) == [head] + Place(rest, r)
  {
    assert ([head] + rest)[1..] == rest;
  }

  lemma {:induction false} PlaceLength(sorted: seq<Row>, r: Row)
    ensures |Place(sorted, r)| == |sorted| + 1
  {
    if sorted != [] && r.at <= sorted[0].at { PlaceLength(sorted[1..], r); }
  }

  /** A row older than all k rows already kept does not displace any of them. */
  lemma {:induction false} PlaceOldest(sorted: seq<Row>, r: Row)
    requires forall s | s in sorted :: s.at > r.at
    ensures Place(sorted, r) == sorted + [r]
  {
    if sorted != [] {
      assert sorted[0] in sorted && forall s | s in sorted[1..] :: s in sorted;
      PlaceOldest(sorted[1..], r);
    }
  }

  lemma {:induction false} WhereAll(rows: seq<Row>)
    ensures Where(rows, All) == rows
  {
    if rows != [] {
      var front, last := rows[..|rows| - 1], rows[|rows| - 1];
      WhereAll(front);
      assert Where(rows, All) == front + [last];
    }
  }

  // ---------------------------------------------------------------- tables

  /** Ids are fresh, and (station, observed_at) is unique as the table's index demands. */
  ghost predicate ValidTable(t: Table) {
    ValidRows(t.rows) && forall r | r in t.rows :: r.id < t.nextId
  }

  ghost predicate ValidRows(rows: seq<Row>) {
    && (forall i, j | 0 <= i < j < |rows| :: rows[i].id != rows[j].id)
    && (forall i, j | 0 <= i < j < |rows| :: rows[i].station == rows[j].station ==> rows[i].at != rows[j].at)
  }

  lemma AppendValid(rows: seq<Row>, r: Row)
    requires ValidRows(rows)
    requires forall s | s in rows :: s.id != r.id && (s.station == r.station ==> s.at != r.at)
    ensures ValidRows(rows + [r])
  {
    forall i | 0 <= i < |rows| ensures rows[i].id != r.id && (rows[i].station == r.station ==> rows[i].at != r.at) {
      assert rows[i] in rows;
    }
  }

  lemma LastApart(rows: seq<Row>, r: Row)
    requires rows != [] && ValidRows(rows) && r in rows[..|rows| - 1]
    ensures var last := rows[|rows| - 1]; r.id != last.id && (r.station == last.station ==> r.at != last.at)
  {
    var i :| 0 <= i < |rows| - 1 && rows[i] == r;
  }

  lemma {:induction false} WhereValid(rows: seq<Row>, c: Clause)
    requires ValidRows(rows)
    ensures ValidRows(Where(rows, c))
  {
    if rows != [] {
      var front, last := rows[..|rows| - 1], rows[|rows| - 1];
      var kept := Where(front, c);
      FrontValid(rows);
      WhereValid(front, c);
      if Holds(c, last) {
        forall r | r in kept
          ensures r.id != last.id && (r.station == last.station ==> r.at != last.at)
        {
          LastApart(rows, r);
        }
        AppendValid(kept, last);
      }
    }
  }

  lemma FrontValid(rows: seq<Row>)
    requires rows != [] && ValidRows(rows)
    ensures ValidRows(rows[..|rows| - 1])
  {
  }

  lemma StationTimesDistinct(rows: seq<Row>, station: string)
    requires ValidRows(rows)
    ensures DistinctTimes(Where(rows, AtStation(station)))
  {
    var mine := Where(rows, AtStation(station));
    WhereValid(rows, AtStation(station));
    forall i, j | 0 <= i < j < |mine| ensures mine[i].at != mine[j].at {
      assert mine[i] in mine && mine[j] in mine;
    }
  }

  /** The station's rows of a valid table, newest first, are strictly descending. */
  lemma StationDescending(rows: seq<Row>, station: string)
    requires ValidRows(rows)
    ensures Descending(StationRows(rows, station))
    ensures forall r :: r in StationRows(rows, station) <==> r in rows && r.station == station
  {
    StationTimesDistinct(rows, station);
    SortDescending(Where(rows, AtStation(station)));
  }

  lemma LimitDescending(rows: seq<Row>, k: nat)
    requires Descending(rows)
    ensures Descending(Limit(rows, k))
    ensures forall r | r in Limit(rows, k) :: r in rows
  {
  }

  /** Pruning one station keeps exactly its newest rows, and every row of the others. */
  lemma PruneKeepsNewest(t: Table, station: string, k: nat, other: string)
    requires ValidTable(t)
    ensures ValidTable(AfterPrune(t, station, k))
    ensures StationRows(AfterPrune(t, station, k).rows, other)
         == if other == station then Limit(StationRows(t.rows, other), k) else StationRows(t.rows, other)
  {
    var sorted := StationRows(t.rows, station);
    var newest := Limit(sorted, k);
    var after := AfterPrune(t, station, k).rows;
    StationDescending(t.rows, station);
    LimitDescending(sorted, k);
    WhereValid(t.rows, NotAtStationUnlessIdIn(station, Ids(newest)));
    StationDescending(after, other);
    StationDescending(t.rows, other);
    if other == station {
      forall r ensures r in StationRows(after, station) <==> r in newest {
        if r in t.rows && r.id in Ids(newest) {
          var s :| s in newest && s.id == r.id;
          SameIdSameRow(t.rows, r, s);
        }
      }
      DescendingUnique(StationRows(after, station), newest);
    } else {
      DescendingUnique(StationRows(after, other), StationRows(t.rows, other));
    }
  }

  lemma SameIdSameRow(rows: seq<Row>, r: Row, s: Row)
    requires ValidRows(rows) && r in rows && s in rows && r.id == s.id
    ensures r == s
  {
    var i :| 0 <= i < |rows| && rows[i] == r;
    var j :| 0 <= j < |rows| && rows[j] == s;
    assert i == j;
  }

  lemma ClearDropsStation(t: Table, station: string, other: string)
    requires ValidTable(t)
    ensures ValidTable(AfterClear(t, station))
    ensures StationRows(AfterClear(t, station).rows, other)
         == if other == station then [] else StationRows(t.rows, other)
  {
    var after := AfterClear(t, station).rows;
    WhereValid(t.rows, NotAtStation(station));
    StationDescending(after, other);
    StationDescending(t.rows, other);
    if other == station {
      HeadIsMember(StationRows(after, other));
    } else {
      DescendingUnique(StationRows(after, other), StationRows(t.rows, other));
    }
  }

  lemma InsertPlaces(t: Table, op: Op, other: string)
    requires ValidTable(t) && op.Insert?
    ensures ValidTable(AfterInsert(t, op))
    ensures StationRows(AfterInsert(t, op).rows, other)
         == if Present(t.rows, op.station, op.at) || other != op.station then StationRows(t.rows, other)
            else Place(StationRows(t.rows, other), Row(t.nextId, op.station, op.at, op.data))
  {
    if !Present(t.rows, op.station, op.at) {
      var r := Row(t.nextId, op.station, op.at, op.data);
      AppendStationRows(t.rows, r, other);
      AppendValid(t.rows, r);
    }
  }

  lemma AppendStationRows(rows: seq<Row>, r: Row, station: string)
    ensures StationRows(rows + [r], station)
         == if r.station == station then Place(StationRows(rows, station), r) else StationRows(rows, station)
  {
    WhereAppend(rows, r, AtStation(station));
    SortAppend(Where(rows, AtStation(station)), r);
  }

  lemma WhereAppend(rows: seq<Row>, r: Row, c: Clause)
    ensures Where(rows + [r], c) == if Holds(c, r) then Where(rows, c) + [r] else Where(rows, c)
  {
    assert (rows + [r])[..|rows|] == rows;
  }

  lemma SortAppend(rows: seq<Row>, r: Row)
    ensures NewestFirst(rows + [r]) == Place(NewestFirst(rows), r)
  {
    assert (rows + [r])[..|rows|] == rows;
  }

  // ---------------------------------------------------------------- main results

  /**
   * After every run, what the bounded table keeps for a station is exactly the newest maxHistory rows of the
   * never-pruned table: the newest distinct timestamps since the last clear, each with its first-inserted value.
   */
  lemma {:induction false} KeepsNewest(run: seq<Op>, maxHistory: nat, station: string)
    ensures ValidTable(Bounded(run, maxHistory)) && ValidTable(Unbounded(run))
    ensures Bounded(run, maxHistory).nextId == Unbounded(run).nextId
    ensures StationRows(Bounded(run, maxHistory).rows, station)
         == Limit(StationRows(Unbounded(run).rows, station), maxHistory)
  {
    if run != [] {
      var b, u, op := Bounded(run[..|run| - 1], maxHistory), Unbounded(run[..|run| - 1]), run[|run| - 1];
      KeepsNewest(run[..|run| - 1], maxHistory, station);
      if op.Clear? {
        ClearDropsStation(b, op.station, station);
        ClearDropsStation(u, op.station, station);
      } else {
        InsertPlaces(b, op, station);
        InsertPlaces(u, op, station);
        PruneKeepsNewest(AfterInsert(b, op), op.station, maxHistory, station);
        if op.station == station {
          InsertStep(b, u, op, maxHistory);
        }
      }
    }
  }

  lemma InsertStep(b: Table, u: Table, op: Op, k: nat)
    requires op.Insert? && ValidTable(b) && ValidTable(u) && b.nextId == u.nextId
    requires StationRows(b.rows, op.station) == Limit(StationRows(u.rows, op.station), k)
    ensures Limit(StationRows(AfterInsert(b, op).rows, op.station), k)
         == Limit(StationRows(AfterInsert(u, op).rows, op.station), k)
  {
    InsertPlaces(b, op, op.station);
    InsertPlaces(u, op, op.station);
    StationDescending(u.rows, op.station);
    var r := Row(u.nextId, op.station, op.at, op.data);
    PresentMeans(b.rows, op.station, op.at);
    PresentMeans(u.rows, op.station, op.at);
    PlaceStep(StationRows(u.rows, op.station), r, k);
  }

  ghost predicate HasTime(sorted: seq<Row>, at: int) {
    exists i :: 0 <= i < |sorted| && sorted[i].at == at
  }

  /** Inserting into the newest k, then keeping k, gives the newest k of inserting into all, present or not. */
  lemma PlaceStep(su: seq<Row>, r: Row, k: nat)
    requires Descending(su)
    ensures var sb := Limit(su, k);
            Limit(if HasTime(sb, r.at) then sb else Place(sb, r), k)
              == Limit(if HasTime(su, r.at) then su else Place(su, r), k)
  {
    var sb := Limit(su, k);
    assert HasTime(sb, r.at) ==> HasTime(su, r.at);
    LimitLimit(su, k, k);
    if !HasTime(su, r.at) {
      LimitPlace(su, r, k);
    } else if !HasTime(sb, r.at) {
      PlaceBelowLimit(su, r, k);
    }
  }

  /** Re-inserting a time that was pruned away: the fresh row sorts last and is pruned again. */
  lemma PlaceBelowLimit(su: seq<Row>, r: Row, k: nat)
    requires Descending(su)
    requires HasTime(su, r.at) && !HasTime(Limit(su, k), r.at)
    ensures Limit(Place(Limit(su, k), r), k) == Limit(su, k)
  {
    var i :| 0 <= i < |su| && su[i].at == r.at;
    forall j | 0 <= j < |Limit(su, k)| ensures su[j].at != r.at { assert Limit(su, k)[j] == su[j]; }
    assert i >= k && k < |su| && Limit(su, k) == su[..k];
    PlaceOldest(su[..k], r);
  }

  lemma PresentMeans(rows: seq<Row>, station: string, at: int)
    requires ValidRows(rows)
    ensures Present(rows, station, at) <==> HasTime(StationRows(rows, station), at)
  {
    var sorted := StationRows(rows, station);
    StationDescending(rows, station);
    if Present(rows, station, at) {
      var r :| r in rows && r.station == station && r.at == at;
      assert r in sorted;
    }
    forall i | 0 <= i < |sorted| && sorted[i].at == at ensures Present(rows, station, at) {
      assert sorted[i] in sorted;
    }
  }

  /** With no `asOf` and a limit within the bound, a read answers exactly as the never-pruned table would. */
  lemma ReadMatchesUnbounded(run: seq<Op>, maxHistory: nat, station: string, limit: nat)
    requires limit <= maxHistory
    ensures Answer(Bounded(run, maxHistory).rows, station, limit, None)
         == Answer(Unbounded(run).rows, station, limit, None)
  {
    KeepsNewest(run, maxHistory, station);
    EligibleIsAll(Bounded(run, maxHistory).rows, station);
    EligibleIsAll(Unbounded(run).rows, station);
    LimitLimit(StationRows(Unbounded(run).rows, station), maxHistory, limit);
  }

  lemma EligibleIsAll(rows: seq<Row>, station: string)
    ensures Eligible(rows, station, None) == StationRows(rows, station)
  {
    WhereAll(Where(rows, AtStation(station)));
  }

  lemma LimitLimit<T>(xs: seq<T>, m: nat, n: nat)
    requires n <= m
    ensures Limit(Limit(xs, m), n) == Limit(xs, n)
  {
  }

  /**
   * With `asOf`, a read answers the newest part of what the never-pruned table would; it is the whole answer
   * when it fills the limit or when the station stores fewer than maxHistory rows.
   */
  lemma ReadAsOfIsSuffix(run: seq<Op>, maxHistory: nat, station: string, limit: nat, asOf: int)
    ensures var kept := Answer(Bounded(run, maxHistory).rows, station, limit, Some(asOf));
            var full := Answer(Unbounded(run).rows, station, limit, Some(asOf));
            && |kept| <= |full| && kept == full[|full| - |kept|..]
            && (|kept| == limit || |StationRows(Bounded(run, maxHistory).rows, station)| < maxHistory ==> kept == full)
  {
    KeepsNewest(run, maxHistory, station);
    PinnedAnswers(Bounded(run, maxHistory).rows, Unbounded(run).rows, maxHistory, station, limit, asOf);
  }

  lemma PinnedAnswers(b: seq<Row>, u: seq<Row>, maxHistory: nat, station: string, limit: nat, asOf: int)
    requires ValidRows(b) && ValidRows(u) && StationRows(b, station) == Limit(StationRows(u, station), maxHistory)
    ensures var kept, full := Answer(b, station, limit, Some(asOf)), Answer(u, station, limit, Some(asOf));
            && |kept| <= |full| && kept == full[|full| - |kept|..]
            && (|kept| == limit || |StationRows(b, station)| < maxHistory ==> kept == full)
  {
    EligibleIsFiltered(b, station, asOf);
    EligibleIsFiltered(u, station, asOf);
    var sb, su := StationRows(b, station), StationRows(u, station);
    LimitIsPrefix(su, maxHistory);
    FilterPrefix(su, |sb|, Before(asOf));
    PrefixAnswers(Where(sb, Before(asOf)), Where(su, Before(asOf)), limit);
  }

  lemma LimitIsPrefix<T>(xs: seq<T>, n: nat)
    ensures |Limit(xs, n)| <= |xs| && Limit(xs, n) == xs[..|Limit(xs, n)|]
    ensures |Limit(xs, n)| < n ==> Limit(xs, n) == xs
  {
  }

  /** Answers drawn from a prefix of the newest-first rows are the tail of those drawn from all of them. */
  lemma PrefixAnswers(part: seq<Row>, all: seq<Row>, limit: nat)
    requires part <= all
    ensures var kept, full := Records(Reverse(Limit(part, limit))), Records(Reverse(Limit(all, limit)));
            |kept| <= |full| && kept == full[|full| - |kept|..] && (|kept| == limit ==> kept == full)
  {
    ReverseIndex(Limit(part, limit));
    ReverseIndex(Limit(all, limit));
  }

  lemma EligibleIsFiltered(rows: seq<Row>, station: string, asOf: int)
    requires ValidRows(rows)
    ensures Eligible(rows, station, Some(asOf)) == Where(StationRows(rows, station), Before(asOf))
  {
    var mine := Where(rows, AtStation(station));
    StationTimesDistinct(rows, station);
    WhereValid(rows, AtStation(station));
    WhereValid(mine, Before(asOf));
    var older := Where(mine, Before(asOf));
    forall i, j | 0 <= i < j < |older| ensures older[i].at != older[j].at {
      assert older[i] in older && older[j] in older;
    }
    SortDescending(older);
    StationDescending(rows, station);
    WhereDescending(StationRows(rows, station), Before(asOf));
    DescendingUnique(NewestFirst(older), Where(StationRows(rows, station), Before(asOf)));
  }

  lemma {:induction false} WhereDescending(rows: seq<Row>, c: Clause)
    requires Descending(rows)
    ensures Descending(Where(rows, c))
  {
    if rows != [] {
      var n := |rows| - 1;
      WhereDescending(rows[..n], c);
      var kept := Where(rows[..n], c);
      forall i | 0 <= i < |kept| ensures kept[i].at > rows[n].at {
        assert kept[i] in kept;
        var j :| 0 <= j < n && rows[j] == kept[i];
      }
    }
  }

  lemma {:induction false} FilterPrefix(rows: seq<Row>, k: nat, c: Clause)
    requires k <= |rows|
    ensures Where(rows[..k], c) <= Where(rows, c)
  {
    if k < |rows| {
      FilterPrefix(rows[..|rows| - 1], k, c);
      assert rows[..|rows| - 1][..k] == rows[..k];
    } else {
      assert rows[..k] == rows;
    }
  }

  lemma {:induction false} ReverseIndex<T>(xs: seq<T>)
    ensures |Reverse(xs)| == |xs| && forall i | 0 <= i < |xs| :: Reverse(xs)[i] == xs[|xs| - 1 - i]
  {
    if xs != [] { ReverseIndex(xs[..|xs| - 1]); }
  }

  // ---------------------------------------------------------------- what the rows are, told by the operations

  predicate InsertsAt(op: Op, station: string, at: int) {
    op.Insert? && op.station == station && op.at == at
  }

  predicate ClearsStation(op: Op, station: string) {
    op.Clear? && op.station == station
  }

  /** The k-th operation is the first insert of the station's time since the station was last cleared. */
  ghost predicate FirstInsert(run: seq<Op>, k: nat, station: string, at: int) {
    && k < |run| && InsertsAt(run[k], station, at)
    && (forall j | k < j < |run| :: !ClearsStation(run[j], station))
    && (forall j | 0 <= j < k && InsertsAt(run[j], station, at) :: ClearedBetween(run, j, k, station))
  }

  ghost predicate ClearedBetween(run: seq<Op>, j: nat, k: nat, station: string)
    requires j <= k <= |run|
  {
    exists c :: j < c < k && ClearsStation(run[c], station)
  }

  ghost predicate Inserted(run: seq<Op>, station: string, at: int, data: Snapshot) {
    exists k: nat :: FirstInsert(run, k, station, at) && run[k].data == data
  }

  ghost predicate Stores(rows: seq<Row>, station: string, at: int, data: Snapshot) {
    exists r :: r in rows && r.station == station && r.at == at && r.data == data
  }

  /** Some insert of the time has not been cleared. */
  ghost predicate Live(run: seq<Op>, station: string, at: int) {
    exists k :: 0 <= k < |run| && InsertsAt(run[k], station, at)
                && (forall j | k < j < |run| :: !ClearsStation(run[j], station))
  }

  /** A live time has a first insert, found by going back to the last clear. */
  lemma {:induction false} LiveHasFirst(run: seq<Op>, station: string, at: int, k: nat) returns (first: nat)
    requires k < |run| && InsertsAt(run[k], station, at)
    requires (forall j | k < j < |run| :: !ClearsStation(run[j], station))
    ensures FirstInsert(run, first, station, at)
  {
    if forall j | 0 <= j < k && InsertsAt(run[j], station, at) :: ClearedBetween(run, j, k, station) {
      first := k;
    } else {
      var j: nat :| j < k && InsertsAt(run[j], station, at) && !ClearedBetween(run, j, k, station);
      forall i | j < i < |run| ensures !ClearsStation(run[i], station) {
        if i == k { assert run[k].Insert?; }
      }
      first := LiveHasFirst(run, station, at, j);
    }
  }

  lemma FirstAfterAppend(run: seq<Op>, op: Op, k: nat, station: string, at: int)
    requires k < |run|
    ensures FirstInsert(run + [op], k, station, at)
       <==> (FirstInsert(run, k, station, at) && !ClearsStation(op, station))
  {
    var longer := run + [op];
    assert forall j | 0 <= j < |run| :: longer[j] == run[j];
    forall j | 0 <= j < k ensures ClearedBetween(longer, j, k, station) <==> ClearedBetween(run, j, k, station) {
      if ClearedBetween(run, j, k, station) {
        var c :| j < c < k && ClearsStation(run[c], station);
        assert ClearsStation(longer[c], station);
      }
    }
    assert longer[|run|] == op;
  }

  /** After one more operation: cleared, kept, or a first insert when the time is not live. */
  lemma InsertedAfterAppend(run: seq<Op>, op: Op, station: string, at: int, data: Snapshot)
    ensures Inserted(run + [op], station, at, data)
       <==> || (Inserted(run, station, at, data) && !ClearsStation(op, station))
            || (InsertsAt(op, station, at) && op.data == data && !Live(run, station, at))
  {
    var longer, n := run + [op], |run|;
    forall k: nat | k < n
      ensures FirstInsert(longer, k, station, at) <==> (FirstInsert(run, k, station, at) && !ClearsStation(op, station))
    {
      FirstAfterAppend(run, op, k, station, at);
    }
    AppendedFirstIff(run, op, station, at);
    if Inserted(longer, station, at, data) {
      var k: nat :| FirstInsert(longer, k, station, at) && longer[k].data == data;
      if k < n { assert FirstInsert(run, k, station, at) && run[k].data == data; }
    }
    if Inserted(run, station, at, data) && !ClearsStation(op, station) {
      var k: nat :| FirstInsert(run, k, station, at) && run[k].data == data;
      assert FirstInsert(longer, k, station, at) && longer[k].data == data;
    }
    if InsertsAt(op, station, at) && op.data == data && !Live(run, station, at) {
      assert FirstInsert(longer, n, station, at) && longer[n].data == data;
    }
  }

  lemma AppendedFirstIff(run: seq<Op>, op: Op, station: string, at: int)
    ensures FirstInsert(run + [op], |run|, station, at) <==> (InsertsAt(op, station, at) && !Live(run, station, at))
  {
    var longer, n := run + [op], |run|;
    assert forall j | 0 <= j < n :: longer[j] == run[j];
    if Live(run, station, at) {
      var k :| 0 <= k < n && InsertsAt(run[k], station, at)
               && (forall j | k < j < n :: !ClearsStation(run[j], station));
      assert InsertsAt(longer[k], station, at) && !ClearedBetween(longer, k, n, station);
    } else {
      forall j | 0 <= j < n && InsertsAt(longer[j], station, at) ensures ClearedBetween(longer, j, n, station) {
        var c :| j < c < n && ClearsStation(run[c], station);
        assert ClearsStation(longer[c], station);
      }
    }
  }

  /**
   * The never-pruned table, told by the operations alone: it stores a value for a station's time exactly when the time
   * was inserted since the station's last clear, and the value is that of the first such insert.
   */
  lemma {:induction false} UnboundedStoresFirst(run: seq<Op>, station: string, at: int, data: Snapshot)
    ensures Stores(Unbounded(run).rows, station, at, data) <==> Inserted(run, station, at, data)
    ensures Present(Unbounded(run).rows, station, at) <==> Live(run, station, at)
  {
    if run != [] {
      var n := |run| - 1;
      var before, op := run[..n], run[n];
      assert run == before + [op];
      UnboundedStoresFirst(before, station, at, data);
      InsertedAfterAppend(before, op, station, at, data);
      LiveAfterAppend(before, op, station, at);
      StoresAfter(Unbounded(before), op, station, at, data);
    }
  }

  lemma LiveAfterAppend(run: seq<Op>, op: Op, station: string, at: int)
    ensures Live(run + [op], station, at)
       <==> (Live(run, station, at) && !ClearsStation(op, station)) || InsertsAt(op, station, at)
  {
    var longer, n := run + [op], |run|;
    assert longer[n] == op && (forall j | 0 <= j < n :: longer[j] == run[j]);
    if Live(run, station, at) && !ClearsStation(op, station) {
      var k :| 0 <= k < n && InsertsAt(run[k], station, at)
               && (forall j | k < j < n :: !ClearsStation(run[j], station));
      assert InsertsAt(longer[k], station, at);
    }
    if InsertsAt(op, station, at) { assert InsertsAt(longer[n], station, at); }
    if Live(longer, station, at) && !InsertsAt(op, station, at) {
      var k :| 0 <= k < n + 1 && InsertsAt(longer[k], station, at)
               && (forall j | k < j < n + 1 :: !ClearsStation(longer[j], station));
      assert InsertsAt(run[k], station, at) && !ClearsStation(longer[n], station);
    }
  }

  /** One operation on a table that is never pruned. */
  lemma StoresAfter(t: Table, op: Op, station: string, at: int, data: Snapshot)
    ensures var rows := (if op.Clear? then AfterClear(t, op.station) else AfterInsert(t, op)).rows;
            && (Stores(rows, station, at, data)
                <==> (Stores(t.rows, station, at, data) && !ClearsStation(op, station))
                     || (InsertsAt(op, station, at) && op.data == data && !Present(t.rows, station, at)))
            && (Present(rows, station, at)
                <==> (Present(t.rows, station, at) && !ClearsStation(op, station)) || InsertsAt(op, station, at))
  {
    var rows := (if op.Clear? then AfterClear(t, op.station) else AfterInsert(t, op)).rows;
    if op.Insert? && !Present(t.rows, op.station, op.at) {
      var r := Row(t.nextId, op.station, op.at, op.data);
      assert rows == t.rows + [r] && r in rows;
      assert forall s :: s in rows <==> s in t.rows || s == r;
    }
  }

  /** An answer is strictly oldest first. */
  lemma AnswerAscending(rows: seq<Row>, station: string, limit: nat, asOf: Option<int>)
    requires ValidRows(rows)
    ensures var a := Answer(rows, station, limit, asOf); forall i, j | 0 <= i < j < |a| :: a[i].at < a[j].at
  {
    EligibleDescending(rows, station, asOf);
    var newest := Limit(Eligible(rows, station, asOf), limit);
    LimitDescending(Eligible(rows, station, asOf), limit);
    ReverseIndex(newest);
  }

  lemma EligibleDescending(rows: seq<Row>, station: string, asOf: Option<int>)
    requires ValidRows(rows)
    ensures Descending(Eligible(rows, station, asOf))
  {
    StationDescending(rows, station);
    if asOf.Some? {
      EligibleIsFiltered(rows, station, asOf.value);
      WhereDescending(StationRows(rows, station), Before(asOf.value));
    } else {
      EligibleIsAll(rows, station);
    }
  }

  /** A row a read asks for: the station's, and strictly older than the time it is pinned to. */
  ghost predicate Asked(r: Row, station: string, asOf: Option<int>) {
    r.station == station && (asOf.None? || r.at < asOf.value)
  }

  lemma EligibleIffAsked(rows: seq<Row>, station: string, asOf: Option<int>, r: Row)
    requires ValidRows(rows)
    ensures r in Eligible(rows, station, asOf) <==> r in rows && Asked(r, station, asOf)
  {
    StationDescending(rows, station);
    if asOf.Some? {
      EligibleIsFiltered(rows, station, asOf.value);
    } else {
      EligibleIsAll(rows, station);
    }
  }

  /** A record comes from one of the rows a read asks for. */
  ghost predicate FromAsked(rec: Record, rows: seq<Row>, station: string, asOf: Option<int>) {
    exists r | r in rows :: Asked(r, station, asOf) && rec == Record(r.at, r.data)
  }

  ghost predicate AllAfter(a: seq<Record>, at: int) {
    forall i | 0 <= i < |a| :: a[i].at > at
  }

  /** An answer holds rows that were asked for, the limit at most. */
  lemma AnswerTold(rows: seq<Row>, station: string, limit: nat, asOf: Option<int>, i: nat)
    requires ValidRows(rows) && i < |Answer(rows, station, limit, asOf)|
    ensures |Answer(rows, station, limit, asOf)| <= limit
    ensures FromAsked(Answer(rows, station, limit, asOf)[i], rows, station, asOf)
  {
    var e, a := Eligible(rows, station, asOf), Answer(rows, station, limit, asOf);
    AnswerIndex(e, limit);
    RecordFrom(rows, e[|a| - 1 - i], station, asOf);
  }

  lemma RecordFrom(rows: seq<Row>, r: Row, station: string, asOf: Option<int>)
    requires ValidRows(rows) && r in Eligible(rows, station, asOf)
    ensures FromAsked(Record(r.at, r.data), rows, station, asOf)
  {
    EligibleIffAsked(rows, station, asOf, r);
  }

  /** A row asked for is in the answer, or the answer is full and all of it is newer. */
  lemma LeftOutTold(rows: seq<Row>, station: string, limit: nat, asOf: Option<int>, r: Row)
    requires ValidRows(rows) && r in rows && Asked(r, station, asOf)
    ensures var a := Answer(rows, station, limit, asOf);
            Record(r.at, r.data) in a || (|a| == limit && AllAfter(a, r.at))
  {
    EligibleDescending(rows, station, asOf);
    EligibleIffAsked(rows, station, asOf, r);
    InOrPassed(Eligible(rows, station, asOf), limit, r);
  }

  lemma AnswerIndex(e: seq<Row>, limit: nat)
    ensures var a := Records(Reverse(Limit(e, limit)));
            && |a| == (if limit < |e| then limit else |e|)
            && forall i | 0 <= i < |a| :: a[i] == Record(e[|a| - 1 - i].at, e[|a| - 1 - i].data)
  {
    ReverseIndex(Limit(e, limit));
  }

  lemma InOrPassed(e: seq<Row>, limit: nat, r: Row)
    requires Descending(e) && r in e
    ensures var a := Records(Reverse(Limit(e, limit)));
            Record(r.at, r.data) in a || (|a| == limit && AllAfter(a, r.at))
  {
    var a := Records(Reverse(Limit(e, limit)));
    AnswerIndex(e, limit);
    var j :| 0 <= j < |e| && e[j] == r;
    if j < |a| { assert a[|a| - 1 - j] == Record(r.at, r.data); }
  }
}
