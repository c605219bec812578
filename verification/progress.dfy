/** The progress agent's bookkeeping (agents/progress_agent.py): the day
    number of a new log entry, the entry itself, the trends over a user's
    entries and the summary built from them. The progress file is a
    sequence of rows; a missing cell is `None`. */
module Progress {
  import opened Values
  import opened Seqs

  /** One row of the progress file. */
  datatype Row = Row(
    userId: string,
    timestamp: string,
    day: Option<int>,
    weight: Option<real>,
    height: Option<real>,
    workoutCompleted: Option<bool>,
    durationMin: Option<real>,
    caloriesBurned: Option<real>,
    waist: Option<real>,
    chest: Option<real>)

  /** The rows of one user, in file order. */
  function LoadProgress(store: seq<Row>, user: string): (r: seq<Row>)
    ensures |r| <= |store|
    ensures forall row :: row in r <==> row in store && row.userId == user
  {
    var r := Filter(store, (row: Row) => row.userId == user);
    forall row | row in store && row.userId == user
      ensures row in r
    {
      FilterKeeps(store, (row: Row) => row.userId == user, row);
    }
    r
  }

  /** Appending a row adds it to its own user's rows only. */
  lemma LoadAfterAppend(store: seq<Row>, row: Row, user: string)
    ensures LoadProgress(store + [row], user)
            == LoadProgress(store, user) + (if row.userId == user then [row] else [])
  {
    FilterAppend(store, row, (row: Row) => row.userId == user);
  }

  // ---------------------------------------------------------------------
  // Day numbering

  /** The day numbers already present in a user's rows. */
  function UsedDays(store: seq<Row>, user: string): set<int> {
    set row | row in store && row.userId == user && row.day.Some? :: row.day.value
  }

  /** The first day in `d..7` that is not used, or 1 when there is none. */
  function FirstFree(used: set<int>, d: int): (r: int)
    requires 1 <= d <= 8
    ensures 1 <= r <= 7
    ensures (forall k :: d <= k <= 7 ==> k in used) ==> r == 1
    ensures (exists k :: d <= k <= 7 && k !in used) ==>
              d <= r && r !in used && forall k :: d <= k < r ==> k in used
    decreases 8 - d
  {
    if d == 8 then 1
    else if d !in used then d
    else FirstFree(used, d + 1)
  }

  /** `_next_day`: the smallest day of the week this user has not logged. */
  function NextDay(store: seq<Row>, user: string): int {
    FirstFree(UsedDays(store, user), 1)
  }

  /** The next day is in 1..7; it is the smallest unused one, or 1 once all
      seven are used. */
  lemma NextDaySpec(store: seq<Row>, user: string)
    ensures 1 <= NextDay(store, user) <= 7
    ensures NextDay(store, user) !in UsedDays(store, user) ==>
              forall k :: 1 <= k < NextDay(store, user) ==> k in UsedDays(store, user)
    ensures (exists k :: 1 <= k <= 7 && k !in UsedDays(store, user)) ==>
              NextDay(store, user) !in UsedDays(store, user)
    ensures (forall k :: 1 <= k <= 7 ==> k in UsedDays(store, user)) ==> NextDay(store, user) == 1
  {
  }

  /** Other users' rows do not influence the day. */
  lemma NextDayIgnoresOthers(store: seq<Row>, row: Row, user: string)
    requires row.userId != user
    ensures NextDay(store + [row], user) == NextDay(store, user)
  {
    assert UsedDays(store + [row], user) == UsedDays(store, user);
  }

  /** A user with no rows starts on day 1. */
  lemma FirstDayIsOne(store: seq<Row>, user: string)
    requires forall i :: 0 <= i < |store| ==> store[i].userId != user
    ensures NextDay(store, user) == 1
  {
    assert 1 !in UsedDays(store, user);
  }

  /** When days 1..k-1 are exactly the used ones, the next day is k. */
  lemma NextDayAfterPrefix(store: seq<Row>, user: string, k: int)
    requires 1 <= k <= 7
    requires forall d :: d in UsedDays(store, user) <==> 1 <= d < k
    ensures NextDay(store, user) == k
  {
    assert k !in UsedDays(store, user);
  }

  /** Once every day of the week is used the day stays 1: it does not
      cycle on to 2. */
  lemma NextDayStaysAtOne(store: seq<Row>, user: string, row: Row)
    requires forall k :: 1 <= k <= 7 ==> k in UsedDays(store, user)
    ensures NextDay(store, user) == 1
    ensures NextDay(store + [row], user) == 1
  {
    assert UsedDays(store, user) <= UsedDays(store + [row], user);
  }

  // ---------------------------------------------------------------------
  // Logging

  /** A numeric form field: a number, or `None` when absent or null. */
  function Number(m: Object, key: string): Option<real> {
    if key in m && m[key].Num? then Some(m[key].n) else None
  }

  /** `data.get('workout_completed', True)`. */
  function Completed(m: Object): Option<bool> {
    if "workout_completed" !in m then Some(true)
    else if m["workout_completed"].Bool? then Some(m["workout_completed"].b)
    else None
  }

  /** The entry `log_progress` appends; a `body_measurements` value that is
      not a dictionary makes its `.get` raise. */
  function LogEntry(store: seq<Row>, user: string, data: Object, timestamp: string): (r: Result<Row>)
    ensures r.Ok? <==> ObjectOr(data, "body_measurements").Ok?
    ensures r.Ok? ==> r.value.userId == user && r.value.timestamp == timestamp
    ensures r.Ok? ==> r.value.day == Some(NextDay(store, user))
    ensures r.Ok? ==> r.value.weight == Number(data, "weight") && r.value.height == Number(data, "height")
    ensures r.Ok? ==> r.value.durationMin == Number(data, "duration_min")
                      && r.value.caloriesBurned == Number(data, "calories_burned")
    ensures r.Ok? && "workout_completed" !in data ==> r.value.workoutCompleted == Some(true)
    ensures r.Ok? && "workout_completed" in data && data["workout_completed"].Bool? ==>
              r.value.workoutCompleted == Some(data["workout_completed"].b)
    ensures r.Ok? && "body_measurements" !in data ==> r.value.waist.None? && r.value.chest.None?
    ensures r.Ok? && "body_measurements" in data ==>
              && data["body_measurements"].Obj?
              && r.value.waist == Number(data["body_measurements"].fields, "waist")
              && r.value.chest == Number(data["body_measurements"].fields, "chest")
  {
    var measurements :- ObjectOr(data, "body_measurements");
    Ok(Row(user, timestamp, Some(NextDay(store, user)), Number(data, "weight"), Number(data, "height"),
           Completed(data), Number(data, "duration_min"), Number(data, "calories_burned"),
           Number(measurements, "waist"), Number(measurements, "chest")))
  }

  /** The outcome `log_progress` returns. */
  datatype Status = Success | Failure(error: Error)

  /** `log_progress`: append the entry to the file, or report the error
      and leave the file as it was. */
  function LogProgress(store: seq<Row>, user: string, data: Object, timestamp: string): (r: (Status, seq<Row>))
    ensures r.0.Success? <==> LogEntry(store, user, data, timestamp).Ok?
    ensures r.0.Success? ==> r.1 == store + [LogEntry(store, user, data, timestamp).value]
    ensures r.0.Failure? ==> r.1 == store
  {
    match LogEntry(store, user, data, timestamp)
    case Ok(row) => (Success, store + [row])
    case Err(e) => (Failure(e), store)
  }

  /** Logging adds exactly one row for the user, numbered with the day that
      was free, after which that day is used. */
  lemma LogAddsOneRow(store: seq<Row>, user: string, data: Object, timestamp: string, other: string)
    requires LogProgress(store, user, data, timestamp).0.Success?
    ensures var after := LogProgress(store, user, data, timestamp).1;
            && LoadProgress(after, user) == LoadProgress(store, user) + [LogEntry(store, user, data, timestamp).value]
            && (other != user ==> LoadProgress(after, other) == LoadProgress(store, other))
            && NextDay(store, user) in UsedDays(after, user)
  {
    var row := LogEntry(store, user, data, timestamp).value;
    LoadAfterAppend(store, row, user);
    LoadAfterAppend(store, row, other);
    assert row in store + [row];
  }

  /** Seven logs in a row from no rows number the entries 1, 2, ..., 7: the
      k-th log of a user whose used days are 1..k-1 gets day k and leaves
      1..k used. */
  lemma LogWeek(store: seq<Row>, user: string, data: Object, timestamp: string, k: int)
    requires 1 <= k <= 7
    requires forall d :: d in UsedDays(store, user) <==> 1 <= d < k
    requires LogProgress(store, user, data, timestamp).0.Success?
    ensures LogEntry(store, user, data, timestamp).value.day == Some(k)
    ensures forall d :: d in UsedDays(LogProgress(store, user, data, timestamp).1, user) <==> 1 <= d <= k
  {
    NextDayAfterPrefix(store, user, k);
    var row := LogEntry(store, user, data, timestamp).value;
    var after := store + [row];
    assert UsedDays(after, user) == UsedDays(store, user) + {k} by {
      assert row in after;
      forall x | x in UsedDays(after, user)
        ensures x in UsedDays(store, user) + {k}
      {
        var w :| w in after && w.userId == user && w.day.Some? && w.day.value == x;
        if w != row {
          assert w in store;
        }
      }
    }
  }

  // ---------------------------------------------------------------------
  // Trends

  /** The body measures with a trend. */
  datatype Measure = Weight | Waist | Chest

  function MeasureOf(row: Row, m: Measure): Option<real> {
    match m
    case Weight => row.weight
    case Waist => row.waist
    case Chest => row.chest
  }

  /** The non-missing values of a measure, in file order. */
  function Observations(rows: seq<Row>, m: Measure): (r: seq<real>)
    ensures |r| <= |rows|
    decreases |rows|
  {
    if |rows| == 0 then []
    else
      Observations(rows[..|rows| - 1], m)
      + (match MeasureOf(rows[|rows| - 1], m) case Some(x) => [x] case None => [])
  }

  /** The first-to-last change of a measure. */
  datatype Trend = Trend(start: real, end: real, change: real, changePercent: real)

  /** A trend needs at least two observations; the change is last minus
      first, and the percentage is taken against the first value unless
      that is zero. */
  function TrendOf(obs: seq<real>): (r: Option<Trend>)
    ensures r.Some? <==> |obs| >= 2
    ensures r.Some? ==> r.value.start == obs[0] && r.value.end == obs[|obs| - 1]
    ensures r.Some? ==> r.value.start + r.value.change == r.value.end
    ensures r.Some? && obs[0] != 0.0 ==> r.value.changePercent * obs[0] == r.value.change * 100.0
    ensures r.Some? && obs[0] == 0.0 ==> r.value.changePercent == 0.0
  {
    if |obs| < 2 then None
    else
      var start, end := obs[0], obs[|obs| - 1];
      var change := end - start;
      Some(Trend(start, end, change, if start != 0.0 then change / start * 100.0 else 0.0))
  }

  /** The step-by-step changes between successive observations. */
  function SumOfSteps(obs: seq<real>): real
    decreases |obs|
  {
    if |obs| < 2 then 0.0 else obs[1] - obs[0] + SumOfSteps(obs[1..])
  }

  /** The overall change is the sum of the changes between successive
      entries. */
  lemma {:induction false} ChangeIsSumOfSteps(obs: seq<real>)
    requires |obs| >= 2
    ensures TrendOf(obs).value.change == SumOfSteps(obs)
    decreases |obs|
  {
    if |obs| > 2 {
      ChangeIsSumOfSteps(obs[1..]);
      assert obs[1..][|obs[1..]| - 1] == obs[|obs| - 1];
    }
  }

  /** Logging a new measurement keeps the trend's start and moves its end
      to the new value. */
  lemma TrendAfterLog(rows: seq<Row>, row: Row, m: Measure)
    requires |Observations(rows, m)| >= 1
    requires MeasureOf(row, m).Some?
    ensures TrendOf(Observations(rows + [row], m)).Some?
    ensures TrendOf(Observations(rows + [row], m)).value.start == Observations(rows, m)[0]
    ensures TrendOf(Observations(rows + [row], m)).value.end == MeasureOf(row, m).value
  {
    assert (rows + [row])[..|rows|] == rows;
  }

  /** How often a workout is marked completed, and how often it is marked
      at all. */
  function CompletedCount(rows: seq<Row>): (r: nat)
    ensures r <= MarkedCount(rows)
    decreases |rows|
  {
    if |rows| == 0 then 0
    else CompletedCount(rows[1..]) + (if rows[0].workoutCompleted == Some(true) then 1 else 0)
  }

  function MarkedCount(rows: seq<Row>): (r: nat)
    ensures r <= |rows|
    decreases |rows|
  {
    if |rows| == 0 then 0
    else MarkedCount(rows[1..]) + (if rows[0].workoutCompleted.Some? then 1 else 0)
  }

  /** Python's `round(x)`: the nearest integer, ties to the even one. */
  function RoundHalfEven(x: real): (r: int)
    ensures (r as real) - 0.5 <= x <= (r as real) + 0.5
    ensures x - (x.Floor as real) != 0.5 ==> r == x.Floor || r == x.Floor + 1
    ensures x - (x.Floor as real) == 0.5 ==> r % 2 == 0
  {
    var f := x.Floor;
    var frac := x - f as real;
    if frac < 0.5 then f
    else if frac > 0.5 then f + 1
    else if f % 2 == 0 then f
    else f + 1
  }

  /** Rounding a value in an integer range stays in the range. */
  lemma RoundInRange(x: real, lo: int, hi: int)
    requires lo as real <= x <= hi as real
    ensures lo <= RoundHalfEven(x) <= hi
  {
  }

  /** A count out of a positive total gives a mean in [0, 1]. */
  lemma MeanBounds(count: real, total: real)
    requires 0.0 <= count <= total && total > 0.0
    ensures 0.0 <= count / total <= 1.0
    ensures count == total ==> count / total == 1.0
    ensures count == 0.0 ==> count / total == 0.0
  {
    assert count / total * total == count;
  }

  /** The completion rate: the mean of the marks times 100, rounded; the
      mean of no marks is `NaN`, which `round` rejects. */
  function CompletionRate(rows: seq<Row>): (r: Option<int>)
    ensures r.Some? <==> MarkedCount(rows) > 0
    ensures r.Some? ==> 0 <= r.value <= 100
    ensures r.Some? && CompletedCount(rows) == MarkedCount(rows) ==> r.value == 100
    ensures r.Some? && CompletedCount(rows) == 0 ==> r.value == 0
    ensures r.Some? ==>
              var mean := CompletedCount(rows) as real / MarkedCount(rows) as real;
              (r.value as real) - 0.5 <= mean * 100.0 <= (r.value as real) + 0.5
  {
    if MarkedCount(rows) == 0 then None
    else
      var mean := CompletedCount(rows) as real / MarkedCount(rows) as real;
      MeanBounds(CompletedCount(rows) as real, MarkedCount(rows) as real);
      RoundInRange(mean * 100.0, 0, 100);
      Some(RoundHalfEven(mean * 100.0))
  }

  /** `_analyze_trends`. */
  datatype Trends = Trends(weight: Option<Trend>, waist: Option<Trend>, chest: Option<Trend>, completionRate: int)

  function AnalyzeTrends(rows: seq<Row>): (r: Option<Trends>)
    ensures r.Some? <==> MarkedCount(rows) > 0
    ensures r.Some? ==> r.value.weight == TrendOf(Observations(rows, Weight))
                        && r.value.waist == TrendOf(Observations(rows, Waist))
                        && r.value.chest == TrendOf(Observations(rows, Chest))
                        && 0 <= r.value.completionRate <= 100
                        && Some(r.value.completionRate) == CompletionRate(rows)
  {
    match CompletionRate(rows)
    case None => None
    case Some(rate) =>
      Some(Trends(TrendOf(Observations(rows, Weight)), TrendOf(Observations(rows, Waist)),
                  TrendOf(Observations(rows, Chest)), rate))
  }

  // ---------------------------------------------------------------------
  // Summary

  /** The fields of the last entry a summary shows. */
  datatype LastEntry = LastEntry(
    timestamp: string, weight: Option<real>, height: Option<real>,
    durationMin: Option<real>, caloriesBurned: Option<real>, waist: Option<real>, chest: Option<real>)

  function Shown(row: Row): LastEntry {
    LastEntry(row.timestamp, row.weight, row.height, row.durationMin, row.caloriesBurned, row.waist, row.chest)
  }

  datatype Summary =
    | NoData
    | AnalysisFailed
    | Report(lastEntry: LastEntry, recentProgress: seq<Row>, trends: Trends, totalSessions: nat)

  /** `get_summary`. */
  function GetSummary(store: seq<Row>, user: string): (r: Summary)
    ensures r.NoData? <==> forall i :: 0 <= i < |store| ==> store[i].userId != user
    ensures r.Report? ==>
              var rows := LoadProgress(store, user);
              && r.totalSessions == |rows| > 0
              && r.lastEntry == Shown(rows[|rows| - 1])
              && |r.recentProgress| == (if |rows| < 5 then |rows| else 5)
              && r.recentProgress == rows[|rows| - |r.recentProgress|..]
              && r.trends.weight == TrendOf(Observations(rows, Weight))
              && r.trends.waist == TrendOf(Observations(rows, Waist))
              && r.trends.chest == TrendOf(Observations(rows, Chest))
              && Some(r.trends.completionRate) == CompletionRate(rows)
    ensures r.AnalysisFailed? <==>
              |LoadProgress(store, user)| > 0 && MarkedCount(LoadProgress(store, user)) == 0
  {
    var rows := LoadProgress(store, user);
    if |rows| == 0 then
      assert forall i :: 0 <= i < |store| ==> store[i] in store;
      NoData
    else
      match AnalyzeTrends(rows)
      case None => AnalysisFailed
      case Some(trends) => Report(Shown(rows[|rows| - 1]), LastN(rows, 5), trends, |rows|)
  }

  /** Three weigh-ins of 80, 78 and 76 kg: a change of -4 kg, or -5%. */
  lemma WeightLossExample(a: Row, b: Row, c: Row)
    requires a.weight == Some(80.0) && b.weight == Some(78.0) && c.weight == Some(76.0)
    ensures TrendOf(Observations([a, b, c], Weight)) == Some(Trend(80.0, 76.0, -4.0, -5.0))
  {
    assert [a, b, c][..2] == [a, b];
    assert [a, b][..1] == [a];
    assert [a][..0] == [];
    assert Observations([a], Weight) == [80.0];
    assert Observations([a, b], Weight) == [80.0, 78.0];
    assert Observations([a, b, c], Weight) == [80.0, 78.0, 76.0];
  }
}
