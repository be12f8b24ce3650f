/** The in-memory values the repository publishes and the view model reads:
    one day of usage (`DailyUsage`) and one application's row of the main
    screen (`AppUsage`). The label and icon of `AppUsage` are platform
    lookups and are not part of this model. */
module UsageModel {
  import opened Common

  /** One day of usage minutes per package; `date` is "YYYY-MM-DD". */
  datatype DailyUsage = DailyUsage(date: string, appUsages: map<string, int>)

  /** One application as shown: today's minutes, its goal and its signed
      streak. */
  datatype AppUsage = AppUsage(packageName: string, currentUsage: int, goalTime: int, streak: int)

  function DayDate(d: DailyUsage): string { d.date }

  /** `values.sum()` of a map. Summation does not depend on the order the
      entries are visited in, which `MapSumPick` states. */
  ghost function MapSum(m: map<string, int>): int
    decreases |m.Keys|
  {
    if m == map[] then 0
    else
      var k :| k in m;
      assert (m - {k}).Keys == m.Keys - {k};
      m[k] + MapSum(m - {k})
  }

  /** Any entry may be taken first. */
  lemma {:induction false} MapSumPick(m: map<string, int>, k: string)
    requires k in m
    ensures MapSum(m) == m[k] + MapSum(m - {k})
    decreases |m.Keys|
  {
    var j :| j in m && MapSum(m) == m[j] + MapSum(m - {j});
    if j != k {
      assert (m - {j}).Keys == m.Keys - {j};
      assert (m - {k}).Keys == m.Keys - {k};
      MapSumPick(m - {j}, k);
      MapSumPick(m - {k}, j);
      assert m - {j} - {k} == m - {k} - {j};
    }
  }

  /** A sum of values that are never negative is never negative. */
  lemma {:induction false} MapSumNonNegative(m: map<string, int>)
    requires forall k :: k in m ==> m[k] >= 0
    ensures MapSum(m) >= 0
    decreases |m.Keys|
  {
    if m != map[] {
      var k :| k in m;
      MapSumPick(m, k);
      assert (m - {k}).Keys == m.Keys - {k};
      MapSumNonNegative(m - {k});
    }
  }

  /** The entries of a day that count toward the tracked total: every entry
      when nothing is tracked, otherwise those of tracked packages. */
  function TrackedPart(m: map<string, int>, tracked: set<string>): (r: map<string, int>)
    ensures forall k :: k in r <==> k in m && (tracked == {} || k in tracked)
  {
    map k | k in m && (tracked == {} || k in tracked) :: m[k]
  }

  /** `appUsages.filterKeys { tracked.isEmpty() || it in tracked }.values.sum()`. */
  ghost function TrackedUsage(m: map<string, int>, tracked: set<string>): int {
    MapSum(TrackedPart(m, tracked))
  }

  /** The same sum, computed entry by entry as the library's `sum()` does. */
  method SumTracked(m: map<string, int>, tracked: set<string>) returns (sum: int)
    ensures sum == TrackedUsage(m, tracked)
  {
    var part := TrackedPart(m, tracked);
    sum := 0;
    var rest := part;
    while rest != map[]
      invariant sum + MapSum(rest) == MapSum(part)
      decreases |rest.Keys|
    {
      var k :| k in rest;
      MapSumPick(rest, k);
      assert (rest - {k}).Keys == rest.Keys - {k};
      sum := sum + rest[k];
      rest := rest - {k};
    }
  }
}
