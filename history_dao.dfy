/** The local store (Room's `HistoryDao`) as three in-memory tables.

    Every insert uses `OnConflictStrategy.REPLACE`: the rows that clash with
    the new one on the primary key `id` (and, for daily usage, on the unique
    index (uid, date)) are deleted and the new row is added. A row built with
    `id = 0` gets a fresh id from the table's AUTOINCREMENT counter, so for
    goal and tracking history, which have no other unique index, such an
    insert always appends.

    The `@Query` methods are functions over a table's rows. */
module HistoryStore {
  import opened Common
  import opened Query
  import opened Entities

  // ---------------------------------------------------------------------
  // Row identity and REPLACE
  // ---------------------------------------------------------------------

  /** The id stored for a row inserted with `given`: 0 asks for the counter. */
  function AssignedId(given: int, next: int): int {
    if given == 0 then next else given
  }

  /** AUTOINCREMENT: the counter stays above every id ever stored. */
  function NextId(next: int, stored: int): (r: int)
    ensures r > stored && r >= next
  {
    if stored >= next then stored + 1 else next
  }

  predicate SameDay(a: DailyUsageEntity, b: DailyUsageEntity) {
    a.uid == b.uid && a.date == b.date
  }

  /** The rows a REPLACE of `e` deletes from `daily_usage_history`. */
  predicate DailyClash(r: DailyUsageEntity, e: DailyUsageEntity) {
    r.id == e.id || SameDay(r, e)
  }

  /** The rows that survive a REPLACE keyed on the primary key only. */
  function IdDiffers<T>(id: T -> int, e: T): T -> bool {
    (r: T) => id(r) != id(e)
  }

  /** The daily rows that survive a REPLACE of `e`. */
  function NoDailyClash(e: DailyUsageEntity): DailyUsageEntity -> bool {
    (r: DailyUsageEntity) => !DailyClash(r, e)
  }

  /** The daily rows with the key (uid, date). */
  function DayKey(uid: string, date: string): DailyUsageEntity -> bool {
    (r: DailyUsageEntity) => r.uid == uid && r.date == date
  }

  /** The daily rows with another (uid, date) key. */
  function OtherDay(uid: string, date: string): DailyUsageEntity -> bool {
    (r: DailyUsageEntity) => !(r.uid == uid && r.date == date)
  }

  /** REPLACE into a table whose only unique key is the primary key. */
  function ReplaceById<T(!new)>(rows: seq<T>, id: T -> int, e: T): seq<T> {
    Filter(rows, IdDiffers(id, e)) + [e]
  }

  function ReplaceDaily(rows: seq<DailyUsageEntity>, e: DailyUsageEntity): seq<DailyUsageEntity> {
    Filter(rows, NoDailyClash(e)) + [e]
  }

  function ReplaceGoal(rows: seq<GoalHistoryEntity>, e: GoalHistoryEntity): seq<GoalHistoryEntity> {
    ReplaceById(rows, GoalId, e)
  }

  function ReplaceTracking(rows: seq<TrackingHistoryEntity>, e: TrackingHistoryEntity): seq<TrackingHistoryEntity> {
    ReplaceById(rows, TrackingId, e)
  }

  ghost predicate IdsBelow<T(!new)>(rows: seq<T>, id: T -> int, next: int) {
    forall x :: x in rows ==> id(x) < next
  }

  function IdsDiffer<T>(id: T -> int): (T, T) -> bool {
    (a: T, b: T) => id(a) != id(b)
  }

  function DaysDiffer(): (DailyUsageEntity, DailyUsageEntity) -> bool {
    (a: DailyUsageEntity, b: DailyUsageEntity) => !SameDay(a, b)
  }

  ghost predicate DistinctIds<T>(rows: seq<T>, id: T -> int) {
    Pairwise(rows, IdsDiffer(id))
  }

  ghost predicate UniqueDays(rows: seq<DailyUsageEntity>) {
    Pairwise(rows, DaysDiffer())
  }

  /** A table's invariant: distinct ids, all below the counter. */
  ghost predicate TableOk<T(!new)>(rows: seq<T>, id: T -> int, next: int) {
    DistinctIds(rows, id) && IdsBelow(rows, id, next)
  }

  /** Removing the rows with `e`'s id and appending `e` keeps the table
      invariant once the counter has moved past `e`'s id. */
  lemma {:induction false} ReplaceByIdKeepsTable<T(!new)>(rows: seq<T>, id: T -> int, next: int, e: T)
    requires TableOk(rows, id, next)
    ensures TableOk(ReplaceById(rows, id, e), id, NextId(next, id(e)))
  {
    var keep := IdDiffers(id, e);
    var f := Filter(rows, keep);
    FilterPairwise(rows, keep, IdsDiffer(id));
    var res := f + [e];
    forall i, j | 0 <= i < j < |res| ensures id(res[i]) != id(res[j]) {
      if j < |f| {
        assert IdsDiffer(id)(f[i], f[j]);
      } else {
        assert res[i] == f[i] && keep(f[i]);
      }
    }
    assert Pairwise(res, IdsDiffer(id));
  }

  /** With a fresh id nothing is deleted: the row is appended. */
  lemma FreshIdAppends<T(!new)>(rows: seq<T>, id: T -> int, next: int, e: T)
    requires IdsBelow(rows, id, next) && id(e) == next
    ensures ReplaceById(rows, id, e) == rows + [e]
  {
    forall i | 0 <= i < |rows| ensures IdDiffers(id, e)(rows[i]) {
      assert rows[i] in rows;
    }
    FilterAll(rows, IdDiffers(id, e));
  }

  lemma {:induction false} ReplaceDailyKeepsTable(rows: seq<DailyUsageEntity>, next: int, e: DailyUsageEntity)
    requires TableOk(rows, DailyId, next) && UniqueDays(rows)
    ensures TableOk(ReplaceDaily(rows, e), DailyId, NextId(next, e.id))
    ensures UniqueDays(ReplaceDaily(rows, e))
  {
    var keep := NoDailyClash(e);
    var f := Filter(rows, keep);
    FilterPairwise(rows, keep, IdsDiffer(DailyId));
    FilterPairwise(rows, keep, DaysDiffer());
    var res := f + [e];
    forall i, j | 0 <= i < j < |res|
      ensures DailyId(res[i]) != DailyId(res[j]) && !SameDay(res[i], res[j])
    {
      if j < |f| {
        assert IdsDiffer(DailyId)(f[i], f[j]) && DaysDiffer()(f[i], f[j]);
      } else {
        assert res[i] == f[i] && keep(f[i]);
      }
    }
    assert Pairwise(res, IdsDiffer(DailyId));
    assert Pairwise(res, DaysDiffer());
  }

  // ---------------------------------------------------------------------
  // What an upsert means
  // ---------------------------------------------------------------------

  /** After an upsert exactly one row has the key (uid, date), the new one,
      and `getDailyUsage` finds it. */
  lemma UpsertLeavesOneRow(rows: seq<DailyUsageEntity>, e: DailyUsageEntity)
    ensures e in ReplaceDaily(rows, e)
    ensures forall x :: x in ReplaceDaily(rows, e) && SameDay(x, e) ==> x == e
    ensures GetDailyUsage(ReplaceDaily(rows, e), e.uid, e.date) == Some(e)
  {
    var f := Filter(rows, NoDailyClash(e));
    var sel := DayKey(e.uid, e.date);
    var r := ReplaceDaily(rows, e);
    assert r == f + [e];
    FilterAppend(f, e, sel);
    forall i | 0 <= i < |f| ensures !sel(f[i]) {
      assert f[i] in f;
    }
    FilterNone(f, sel);
    assert Filter(r, sel) == [e];
    assert forall x :: x in r ==> x in f || x == e;
  }

  /** Rows with another key, and another id, survive an upsert; no other row
      appears. */
  lemma UpsertKeepsOtherRows(rows: seq<DailyUsageEntity>, e: DailyUsageEntity)
    ensures forall x :: x in rows && !DailyClash(x, e) ==> x in ReplaceDaily(rows, e)
    ensures forall x :: x in ReplaceDaily(rows, e) ==> x == e || (x in rows && !DailyClash(x, e))
  {
  }

  // ---------------------------------------------------------------------
  // The observable daily table: (uid, date) -> minutes per package
  // ---------------------------------------------------------------------

  /** The daily table as a map over its unique key; a later row wins. */
  function DailyView(rows: seq<DailyUsageEntity>): map<(string, string), map<string, int>> {
    if |rows| == 0 then map[]
    else
      var last := rows[|rows| - 1];
      DailyView(rows[..|rows| - 1])[(last.uid, last.date) := last.appUsages]
  }

  lemma {:induction false} DailyViewDrop(rows: seq<DailyUsageEntity>, uid: string, date: string)
    ensures DailyView(Filter(rows, OtherDay(uid, date))) == DailyView(rows) - {(uid, date)}
    decreases |rows|
  {
    if |rows| > 0 {
      DailyViewDrop(rows[..|rows| - 1], uid, date);
      DailyViewDropStep(rows, uid, date);
    }
  }

  /** One step of `DailyViewDrop`: the last row is dropped with its key or
      kept with another key. */
  lemma DailyViewDropStep(rows: seq<DailyUsageEntity>, uid: string, date: string)
    requires |rows| > 0
    requires DailyView(Filter(rows[..|rows| - 1], OtherDay(uid, date)))
          == DailyView(rows[..|rows| - 1]) - {(uid, date)}
    ensures DailyView(Filter(rows, OtherDay(uid, date))) == DailyView(rows) - {(uid, date)}
  {
    var init, last := rows[..|rows| - 1], rows[|rows| - 1];
    var keep := OtherDay(uid, date);
    var fi := Filter(init, keep);
    FilterLast(rows, keep);
    if keep(last) {
      DailyViewSnoc(fi, last);
      MapUpdateRemove(DailyView(init), (last.uid, last.date), last.appUsages, (uid, date));
    } else {
      MapUpdateRemove(DailyView(init), (uid, date), last.appUsages, (uid, date));
    }
  }

  /** Appending a row sets its key in the view. */
  lemma DailyViewSnoc(rows: seq<DailyUsageEntity>, x: DailyUsageEntity)
    ensures DailyView(rows + [x]) == DailyView(rows)[(x.uid, x.date) := x.appUsages]
  {
    assert (rows + [x])[..|rows|] == rows;
  }

  /** Removing a key commutes with setting another one, and undoes setting
      the same one. */
  lemma MapUpdateRemove<K, V>(m: map<K, V>, k: K, v: V, gone: K)
    ensures k != gone ==> m[k := v] - {gone} == (m - {gone})[k := v]
    ensures k == gone ==> m[k := v] - {gone} == m - {gone}
  {
  }

  /** An upsert with a fresh id sets one key of the view and no other. */
  lemma DailyViewReplaceFresh(rows: seq<DailyUsageEntity>, e: DailyUsageEntity)
    requires forall x :: x in rows ==> x.id != e.id
    ensures DailyView(ReplaceDaily(rows, e)) == DailyView(rows)[(e.uid, e.date) := e.appUsages]
  {
    var clash := NoDailyClash(e);
    var other := OtherDay(e.uid, e.date);
    forall i | 0 <= i < |rows| ensures clash(rows[i]) == other(rows[i]) {
      assert rows[i] in rows;
    }
    FilterSame(rows, clash, other);
    DailyViewDrop(rows, e.uid, e.date);
    var f := Filter(rows, clash);
    DailyViewSnoc(f, e);
    MapRemoveUpdate(DailyView(rows), (e.uid, e.date), e.appUsages);
  }

  lemma MapRemoveUpdate<K, V>(m: map<K, V>, k: K, v: V)
    ensures (m - {k})[k := v] == m[k := v]
  {
  }

  // ---------------------------------------------------------------------
  // The tables
  // ---------------------------------------------------------------------

  class HistoryDao {
    var daily: seq<DailyUsageEntity>
    var goals: seq<GoalHistoryEntity>
    var tracking: seq<TrackingHistoryEntity>
    var nextDailyId: int
    var nextGoalId: int
    var nextTrackingId: int

    ghost predicate Valid()
      reads this
    {
      TableOk(daily, DailyId, nextDailyId) && UniqueDays(daily)
      && TableOk(goals, GoalId, nextGoalId)
      && TableOk(tracking, TrackingId, nextTrackingId)
    }

    /** An empty database. */
    constructor ()
      ensures Valid()
      ensures daily == [] && goals == [] && tracking == []
      ensures nextDailyId == 1 && nextGoalId == 1 && nextTrackingId == 1
    {
      daily, goals, tracking := [], [], [];
      nextDailyId, nextGoalId, nextTrackingId := 1, 1, 1;
    }

    /** `upsertDailyUsage`: REPLACE on the primary key and on (uid, date). */
    method UpsertDailyUsage(usage: DailyUsageEntity)
      requires Valid()
      modifies this
      ensures Valid()
      ensures daily == ReplaceDaily(old(daily), usage.(id := AssignedId(usage.id, old(nextDailyId))))
      ensures nextDailyId == NextId(old(nextDailyId), AssignedId(usage.id, old(nextDailyId)))
      ensures usage.id == 0 ==>
        DailyView(daily) == old(DailyView(daily))[(usage.uid, usage.date) := usage.appUsages]
      ensures goals == old(goals) && tracking == old(tracking)
      ensures nextGoalId == old(nextGoalId) && nextTrackingId == old(nextTrackingId)
    {
      var row := usage.(id := AssignedId(usage.id, nextDailyId));
      ReplaceDailyKeepsTable(daily, nextDailyId, row);
      if usage.id == 0 {
        DailyViewReplaceFresh(daily, row);
      }
      daily := ReplaceDaily(daily, row);
      nextDailyId := NextId(nextDailyId, row.id);
    }

    /** `insertGoalHistory`: REPLACE on the primary key only, so a row with
        the default id 0 is always appended. */
    method InsertGoalHistory(goal: GoalHistoryEntity)
      requires Valid()
      modifies this
      ensures Valid()
      ensures goals == ReplaceGoal(old(goals), goal.(id := AssignedId(goal.id, old(nextGoalId))))
      ensures goal.id == 0 ==> goals == old(goals) + [goal.(id := old(nextGoalId))]
      ensures nextGoalId == NextId(old(nextGoalId), AssignedId(goal.id, old(nextGoalId)))
      ensures daily == old(daily) && tracking == old(tracking)
      ensures nextDailyId == old(nextDailyId) && nextTrackingId == old(nextTrackingId)
    {
      var row := goal.(id := AssignedId(goal.id, nextGoalId));
      ReplaceByIdKeepsTable(goals, GoalId, nextGoalId, row);
      if goal.id == 0 {
        FreshIdAppends(goals, GoalId, nextGoalId, row);
      }
      goals := ReplaceGoal(goals, row);
      nextGoalId := NextId(nextGoalId, row.id);
    }

    /** `insertTrackingHistory`: as for goals, id 0 appends. */
    method InsertTrackingHistory(history: TrackingHistoryEntity)
      requires Valid()
      modifies this
      ensures Valid()
      ensures tracking == ReplaceTracking(old(tracking), history.(id := AssignedId(history.id, old(nextTrackingId))))
      ensures history.id == 0 ==> tracking == old(tracking) + [history.(id := old(nextTrackingId))]
      ensures nextTrackingId == NextId(old(nextTrackingId), AssignedId(history.id, old(nextTrackingId)))
      ensures daily == old(daily) && goals == old(goals)
      ensures nextDailyId == old(nextDailyId) && nextGoalId == old(nextGoalId)
    {
      var row := history.(id := AssignedId(history.id, nextTrackingId));
      ReplaceByIdKeepsTable(tracking, TrackingId, nextTrackingId, row);
      if history.id == 0 {
        FreshIdAppends(tracking, TrackingId, nextTrackingId, row);
      }
      tracking := ReplaceTracking(tracking, row);
      nextTrackingId := NextId(nextTrackingId, row.id);
    }
  }

  // ---------------------------------------------------------------------
  // Queries
  // ---------------------------------------------------------------------

  predicate InRange(date: string, startDate: string, endDate: string) {
    StrLe(startDate, date) && StrLe(date, endDate)
  }

  /** `getDailyUsages`: the user's rows with `startDate <= date <= endDate`,
      ascending by date. */
  function GetDailyUsages(rows: seq<DailyUsageEntity>, uid: string, startDate: string, endDate: string)
    : (r: seq<DailyUsageEntity>)
    ensures forall x :: x in r <==> x in rows && x.uid == uid && InRange(x.date, startDate, endDate)
    ensures SortedBy(r, DailyDate, false)
    ensures multiset(r) <= multiset(rows)
  {
    var sel := Filter(rows, (x: DailyUsageEntity) => x.uid == uid && InRange(x.date, startDate, endDate));
    SortByMembers(sel, DailyDate, false);
    SortBy(sel, DailyDate, false)
  }

  /** `getDailyUsage`: the row for (uid, date), if there is one. */
  function GetDailyUsage(rows: seq<DailyUsageEntity>, uid: string, date: string): (r: Option<DailyUsageEntity>)
    ensures r.None? <==> forall x :: x in rows ==> !(x.uid == uid && x.date == date)
    ensures r.Some? ==> r.value in rows && r.value.uid == uid && r.value.date == date
  {
    var sel := Filter(rows, DayKey(uid, date));
    if |sel| == 0 then None else Some(sel[0])
  }

  /** The rows of one user. */
  function OfUser(uid: string): DailyUsageEntity -> bool {
    (x: DailyUsageEntity) => x.uid == uid
  }

  /** `getRecentDailyUsages`: the user's `limit` most recent rows, newest
      first; all of them when the user has fewer, and all of them for a
      negative limit, which SQLite reads as no limit. */
  function GetRecentDailyUsages(rows: seq<DailyUsageEntity>, uid: string, limit: int): (r: seq<DailyUsageEntity>)
    ensures forall x :: x in r ==> x in rows && x.uid == uid
    ensures multiset(r) <= multiset(rows)
    ensures var n := |Filter(rows, OfUser(uid))|;
      limit >= 0 ==> |r| == if limit < n then limit else n
    ensures SortedBy(r, DailyDate, true)
    ensures forall x, y :: x in rows && x.uid == uid && x !in r && y in r ==> StrLe(x.date, y.date)
    ensures limit < 0 ==> forall x :: x in rows && x.uid == uid ==> x in r
  {
    var sel := Filter(rows, OfUser(uid));
    var sorted := SortBy(sel, DailyDate, true);
    SortByMembers(sel, DailyDate, true);
    TakeSortedKeepsFirst(sorted, DailyDate, true, limit);
    TakeMultiset(sorted, limit);
    var r := Take(sorted, limit);
    assert multiset(r) <= multiset(sel);
    r
  }

  /** The rows `getEffectiveAppGoal(uid, packageName, targetDate)` chooses among. */
  predicate AppGoalCandidate(x: GoalHistoryEntity, uid: string, packageName: string, targetDate: string) {
    x.uid == uid && x.packageName == Some(packageName) && StrLe(x.effectiveDate, targetDate)
  }

  /** The rows `getEffectiveOverallGoal(uid, targetDate)` chooses among. */
  predicate OverallGoalCandidate(x: GoalHistoryEntity, uid: string, targetDate: string) {
    x.uid == uid && x.packageName.None? && StrLe(x.effectiveDate, targetDate)
  }

  /** `getEffectiveAppGoal`: a per-app goal row of the package with the
      greatest `effectiveDate <= targetDate` (any of them on a tie), or none. */
  function GetEffectiveAppGoal(rows: seq<GoalHistoryEntity>, uid: string, packageName: string, targetDate: string)
    : (r: Option<GoalHistoryEntity>)
    ensures r.None? <==> forall x :: x in rows ==> !AppGoalCandidate(x, uid, packageName, targetDate)
    ensures r.Some? ==> r.value in rows && AppGoalCandidate(r.value, uid, packageName, targetDate)
    ensures r.Some? ==> forall x :: x in rows && AppGoalCandidate(x, uid, packageName, targetDate) ==>
                          StrLe(x.effectiveDate, r.value.effectiveDate)
  {
    var sel := Filter(rows, (x: GoalHistoryEntity) => AppGoalCandidate(x, uid, packageName, targetDate));
    assert |sel| == 0 ==> forall x :: x in rows ==> !AppGoalCandidate(x, uid, packageName, targetDate);
    Latest(sel, GoalDate)
  }

  /** `getEffectiveOverallGoal`: the same rule over the overall-goal rows
      (`packageName IS NULL`). */
  function GetEffectiveOverallGoal(rows: seq<GoalHistoryEntity>, uid: string, targetDate: string)
    : (r: Option<GoalHistoryEntity>)
    ensures r.None? <==> forall x :: x in rows ==> !OverallGoalCandidate(x, uid, targetDate)
    ensures r.Some? ==> r.value in rows && OverallGoalCandidate(r.value, uid, targetDate)
    ensures r.Some? ==> forall x :: x in rows && OverallGoalCandidate(x, uid, targetDate) ==>
                          StrLe(x.effectiveDate, r.value.effectiveDate)
  {
    var sel := Filter(rows, (x: GoalHistoryEntity) => OverallGoalCandidate(x, uid, targetDate));
    assert |sel| == 0 ==> forall x :: x in rows ==> !OverallGoalCandidate(x, uid, targetDate);
    Latest(sel, GoalDate)
  }

  /** `getGoalHistoryInRange`: the user's goal rows dated in [startDate,
      endDate], ascending. */
  function GetGoalHistoryInRange(rows: seq<GoalHistoryEntity>, uid: string, startDate: string, endDate: string)
    : (r: seq<GoalHistoryEntity>)
    ensures forall x :: x in r <==> x in rows && x.uid == uid && InRange(x.effectiveDate, startDate, endDate)
    ensures SortedBy(r, GoalDate, false)
    ensures multiset(r) <= multiset(rows)
  {
    var sel := Filter(rows, (x: GoalHistoryEntity) => x.uid == uid && InRange(x.effectiveDate, startDate, endDate));
    SortByMembers(sel, GoalDate, false);
    SortBy(sel, GoalDate, false)
  }

  predicate TrackingCandidate(x: TrackingHistoryEntity, uid: string, targetDate: string) {
    x.uid == uid && StrLe(x.effectiveDate, targetDate)
  }

  /** `getEffectiveTrackingHistory`: the user's tracking row with the
      greatest `effectiveDate <= targetDate`, or none. */
  function GetEffectiveTrackingHistory(rows: seq<TrackingHistoryEntity>, uid: string, targetDate: string)
    : (r: Option<TrackingHistoryEntity>)
    ensures r.None? <==> forall x :: x in rows ==> !TrackingCandidate(x, uid, targetDate)
    ensures r.Some? ==> r.value in rows && TrackingCandidate(r.value, uid, targetDate)
    ensures r.Some? ==> forall x :: x in rows && TrackingCandidate(x, uid, targetDate) ==>
                          StrLe(x.effectiveDate, r.value.effectiveDate)
  {
    var sel := Filter(rows, (x: TrackingHistoryEntity) => TrackingCandidate(x, uid, targetDate));
    assert |sel| == 0 ==> forall x :: x in rows ==> !TrackingCandidate(x, uid, targetDate);
    Latest(sel, TrackingDate)
  }

  /** `getTrackingHistoryInRange`: the user's tracking rows dated in
      [startDate, endDate], ascending. */
  function GetTrackingHistoryInRange(rows: seq<TrackingHistoryEntity>, uid: string, startDate: string, endDate: string)
    : (r: seq<TrackingHistoryEntity>)
    ensures forall x :: x in r <==> x in rows && x.uid == uid && InRange(x.effectiveDate, startDate, endDate)
    ensures SortedBy(r, TrackingDate, false)
    ensures multiset(r) <= multiset(rows)
  {
    var sel := Filter(rows, (x: TrackingHistoryEntity) => x.uid == uid && InRange(x.effectiveDate, startDate, endDate));
    SortByMembers(sel, TrackingDate, false);
    SortBy(sel, TrackingDate, false)
  }

  /** `getLatestTrackingHistory`: the user's tracking row with the greatest
      `effectiveDate` of all, whatever today is. */
  function GetLatestTrackingHistory(rows: seq<TrackingHistoryEntity>, uid: string): (r: Option<TrackingHistoryEntity>)
    ensures r.None? <==> forall x :: x in rows ==> x.uid != uid
    ensures r.Some? ==> r.value in rows && r.value.uid == uid
    ensures r.Some? ==> forall x :: x in rows && x.uid == uid ==> StrLe(x.effectiveDate, r.value.effectiveDate)
  {
    var sel := Filter(rows, (x: TrackingHistoryEntity) => x.uid == uid);
    assert |sel| == 0 ==> forall x :: x in rows ==> x.uid != uid;
    Latest(sel, TrackingDate)
  }

  // ---------------------------------------------------------------------
  // The temporal ledger
  // ---------------------------------------------------------------------

  /** Latest-as-of is a ledger lookup: once a newer goal row for the package
      is appended, every target date on or after its date resolves to a row
      dated no earlier than it, and earlier dates are not affected. */
  lemma AppendedGoalSupersedes(rows: seq<GoalHistoryEntity>, g: GoalHistoryEntity, targetDate: string)
    requires g.packageName.Some? && StrLe(g.effectiveDate, targetDate)
    ensures var r := GetEffectiveAppGoal(rows + [g], g.uid, g.packageName.value, targetDate);
      r.Some? && StrLe(g.effectiveDate, r.value.effectiveDate)
  {
    assert g in rows + [g];
  }

  lemma AppendedGoalKeepsEarlierDates(rows: seq<GoalHistoryEntity>, g: GoalHistoryEntity, targetDate: string)
    requires !StrLe(g.effectiveDate, targetDate)
    ensures forall p :: GetEffectiveAppGoal(rows + [g], g.uid, p, targetDate).None?
                    == GetEffectiveAppGoal(rows, g.uid, p, targetDate).None?
  {
    forall p ensures GetEffectiveAppGoal(rows + [g], g.uid, p, targetDate).None?
                  == GetEffectiveAppGoal(rows, g.uid, p, targetDate).None? {
      assert forall x :: x in rows + [g] ==> x in rows || x == g;
    }
  }

  /** The worked example of the ledger: goals of 30 minutes from 2024-01-01
      and 45 minutes from 2024-01-10. */
  function ExampleLedger(uid: string): seq<GoalHistoryEntity> {
    [GoalHistoryEntity(1, uid, "2024-01-01", Some("app.a"), 30),
     GoalHistoryEntity(2, uid, "2024-01-10", Some("app.a"), 45)]
  }

  /** The order of the dates of the example, decided by the first
      character that differs. */
  lemma LaterDateOrder()
    ensures StrLe("2024-01-10", "2024-01-15") && !StrLe("2024-01-10", "2024-01-01")
  {
    StrLeConcat("2024-01-", "10", "2024-01-", "15");
    StrLeConcat("2024-01-", "10", "2024-01-", "01");
  }

  lemma EarlierDateOrder()
    ensures StrLe("2024-01-01", "2024-01-05") && !StrLe("2024-01-10", "2024-01-05")
  {
    StrLeConcat("2024-01-0", "1", "2024-01-0", "5");
    StrLeConcat("2024-01-", "10", "2024-01-", "05");
  }

  /** On 2024-01-15 the later goal, 45 minutes, is in force. */
  lemma LedgerExampleLater(uid: string)
    ensures var r := GetEffectiveAppGoal(ExampleLedger(uid), uid, "app.a", "2024-01-15");
      r.Some? && r.value.goalMinutes == 45
  {
    var rows := ExampleLedger(uid);
    LaterDateOrder();
    assert AppGoalCandidate(rows[1], uid, "app.a", "2024-01-15");
    var r := GetEffectiveAppGoal(rows, uid, "app.a", "2024-01-15");
    assert r.value in rows;
    assert r.value == rows[1];
  }

  /** On 2024-01-05 only the earlier goal, 30 minutes, is in force. */
  lemma LedgerExampleEarlier(uid: string)
    ensures var r := GetEffectiveAppGoal(ExampleLedger(uid), uid, "app.a", "2024-01-05");
      r.Some? && r.value.goalMinutes == 30
  {
    var rows := ExampleLedger(uid);
    EarlierDateOrder();
    assert AppGoalCandidate(rows[0], uid, "app.a", "2024-01-05");
    var r := GetEffectiveAppGoal(rows, uid, "app.a", "2024-01-05");
    assert r.value in rows;
  }

  /** Before the first goal nothing is in force. */
  lemma LedgerExampleNone(uid: string)
    ensures GetEffectiveAppGoal(ExampleLedger(uid), uid, "app.a", "2000-01-01").None?
  {
    var rows := ExampleLedger(uid);
    assert !StrLe("2024-01-01", "2000-01-01") && !StrLe("2024-01-10", "2000-01-01");
    assert forall x :: x in rows ==> x == rows[0] || x == rows[1];
  }
}
