/** The data-loading step of `UsageRepository.loadRealData`: today's minutes
    are filtered into the stored record, the stored history is read back,
    per-package streaks are computed over the past days and extended by
    today's outcome, and one `AppUsage` is published per known package. */
module Repository {
  import opened Common
  import opened Query
  import opened Entities
  import opened HistoryStore
  import opened UsageModel
  import opened UsageEvents
  import opened Streaks

  // ---------------------------------------------------------------------
  // Today's stored record
  // ---------------------------------------------------------------------

  /** `todayUsageMap`: the precise minutes without the app's own package,
      without the launcher, and without entries of 0 minutes or less. */
  function TodayUsageMap(precise: map<string, int>, myPackage: string, launcherPackage: Option<string>)
    : (r: map<string, int>)
    ensures forall p :: p in r <==> p in precise && p != myPackage && launcherPackage != Some(p) && precise[p] > 0
    ensures forall p :: p in r ==> r[p] == precise[p]
  {
    map p | p in precise && p != myPackage && launcherPackage != Some(p) && precise[p] > 0 :: precise[p]
  }

  /** Filtering an already filtered map changes nothing, and what is kept
      is a part of the input. */
  lemma TodayUsageMapIdempotent(precise: map<string, int>, myPackage: string, launcherPackage: Option<string>)
    ensures var once := TodayUsageMap(precise, myPackage, launcherPackage);
      && TodayUsageMap(once, myPackage, launcherPackage) == once
      && once.Keys <= precise.Keys
      && myPackage !in once
      && (launcherPackage.Some? ==> launcherPackage.value !in once)
  {
  }

  // ---------------------------------------------------------------------
  // One package's row
  // ---------------------------------------------------------------------

  /** The same-day rule: today's success extends a run of successes or
      starts a new one at 1; today's failure extends a run of failures or
      starts a new one at -1. */
  function ExtendStreak(pastStreak: int, todaySuccess: bool): (r: int)
    ensures r != 0 && (r > 0 <==> todaySuccess)
    ensures todaySuccess && pastStreak > 0 ==> r == pastStreak + 1
    ensures !todaySuccess && pastStreak < 0 ==> r == pastStreak - 1
    ensures !(todaySuccess && pastStreak > 0) && !(!todaySuccess && pastStreak < 0) ==> r == (if todaySuccess then 1 else -1)
  {
    if pastStreak == 0 then (if todaySuccess then 1 else -1)
    else if pastStreak > 0 then (if todaySuccess then pastStreak + 1 else -1)
    else (if todaySuccess then 1 else pastStreak - 1)
  }

  /** The same-day rule applied to a past streak as `calculateStreaks`
      computes it is the streak over today followed by the past days. */
  lemma SameDayRuleExtendsRun(pastDays: seq<DailyUsage>, today: DailyUsage, pkg: string, goal: int)
    requires goal != 0
    ensures ExtendStreak(PackageStreak(pastDays, pkg, goal), DaySuccess(today, pkg, goal))
         == SignedRun(Outcomes([today] + pastDays, pkg, goal))
  {
    var o := Outcomes([today] + pastDays, pkg, goal);
    assert o[1..] == Outcomes(pastDays, pkg, goal);
    assert o[0] == DaySuccess(today, pkg, goal);
    assert Run(o, o[0]) == 1 + Run(o[1..], o[0]);
    assert Run(o, !o[0]) == 0;
    if |pastDays| > 0 {
      var p := o[1..];
      assert Run(p, p[0]) == 1 + Run(p[1..], p[0]);
      assert Run(p, !p[0]) == 0;
    }
  }

  /** `appGoal ?: currentGoals[pkg] ?: 0`: the goal in force today from the
      store, else the in-memory goal, else 0. */
  function ResolveGoal(goals: seq<GoalHistoryEntity>, uid: string, pkg: string, today: string,
                       currentGoals: map<string, int>): (r: int)
    ensures var g := GetEffectiveAppGoal(goals, uid, pkg, today);
      && (g.Some? ==> r == g.value.goalMinutes)
      && (g.None? && pkg in currentGoals ==> r == currentGoals[pkg])
      && (g.None? && pkg !in currentGoals ==> r == 0)
  {
    var appGoal := GetEffectiveAppGoal(goals, uid, pkg, today);
    if appGoal.Some? then appGoal.value.goalMinutes else Get(currentGoals, pkg, 0)
  }

  /** The `AppUsage` published for `pkg`. */
  function AppSnapshot(goals: seq<GoalHistoryEntity>, uid: string, pkg: string, today: string,
                       todayUsageMap: map<string, int>, currentGoals: map<string, int>,
                       streakMap: map<string, int>): (r: AppUsage)
    ensures r.packageName == pkg && r.currentUsage == Get(todayUsageMap, pkg, 0)
    ensures r.goalTime == ResolveGoal(goals, uid, pkg, today, currentGoals)
    ensures r.goalTime <= 0 <==> r.streak == 0
    ensures r.goalTime > 0 ==> (r.streak > 0 <==> r.currentUsage <= r.goalTime)
    ensures r.goalTime > 0 && pkg in streakMap && streakMap[pkg] > 0 && r.currentUsage <= r.goalTime ==>
      r.streak == streakMap[pkg] + 1
    ensures r.goalTime > 0 && pkg in streakMap && streakMap[pkg] < 0 && r.currentUsage > r.goalTime ==>
      r.streak == streakMap[pkg] - 1
    ensures var past := Get(streakMap, pkg, 0);
      r.goalTime > 0 && !(r.currentUsage <= r.goalTime && past > 0) && !(r.currentUsage > r.goalTime && past < 0) ==>
        r.streak == (if r.currentUsage <= r.goalTime then 1 else -1)
  {
    var todayUsage := Get(todayUsageMap, pkg, 0);
    var goal := ResolveGoal(goals, uid, pkg, today, currentGoals);
    var pastStreak := Get(streakMap, pkg, 0);
    var finalStreak := if goal <= 0 then 0 else ExtendStreak(pastStreak, todayUsage <= goal);
    AppUsage(pkg, todayUsage, goal, finalStreak)
  }

  /** When the goal in force (the store's, or else the in-memory one) is the
      in-memory goal that the past streak was computed with, the published
      streak is the signed run over today's
      record followed by the past days, newest first. */
  lemma SnapshotStreakIsRunThroughToday(goals: seq<GoalHistoryEntity>, uid: string, pkg: string, today: string,
                                        todayUsageMap: map<string, int>, currentGoals: map<string, int>,
                                        dailyList: seq<DailyUsage>)
    requires pkg in currentGoals && currentGoals[pkg] > 0
    requires ResolveGoal(goals, uid, pkg, today, currentGoals) == currentGoals[pkg]
    ensures var streakMap := StreakMap(dailyList, currentGoals, today);
      AppSnapshot(goals, uid, pkg, today, todayUsageMap, currentGoals, streakMap).streak
        == SignedRun(Outcomes([DailyUsage(today, todayUsageMap)] + PastDays(dailyList, today), pkg, currentGoals[pkg]))
  {
    SameDayRuleExtendsRun(PastDays(dailyList, today), DailyUsage(today, todayUsageMap), pkg, currentGoals[pkg]);
  }

  /** A first day over the goal: 40 minutes against the 30-minute goal in
      force since 2024-02-01, with no past days, is a streak of -1. */
  lemma FirstDayFailureExample(uid: string)
    ensures AppSnapshot([GoalHistoryEntity(1, uid, "2024-02-01", Some("app.a"), 30)], uid, "app.a", "2024-03-01",
                        map["app.a" := 40], map[], map[])
         == AppUsage("app.a", 40, 30, -1)
  {
    var rows := [GoalHistoryEntity(1, uid, "2024-02-01", Some("app.a"), 30)];
    StrLeConcat("2024-0", "2-01", "2024-0", "3-01");
    assert AppGoalCandidate(rows[0], uid, "app.a", "2024-03-01");
    var g := GetEffectiveAppGoal(rows, uid, "app.a", "2024-03-01");
    assert g.value in rows;
  }

  // ---------------------------------------------------------------------
  // loadRealData
  // ---------------------------------------------------------------------

  /** The tracked set: the packages of the newest tracking snapshot, if any. */
  function LatestTracked(tracking: seq<TrackingHistoryEntity>, uid: string): (r: set<string>)
    ensures GetLatestTrackingHistory(tracking, uid).None? ==> r == {}
    ensures GetLatestTrackingHistory(tracking, uid).Some? ==>
      forall p :: p in r <==> p in GetLatestTrackingHistory(tracking, uid).value.trackedPackages
  {
    var latest := GetLatestTrackingHistory(tracking, uid);
    if latest.None? then {} else set p | p in latest.value.trackedPackages
  }

  function ToDailyUsage(e: DailyUsageEntity): DailyUsage {
    DailyUsage(e.date, e.appUsages)
  }

  function ToDailyUsages(rows: seq<DailyUsageEntity>): (r: seq<DailyUsage>)
    ensures |r| == |rows| && forall i :: 0 <= i < |rows| ==> r[i] == ToDailyUsage(rows[i])
  {
    seq(|rows|, i requires 0 <= i < |rows| => ToDailyUsage(rows[i]))
  }

  /** `loadRealData` with the platform's answers as inputs: `events` is the
      event stream since midnight, `today` the date key of both the stored
      record and the goal lookup, `thirtyDaysAgo` the first day read back. */
  method LoadRealData(dao: HistoryDao, uid: string, events: seq<Event>, endTime: int,
                      myPackage: string, launcherPackage: Option<string>,
                      today: string, thirtyDaysAgo: string, currentGoals: map<string, int>)
    returns (dailyUsageList: seq<DailyUsage>, appUsages: map<string, AppUsage>)
    requires dao.Valid()
    modifies dao
    ensures dao.Valid()
    ensures var todayUsageMap := TodayUsageMap(ToMinutes(PreciseMillis(events, endTime)), myPackage, launcherPackage);
      && dao.daily == ReplaceDaily(old(dao.daily), DailyUsageEntity(old(dao.nextDailyId), uid, today, todayUsageMap))
      && DailyView(dao.daily) == old(DailyView(dao.daily))[(uid, today) := todayUsageMap]
      && dailyUsageList == ToDailyUsages(GetDailyUsages(dao.daily, uid, thirtyDaysAgo, today))
      && var streakMap := StreakMap(dailyUsageList, currentGoals, today);
         && appUsages.Keys == LatestTracked(dao.tracking, uid) + todayUsageMap.Keys + currentGoals.Keys
         && forall p :: p in appUsages ==>
              appUsages[p] == AppSnapshot(dao.goals, uid, p, today, todayUsageMap, currentGoals, streakMap)
    ensures var todayUsageMap := TodayUsageMap(ToMinutes(PreciseMillis(events, endTime)), myPackage, launcherPackage);
      && GetDailyUsage(dao.daily, uid, today).Some?
      && GetDailyUsage(dao.daily, uid, today).value.appUsages == todayUsageMap
      && (StrLe(thirtyDaysAgo, today) ==> DailyUsage(today, todayUsageMap) in dailyUsageList)
    ensures dao.goals == old(dao.goals) && dao.tracking == old(dao.tracking)
  {
    var preciseUsageMap := CalculatePreciseUsage(events, endTime);
    var todayUsageMap := TodayUsageMap(preciseUsageMap, myPackage, launcherPackage);

    dao.UpsertDailyUsage(DailyUsageEntity(0, uid, today, todayUsageMap));
    ghost var stored := DailyUsageEntity(old(dao.nextDailyId), uid, today, todayUsageMap);
    UpsertLeavesOneRow(old(dao.daily), stored);

    var rows := GetDailyUsages(dao.daily, uid, thirtyDaysAgo, today);
    dailyUsageList := ToDailyUsages(rows);
    if StrLe(thirtyDaysAgo, today) {
      StrLeReflexive(today);
      assert stored in rows;
      ghost var k :| 0 <= k < |rows| && rows[k] == stored;
      assert dailyUsageList[k] == DailyUsage(today, todayUsageMap);
    }
    var streakMap := CalculateStreaks(dailyUsageList, currentGoals, today);
    var trackedPackages := LatestTracked(dao.tracking, uid);
    var packageNames := trackedPackages + todayUsageMap.Keys + currentGoals.Keys + streakMap.Keys;

    appUsages := Snapshots(dao.goals, uid, today, todayUsageMap, currentGoals, streakMap, packageNames);
  }

  /** `packageNames.map { pkg -> AppUsage(...) }`, keyed by package. */
  function Snapshots(goals: seq<GoalHistoryEntity>, uid: string, today: string,
                     todayUsageMap: map<string, int>, currentGoals: map<string, int>,
                     streakMap: map<string, int>, packageNames: set<string>): (r: map<string, AppUsage>)
    ensures r.Keys == packageNames
    ensures forall p :: p in r ==> r[p].packageName == p
  {
    map p | p in packageNames :: AppSnapshot(goals, uid, p, today, todayUsageMap, currentGoals, streakMap)
  }
}
