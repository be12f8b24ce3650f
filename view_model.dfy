/** The screen state of `SharedViewModel`: the views derived from the
    published rows (totals, the goal for the selected filter, the calendar
    and its month count, the overall streak), and the write paths that
    record goals, tracked sets and today's usage locally and remotely. */
module ViewModel {
  import opened Common
  import opened Query
  import opened Entities
  import opened HistoryStore
  import opened UsageModel
  import opened Streaks
  import opened Backup

  /** `FirebaseAuth.currentUser?.uid ?: "anonymous"`: an anonymous account
      keeps its own uid here. */
  function ViewModelUid(user: Option<User>): (r: string)
    ensures user.None? ==> r == Anonymous
    ensures user.Some? ==> r == user.value.uid
  {
    if user.None? then Anonymous else user.value.uid
  }

  /** The view model's uid and the backup module's disagree for a guest
      signed in with an anonymous account: the view model hands its own uid
      to the backups, whose guest guard then lets the write through. */
  lemma AnonymousAccountIsBackedUp(uid: string, e: DailyUsageEntity)
    requires uid != Anonymous
    ensures var user := Some(User(uid, true));
      && CurrentUserId(user) == Anonymous
      && ViewModelUid(user) == uid
      && DailyBackup(ViewModelUid(user), e).Some?
  {
  }

  // ---------------------------------------------------------------------
  // Sums over the published rows
  // ---------------------------------------------------------------------

  function InTracked(tracked: set<string>): AppUsage -> bool {
    (a: AppUsage) => a.packageName in tracked
  }

  /** `list.filter { tracked.isEmpty() || it.packageName in tracked }`. */
  function TrackedOrAll(list: seq<AppUsage>, tracked: set<string>): (r: seq<AppUsage>)
    ensures tracked == {} ==> r == list
    ensures tracked != {} ==> forall a :: a in r <==> a in list && a.packageName in tracked
  {
    if tracked == {} then list else Filter(list, InTracked(tracked))
  }

  /** The filter keeps the rows' order: a row added at the end is kept at
      the end exactly when it counts. */
  lemma TrackedOrAllSnoc(list: seq<AppUsage>, a: AppUsage, tracked: set<string>)
    ensures TrackedOrAll(list + [a], tracked)
         == if tracked == {} || a.packageName in tracked then TrackedOrAll(list, tracked) + [a] else TrackedOrAll(list, tracked)
  {
    if tracked != {} {
      FilterAppend(list, a, InTracked(tracked));
    }
  }

  function SumUsage(list: seq<AppUsage>): int {
    if |list| == 0 then 0 else SumUsage(list[..|list| - 1]) + list[|list| - 1].currentUsage
  }

  function SumGoal(list: seq<AppUsage>): int {
    if |list| == 0 then 0 else SumGoal(list[..|list| - 1]) + list[|list| - 1].goalTime
  }

  // ---------------------------------------------------------------------
  // totalUsageData and filteredGoalTime
  // ---------------------------------------------------------------------

  /** `totalUsageData`: minutes used and the goal, over the tracked apps;
      with nothing tracked, no app counts. */
  function TotalUsageData(list: seq<AppUsage>, tracked: set<string>, overall: Option<int>): (r: (int, int))
    ensures tracked == {} ==> r == (0, overall.GetOr(0))
    ensures tracked != {} ==>
      var apps := Filter(list, InTracked(tracked));
      r == (SumUsage(apps), overall.GetOr(SumGoal(apps)))
  {
    var filtered := if tracked == {} then [] else Filter(list, InTracked(tracked));
    (SumUsage(filtered), overall.GetOr(SumGoal(filtered)))
  }

  /** `goals.find { it.packageName == pkg }?.goalTime ?: 0`: the first row
      of the package. */
  function FindGoal(list: seq<AppUsage>, pkg: string): (r: int)
    ensures (forall i :: 0 <= i < |list| ==> list[i].packageName != pkg) ==> r == 0
    ensures forall i :: (0 <= i < |list| && list[i].packageName == pkg &&
      (forall j :: 0 <= j < i ==> list[j].packageName != pkg)) ==> r == list[i].goalTime
  {
    if |list| == 0 then 0
    else if list[0].packageName == pkg then list[0].goalTime
    else FindGoal(list[1..], pkg)
  }

  /** `filteredGoalTime`: with no filter, the overall goal or the sum of
      the goals (of all apps when nothing is tracked); with a filter, that
      app's goal or 0. */
  function FilteredGoalTime(list: seq<AppUsage>, filter: Option<string>, tracked: set<string>, overall: Option<int>): (r: int)
    ensures filter.None? && overall.Some? ==> r == overall.value
    ensures filter.None? && overall.None? && tracked == {} ==> r == SumGoal(list)
    ensures filter.None? && overall.None? && tracked != {} ==> r == SumGoal(Filter(list, InTracked(tracked)))
    ensures filter.Some? ==> r == FindGoal(list, filter.value)
  {
    if filter.None? then overall.GetOr(SumGoal(TrackedOrAll(list, tracked)))
    else FindGoal(list, filter.value)
  }

  /** The headline total and the calendar's goal agree when something is
      tracked; when nothing is, and no overall goal is set, the headline
      goal is 0 while the calendar's goal sums every app's goal. */
  lemma TotalGoalAgainstFilteredGoal(list: seq<AppUsage>, tracked: set<string>, overall: Option<int>)
    ensures tracked != {} ==> TotalUsageData(list, tracked, overall).1 == FilteredGoalTime(list, None, tracked, overall)
    ensures tracked == {} && overall.None? ==>
      TotalUsageData(list, tracked, overall).1 == 0 && FilteredGoalTime(list, None, tracked, overall) == SumGoal(list)
    ensures overall.Some? ==> TotalUsageData(list, tracked, overall).1 == FilteredGoalTime(list, None, tracked, overall) == overall.value
  {
  }

  // ---------------------------------------------------------------------
  // calculateOverallStreak
  // ---------------------------------------------------------------------

  /** The goal of the overall streak: the overall goal, else the sum of the
      tracked apps' goals (0 when nothing is tracked). */
  function OverallGoal(list: seq<AppUsage>, tracked: set<string>, overall: Option<int>): int {
    TotalUsageData(list, tracked, overall).1
  }

  /** Each day's outcome, newest first, against the overall goal. */
  ghost function DayOutcomes(days: seq<DailyUsage>, tracked: set<string>, goal: int): (r: seq<bool>)
    ensures |r| == |days|
    ensures forall i :: 0 <= i < |days| ==> r[i] == (TrackedUsage(days[i].appUsages, tracked) <= goal)
  {
    seq(|days|, i requires 0 <= i < |days| => TrackedUsage(days[i].appUsages, tracked) <= goal)
  }

  /** What `calculateOverallStreak` returns. Today's record takes part. */
  ghost function OverallStreak(dailies: Option<seq<DailyUsage>>, tracked: set<string>, list: seq<AppUsage>, overall: Option<int>): int {
    var goal := OverallGoal(list, tracked, overall);
    if dailies.None? || goal <= 0 then 0
    else SignedRun(DayOutcomes(SortBy(dailies.value, DayDate, true), tracked, goal))
  }

  /** The overall streak is 0 without records or without a positive goal;
      otherwise it counts the newest days sharing the newest day's outcome,
      up to the first day with the other outcome, positive for successes. */
  lemma OverallStreakMeaning(dailies: Option<seq<DailyUsage>>, tracked: set<string>, list: seq<AppUsage>, overall: Option<int>)
    ensures var goal := OverallGoal(list, tracked, overall);
      && (dailies.None? || goal <= 0 ==> OverallStreak(dailies, tracked, list, overall) == 0)
      && (tracked == {} && overall.None? ==> OverallStreak(dailies, tracked, list, overall) == 0)
      && (dailies.Some? && goal > 0 && |dailies.value| > 0 ==>
            var days := SortBy(dailies.value, DayDate, true);
            var s := OverallStreak(dailies, tracked, list, overall);
            && (s > 0 <==> TrackedUsage(days[0].appUsages, tracked) <= goal)
            && 1 <= Abs(s) <= |days|
            && (forall i :: 0 <= i < Abs(s) ==>
                  (TrackedUsage(days[i].appUsages, tracked) <= goal) == (TrackedUsage(days[0].appUsages, tracked) <= goal))
            && (Abs(s) == |days| ||
                (TrackedUsage(days[Abs(s)].appUsages, tracked) <= goal) != (TrackedUsage(days[0].appUsages, tracked) <= goal)))
  {
    var goal := OverallGoal(list, tracked, overall);
    if dailies.Some? && goal > 0 && |dailies.value| > 0 {
      var days := SortBy(dailies.value, DayDate, true);
      var o := DayOutcomes(days, tracked, goal);
      var s := SignedRun(o);
      assert OverallStreak(dailies, tracked, list, overall) == s;
      SignedRunLeading(o);
      forall i | 0 <= i < Abs(s)
        ensures (TrackedUsage(days[i].appUsages, tracked) <= goal) == (TrackedUsage(days[0].appUsages, tracked) <= goal)
      {
        assert o[i] == o[0];
      }
      if Abs(s) < |days| {
        assert o[Abs(s)] != o[0];
      }
    }
  }

  // ---------------------------------------------------------------------
  // The calendar
  // ---------------------------------------------------------------------

  datatype CalendarDay = CalendarDay(year: int, month: int, day: int)

  /** A day's status. The source also splits a success into WARNING above
      70% of the goal, a floating-point comparison this model leaves out;
      both count as success. */
  datatype DayStatus = Fail | NotFail

  datatype CalendarDecorator = CalendarDecorator(date: CalendarDay, status: DayStatus)

  /** Usage and goal of one record under the filter. */
  ghost function DayUsageAndGoal(daily: DailyUsage, list: seq<AppUsage>, filter: Option<string>,
                                 tracked: set<string>, overall: Option<int>): (int, int)
  {
    if filter.None? then (TrackedUsage(daily.appUsages, tracked), overall.GetOr(SumGoal(TrackedOrAll(list, tracked))))
    else (Get(daily.appUsages, filter.value, 0), FindGoal(list, filter.value))
  }

  /** The decorators of `dailies` in order; `None` when parsing a date
      throws, which ends the update. */
  ghost function Decorators(dailies: seq<DailyUsage>, list: seq<AppUsage>, filter: Option<string>,
                            tracked: set<string>, overall: Option<int>, parse: string -> Option<CalendarDay>)
    : Option<seq<CalendarDecorator>>
  {
    if |dailies| == 0 then Some([])
    else
      var init := Decorators(dailies[..|dailies| - 1], list, filter, tracked, overall, parse);
      var daily := dailies[|dailies| - 1];
      var ug := DayUsageAndGoal(daily, list, filter, tracked, overall);
      if init.None? || parse(daily.date).None? then None
      else if ug.1 <= 0 then init
      else Some(init.value + [CalendarDecorator(parse(daily.date).value, if ug.0 > ug.1 then Fail else NotFail)])
  }

  /** `d` is the decorator of `daily`: same date, a positive goal, and a
      failure exactly when usage exceeds the goal. */
  ghost predicate Yields(daily: DailyUsage, d: CalendarDecorator, list: seq<AppUsage>, filter: Option<string>,
                         tracked: set<string>, overall: Option<int>, parse: string -> Option<CalendarDay>)
  {
    var ug := DayUsageAndGoal(daily, list, filter, tracked, overall);
    Some(d.date) == parse(daily.date) && ug.1 > 0 && (d.status == Fail <==> ug.0 > ug.1)
  }

  /** The update fails exactly when some date does not parse. Otherwise
      the goal, which is `filteredGoalTime` and the same for every record,
      decides: no decorator when it is not positive, else one decorator per
      record in the records' order, a failure exactly when that record's
      usage exceeds the goal. */
  lemma DecoratorsMeaning(dailies: seq<DailyUsage>, list: seq<AppUsage>, filter: Option<string>,
                          tracked: set<string>, overall: Option<int>, parse: string -> Option<CalendarDay>)
    ensures var r := Decorators(dailies, list, filter, tracked, overall, parse);
      var g := FilteredGoalTime(list, filter, tracked, overall);
      && (r.None? <==> exists i :: 0 <= i < |dailies| && parse(dailies[i].date).None?)
      && (r.Some? && g <= 0 ==> r.value == [])
      && (r.Some? && g > 0 ==>
            && |r.value| == |dailies|
            && forall i :: 0 <= i < |dailies| ==> Yields(dailies[i], r.value[i], list, filter, tracked, overall, parse))
  {
    DecoratorsFailure(dailies, list, filter, tracked, overall, parse);
    DatesParseMeaning(dailies, parse);
    DecoratorsInOrder(dailies, list, filter, tracked, overall, parse);
  }

  /** The calendar's goal does not depend on the record: it is
      `filteredGoalTime`. */
  lemma CalendarGoalIsFilteredGoal(daily: DailyUsage, list: seq<AppUsage>, filter: Option<string>,
                                   tracked: set<string>, overall: Option<int>)
    ensures DayUsageAndGoal(daily, list, filter, tracked, overall).1 == FilteredGoalTime(list, filter, tracked, overall)
  {
  }

  /** `ds` holds the decorator of each record of `dailies`, in order. */
  ghost predicate OnePerRecord(dailies: seq<DailyUsage>, ds: seq<CalendarDecorator>, list: seq<AppUsage>, filter: Option<string>,
                               tracked: set<string>, overall: Option<int>, parse: string -> Option<CalendarDay>)
  {
    |ds| == |dailies| && forall i :: 0 <= i < |dailies| ==> Yields(dailies[i], ds[i], list, filter, tracked, overall, parse)
  }

  /** The decorators, record by record: none under a goal that is not
      positive, else the i-th decorator is the i-th record's. */
  lemma {:induction false} DecoratorsInOrder(dailies: seq<DailyUsage>, list: seq<AppUsage>, filter: Option<string>,
                                             tracked: set<string>, overall: Option<int>, parse: string -> Option<CalendarDay>)
    ensures var r := Decorators(dailies, list, filter, tracked, overall, parse);
      var g := FilteredGoalTime(list, filter, tracked, overall);
      && (r.Some? && g <= 0 ==> r.value == [])
      && (r.Some? && g > 0 ==>
            && |r.value| == |dailies|
            && forall i :: 0 <= i < |dailies| ==> Yields(dailies[i], r.value[i], list, filter, tracked, overall, parse))
    decreases |dailies|
  {
    var r := Decorators(dailies, list, filter, tracked, overall, parse);
    if |dailies| > 0 && r.Some? {
      var n := |dailies| - 1;
      var init := dailies[..n];
      DecoratorsInOrder(init, list, filter, tracked, overall, parse);
      CalendarGoalIsFilteredGoal(dailies[n], list, filter, tracked, overall);
      var r0 := Decorators(init, list, filter, tracked, overall, parse);
      if FilteredGoalTime(list, filter, tracked, overall) > 0 {
        var d := r.value[|r.value| - 1];
        assert r.value == r0.value + [d];
        assert Yields(dailies[n], d, list, filter, tracked, overall, parse);
        assert OnePerRecord(init, r0.value, list, filter, tracked, overall, parse);
        OnePerRecordSnoc(dailies, r0.value, d, list, filter, tracked, overall, parse);
      }
    }
  }

  /** One more record and its decorator. */
  lemma OnePerRecordSnoc(dailies: seq<DailyUsage>, ds: seq<CalendarDecorator>, d: CalendarDecorator, list: seq<AppUsage>,
                         filter: Option<string>, tracked: set<string>, overall: Option<int>, parse: string -> Option<CalendarDay>)
    requires |dailies| > 0
    requires OnePerRecord(dailies[..|dailies| - 1], ds, list, filter, tracked, overall, parse)
    requires Yields(dailies[|dailies| - 1], d, list, filter, tracked, overall, parse)
    ensures OnePerRecord(dailies, ds + [d], list, filter, tracked, overall, parse)
  {
    var n := |dailies| - 1;
    forall i | 0 <= i < |dailies| ensures Yields(dailies[i], (ds + [d])[i], list, filter, tracked, overall, parse) {
      if i < n {
        assert dailies[..n][i] == dailies[i] && (ds + [d])[i] == ds[i];
        assert Yields(dailies[..n][i], ds[i], list, filter, tracked, overall, parse);
      } else {
        assert (ds + [d])[i] == d;
      }
    }
  }

  /** Every record's date parses. */
  ghost predicate DatesParse(dailies: seq<DailyUsage>, parse: string -> Option<CalendarDay>)
    decreases |dailies|
  {
    |dailies| == 0 || (DatesParse(dailies[..|dailies| - 1], parse) && parse(dailies[|dailies| - 1].date).Some?)
  }

  lemma {:induction false} DatesParseMeaning(dailies: seq<DailyUsage>, parse: string -> Option<CalendarDay>)
    ensures DatesParse(dailies, parse) <==> forall i :: 0 <= i < |dailies| ==> parse(dailies[i].date).Some?
    decreases |dailies|
  {
    if |dailies| > 0 {
      var n := |dailies| - 1;
      var init := dailies[..n];
      DatesParseMeaning(init, parse);
      assert forall i :: 0 <= i < n ==> init[i] == dailies[i];
    }
  }

  /** The update fails exactly when some date does not parse; otherwise
      there is at most one decorator per record. */
  lemma {:induction false} DecoratorsFailure(dailies: seq<DailyUsage>, list: seq<AppUsage>, filter: Option<string>,
                                             tracked: set<string>, overall: Option<int>, parse: string -> Option<CalendarDay>)
    ensures var r := Decorators(dailies, list, filter, tracked, overall, parse);
      && (r.Some? <==> DatesParse(dailies, parse))
      && (r.Some? ==> |r.value| <= |dailies|)
    decreases |dailies|
  {
    if |dailies| > 0 {
      DecoratorsFailure(dailies[..|dailies| - 1], list, filter, tracked, overall, parse);
    }
  }

  /** `calendarStatsText`'s count: the successes dated in `month`. */
  function MonthSuccessCount(decorators: seq<CalendarDecorator>, month: int): (r: nat)
    ensures r <= |decorators|
  {
    if |decorators| == 0 then 0
    else MonthSuccessCount(decorators[..|decorators| - 1], month)
         + (var d := decorators[|decorators| - 1]; if d.date.month == month && d.status == NotFail then 1 else 0)
  }

  /** The count is the number of successful entries of the month: adding a
      failure or another month's entry leaves it unchanged. */
  lemma {:induction false} MonthSuccessCountIsCount(decorators: seq<CalendarDecorator>, month: int)
    ensures MonthSuccessCount(decorators, month) == |Filter(decorators, SuccessIn(month))|
    decreases |decorators|
  {
    if |decorators| > 0 {
      var init := decorators[..|decorators| - 1];
      MonthSuccessCountIsCount(init, month);
      assert decorators == init + [decorators[|decorators| - 1]];
      FilterAppend(init, decorators[|decorators| - 1], SuccessIn(month));
    }
  }

  function SuccessIn(month: int): CalendarDecorator -> bool {
    (d: CalendarDecorator) => d.date.month == month && d.status == NotFail
  }

  // ---------------------------------------------------------------------
  // backupTodayUsage
  // ---------------------------------------------------------------------

  /** Each key of `r` holds the minutes of the last row of that package. */
  ghost predicate LastRowWins(list: seq<AppUsage>, r: map<string, int>) {
    forall p :: p in r ==>
      exists i :: 0 <= i < |list| && list[i].packageName == p && r[p] == list[i].currentUsage &&
                  (forall j :: i < j < |list| ==> list[j].packageName != p)
  }

  /** `.associate { it.packageName to it.currentUsage }`: a later row of
      the same package wins. */
  function Associate(list: seq<AppUsage>): (r: map<string, int>)
    ensures forall p :: p in r <==> exists a :: a in list && a.packageName == p
    ensures LastRowWins(list, r)
  {
    if |list| == 0 then map[]
    else
      var last := list[|list| - 1];
      var init := Associate(list[..|list| - 1]);
      var r := init[last.packageName := last.currentUsage];
      assert forall a :: a in list ==> a in list[..|list| - 1] || a == last;
      LastRowWinsStep(list, init);
      r
  }

  /** Overriding with the last row keeps the rule. */
  lemma LastRowWinsStep(list: seq<AppUsage>, init: map<string, int>)
    requires |list| > 0 && LastRowWins(list[..|list| - 1], init)
    ensures LastRowWins(list, init[list[|list| - 1].packageName := list[|list| - 1].currentUsage])
  {
    var n := |list| - 1;
    var last := list[n];
    var r := init[last.packageName := last.currentUsage];
    forall p | p in r
      ensures exists i :: 0 <= i < |list| && list[i].packageName == p && r[p] == list[i].currentUsage &&
                          (forall j :: i < j < |list| ==> list[j].packageName != p)
    {
      if p == last.packageName {
        assert list[n].packageName == p && r[p] == list[n].currentUsage;
      } else {
        var i :| 0 <= i < n && list[..n][i].packageName == p && init[p] == list[..n][i].currentUsage &&
          forall j :: i < j < n ==> list[..n][j].packageName != p;
        assert list[i] == list[..n][i];
        assert forall j :: i < j < n ==> list[j] == list[..n][j];
      }
    }
  }

  /** A row added at the end overrides its package. */
  lemma AssociateSnoc(list: seq<AppUsage>, a: AppUsage)
    ensures Associate(list + [a]) == Associate(list)[a.packageName := a.currentUsage]
  {
    assert (list + [a])[..|list|] == list;
  }

  /** With one row per package, each package maps to its own row's minutes. */
  lemma {:induction false} AssociateDistinct(list: seq<AppUsage>)
    requires forall i, j :: 0 <= i < j < |list| ==> list[i].packageName != list[j].packageName
    ensures forall i :: 0 <= i < |list| ==> Associate(list)[list[i].packageName] == list[i].currentUsage
    decreases |list|
  {
    if |list| > 0 {
      var init := list[..|list| - 1];
      AssociateDistinct(init);
      forall i | 0 <= i < |list| - 1 ensures Associate(list)[list[i].packageName] == list[i].currentUsage {
        assert init[i] == list[i];
      }
    }
  }

  /** The record `backupTodayUsage` stores: the minutes of the tracked apps,
      or of all apps when nothing is tracked. */
  function TodayUsages(list: seq<AppUsage>, tracked: set<string>): (r: map<string, int>)
    ensures forall p :: p in r <==> exists a :: a in list && a.packageName == p && (tracked == {} || p in tracked)
    ensures LastRowWins(TrackedOrAll(list, tracked), r)
    ensures CountedLastRows(list, tracked, r)
  {
    var apps := TrackedOrAll(list, tracked);
    assert forall a :: a in apps <==> a in list && (tracked == {} || a.packageName in tracked);
    AssociateTrackedLastRow(list, tracked);
    Associate(apps)
  }

  /** Each counted package of `list` maps in `r` to the minutes of its last
      row in `list`. */
  ghost predicate CountedLastRows(list: seq<AppUsage>, tracked: set<string>, r: map<string, int>) {
    forall i :: 0 <= i < |list| && (tracked == {} || list[i].packageName in tracked) && LastOfPackage(list, i) ==>
                  list[i].packageName in r && r[list[i].packageName] == list[i].currentUsage
  }

  /** No later row has the package of row `i`. */
  ghost predicate LastOfPackage(list: seq<AppUsage>, i: int)
    requires 0 <= i < |list|
  {
    forall j :: i < j < |list| ==> list[j].packageName != list[i].packageName
  }

  /** Counted against the input rows: each counted package holds the minutes
      of its last row in `list`. */
  lemma {:induction false} AssociateTrackedLastRow(list: seq<AppUsage>, tracked: set<string>)
    ensures CountedLastRows(list, tracked, Associate(TrackedOrAll(list, tracked)))
    decreases |list|
  {
    if |list| > 0 {
      var n := |list| - 1;
      var init := list[..n];
      var x := list[n];
      assert list == init + [x];
      AssociateTrackedLastRow(init, tracked);
      TrackedOrAllSnoc(init, x, tracked);
      var a0 := TrackedOrAll(init, tracked);
      var a := TrackedOrAll(list, tracked);
      if tracked == {} || x.packageName in tracked {
        assert a == a0 + [x];
        AssociateSnoc(a0, x);
      } else {
        assert a == a0;
      }
      CountedLastRowsStep(list, tracked, Associate(a0), Associate(a));
    }
  }

  /** One more row: it overrides its package when it counts. */
  lemma CountedLastRowsStep(list: seq<AppUsage>, tracked: set<string>, r0: map<string, int>, r: map<string, int>)
    requires |list| > 0 && CountedLastRows(list[..|list| - 1], tracked, r0)
    requires var x := list[|list| - 1];
      r == if tracked == {} || x.packageName in tracked then r0[x.packageName := x.currentUsage] else r0
    ensures CountedLastRows(list, tracked, r)
  {
    var n := |list| - 1;
    var init := list[..n];
    forall i | 0 <= i < |list| && (tracked == {} || list[i].packageName in tracked) && LastOfPackage(list, i)
      ensures list[i].packageName in r && r[list[i].packageName] == list[i].currentUsage
    {
      var p := list[i].packageName;
      if i < n {
        assert init[i] == list[i];
        assert list[n].packageName != p;
        LastOfPackagePrefix(list, i);
        assert p in r0 && r0[p] == list[i].currentUsage;
      }
    }
  }

  /** The last row of a package stays the last once later rows are cut. */
  lemma LastOfPackagePrefix(list: seq<AppUsage>, i: int)
    requires 0 <= i < |list| - 1 && LastOfPackage(list, i)
    ensures LastOfPackage(list[..|list| - 1], i)
  {
    var init := list[..|list| - 1];
    forall j | i < j < |init| ensures init[j].packageName != init[i].packageName {
      assert init[j] == list[j] && init[i] == list[i];
    }
  }

  // ---------------------------------------------------------------------
  // Goal rows
  // ---------------------------------------------------------------------

  /** The row `setGoalTimes` records for `pkg`: a blank name becomes the
      app name `"overall"`, never an overall (null) goal. */
  function GoalTimeRow(uid: string, today: string, pkg: string, minutes: int): (r: GoalHistoryEntity)
    ensures r.packageName.Some? && r.id == 0
  {
    GoalHistoryEntity(0, uid, today, Some(SafePackageName(Some(pkg))), minutes)
  }

  /** The remote store after backing up `rows` in order. */
  function ApplyGoalBackups(docs: map<DocKey, map<string, Value>>, uid: string, rows: seq<GoalHistoryEntity>)
    : map<DocKey, map<string, Value>>
  {
    if |rows| == 0 then docs
    else ApplyWrite(ApplyGoalBackups(docs, uid, rows[..|rows| - 1]), GoalBackup(uid, rows[|rows| - 1]))
  }

  /** A guest's goal writes leave the remote store as it was. */
  lemma {:induction false} GuestGoalsStayLocal(docs: map<DocKey, map<string, Value>>, rows: seq<GoalHistoryEntity>)
    ensures ApplyGoalBackups(docs, Anonymous, rows) == docs
    decreases |rows|
  {
    if |rows| > 0 {
      GuestGoalsStayLocal(docs, rows[..|rows| - 1]);
    }
  }

  /** `refreshData` reloads exactly when someone is signed in with a
      nonempty uid; a guest with no account gets no reload. */
  predicate RefreshReloads(user: Option<User>) {
    user.Some? && user.value.uid != ""
  }

  /** The overall goal a guest reads back from preferences: absent or
      negative means none. */
  function PrefsGoal(goalPrefs: map<string, int>, uid: string): (r: Option<int>)
    ensures r.Some? <==> uid in goalPrefs && goalPrefs[uid] >= 0
    ensures r.Some? ==> r.value == goalPrefs[uid]
  {
    if uid in goalPrefs && goalPrefs[uid] >= 0 then Some(goalPrefs[uid]) else None
  }

  /** The overall goal `loadOverallGoal` reads: from the store for a uid,
      from preferences for a guest. */
  function LoadedOverallGoal(goals: seq<GoalHistoryEntity>, goalPrefs: map<string, int>, uid: string, today: string)
    : Option<int>
  {
    if uid != Anonymous then
      var g := GetEffectiveOverallGoal(goals, uid, today);
      if g.None? then None else Some(g.value.goalMinutes)
    else PrefsGoal(goalPrefs, uid)
  }

  /** A guest's overall goal survives a reload when it is 0 or more; a
      removed or negative one reads back as none. */
  lemma GuestOverallGoalRoundTrip(goals: seq<GoalHistoryEntity>, goalPrefs: map<string, int>, minutes: Option<int>, today: string)
    ensures var prefs := if minutes.None? then goalPrefs - {Anonymous} else goalPrefs[Anonymous := minutes.value];
      LoadedOverallGoal(goals, prefs, Anonymous, today) == (if minutes.Some? && minutes.value >= 0 then minutes else None)
  {
  }

  /** A signed-in user's overall goal reads back as the row just written,
      when no other overall goal of theirs is dated today; so clearing the
      goal (`null`) reads back as 0, not as "no overall goal". */
  lemma OverallGoalReadBack(goals: seq<GoalHistoryEntity>, goalPrefs: map<string, int>, uid: string, today: string, minutes: Option<int>)
    requires uid != Anonymous
    requires forall x :: x in goals && x.uid == uid && x.packageName.None? ==> x.effectiveDate != today
    ensures LoadedOverallGoal(goals + [GoalHistoryEntity(0, uid, today, None, minutes.GetOr(0))], goalPrefs, uid, today)
         == Some(minutes.GetOr(0))
  {
    var e := GoalHistoryEntity(0, uid, today, None, minutes.GetOr(0));
    var rows := goals + [e];
    StrLeReflexive(today);
    assert e in rows && OverallGoalCandidate(e, uid, today);
    var r := GetEffectiveOverallGoal(rows, uid, today);
    assert StrLe(e.effectiveDate, r.value.effectiveDate);
    StrLeAntisymmetric(r.value.effectiveDate, today);
    assert r.value.effectiveDate == today;
    assert r.value in goals || r.value == e;
  }

  // ---------------------------------------------------------------------
  // The view model
  // ---------------------------------------------------------------------

  /** Whether `xs` lists the elements of `s` once each. */
  predicate ListsSet(xs: seq<string>, s: set<string>) {
    && (forall p :: p in xs ==> p in s)
    && (forall p :: p in s ==> p in xs)
    && (forall i, j :: 0 <= i < j < |xs| ==> xs[i] != xs[j])
  }

  /** `set.toList()`, in some order. */
  method ToList(s: set<string>) returns (xs: seq<string>)
    ensures ListsSet(xs, s)
  {
    xs := [];
    var rest := s;
    while rest != {}
      invariant rest <= s
      invariant forall p :: p in xs <==> p in s - rest
      invariant forall i, j :: 0 <= i < j < |xs| ==> xs[i] != xs[j]
      decreases |rest|
    {
      var p :| p in rest;
      assert p !in xs;
      forall i | 0 <= i < |xs| ensures (xs + [p])[i] != p {
        assert (xs + [p])[i] == xs[i];
      }
      xs := xs + [p];
      rest := rest - {p};
    }
  }

  class SharedViewModel {
    var trackedPackages: set<string>
    var overallGoalMinutes: Option<int>
    /** The repository's published rows and records; absent until loaded. */
    var appUsageList: Option<seq<AppUsage>>
    var dailyUsageList: Option<seq<DailyUsage>>
    /** Per-uid preferences: `tracked_packages` and `overall_goal_minutes`. */
    var trackedPrefs: map<string, set<string>>
    var goalPrefs: map<string, int>

    constructor ()
      ensures trackedPackages == {} && overallGoalMinutes.None?
      ensures appUsageList.None? && dailyUsageList.None?
      ensures trackedPrefs == map[] && goalPrefs == map[]
    {
      trackedPackages := {};
      overallGoalMinutes := None;
      appUsageList := None;
      dailyUsageList := None;
      trackedPrefs := map[];
      goalPrefs := map[];
    }

    /** `calculateOverallStreak`. */
    method CalculateOverallStreak() returns (streak: int)
      ensures streak == OverallStreak(dailyUsageList, trackedPackages, appUsageList.GetOr([]), overallGoalMinutes)
    {
      if dailyUsageList.None? {
        return 0;
      }
      var tracked := trackedPackages;
      var goal := OverallGoal(appUsageList.GetOr([]), tracked, overallGoalMinutes);
      if goal <= 0 {
        return 0;
      }
      var sortedDays := SortBy(dailyUsageList.value, DayDate, true);
      ghost var o := DayOutcomes(sortedDays, tracked, goal);
      var wasSuccess: Option<bool> := None;
      var streakCount := 0;
      var i := 0;
      while i < |sortedDays|
        invariant 0 <= i <= |sortedDays| && streakCount == i
        invariant i == 0 <==> wasSuccess.None?
        invariant i > 0 ==> wasSuccess == Some(o[0])
        invariant forall k :: 0 <= k < i ==> o[k] == o[0]
      {
        var dayUsage := SumTracked(sortedDays[i].appUsages, tracked);
        var success := dayUsage <= goal;
        if wasSuccess.None? {
          wasSuccess := Some(success);
        }
        if success == wasSuccess.value {
          streakCount := streakCount + 1;
        } else {
          break;
        }
        i := i + 1;
      }
      if wasSuccess.None? {
        return 0;
      }
      RunIsLeadingRun(o, o[0], streakCount);
      streak := if wasSuccess.value then streakCount else -streakCount;
    }

    /** `calendarDecoratorData`'s update: `None` when either published list
        is absent (the update returns early) or a date does not parse. */
    method CalendarDecoratorData(filter: Option<string>, parse: string -> Option<CalendarDay>)
      returns (decorators: Option<seq<CalendarDecorator>>)
      ensures appUsageList.None? || dailyUsageList.None? ==> decorators.None?
      ensures appUsageList.Some? && dailyUsageList.Some? ==>
        decorators == Decorators(dailyUsageList.value, appUsageList.value, filter, trackedPackages, overallGoalMinutes, parse)
    {
      if appUsageList.None? || dailyUsageList.None? {
        return None;
      }
      var goals := appUsageList.value;
      var dailies := dailyUsageList.value;
      var tracked := trackedPackages;
      var list: seq<CalendarDecorator> := [];
      var i := 0;
      while i < |dailies|
        invariant 0 <= i <= |dailies|
        invariant Decorators(dailies[..i], goals, filter, tracked, overallGoalMinutes, parse) == Some(list)
      {
        var daily := dailies[i];
        assert dailies[..i + 1][..i] == dailies[..i];
        var date := parse(daily.date);
        if date.None? {
          DecoratorsFailed(dailies, i + 1, goals, filter, tracked, overallGoalMinutes, parse);
          return None;
        }
        var usage, goal;
        if filter.None? {
          usage := SumTracked(daily.appUsages, tracked);
          goal := overallGoalMinutes.GetOr(SumGoal(TrackedOrAll(goals, tracked)));
        } else {
          usage := Get(daily.appUsages, filter.value, 0);
          goal := FindGoal(goals, filter.value);
        }
        i := i + 1;
        if goal <= 0 {
          continue;
        }
        var status := if usage > goal then Fail else NotFail;
        list := list + [CalendarDecorator(date.value, status)];
      }
      assert dailies[..i] == dailies;
      decorators := Some(list);
    }

    /** `updateTrackedPackages`: publish and remember the set, append a
        tracking row dated today, back it up and reload only when nonempty. */
    method UpdateTrackedPackages(user: Option<User>, newSet: set<string>, today: string,
                                 dao: HistoryDao, remote: RemoteStore) returns (reload: bool)
      requires dao.Valid()
      modifies this, dao, remote
      ensures dao.Valid()
      ensures var uid := ViewModelUid(user);
        && trackedPackages == newSet
        && trackedPrefs == old(trackedPrefs)[uid := newSet]
        && |dao.tracking| == |old(dao.tracking)| + 1
        && dao.tracking[..|old(dao.tracking)|] == old(dao.tracking)
        && var row := dao.tracking[|old(dao.tracking)|];
           && row.id == old(dao.nextTrackingId) && row.uid == uid && row.effectiveDate == today
           && ListsSet(row.trackedPackages, newSet)
           && remote.docs == (if newSet != {} then ApplyWrite(old(remote.docs), TrackingBackup(uid, row.(id := 0)))
                              else old(remote.docs))
      ensures reload <==> newSet != {}
      ensures overallGoalMinutes == old(overallGoalMinutes) && goalPrefs == old(goalPrefs)
      ensures appUsageList == old(appUsageList) && dailyUsageList == old(dailyUsageList)
      ensures dao.daily == old(dao.daily) && dao.goals == old(dao.goals)
    {
      var uid := ViewModelUid(user);
      trackedPackages := newSet;
      trackedPrefs := trackedPrefs[uid := newSet];
      RecordTracking(uid, newSet, today, dao, remote);
      reload := newSet != {};
    }

    /** `loadOverallGoal`. */
    method LoadOverallGoal(user: Option<User>, today: string, dao: HistoryDao)
      modifies this
      ensures overallGoalMinutes == LoadedOverallGoal(dao.goals, goalPrefs, ViewModelUid(user), today)
      ensures trackedPackages == old(trackedPackages) && goalPrefs == old(goalPrefs) && trackedPrefs == old(trackedPrefs)
      ensures appUsageList == old(appUsageList) && dailyUsageList == old(dailyUsageList)
    {
      var uid := ViewModelUid(user);
      if uid != Anonymous {
        var g := GetEffectiveOverallGoal(dao.goals, uid, today);
        overallGoalMinutes := if g.None? then None else Some(g.value.goalMinutes);
      } else {
        var saved := if uid in goalPrefs then goalPrefs[uid] else -1;
        overallGoalMinutes := if saved >= 0 then Some(saved) else None;
      }
    }

    /** `setOverallGoal`: a guest's goal lives in preferences only; a
        signed-in user's goal is appended as an overall row (`null` stored
        as 0), backed up, and read back. */
    method SetOverallGoal(user: Option<User>, minutes: Option<int>, today: string,
                          dao: HistoryDao, remote: RemoteStore)
      requires dao.Valid()
      modifies this, dao, remote
      ensures dao.Valid()
      ensures var uid := ViewModelUid(user);
        && (uid == Anonymous ==>
              && overallGoalMinutes == minutes
              && goalPrefs == (if minutes.None? then old(goalPrefs) - {uid} else old(goalPrefs)[uid := minutes.value])
              && dao.goals == old(dao.goals) && remote.docs == old(remote.docs))
        && (uid != Anonymous ==>
              var row := GoalHistoryEntity(0, uid, today, None, minutes.GetOr(0));
              && dao.goals == old(dao.goals) + [row.(id := old(dao.nextGoalId))]
              && remote.docs == ApplyWrite(old(remote.docs), GoalBackup(uid, row))
              && overallGoalMinutes == LoadedOverallGoal(dao.goals, goalPrefs, uid, today)
              && goalPrefs == old(goalPrefs))
      ensures trackedPackages == old(trackedPackages) && trackedPrefs == old(trackedPrefs)
      ensures appUsageList == old(appUsageList) && dailyUsageList == old(dailyUsageList)
      ensures dao.daily == old(dao.daily) && dao.tracking == old(dao.tracking)
    {
      var uid := ViewModelUid(user);
      overallGoalMinutes := minutes;
      if uid == Anonymous {
        if minutes.None? {
          goalPrefs := goalPrefs - {uid};
        } else {
          goalPrefs := goalPrefs[uid := minutes.value];
        }
      } else {
        var entity := GoalHistoryEntity(0, uid, today, None, minutes.GetOr(0));
        dao.InsertGoalHistory(entity);
        BackupGoalHistory(remote, uid, entity);
        LoadOverallGoal(user, today, dao);
      }
    }

    /** `backupTodayUsage`: upsert today's record of the tracked apps'
        minutes, and back it up for a uid other than `"anonymous"`. */
    method BackupTodayUsage(user: Option<User>, today: string, dao: HistoryDao, remote: RemoteStore)
      requires dao.Valid()
      modifies dao, remote
      ensures dao.Valid()
      ensures var uid := ViewModelUid(user);
        var usages := TodayUsages(appUsageList.GetOr([]), trackedPackages);
        && DailyView(dao.daily) == old(DailyView(dao.daily))[(uid, today) := usages]
        && remote.docs == ApplyWrite(old(remote.docs), DailyBackup(uid, DailyUsageEntity(0, uid, today, usages)))
      ensures dao.goals == old(dao.goals) && dao.tracking == old(dao.tracking)
    {
      var uid := ViewModelUid(user);
      var usages := appUsageList.GetOr([]);
      var tracked := trackedPackages;
      var appUsages := Associate(TrackedOrAll(usages, tracked));
      var entity := DailyUsageEntity(0, uid, today, appUsages);
      dao.UpsertDailyUsage(entity);
      if uid != Anonymous {
        BackupDailyUsage(remote, uid, entity);
      }
    }

    /** `setGoalTimes`: one app-goal row per entry, dated today, each backed
        up for a uid other than `"anonymous"`; then `refreshData`. The
        entries are visited in some order, returned as `order`. */
    method SetGoalTimes(user: Option<User>, goals: map<string, int>, today: string,
                        dao: HistoryDao, remote: RemoteStore) returns (order: seq<string>, reload: bool)
      requires dao.Valid()
      modifies dao, remote
      ensures dao.Valid()
      ensures ListsSet(order, goals.Keys)
      ensures var uid := ViewModelUid(user);
        var rows := GoalTimeRows(uid, today, goals, order);
        && dao.goals == old(dao.goals) + Numbered(rows, old(dao.nextGoalId), SetGoalId)
        && remote.docs == ApplyGoalBackups(old(remote.docs), uid, rows)
      ensures reload == RefreshReloads(user)
      ensures dao.daily == old(dao.daily) && dao.tracking == old(dao.tracking)
    {
      order := RecordGoalTimes(ViewModelUid(user), goals, today, dao, remote);
      reload := user.Some? && user.value.uid != "";
    }
  }

  /** The loop of `setGoalTimes`, visiting the entries in some order. */
  method RecordGoalTimes(uid: string, goals: map<string, int>, today: string, dao: HistoryDao, remote: RemoteStore)
    returns (order: seq<string>)
    requires dao.Valid()
    modifies dao, remote
    ensures dao.Valid()
    ensures ListsSet(order, goals.Keys)
    ensures var rows := GoalTimeRows(uid, today, goals, order);
      && dao.goals == old(dao.goals) + Numbered(rows, old(dao.nextGoalId), SetGoalId)
      && remote.docs == ApplyGoalBackups(old(remote.docs), uid, rows)
    ensures dao.daily == old(dao.daily) && dao.tracking == old(dao.tracking)
  {
    order := ToList(goals.Keys);
    ghost var next0 := dao.nextGoalId;
    ghost var docs0 := remote.docs;
    ghost var goals0 := dao.goals;
    ghost var rows: seq<GoalHistoryEntity> := [];
    ghost var added: seq<GoalHistoryEntity> := [];
    var i := 0;
    while i < |order|
      invariant 0 <= i <= |order|
      invariant rows == GoalTimeRows(uid, today, goals, order[..i])
      invariant dao.Valid()
      invariant dao.nextGoalId == next0 + |rows|
      invariant dao.goals == goals0 + added && added == Numbered(rows, next0, SetGoalId)
      invariant remote.docs == ApplyGoalBackups(docs0, uid, rows)
      invariant dao.daily == old(dao.daily) && dao.tracking == old(dao.tracking)
    {
      var pkg := order[i];
      var entity := GoalTimeRow(uid, today, pkg, goals[pkg]);
      ghost var y := SetGoalId(entity, dao.nextGoalId);
      RecordGoalTime(uid, entity, dao, remote);
      GoalStep(goals0, added, rows, entity, next0, y);
      ApplyGoalBackupsSnoc(docs0, uid, rows, entity);
      GoalTimeRowsNext(uid, today, goals, order, i);
      added := added + [y];
      rows := rows + [entity];
      i := i + 1;
    }
    assert order[..i] == order;
  }

  /** The tracking part of `updateTrackedPackages`: append the row, and
      back it up when the set is nonempty. */
  method RecordTracking(uid: string, newSet: set<string>, today: string, dao: HistoryDao, remote: RemoteStore)
    requires dao.Valid()
    modifies dao, remote
    ensures dao.Valid()
    ensures |dao.tracking| == |old(dao.tracking)| + 1
    ensures dao.tracking[..|old(dao.tracking)|] == old(dao.tracking)
    ensures var row := dao.tracking[|old(dao.tracking)|];
      && row.id == old(dao.nextTrackingId) && row.uid == uid && row.effectiveDate == today
      && ListsSet(row.trackedPackages, newSet)
      && remote.docs == (if newSet != {} then ApplyWrite(old(remote.docs), TrackingBackup(uid, row.(id := 0)))
                         else old(remote.docs))
    ensures dao.daily == old(dao.daily) && dao.goals == old(dao.goals)
  {
    var packages := ToList(newSet);
    var entity := TrackingHistoryEntity(0, uid, today, packages);
    dao.InsertTrackingHistory(entity);
    assert dao.tracking == old(dao.tracking) + [entity.(id := old(dao.nextTrackingId))];
    if newSet != {} {
      BackupTrackingHistory(remote, uid, entity);
    }
  }

  /** One entry of `setGoalTimes`: append the row, and back it up for a uid
      other than `"anonymous"`. */
  method RecordGoalTime(uid: string, entity: GoalHistoryEntity, dao: HistoryDao, remote: RemoteStore)
    requires dao.Valid() && entity.id == 0
    modifies dao, remote
    ensures dao.Valid()
    ensures dao.goals == old(dao.goals) + [SetGoalId(entity, old(dao.nextGoalId))]
    ensures dao.nextGoalId == old(dao.nextGoalId) + 1
    ensures remote.docs == ApplyWrite(old(remote.docs), GoalBackup(uid, entity))
    ensures dao.daily == old(dao.daily) && dao.tracking == old(dao.tracking)
  {
    dao.InsertGoalHistory(entity);
    if uid != Anonymous {
      BackupGoalHistory(remote, uid, entity);
    }
  }

  /** The rows `setGoalTimes` records, in the order visited. */
  function GoalTimeRows(uid: string, today: string, goals: map<string, int>, order: seq<string>): (r: seq<GoalHistoryEntity>)
    requires forall p :: p in order ==> p in goals
    ensures |r| == |order|
    ensures forall i :: 0 <= i < |order| ==> r[i] == GoalTimeRow(uid, today, order[i], goals[order[i]])
  {
    seq(|order|, i requires 0 <= i < |order| => GoalTimeRow(uid, today, order[i], goals[order[i]]))
  }

  /** The ledger bookkeeping of one more recorded goal. */
  lemma GoalStep(table: seq<GoalHistoryEntity>, added: seq<GoalHistoryEntity>, rows: seq<GoalHistoryEntity>,
                 entity: GoalHistoryEntity, next: int, y: GoalHistoryEntity)
    requires added == Numbered(rows, next, SetGoalId) && y == SetGoalId(entity, next + |rows|)
    ensures table + added + [y] == table + (added + [y])
    ensures added + [y] == Numbered(rows + [entity], next, SetGoalId)
  {
    SnocAssoc(table, added, y);
    NumberedSnoc(rows, entity, next, SetGoalId);
  }

  lemma ApplyGoalBackupsSnoc(docs: map<DocKey, map<string, Value>>, uid: string, rows: seq<GoalHistoryEntity>, x: GoalHistoryEntity)
    ensures ApplyGoalBackups(docs, uid, rows + [x]) == ApplyWrite(ApplyGoalBackups(docs, uid, rows), GoalBackup(uid, x))
  {
    assert (rows + [x])[..|rows|] == rows;
  }

  lemma GoalTimeRowsNext(uid: string, today: string, goals: map<string, int>, order: seq<string>, i: nat)
    requires i < |order| && forall p :: p in order ==> p in goals
    ensures GoalTimeRows(uid, today, goals, order[..i + 1])
         == GoalTimeRows(uid, today, goals, order[..i]) + [GoalTimeRow(uid, today, order[i], goals[order[i]])]
  {
    assert order[..i + 1] == order[..i] + [order[i]];
    GoalTimeRowsSnoc(uid, today, goals, order[..i], order[i]);
  }

  lemma GoalTimeRowsSnoc(uid: string, today: string, goals: map<string, int>, order: seq<string>, pkg: string)
    requires forall p :: p in order ==> p in goals
    requires pkg in goals
    ensures GoalTimeRows(uid, today, goals, order + [pkg])
         == GoalTimeRows(uid, today, goals, order) + [GoalTimeRow(uid, today, pkg, goals[pkg])]
  {
  }

  /** `setGoalTimes` never records an overall goal: a blank key becomes
      the app name `"overall"`, which `getEffectiveOverallGoal` ignores. */
  lemma GoalTimesAreAppGoals(uid: string, today: string, goals: map<string, int>, order: seq<string>, target: string)
    requires forall p :: p in order ==> p in goals
    ensures forall r :: r in GoalTimeRows(uid, today, goals, order) ==> !OverallGoalCandidate(r, uid, target)
    ensures forall i :: 0 <= i < |order| && IsBlank(order[i]) ==>
      GoalTimeRows(uid, today, goals, order)[i].packageName == Some("overall")
  {
  }

  /** The tail of `Decorators`: once a date fails to parse, the update fails
      whatever follows. */
  lemma {:induction false} DecoratorsFailed(dailies: seq<DailyUsage>, n: nat, list: seq<AppUsage>, filter: Option<string>,
                                            tracked: set<string>, overall: Option<int>, parse: string -> Option<CalendarDay>)
    requires 0 < n <= |dailies| && parse(dailies[n - 1].date).None?
    ensures Decorators(dailies, list, filter, tracked, overall, parse).None?
    decreases |dailies|
  {
    if n < |dailies| {
      assert dailies[..|dailies| - 1][n - 1] == dailies[n - 1];
      DecoratorsFailed(dailies[..|dailies| - 1], n, list, filter, tracked, overall, parse);
    }
  }
}
