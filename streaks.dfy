/** The streak calculator of `UsageRepository.calculateStreaks`: for each
    package with a goal, the signed length of the run of days, newest first,
    whose outcome (usage within the goal or not) matches the most recent past
    day. Positive is a run of successes, negative a run of failures. */
module Streaks {
  import opened Common
  import opened Query
  import opened UsageModel

  // ---------------------------------------------------------------------
  // Runs
  // ---------------------------------------------------------------------

  /** The length of the leading run of `b` in `outcomes`. */
  function Run(outcomes: seq<bool>, b: bool): (r: nat)
    ensures r <= |outcomes|
  {
    if |outcomes| == 0 || outcomes[0] != b then 0 else 1 + Run(outcomes[1..], b)
  }

  /** `k` is the leading run's length exactly when the first `k` outcomes are
      `b` and the next one, if any, is not. */
  lemma {:induction false} RunIsLeadingRun(outcomes: seq<bool>, b: bool, k: nat)
    ensures k == Run(outcomes, b) <==>
      && k <= |outcomes|
      && (forall i :: 0 <= i < k ==> outcomes[i] == b)
      && (k == |outcomes| || outcomes[k] != b)
    decreases |outcomes|
  {
    if |outcomes| > 0 && outcomes[0] == b && k > 0 {
      RunIsLeadingRun(outcomes[1..], b, k - 1);
      if k <= |outcomes| {
        assert forall i :: 1 <= i < k ==> outcomes[i] == outcomes[1..][i - 1];
        if k < |outcomes| {
          assert outcomes[k] == outcomes[1..][k - 1];
        }
      }
    }
  }

  /** The run of the first outcome, signed by it: positive for successes. */
  function SignedRun(outcomes: seq<bool>): int {
    if |outcomes| == 0 then 0
    else if outcomes[0] then Run(outcomes, true)
    else -(Run(outcomes, false) as int)
  }

  /** A nonempty history has a nonzero streak whose sign is the latest
      outcome and whose magnitude is the run of that outcome. */
  lemma SignedRunMeaning(outcomes: seq<bool>)
    ensures |outcomes| == 0 ==> SignedRun(outcomes) == 0
    ensures |outcomes| > 0 ==>
      && SignedRun(outcomes) != 0
      && (SignedRun(outcomes) > 0 <==> outcomes[0])
      && Abs(SignedRun(outcomes)) == Run(outcomes, outcomes[0])
      && 1 <= Abs(SignedRun(outcomes)) <= |outcomes|
  {
    if |outcomes| > 0 {
      assert Run(outcomes, outcomes[0]) == 1 + Run(outcomes[1..], outcomes[0]);
    }
  }

  function Abs(x: int): nat { if x < 0 then -x else x }

  /** The signed run read as a leading run: its first `Abs` outcomes equal
      the newest one and the next one, if any, differs. */
  lemma SignedRunLeading(outcomes: seq<bool>)
    requires |outcomes| > 0
    ensures var s := SignedRun(outcomes);
      && s != 0 && (s > 0 <==> outcomes[0]) && 1 <= Abs(s) <= |outcomes|
      && (forall i :: 0 <= i < Abs(s) ==> outcomes[i] == outcomes[0])
      && (Abs(s) == |outcomes| || outcomes[Abs(s)] != outcomes[0])
  {
    SignedRunMeaning(outcomes);
    RunIsLeadingRun(outcomes, outcomes[0], Run(outcomes, outcomes[0]));
  }

  // ---------------------------------------------------------------------
  // calculateStreaks
  // ---------------------------------------------------------------------

  /** The daily records not dated `todayStr`. */
  function NotOn(todayStr: string): DailyUsage -> bool {
    (d: DailyUsage) => d.date != todayStr
  }

  /** `dailyList.filter { it.date != todayStr }.sortedByDescending { it.date }`. */
  function PastDays(dailyList: seq<DailyUsage>, todayStr: string): (r: seq<DailyUsage>)
    ensures forall d :: d in r <==> d in dailyList && d.date != todayStr
    ensures multiset(r) <= multiset(dailyList)
    ensures forall d: DailyUsage :: d.date != todayStr ==> multiset(r)[d] == multiset(dailyList)[d]
    ensures SortedBy(r, DayDate, true)
  {
    var past := Filter(dailyList, NotOn(todayStr));
    SortByMembers(past, DayDate, true);
    FilterCount(dailyList, NotOn(todayStr));
    SortBy(past, DayDate, true)
  }

  /** A day is a success for a package when its usage, 0 if absent, is
      within the goal. */
  predicate DaySuccess(day: DailyUsage, pkg: string, goal: int) {
    Get(day.appUsages, pkg, 0) <= goal
  }

  function Outcomes(days: seq<DailyUsage>, pkg: string, goal: int): (r: seq<bool>)
    ensures |r| == |days|
    ensures forall i :: 0 <= i < |days| ==> r[i] == DaySuccess(days[i], pkg, goal)
  {
    seq(|days|, i requires 0 <= i < |days| => DaySuccess(days[i], pkg, goal))
  }

  /** The streak `calculateStreaks` reports for one package with `goal`. */
  function PackageStreak(pastDays: seq<DailyUsage>, pkg: string, goal: int): int {
    if |pastDays| == 0 || goal == 0 then 0 else SignedRun(Outcomes(pastDays, pkg, goal))
  }

  /** The streak of every package with a goal. */
  function StreakMap(dailyList: seq<DailyUsage>, goals: map<string, int>, todayStr: string): (r: map<string, int>)
    ensures r.Keys == goals.Keys
    ensures forall p :: p in goals ==> r[p] == PackageStreak(PastDays(dailyList, todayStr), p, goals[p])
  {
    map p | p in goals :: PackageStreak(PastDays(dailyList, todayStr), p, goals[p])
  }

  method CalculateStreaks(dailyList: seq<DailyUsage>, goals: map<string, int>, todayStr: string)
    returns (streakMap: map<string, int>)
    ensures streakMap == StreakMap(dailyList, goals, todayStr)
  {
    var pastDays := PastDays(dailyList, todayStr);
    streakMap := StreaksOver(pastDays, goals);
  }

  /** The body of `calculateStreaks` once the past days are sorted: an early
      all-zero answer without past days, else one run count per package. */
  method StreaksOver(pastDays: seq<DailyUsage>, goals: map<string, int>) returns (streakMap: map<string, int>)
    ensures streakMap.Keys == goals.Keys
    ensures forall p :: p in goals ==> streakMap[p] == PackageStreak(pastDays, p, goals[p])
  {
    if |pastDays| == 0 {
      streakMap := map p | p in goals :: 0;
      return;
    }
    streakMap := map[];
    var rest := goals.Keys;
    while rest != {}
      invariant rest <= goals.Keys
      invariant streakMap.Keys == goals.Keys - rest
      invariant forall p :: p in streakMap ==> streakMap[p] == PackageStreak(pastDays, p, goals[p])
      decreases |rest|
    {
      var pkg :| pkg in rest;
      rest := rest - {pkg};
      var goal := goals[pkg];
      if goal == 0 {
        streakMap := streakMap[pkg := 0];
        continue;
      }
      var firstDayUsage := Get(pastDays[0].appUsages, pkg, 0);
      var wasSuccess := firstDayUsage <= goal;
      var streak := CountRun(pastDays, pkg, goal, wasSuccess);
      streakMap := streakMap[pkg := if wasSuccess then streak else -streak];
    }
  }

  /** The inner `for (day in pastDays)` loop: count days while their outcome
      matches `wasSuccess`, stopping at the first that does not. */
  method CountRun(pastDays: seq<DailyUsage>, pkg: string, goal: int, wasSuccess: bool) returns (streak: int)
    ensures streak == Run(Outcomes(pastDays, pkg, goal), wasSuccess)
  {
    streak := 0;
    var j := 0;
    while j < |pastDays|
      invariant 0 <= j <= |pastDays| && streak == j
      invariant forall k :: 0 <= k < j ==> DaySuccess(pastDays[k], pkg, goal) == wasSuccess
    {
      var usage := Get(pastDays[j].appUsages, pkg, 0);
      if (usage <= goal) == wasSuccess {
        streak := streak + 1;
      } else {
        break;
      }
      j := j + 1;
    }
    RunIsLeadingRun(Outcomes(pastDays, pkg, goal), wasSuccess, streak);
  }

  /** What `calculateStreaks` promises per package: 0 without past days or
      with a goal of exactly 0; otherwise a nonzero count of the days, newest
      first, that share the most recent past day's outcome, positive when
      that day was a success. Today's record never takes part. */
  lemma PackageStreakMeaning(dailyList: seq<DailyUsage>, todayStr: string, pkg: string, goal: int)
    ensures var past := PastDays(dailyList, todayStr);
      var s := PackageStreak(past, pkg, goal);
      && (|past| == 0 || goal == 0 ==> s == 0)
      && (|past| > 0 && goal != 0 ==>
            && s != 0
            && (s > 0 <==> DaySuccess(past[0], pkg, goal))
            && Abs(s) <= |past|
            && (forall i :: 0 <= i < Abs(s) ==> DaySuccess(past[i], pkg, goal) == DaySuccess(past[0], pkg, goal))
            && (Abs(s) == |past| || DaySuccess(past[Abs(s)], pkg, goal) != DaySuccess(past[0], pkg, goal)))
  {
    var past := PastDays(dailyList, todayStr);
    if |past| > 0 && goal != 0 {
      var o := Outcomes(past, pkg, goal);
      SignedRunMeaning(o);
      RunIsLeadingRun(o, o[0], Run(o, o[0]));
    }
  }

  /** Today's record does not change any past streak. */
  lemma TodayIgnored(dailyList: seq<DailyUsage>, todayStr: string, today: DailyUsage)
    requires today.date == todayStr
    ensures PastDays(dailyList + [today], todayStr) == PastDays(dailyList, todayStr)
  {
    FilterAppend(dailyList, today, NotOn(todayStr));
  }
}
