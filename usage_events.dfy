/** The usage event aggregator of `UsageRepository`: `calculatePreciseUsage`
    folds the platform's ordered usage events into milliseconds of foreground
    time per package and converts them to minutes; `parseUsageStats` sums the
    platform's coarse per-package totals.

    The event source (`UsageStatsManager.queryEvents`) is an input: the events
    it would return, in order. */
module UsageEvents {
  import opened Common

  /** The event types the aggregator reacts to; every other type is ignored. */
  datatype EventType =
    | MoveToForeground
    | ActivityResumed
    | MoveToBackground
    | ActivityPaused
    | ScreenNonInteractive
    | OtherEvent

  datatype Event = Event(eventType: EventType, packageName: string, timeStamp: int)

  predicate IsStart(t: EventType) { t == MoveToForeground || t == ActivityResumed }
  predicate IsStop(t: EventType) { t == MoveToBackground || t == ActivityPaused }

  /** The aggregator's two maps: `startMap` (package -> open start time) and
      `appUsageMap` (package -> accumulated milliseconds). */
  datatype Tally = Tally(open: map<string, int>, millis: map<string, int>)

  const Empty: Tally := Tally(map[], map[])

  /** `appUsageMap[p] = (appUsageMap[p] ?: 0) + d`, done only when `d > 0`. */
  function AddPositive(millis: map<string, int>, p: string, d: int): map<string, int> {
    if d > 0 then millis[p := Get(millis, p, 0) + d] else millis
  }

  /** The time an open package has been in the foreground at `t`, or 0 when
      it is not open or the difference is not positive. */
  function Elapsed(open: map<string, int>, p: string, t: int): (r: int)
    ensures r >= 0
    ensures r > 0 <==> p in open && t - open[p] > 0
  {
    if p in open && t - open[p] > 0 then t - open[p] else 0
  }

  /** Closing every open package against `t` (the screen-off event and the
      end of the window): each gains its positive elapsed time. */
  function CloseAll(open: map<string, int>, millis: map<string, int>, t: int): map<string, int> {
    map p | p in millis.Keys + (set q | q in open && t - open[q] > 0) :: Get(millis, p, 0) + Elapsed(open, p, t)
  }

  /** One event of the `while (hasNextEvent)` loop. */
  function Step(s: Tally, e: Event): Tally {
    var p := e.packageName;
    if IsStart(e.eventType) then
      Tally(s.open[p := e.timeStamp], s.millis)
    else if IsStop(e.eventType) then
      if p in s.open then Tally(s.open - {p}, AddPositive(s.millis, p, e.timeStamp - s.open[p])) else s
    else if e.eventType == ScreenNonInteractive then
      Tally(map[], CloseAll(s.open, s.millis, e.timeStamp))
    else s
  }

  /** The state after the loop has consumed `events`. */
  function Replay(events: seq<Event>): Tally {
    if |events| == 0 then Empty else Step(Replay(events[..|events| - 1]), events[|events| - 1])
  }

  /** The milliseconds per package once the packages still open are closed
      against `endTime`. */
  function PreciseMillis(events: seq<Event>, endTime: int): map<string, int> {
    var s := Replay(events);
    CloseAll(s.open, s.millis, endTime)
  }

  /** `(millis / (1000 * 60)).toInt()`. */
  function MillisToMinutes(millis: int): int {
    ToInt32(TruncDiv(millis, 60000))
  }

  function ToMinutes(millis: map<string, int>): (r: map<string, int>)
    ensures r.Keys == millis.Keys
  {
    map p | p in millis :: MillisToMinutes(millis[p])
  }

  // ---------------------------------------------------------------------
  // The imperative aggregator
  // ---------------------------------------------------------------------

  /** `startMap.forEach { ... }`: close every open package against `t`, in
      whatever order the map yields them. */
  method CloseOpen(open: map<string, int>, millis: map<string, int>, t: int) returns (r: map<string, int>)
    ensures r == CloseAll(open, millis, t)
  {
    r := millis;
    var rest := open.Keys;
    CloseAllNone(millis, t);
    assert open - rest == map[];
    while rest != {}
      invariant rest <= open.Keys
      invariant r == CloseAll(open - rest, millis, t)
      decreases |rest|
    {
      var p :| p in rest;
      CloseAllStep(open - rest, millis, t, p, open[p]);
      assert (open - rest)[p := open[p]] == open - (rest - {p});
      r := AddPositive(r, p, t - open[p]);
      rest := rest - {p};
    }
    assert open - rest == open;
  }

  /** `calculatePreciseUsage(startTime, endTime)` over the events the platform
      returned for that window. */
  method CalculatePreciseUsage(events: seq<Event>, endTime: int) returns (usage: map<string, int>)
    ensures usage == ToMinutes(PreciseMillis(events, endTime))
  {
    var appUsageMap: map<string, int> := map[];
    var startMap: map<string, int> := map[];
    var i := 0;
    while i < |events|
      invariant 0 <= i <= |events|
      invariant Tally(startMap, appUsageMap) == Replay(events[..i])
    {
      var event := events[i];
      var pkg := event.packageName;
      assert events[..i + 1][..i] == events[..i];
      if IsStart(event.eventType) {
        startMap := startMap[pkg := event.timeStamp];
      } else if IsStop(event.eventType) {
        if pkg in startMap {
          var duration := event.timeStamp - startMap[pkg];
          if duration > 0 {
            appUsageMap := appUsageMap[pkg := Get(appUsageMap, pkg, 0) + duration];
          }
          startMap := startMap - {pkg};
        }
      } else if event.eventType == ScreenNonInteractive {
        appUsageMap := CloseOpen(startMap, appUsageMap, event.timeStamp);
        startMap := map[];
      }
      i := i + 1;
    }
    assert events[..i] == events;
    appUsageMap := CloseOpen(startMap, appUsageMap, endTime);
    usage := map p | p in appUsageMap :: MillisToMinutes(appUsageMap[p]);
  }

  // ---------------------------------------------------------------------
  // Closing open packages
  // ---------------------------------------------------------------------

  lemma CloseAllNone(millis: map<string, int>, t: int)
    ensures CloseAll(map[], millis, t) == millis
  {
  }

  /** What closing does to one package: it gains its elapsed time, if any. */
  lemma CloseAllValue(open: map<string, int>, millis: map<string, int>, t: int, p: string)
    ensures Get(CloseAll(open, millis, t), p, 0) == Get(millis, p, 0) + Elapsed(open, p, t)
    ensures p in CloseAll(open, millis, t) <==> p in millis || Elapsed(open, p, t) > 0
  {
  }

  /** Closing one more package is one more `AddPositive`. */
  lemma CloseAllStep(open: map<string, int>, millis: map<string, int>, t: int, p: string, s: int)
    requires p !in open
    ensures CloseAll(open[p := s], millis, t) == AddPositive(CloseAll(open, millis, t), p, t - s)
  {
    var lhs := CloseAll(open[p := s], millis, t);
    var rhs := AddPositive(CloseAll(open, millis, t), p, t - s);
    forall q ensures (q in lhs <==> q in rhs) && (q in lhs ==> lhs[q] == rhs[q]) {
      CloseAllValue(open[p := s], millis, t, q);
      CloseAllValue(open, millis, t, q);
    }
  }

  // ---------------------------------------------------------------------
  // What one event does
  // ---------------------------------------------------------------------

  /** A second foreground start overwrites the open start: the interval that
      began at the earlier start is never counted. */
  lemma RestartDiscardsEarlierStart(s: Tally, p: string, t1: int, t2: int, k1: EventType, k2: EventType)
    requires IsStart(k1) && IsStart(k2)
    ensures Step(Step(s, Event(k1, p, t1)), Event(k2, p, t2)) == Step(s, Event(k2, p, t2))
    ensures Step(Step(s, Event(k1, p, t1)), Event(k2, p, t2)).open[p] == t2
  {
  }

  /** A stop with an open start adds the positive part of `timeStamp - start`
      and closes the package; without an open start it changes nothing, so a
      second stop is a no-op. */
  lemma StopClosesOnce(s: Tally, e: Event, e2: Event)
    requires IsStop(e.eventType) && IsStop(e2.eventType) && e2.packageName == e.packageName
    ensures var p := e.packageName;
      && Step(s, e).open == s.open - {p}
      && Get(Step(s, e).millis, p, 0) == Get(s.millis, p, 0) + Elapsed(s.open, p, e.timeStamp)
      && (forall q :: q != p ==> Get(Step(s, e).millis, q, 0) == Get(s.millis, q, 0))
      && (p !in s.open ==> Step(s, e) == s)
      && Step(Step(s, e), e2) == Step(s, e)
  {
  }

  /** The screen-off event closes every open package against its time and
      leaves none open. */
  lemma ScreenOffClosesAll(s: Tally, e: Event)
    requires e.eventType == ScreenNonInteractive
    ensures Step(s, e).open == map[]
    ensures forall p :: Get(Step(s, e).millis, p, 0) == Get(s.millis, p, 0) + Elapsed(s.open, p, e.timeStamp)
  {
    forall p ensures Get(Step(s, e).millis, p, 0) == Get(s.millis, p, 0) + Elapsed(s.open, p, e.timeStamp) {
      CloseAllValue(s.open, s.millis, e.timeStamp, p);
    }
  }

  // ---------------------------------------------------------------------
  // Totals
  // ---------------------------------------------------------------------

  ghost predicate AllPositive(m: map<string, int>) {
    forall p :: p in m ==> m[p] > 0
  }

  /** Only positive durations are ever added, so every total is positive. */
  lemma {:induction false} ReplayPositive(events: seq<Event>)
    ensures AllPositive(Replay(events).millis)
    decreases |events|
  {
    if |events| > 0 {
      var s := Replay(events[..|events| - 1]);
      ReplayPositive(events[..|events| - 1]);
      var e := events[|events| - 1];
      if e.eventType == ScreenNonInteractive {
        forall p | p in Step(s, e).millis ensures Step(s, e).millis[p] > 0 {
          CloseAllValue(s.open, s.millis, e.timeStamp, p);
        }
      }
    }
  }

  lemma PreciseMillisPositive(events: seq<Event>, endTime: int)
    ensures AllPositive(PreciseMillis(events, endTime))
  {
    ReplayPositive(events);
    var s := Replay(events);
    forall p | p in PreciseMillis(events, endTime) ensures PreciseMillis(events, endTime)[p] > 0 {
      CloseAllValue(s.open, s.millis, endTime, p);
    }
  }

  /** The reported minutes are the floor of the milliseconds over 60000, and
      so never negative, as long as they fit in a 32-bit `Int`. */
  lemma MinutesAreFloor(events: seq<Event>, endTime: int, p: string)
    requires p in PreciseMillis(events, endTime)
    requires PreciseMillis(events, endTime)[p] / 60000 < TwoTo31
    ensures ToMinutes(PreciseMillis(events, endTime))[p] == PreciseMillis(events, endTime)[p] / 60000
    ensures ToMinutes(PreciseMillis(events, endTime))[p] >= 0
  {
    PreciseMillisPositive(events, endTime);
    ToInt32Identity(PreciseMillis(events, endTime)[p] / 60000);
  }

  // ---------------------------------------------------------------------
  // The window bound
  // ---------------------------------------------------------------------

  /** At time `now` of a window opened at `startTime`: an open package's
      total so far fits before its open start, a closed package's total fits
      before `now`. */
  ghost predicate Bounded(s: Tally, now: int, startTime: int) {
    && startTime <= now
    && (forall p :: p in s.open ==> startTime <= s.open[p] <= now && Get(s.millis, p, 0) <= s.open[p] - startTime)
    && (forall p :: p !in s.open ==> Get(s.millis, p, 0) <= now - startTime)
  }

  lemma StepBounded(s: Tally, e: Event, now: int, startTime: int)
    requires Bounded(s, now, startTime) && now <= e.timeStamp
    ensures Bounded(Step(s, e), e.timeStamp, startTime)
  {
    var t := e.timeStamp;
    if e.eventType == ScreenNonInteractive {
      forall p ensures Get(Step(s, e).millis, p, 0) <= t - startTime {
        CloseAllValue(s.open, s.millis, t, p);
      }
    }
  }

  /** The timestamp the loop has reached after `events`. */
  function Now(events: seq<Event>, startTime: int): int {
    if |events| == 0 then startTime else events[|events| - 1].timeStamp
  }

  ghost predicate InWindow(events: seq<Event>, startTime: int, endTime: int) {
    && (forall i :: 0 <= i < |events| ==> startTime <= events[i].timeStamp <= endTime)
    && (forall i, j :: 0 <= i < j < |events| ==> events[i].timeStamp <= events[j].timeStamp)
  }

  lemma {:induction false} ReplayBounded(events: seq<Event>, startTime: int, endTime: int)
    requires InWindow(events, startTime, endTime)
    ensures Bounded(Replay(events), Now(events, startTime), startTime)
    decreases |events|
  {
    if |events| > 0 {
      var init := events[..|events| - 1];
      assert InWindow(init, startTime, endTime);
      ReplayBounded(init, startTime, endTime);
      StepBounded(Replay(init), events[|events| - 1], Now(init, startTime), startTime);
    }
  }

  /** With ordered timestamps inside [startTime, endTime], no package is
      credited more than the window's length. */
  lemma WithinWindow(events: seq<Event>, startTime: int, endTime: int)
    requires startTime <= endTime
    requires InWindow(events, startTime, endTime)
    ensures forall p :: p in PreciseMillis(events, endTime) ==>
      0 < PreciseMillis(events, endTime)[p] <= endTime - startTime
  {
    ReplayBounded(events, startTime, endTime);
    PreciseMillisPositive(events, endTime);
    var s := Replay(events);
    forall p | p in PreciseMillis(events, endTime) ensures PreciseMillis(events, endTime)[p] <= endTime - startTime {
      CloseAllValue(s.open, s.millis, endTime, p);
    }
  }

  // ---------------------------------------------------------------------
  // parseUsageStats
  // ---------------------------------------------------------------------

  /** A platform `UsageStats` bucket: a package and its foreground milliseconds. */
  datatype UsageStat = UsageStat(packageName: string, totalTimeInForeground: int)

  function StatMinutes(s: UsageStat): int {
    MillisToMinutes(s.totalTimeInForeground)
  }

  /** The map `parseUsageStats` has built after `stats`. */
  function ParsedUsage(stats: seq<UsageStat>): map<string, int> {
    if |stats| == 0 then map[]
    else
      var prev := ParsedUsage(stats[..|stats| - 1]);
      var s := stats[|stats| - 1];
      if StatMinutes(s) <= 0 then prev else prev[s.packageName := Get(prev, s.packageName, 0) + StatMinutes(s)]
  }

  /** The positive minutes of `p`'s buckets, summed. */
  function PackageMinutes(stats: seq<UsageStat>, p: string): (r: int)
    ensures r >= 0
  {
    if |stats| == 0 then 0
    else
      var s := stats[|stats| - 1];
      PackageMinutes(stats[..|stats| - 1], p) + if s.packageName == p && StatMinutes(s) > 0 then StatMinutes(s) else 0
  }

  method ParseUsageStats(stats: seq<UsageStat>) returns (usageMap: map<string, int>)
    ensures usageMap == ParsedUsage(stats)
  {
    usageMap := map[];
    var i := 0;
    while i < |stats|
      invariant 0 <= i <= |stats|
      invariant usageMap == ParsedUsage(stats[..i])
    {
      var stat := stats[i];
      assert stats[..i + 1][..i] == stats[..i];
      var usageInMinutes := MillisToMinutes(stat.totalTimeInForeground);
      if usageInMinutes > 0 {
        var pkg := stat.packageName;
        usageMap := usageMap[pkg := Get(usageMap, pkg, 0) + usageInMinutes];
      }
      i := i + 1;
    }
    assert stats[..i] == stats;
  }

  /** `parseUsageStats` holds exactly the packages with a positive bucket,
      each with the sum of its positive buckets. */
  lemma {:induction false} ParsedUsageSums(stats: seq<UsageStat>, p: string)
    ensures Get(ParsedUsage(stats), p, 0) == PackageMinutes(stats, p)
    ensures p in ParsedUsage(stats) <==> PackageMinutes(stats, p) > 0
    decreases |stats|
  {
    if |stats| > 0 {
      ParsedUsageSums(stats[..|stats| - 1], p);
    }
  }
}
