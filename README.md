# PixelDiet usage pipeline and sync rules, in Dafny

PixelDiet is an Android app that measures how long each app is in the
foreground every day, compares that usage with per-app and overall goals,
and shows signed streaks: positive for a run of days within the goal,
negative for a run of days over it. Every record belongs to a user id
(`uid`), which is `"anonymous"` for a guest. Records are kept in a local
Room database and backed up to a remote document store.

This project models four parts of the app and proves properties of them.

- **Usage aggregation and streaks** (`UsageRepository`).
  - `usage_events.dfy`: the event fold of `calculatePreciseUsage` and the
    bucket sum of `parseUsageStats`.
  - `streaks.dfy`: `calculateStreaks`.
  - `repository.dfy`: the part of `loadRealData` that stores today's record,
    resolves goals, applies the same-day streak rule and builds the
    per-app rows.
- **The local store** (`HistoryDao` and its three entities).
  - `entities.dfy`: the row shapes.
  - `history_dao.dfy`: a `HistoryDao` class holding the three tables as row
    sequences with their AUTOINCREMENT counters. The three inserts are
    methods with REPLACE semantics. Every query is a function over the rows.
- **The sync rules** (`BackupManager`), in `backup.dfy`.
  - The guest id.
  - Each backup is at most one merge write to a `RemoteStore` class, whose
    documents form a map from (uid, collection, document id) to fields.
  - Each restore is a loop over the fetched documents. It writes to the
    local store one row at a time, and an exception stops it.
- **The view model** (`SharedViewModel`), in `view_model.dfy`.
  - The derived views: totals, the goal for a filter, calendar decorators,
    the month's success count and the overall streak.
  - The write paths: `backupTodayUsage`, `updateTrackedPackages`,
    `setOverallGoal` and `setGoalTimes`. They are methods of a
    `SharedViewModel` class whose fields are the published values and the
    preferences.

`common.dfy` holds shared definitions:

- an `Option` type;
- Kotlin's string order, with a proof that it orders "YYYY-MM-DD" dates
  chronologically;
- Kotlin's truncating division and 32-bit `toInt()`;
- `isBlank`.

`query.dfy` holds the selection helpers the queries are built from: filter,
a stable sort by a string key, latest-by-key and limit. `model.dfy` holds the
in-memory `DailyUsage` and `AppUsage` values and the tracked-usage sum.

Inputs that come from the platform are parameters:

- the usage events since midnight;
- the app's own package name and the launcher's package name;
- "today" and the first day of the 30-day window;
- the signed-in user (`Option<User>`);
- the documents a fetch returns (`None` when the fetch fails);
- the date parser of the calendar.

An exception is modelled as a `None` result, in these cases:

- a restored document whose field has the wrong type;
- a calendar date that does not parse.

### Where the code departs from the intended behaviour

The model follows the code in each of these cases.

- **Ties in the as-of lookup.** The intended behaviour is that the row inserted last wins
  among rows with the same date. The SQL orders by date only, so the
  lookups promise just a row with the greatest date.
- **Coarse usage fallback.** The intended behaviour includes a fallback to coarse
  daily buckets. The bucket map built in `loadRealData` is never read, and
  the stored record is the event-based map alone.
- **Negative goals in `calculateStreaks`.** The intended streak is 0
  for any goal of 0 or less. `calculateStreaks` tests `goal == 0`, so a
  negative goal still gets a run count. The displayed streak is 0 for any
  goal of 0 or less (`Streaks.PackageStreak`, `Repository.AppSnapshot`).
- **What restores write.** The intent is that every restored document is
  upserted and that a restore is idempotent.
  - Only daily records are upserted.
  - Goal and tracking rows are inserted with id 0, so repeating those
    restores appends duplicates (`Backup.AppendRestoreDuplicates`).
  - A restore that fails part-way keeps the rows it already wrote.
- **Guest backups.** A guest is meant never to reach the remote store.
  The view model takes the uid as `currentUser?.uid ?: "anonymous"`, so a
  guest signed in with an anonymous account passes its real uid, and its
  writes are backed up (`ViewModel.AnonymousAccountIsBackedUp`).
  `BackupManager.currentUserId`, which the restores use, calls that same
  account `"anonymous"`.
- **Overall goals after a restore.** An overall goal is backed up under the
  package name `"overall"` and restored with that name. Locally it becomes
  a per-app goal, so the overall-goal lookup no longer finds it
  (`Backup.RestoredOverallGoalIsNotOverall`).
- **Blank keys in `setGoalTimes`.** The method records a blank key as an app
  goal named `"overall"`, never as an overall goal
  (`ViewModel.GoalTimesAreAppGoals`).
- **Clearing the overall goal.** For a signed-in user, `setOverallGoal(null)`
  stores 0, which reads back as an overall goal of 0 rather than "none"
  (`ViewModel.OverallGoalReadBack`).
- **Nothing tracked.**
  - The totals pair counts no app and gives a goal of 0.
  - `filteredGoalTime` and the calendar sum every app's goal
    (`ViewModel.TotalGoalAgainstFilteredGoal`).
  - So with nothing tracked and no overall goal, the overall streak is
    always 0.
- **Unparseable calendar dates.** `SimpleDateFormat.parse` throws on a date
  it cannot parse and never returns null. The `?: continue` after it
  therefore never skips a record. The `ParseException` is not caught: it
  escapes the `MediatorLiveData` observer, so on Android the exception
  reaches the main thread's handler rather than just leaving the calendar
  as it was. The model stops at the throw: the update publishes no value
  (`ViewModel.DecoratorsFailed`), and what the uncaught exception does to
  the app afterwards is not modelled.
- **Two goals in `loadRealData`.** `calculateStreaks` computes the past
  streak with the in-memory goals, while the displayed streak compares
  today with the goal in force, which the store decides when it has a goal
  for the package. The two agree when the goal in force is the in-memory
  one: either the store has no goal for the package, or its goal equals
  the in-memory goal (`Repository.SnapshotStreakIsRunThroughToday`).

## Model

| member | source | states |
|---|---|---|
| UsageEvents.CalculatePreciseUsage | app/src/main/java/com/example/pixeldiet/repository/UsageRepository.kt:278-328 | the minutes per package are those of the event fold `Replay`, with every package still open closed against `endTime`, each total divided by 60000 toward zero and cast to a 32-bit `Int` |
| UsageEvents.CloseOpen | app/src/main/java/com/example/pixeldiet/repository/UsageRepository.kt:319-325 | closing the open packages one by one, in whatever order the map yields them, gives every open package its positive elapsed time and nothing else |
| UsageEvents.Elapsed | app/src/main/java/com/example/pixeldiet/repository/UsageRepository.kt:298-302 | an open package's elapsed time is never negative and is positive exactly when it is open and the event is later than its start |
| UsageEvents.RestartDiscardsEarlierStart | app/src/main/java/com/example/pixeldiet/repository/UsageRepository.kt:291-294 | a second foreground start overwrites the open start, so the state is as if the first start never happened |
| UsageEvents.StopClosesOnce | app/src/main/java/com/example/pixeldiet/repository/UsageRepository.kt:296-305 | a stop adds the positive part of `timeStamp - start` to its own package only and clears the open start; without an open start it changes nothing, so a second stop is a no-op |
| UsageEvents.ScreenOffClosesAll | app/src/main/java/com/example/pixeldiet/repository/UsageRepository.kt:307-315 | screen-off leaves no package open and credits each package exactly its positive elapsed time at the event |
| UsageEvents.CloseAllValue | app/src/main/java/com/example/pixeldiet/repository/UsageRepository.kt:319-325 | closing at the end of the window credits each package its positive elapsed time, and a package appears in the result exactly when it had a total or gains time |
| UsageEvents.ReplayPositive | app/src/main/java/com/example/pixeldiet/repository/UsageRepository.kt:286-317 | only positive durations are ever added, so every running total is positive |
| UsageEvents.PreciseMillisPositive | app/src/main/java/com/example/pixeldiet/repository/UsageRepository.kt:319-325 | after the final close every total is still positive |
| UsageEvents.MinutesAreFloor | app/src/main/java/com/example/pixeldiet/repository/UsageRepository.kt:327 | each reported minute count is the floor of the milliseconds over 60000, and never negative, when it fits in an `Int` |
| UsageEvents.StepBounded | app/src/main/java/com/example/pixeldiet/repository/UsageRepository.kt:290-316 | one event with a timestamp not before the previous one keeps every package's total within the time elapsed since the window opened |
| UsageEvents.ReplayBounded | app/src/main/java/com/example/pixeldiet/repository/UsageRepository.kt:286-317 | for ordered timestamps inside the window, the bound holds after every prefix of the events |
| UsageEvents.WithinWindow | app/src/main/java/com/example/pixeldiet/repository/UsageRepository.kt:278-327 | with ordered timestamps inside [startTime, endTime], every package's total is positive and at most `endTime - startTime` |
| UsageEvents.ToMinutes | app/src/main/java/com/example/pixeldiet/repository/UsageRepository.kt:327 | converting to minutes keeps exactly the same packages |
| UsageEvents.ParseUsageStats | app/src/main/java/com/example/pixeldiet/repository/UsageRepository.kt:228-237 | the loop builds the map `ParsedUsage` of the buckets, skipping buckets of 0 minutes or less |
| UsageEvents.PackageMinutes | app/src/main/java/com/example/pixeldiet/repository/UsageRepository.kt:231-234 | a package's summed positive minutes are never negative |
| UsageEvents.ParsedUsageSums | app/src/main/java/com/example/pixeldiet/repository/UsageRepository.kt:228-237 | a package is in the result exactly when its positive bucket minutes sum above 0, and maps to that sum |
| Streaks.CalculateStreaks | app/src/main/java/com/example/pixeldiet/repository/UsageRepository.kt:239-275 | the streak map equals `StreakMap` over the past days (today's record removed, newest first) |
| Streaks.StreaksOver | app/src/main/java/com/example/pixeldiet/repository/UsageRepository.kt:248-272 | without past days every goal key maps to 0; otherwise exactly the goal keys appear, each with its signed run |
| Streaks.CountRun | app/src/main/java/com/example/pixeldiet/repository/UsageRepository.kt:262-269 | the inner loop's count is the length of the leading run of days whose outcome equals `wasSuccess` |
| Streaks.StreakMap | app/src/main/java/com/example/pixeldiet/repository/UsageRepository.kt:248-257 | only the keys of `goals` appear in the result |
| Streaks.PastDays | app/src/main/java/com/example/pixeldiet/repository/UsageRepository.kt:247 | the past days are exactly the records not dated today, each as often as it is stored, sorted newest first |
| Streaks.Outcomes | app/src/main/java/com/example/pixeldiet/repository/UsageRepository.kt:263-264 | a day's outcome is `usage <= goal`, where a missing package counts as 0 |
| Streaks.Run | app/src/main/java/com/example/pixeldiet/repository/UsageRepository.kt:262-269 | a leading run is never longer than the history |
| Streaks.RunIsLeadingRun | app/src/main/java/com/example/pixeldiet/repository/UsageRepository.kt:262-269 | `k` is the run length exactly when the first `k` outcomes match and the next one, if any, differs |
| Streaks.SignedRunMeaning | app/src/main/java/com/example/pixeldiet/repository/UsageRepository.kt:271 | a nonempty history gives a nonzero streak whose sign is the newest outcome and whose size is that outcome's run, between 1 and the number of days |
| Streaks.PackageStreakMeaning | app/src/main/java/com/example/pixeldiet/repository/UsageRepository.kt:247-271 | 0 without past days or for a goal of exactly 0; otherwise nonzero, positive exactly when the newest past day succeeded, counting the newest days that share its outcome and stopping at the first that does not |
| Streaks.TodayIgnored | app/src/main/java/com/example/pixeldiet/repository/UsageRepository.kt:247 | adding a record dated today does not change the past days, so it cannot change any streak |
| Repository.TodayUsageMap | app/src/main/java/com/example/pixeldiet/repository/UsageRepository.kt:116-118 | the stored today map keeps exactly the precise entries that are not the app's own package, not the launcher, and above 0 minutes, with their values |
| Repository.TodayUsageMapIdempotent | app/src/main/java/com/example/pixeldiet/repository/UsageRepository.kt:116-118 | filtering twice equals filtering once; the result never holds the app's own package or the launcher |
| Repository.ExtendStreak | app/src/main/java/com/example/pixeldiet/repository/UsageRepository.kt:192-199 | the displayed streak is nonzero with the sign of today's outcome; a success extends a positive run by 1, a failure extends a negative run by 1; in every other case, including no past streak (0), the run restarts at 1 for a success or -1 for a failure |
| Repository.SameDayRuleExtendsRun | app/src/main/java/com/example/pixeldiet/repository/UsageRepository.kt:191-199 | the same-day rule applied to the past streak equals the signed run over today followed by the past days |
| Repository.ResolveGoal | app/src/main/java/com/example/pixeldiet/repository/UsageRepository.kt:186-190 | the goal is the store's as-of app goal if there is one, else the in-memory goal, else 0 |
| Repository.AppSnapshot | app/src/main/java/com/example/pixeldiet/repository/UsageRepository.kt:182-221 | the published row carries today's minutes (0 if absent) and the resolved goal; its streak is 0 exactly when the goal is 0 or less, and otherwise positive exactly when today is within the goal, extending a past run of the same sign by one day and otherwise (no past streak, or one of the other sign) restarting at 1 or -1 |
| Repository.FirstDayFailureExample | app/src/main/java/com/example/pixeldiet/repository/UsageRepository.kt:182-199 | 40 minutes against a 30-minute goal in force since an earlier date, with no past days, is published as a streak of -1 |
| Repository.SnapshotStreakIsRunThroughToday | app/src/main/java/com/example/pixeldiet/repository/UsageRepository.kt:166-199 | when the goal in force (the store's, or else the in-memory one) equals the positive in-memory goal, the published streak is the signed run over today and the past days, newest first |
| Repository.LatestTracked | app/src/main/java/com/example/pixeldiet/repository/UsageRepository.kt:170-172 | the tracked set is the packages of the user's newest tracking row, or empty when there is none |
| Repository.ToDailyUsages | app/src/main/java/com/example/pixeldiet/repository/UsageRepository.kt:160-163 | each stored row becomes the in-memory day with the same date and minutes, in the same order |
| Repository.Snapshots | app/src/main/java/com/example/pixeldiet/repository/UsageRepository.kt:174-182 | exactly the collected package names are published, each under its own name |
| Repository.LoadRealData | app/src/main/java/com/example/pixeldiet/repository/UsageRepository.kt:91-225 | the daily table gains today's filtered map under (uid, today), replacing any earlier row for that key, and nothing else changes in the store; the day list is the user's rows from `thirtyDaysAgo` to today; one row is published for each tracked, used or goal package, built by `AppSnapshot` with the streaks of `calculateStreaks` |
| HistoryStore.HistoryDao.UpsertDailyUsage | app/src/main/java/com/example/pixeldiet/database/dao/HistoryDao.kt:10-11 | REPLACE: rows that clash on the id or on (uid, date) are removed and the new row is appended; the table invariants (distinct ids below the counter, one row per (uid, date)) are kept; a fresh row sets exactly its key in the table's key-value view |
| HistoryStore.HistoryDao.InsertGoalHistory | app/src/main/java/com/example/pixeldiet/database/dao/HistoryDao.kt:37-38 | REPLACE on the id only; with the default id 0 the row is appended with the next id, and the other tables are untouched |
| HistoryStore.HistoryDao.InsertTrackingHistory | app/src/main/java/com/example/pixeldiet/database/dao/HistoryDao.kt:69-70 | as for goals: with id 0 the row is appended with the next id |
| HistoryStore.NextId | app/src/main/java/com/example/pixeldiet/database/entity/DailyUsageEntity.kt:14 | the AUTOINCREMENT counter moves above every id stored |
| HistoryStore.ReplaceDailyKeepsTable | app/src/main/java/com/example/pixeldiet/database/entity/DailyUsageEntity.kt:7-14 | a REPLACE keeps ids distinct and keeps the (uid, date) index unique |
| HistoryStore.ReplaceByIdKeepsTable | app/src/main/java/com/example/pixeldiet/database/entity/GoalHistoryEntity.kt:13-14 | a REPLACE on the id keeps ids distinct and below the counter |
| HistoryStore.FreshIdAppends | app/src/main/java/com/example/pixeldiet/database/entity/GoalHistoryEntity.kt:14 | a row whose id is the fresh counter value deletes nothing: it is appended |
| HistoryStore.UpsertLeavesOneRow | app/src/main/java/com/example/pixeldiet/database/dao/HistoryDao.kt:10-26 | after an upsert exactly one row has its (uid, date), the new one, and `getDailyUsage` returns it |
| HistoryStore.UpsertKeepsOtherRows | app/src/main/java/com/example/pixeldiet/database/dao/HistoryDao.kt:10-11 | rows with another key and another id survive an upsert, and no other row appears |
| HistoryStore.DailyViewReplaceFresh | app/src/main/java/com/example/pixeldiet/database/dao/HistoryDao.kt:10-11 | an upsert with a fresh id sets one key of the (uid, date) view and leaves every other key as it was |
| HistoryStore.DailyViewDrop | app/src/main/java/com/example/pixeldiet/database/dao/HistoryDao.kt:10-11 | removing a key's rows removes exactly that key from the view |
| HistoryStore.GetDailyUsages | app/src/main/java/com/example/pixeldiet/database/dao/HistoryDao.kt:13-19 | exactly the user's rows dated in [startDate, endDate], both ends included, ascending by date, each row at most as often as stored |
| HistoryStore.GetDailyUsage | app/src/main/java/com/example/pixeldiet/database/dao/HistoryDao.kt:21-26 | the row for (uid, date) when there is one, else none |
| HistoryStore.GetRecentDailyUsages | app/src/main/java/com/example/pixeldiet/database/dao/HistoryDao.kt:28-34 | the user's rows, newest first, each no more often than stored: exactly `limit` of them, or all when the user has fewer; none older than a row left out; a negative limit keeps every row |
| HistoryStore.GetEffectiveAppGoal | app/src/main/java/com/example/pixeldiet/database/dao/HistoryDao.kt:41-48 | none exactly when no row of the user and package is dated on or before the target; otherwise such a row with the greatest date (any one on a tie), never an overall-goal row |
| HistoryStore.GetEffectiveOverallGoal | app/src/main/java/com/example/pixeldiet/database/dao/HistoryDao.kt:51-58 | the same as-of rule over the rows whose package is null |
| HistoryStore.GetGoalHistoryInRange | app/src/main/java/com/example/pixeldiet/database/dao/HistoryDao.kt:60-66 | exactly the user's goal rows dated in [startDate, endDate], ascending |
| HistoryStore.GetEffectiveTrackingHistory | app/src/main/java/com/example/pixeldiet/database/dao/HistoryDao.kt:72-79 | the as-of rule over the user's tracking rows |
| HistoryStore.GetTrackingHistoryInRange | app/src/main/java/com/example/pixeldiet/database/dao/HistoryDao.kt:81-87 | exactly the user's tracking rows dated in [startDate, endDate], ascending |
| HistoryStore.GetLatestTrackingHistory | app/src/main/java/com/example/pixeldiet/database/dao/HistoryDao.kt:90-96 | a user's row with the greatest date of all, whatever today is; none exactly when the user has no row |
| HistoryStore.AppendedGoalSupersedes | app/src/main/java/com/example/pixeldiet/database/dao/HistoryDao.kt:41-48 | after appending a goal row, every target on or after its date resolves to a row dated no earlier than it |
| HistoryStore.AppendedGoalKeepsEarlierDates | app/src/main/java/com/example/pixeldiet/database/dao/HistoryDao.kt:41-48 | appending a goal dated after the target does not change whether that target resolves |
| HistoryStore.LedgerExampleLater | app/src/main/java/com/example/pixeldiet/database/dao/HistoryDao.kt:41-48 | with goals of 30 minutes from 2024-01-01 and 45 from 2024-01-10, 2024-01-15 resolves to 45 |
| HistoryStore.LedgerExampleEarlier | app/src/main/java/com/example/pixeldiet/database/dao/HistoryDao.kt:41-48 | in the same ledger 2024-01-05 resolves to 30 |
| HistoryStore.LedgerExampleNone | app/src/main/java/com/example/pixeldiet/database/dao/HistoryDao.kt:41-48 | in the same ledger 2000-01-01 resolves to none |
| Common.IsoDateOrderIsChronological | app/src/main/java/com/example/pixeldiet/database/entity/GoalHistoryEntity.kt:16 | for "YYYY-MM-DD" dates, the string order the queries use is the chronological order |
| Backup.CurrentUserId | app/src/main/java/com/example/pixeldiet/backup/BackupManager.kt:21-24 | `"anonymous"` exactly for no user or an anonymous account; otherwise the account's uid |
| Backup.Merge | app/src/main/java/com/example/pixeldiet/backup/BackupManager.kt:102-107 | a merge write overwrites the fields it names, keeps the document's other fields, and leaves every other document as it was |
| Backup.RemoteStore.Set | app/src/main/java/com/example/pixeldiet/backup/BackupManager.kt:102-107 | the store's documents become the merge of the write |
| Backup.SafePackageName | app/src/main/java/com/example/pixeldiet/backup/BackupManager.kt:93 | the package name unless it is null or blank, else `"overall"` |
| Backup.GoalBackup | app/src/main/java/com/example/pixeldiet/backup/BackupManager.kt:80-100 | no write exactly when the uid is `"anonymous"` or the goal is 0 minutes or less; otherwise one write to the goal document named by date, `_` and the safe name |
| Backup.DailyBackup | app/src/main/java/com/example/pixeldiet/backup/BackupManager.kt:118-133 | no write exactly for `"anonymous"`; otherwise one write to the document named by the date |
| Backup.TrackingBackup | app/src/main/java/com/example/pixeldiet/backup/BackupManager.kt:143-164 | no write exactly for `"anonymous"` or an empty list; otherwise one write to the document named by the effective date |
| Backup.PackagesValue | app/src/main/java/com/example/pixeldiet/backup/BackupManager.kt:155-158 | the tracked list is stored as a list of the same strings in the same order |
| Backup.BackupGoalHistory | app/src/main/java/com/example/pixeldiet/backup/BackupManager.kt:80-113 | the remote store changes exactly by the goal's write, if it has one |
| Backup.BackupDailyUsage | app/src/main/java/com/example/pixeldiet/backup/BackupManager.kt:118-140 | the remote store changes exactly by the daily record's write, if it has one |
| Backup.BackupTrackingHistory | app/src/main/java/com/example/pixeldiet/backup/BackupManager.kt:143-171 | the remote store changes exactly by the tracking snapshot's write, if it has one |
| Backup.SkippedBackups | app/src/main/java/com/example/pixeldiet/backup/BackupManager.kt:81-89 | a guest makes no write of any kind; neither does a goal of 0 minutes or less nor an empty tracked list |
| Backup.GoalDocIdShared | app/src/main/java/com/example/pixeldiet/backup/BackupManager.kt:93-94 | for ISO dates two goals share a document exactly when they share the date and the safe name |
| Backup.StringsOf | app/src/main/java/com/example/pixeldiet/backup/BackupManager.kt:263 | a list reads back as strings exactly when every element is a string, element by element |
| Backup.RestoreFallbacks | app/src/main/java/com/example/pixeldiet/backup/BackupManager.kt:191-233 | a missing date falls back to the document id, missing usages to an empty map, a missing goal to 0, a missing list to an empty list; the package name is copied as it is |
| Backup.UsagesRoundTrip | app/src/main/java/com/example/pixeldiet/backup/BackupManager.kt:193 | a minutes map of 32-bit values reads back unchanged |
| Backup.DailyRoundTrip | app/src/main/java/com/example/pixeldiet/backup/BackupManager.kt:124-133 | a backed-up daily record restores with the same date and minutes, whatever the document held before, under the top-level merge of `Backup.Merge` |
| Backup.GoalRoundTrip | app/src/main/java/com/example/pixeldiet/backup/BackupManager.kt:93-100 | a backed-up goal restores with its date and minutes, with the safe name as its package |
| Backup.RestoredOverallGoalIsNotOverall | app/src/main/java/com/example/pixeldiet/backup/BackupManager.kt:225 | an overall goal comes back named `"overall"`, so the overall-goal lookup no longer finds it |
| Backup.TrackingRoundTrip | app/src/main/java/com/example/pixeldiet/backup/BackupManager.kt:155-164 | a backed-up tracking snapshot restores with the same date and list |
| Backup.Prefix | app/src/main/java/com/example/pixeldiet/backup/BackupManager.kt:189-198 | the rows written before an exception are the mapped documents up to the first that fails |
| Backup.UpsertAllOverlays | app/src/main/java/com/example/pixeldiet/backup/BackupManager.kt:195-197 | upserting restored rows lays the last value of each key over the table |
| Backup.DailyRestoreIdempotent | app/src/main/java/com/example/pixeldiet/backup/BackupManager.kt:195 | restoring the same daily documents twice leaves the same table as restoring them once |
| Backup.AppendRestoreDuplicates | app/src/main/java/com/example/pixeldiet/backup/BackupManager.kt:228 | restoring the same goal documents twice appends each row twice, the copies differing only in id |
| Backup.NumberedAt | app/src/main/java/com/example/pixeldiet/backup/BackupManager.kt:228 | the i-th appended row is the i-th restored row with the counter's id plus i |
| Backup.MapDailyDoc | app/src/main/java/com/example/pixeldiet/backup/BackupManager.kt:191-196 | the daily row of a document, under the current uid, with id 0 |
| Backup.MapGoalDoc | app/src/main/java/com/example/pixeldiet/backup/BackupManager.kt:224-233 | the goal row of a document, under the current uid, with id 0 |
| Backup.MapTrackingDoc | app/src/main/java/com/example/pixeldiet/backup/BackupManager.kt:262-270 | the tracking row of a document, under the current uid, with id 0 |
| Backup.RestoreDailyRecordsToRoom | app/src/main/java/com/example/pixeldiet/backup/BackupManager.kt:175-205 | false and no local change for a guest, a failed fetch or an empty collection; otherwise the rows before the first failing document are upserted in order, and the result is true exactly when no document fails |
| Backup.UpsertDailyRows | app/src/main/java/com/example/pixeldiet/backup/BackupManager.kt:189-200 | the loop upserts the mapped documents up to the first failure, and reports whether there was none |
| Backup.RestoreGoalHistoryToRoom | app/src/main/java/com/example/pixeldiet/backup/BackupManager.kt:208-243 | the same guards; the goal rows before the first failure are appended with consecutive new ids |
| Backup.InsertGoalRows | app/src/main/java/com/example/pixeldiet/backup/BackupManager.kt:222-236 | the loop appends the mapped goal rows up to the first failure, and reports whether there was none |
| Backup.RestoreTrackingHistoryToRoom | app/src/main/java/com/example/pixeldiet/backup/BackupManager.kt:247-280 | the same guards; the tracking rows before the first failure are appended with consecutive new ids |
| Backup.InsertTrackingRows | app/src/main/java/com/example/pixeldiet/backup/BackupManager.kt:261-272 | the loop appends the mapped tracking rows up to the first failure, and reports whether there was none |
| Backup.AppendGoal | app/src/main/java/com/example/pixeldiet/database/dao/HistoryDao.kt:37-38 | a goal row without an id is appended with the next id |
| Backup.AppendTracking | app/src/main/java/com/example/pixeldiet/database/dao/HistoryDao.kt:69-70 | a tracking row without an id is appended with the next id |
| ViewModel.ViewModelUid | app/src/main/java/com/example/pixeldiet/viewmodel/SharedViewModel.kt:85 | `"anonymous"` only when nobody is signed in; an anonymous account keeps its uid |
| ViewModel.AnonymousAccountIsBackedUp | app/src/main/java/com/example/pixeldiet/viewmodel/SharedViewModel.kt:185-214 | for an anonymous account the backup module's guest id is `"anonymous"`, yet the view model passes the real uid, so the daily backup is written |
| UsageModel.SumTracked | app/src/main/java/com/example/pixeldiet/viewmodel/SharedViewModel.kt:494-497 | summing the tracked entries one at a time gives the tracked total, whatever order the map yields them in |
| UsageModel.MapSumPick | app/src/main/java/com/example/pixeldiet/viewmodel/SharedViewModel.kt:494-497 | a map's total does not depend on which entry is summed first |
| UsageModel.TrackedPart | app/src/main/java/com/example/pixeldiet/viewmodel/SharedViewModel.kt:494-495 | every entry counts when nothing is tracked; otherwise only tracked packages |
| ViewModel.TrackedOrAll | app/src/main/java/com/example/pixeldiet/viewmodel/SharedViewModel.kt:199 | all apps when nothing is tracked, otherwise exactly the tracked ones |
| ViewModel.TrackedOrAllSnoc | app/src/main/java/com/example/pixeldiet/viewmodel/SharedViewModel.kt:199 | the filter keeps the rows' order: a row added at the end is kept, at the end, exactly when it is counted |
| ViewModel.TotalUsageData | app/src/main/java/com/example/pixeldiet/viewmodel/SharedViewModel.kt:317-335 | with nothing tracked, (0, overall ?: 0); otherwise the tracked apps' usage sum and the overall goal or their goal sum |
| ViewModel.FindGoal | app/src/main/java/com/example/pixeldiet/viewmodel/SharedViewModel.kt:363 | the goal of the first row of the package, or 0 when there is none |
| ViewModel.FilteredGoalTime | app/src/main/java/com/example/pixeldiet/viewmodel/SharedViewModel.kt:345-364 | with no filter, the overall goal or the goal sum, over all apps when nothing is tracked; with a filter, that app's goal or 0 |
| ViewModel.TotalGoalAgainstFilteredGoal | app/src/main/java/com/example/pixeldiet/viewmodel/SharedViewModel.kt:317-364 | the totals goal and the calendar goal agree when something is tracked or an overall goal is set; with nothing tracked and no overall goal the totals goal is 0 while the calendar goal sums every app |
| ViewModel.OverallStreakMeaning | app/src/main/java/com/example/pixeldiet/viewmodel/SharedViewModel.kt:470-513 | 0 without records or without a positive goal (so always 0 with nothing tracked and no overall goal); otherwise positive exactly when the newest day is within the goal, counting the newest days that share its outcome and stopping at the first day with the other outcome; today's record takes part |
| ViewModel.SharedViewModel.CalculateOverallStreak | app/src/main/java/com/example/pixeldiet/viewmodel/SharedViewModel.kt:470-514 | the loop returns `OverallStreak` of the view model's current lists, tracked set and overall goal |
| ViewModel.SharedViewModel.CalendarDecoratorData | app/src/main/java/com/example/pixeldiet/viewmodel/SharedViewModel.kt:378-426 | no value when either list is absent; otherwise the decorators built over the records in order, or no value when a date fails to parse |
| ViewModel.DecoratorsMeaning | app/src/main/java/com/example/pixeldiet/viewmodel/SharedViewModel.kt:386-424 | the update fails exactly when some date does not parse; otherwise, with the goal equal to `filteredGoalTime`, no decorator when it is not positive, else one decorator per record in the records' order, carrying that record's date, FAIL exactly when that record's usage exceeds the goal |
| ViewModel.CalendarGoalIsFilteredGoal | app/src/main/java/com/example/pixeldiet/viewmodel/SharedViewModel.kt:402-414 | the goal each calendar record is judged against is `filteredGoalTime`, whatever the record |
| ViewModel.DecoratorsInOrder | app/src/main/java/com/example/pixeldiet/viewmodel/SharedViewModel.kt:395-423 | with every date parsed, no decorator under a goal that is not positive, else the i-th decorator is the i-th record's |
| ViewModel.DecoratorsFailure | app/src/main/java/com/example/pixeldiet/viewmodel/SharedViewModel.kt:386-387 | the update fails exactly when some record's date does not parse |
| ViewModel.DecoratorsFailed | app/src/main/java/com/example/pixeldiet/viewmodel/SharedViewModel.kt:387 | a date that fails to parse ends the update, whatever follows it |
| ViewModel.MonthSuccessCount | app/src/main/java/com/example/pixeldiet/viewmodel/SharedViewModel.kt:454-457 | the success count never exceeds the number of decorators |
| ViewModel.MonthSuccessCountIsCount | app/src/main/java/com/example/pixeldiet/viewmodel/SharedViewModel.kt:454-457 | the count is the number of decorators of the month that are not FAIL (SUCCESS or WARNING) |
| ViewModel.Associate | app/src/main/java/com/example/pixeldiet/viewmodel/SharedViewModel.kt:200 | exactly the packages of the rows are keys, each holding the minutes of the last row of that package |
| ViewModel.AssociateDistinct | app/src/main/java/com/example/pixeldiet/viewmodel/SharedViewModel.kt:200 | with one row per package, each package maps to its own row's minutes |
| ViewModel.TodayUsages | app/src/main/java/com/example/pixeldiet/viewmodel/SharedViewModel.kt:198-200 | today's record holds exactly the packages of the tracked rows, or of every row when nothing is tracked, each with the minutes of its last such row in the input list |
| ViewModel.AssociateTrackedLastRow | app/src/main/java/com/example/pixeldiet/viewmodel/SharedViewModel.kt:198-200 | after filtering and `associate`, each counted package holds the minutes of its last row in the unfiltered list |
| ViewModel.SharedViewModel.BackupTodayUsage | app/src/main/java/com/example/pixeldiet/viewmodel/SharedViewModel.kt:185-215 | the daily view gains today's map (`TodayUsages`: package to the last row's minutes) under (uid, today) and nothing else; the remote store changes by the daily write, which is none for `"anonymous"` |
| ViewModel.SharedViewModel.UpdateTrackedPackages | app/src/main/java/com/example/pixeldiet/viewmodel/SharedViewModel.kt:99-129 | the set is published and stored in the uid's preferences; one tracking row dated today listing exactly the set is appended; it is backed up, and a reload asked for, exactly when the set is nonempty |
| ViewModel.RecordTracking | app/src/main/java/com/example/pixeldiet/viewmodel/SharedViewModel.kt:104-122 | the tracking row listing the set once each is appended, and backed up only when the set is nonempty |
| ViewModel.ToList | app/src/main/java/com/example/pixeldiet/viewmodel/SharedViewModel.kt:111 | `toList` lists every element of the set exactly once |
| ViewModel.PrefsGoal | app/src/main/java/com/example/pixeldiet/viewmodel/SharedViewModel.kt:142-143 | a guest's stored goal is used when it is 0 or more, otherwise there is none |
| ViewModel.SharedViewModel.LoadOverallGoal | app/src/main/java/com/example/pixeldiet/viewmodel/SharedViewModel.kt:133-147 | the overall goal becomes the as-of overall row for a uid, or the preference value for a guest |
| ViewModel.GuestOverallGoalRoundTrip | app/src/main/java/com/example/pixeldiet/viewmodel/SharedViewModel.kt:142-162 | a guest's goal of 0 or more survives a reload; a removed or negative one reads back as none |
| ViewModel.OverallGoalReadBack | app/src/main/java/com/example/pixeldiet/viewmodel/SharedViewModel.kt:164-180 | when no other overall row of the user is dated today, a signed-in user's overall goal reads back as just written, so clearing it (`null`) reads back as 0 |
| ViewModel.SharedViewModel.SetOverallGoal | app/src/main/java/com/example/pixeldiet/viewmodel/SharedViewModel.kt:151-183 | a guest's goal changes only the published value and preferences (null removes the key); otherwise an overall row of `minutes ?: 0` is appended, backed up, and read back |
| ViewModel.GoalTimeRow | app/src/main/java/com/example/pixeldiet/viewmodel/SharedViewModel.kt:611-618 | each row from `setGoalTimes` is an app goal with a package name, never an overall goal |
| ViewModel.SharedViewModel.SetGoalTimes | app/src/main/java/com/example/pixeldiet/viewmodel/SharedViewModel.kt:605-631 | one goal row per entry, dated today, is appended with consecutive ids in the order visited, each backed up in that order; a reload is asked for exactly when a non-empty uid is signed in |
| ViewModel.RecordGoalTimes | app/src/main/java/com/example/pixeldiet/viewmodel/SharedViewModel.kt:609-627 | the loop visits every key once and appends and backs up one row per entry |
| ViewModel.RecordGoalTime | app/src/main/java/com/example/pixeldiet/viewmodel/SharedViewModel.kt:613-626 | one goal row is appended with the next id and backed up, except for `"anonymous"` |
| ViewModel.GuestGoalsStayLocal | app/src/main/java/com/example/pixeldiet/viewmodel/SharedViewModel.kt:624-626 | a guest's goal rows leave the remote store as it was |
| ViewModel.GoalTimesAreAppGoals | app/src/main/java/com/example/pixeldiet/viewmodel/SharedViewModel.kt:611 | no row from `setGoalTimes` is an overall goal, and a blank key becomes `"overall"` |

## Left out

- Platform access is not modelled. This covers `UsageStatsManager.queryEvents`, `queryUsageStats`, the launcher lookup and `context.packageName`. Their answers are parameters.
- The per-app label and icon, and the final `sortedBy { appLabel.lowercase() }`, depend on the locale and the package manager.
- Repository.LoadRealData: the published list is a map keyed by package name, so its display order is not modelled.
- Repository.LoadRealData: the three clock reads of `loadRealData` (`todayKey`, the `todayStr` of `calculateStreaks` and the `todayStr` of the goal lookup) are modelled as one `today`. A call that crosses midnight is not modelled.
- The 30-day bucket map that `loadRealData` builds and never reads is left out (`UsageRepository.kt` lines 128-144).
- `updateGoalTimes` of the repository is not part of this model. Its only role here is filling the in-memory goal map, which is a parameter (`currentGoals`).
- The repository's `getUid` is not modelled: `loadRealData` takes the uid as a parameter.
- Arithmetic overflow is modelled only at the explicit `toInt()` casts.
  - The `Long` millisecond totals are unbounded integers.
  - The `Int` sums of `parseUsageStats`, `sumOf` and `values.sum()` are unbounded integers.
- ViewModel.SharedViewModel.CalendarDecoratorData: WARNING (usage above 70% of the goal) and SUCCESS are one status, `NotFail`, because the threshold is a floating-point comparison. Every property about FAIL and about the month's count (SUCCESS or WARNING) is exact.
- The uncaught `ParseException` of the calendar update is modelled only as the update publishing nothing; its effect on the rest of the app is not modelled.
- The text of `calendarStatsText` is left out; only its count is modelled (`MonthSuccessCount`). The selected month is a parameter.
- `streakText`, `chartData`, `setSelectedMonth`, `setCalendarFilter` and the auth-listener and login flows of the view model are not part of this model.
- The view model's start-up and `loadTrackedPackages`, which read tracked sets from the store or preferences, are not part of this model.
- ViewModel.SharedViewModel.UpdateTrackedPackages: the reload that follows is reported as a flag and not performed.
- ViewModel.SharedViewModel.SetGoalTimes: the `refreshData` that follows is reported as a flag (`RefreshReloads`) and not performed. The order in which the map's entries are visited is returned rather than fixed.
- ViewModel.SharedViewModel.SetOverallGoal: the write, the backup and the read-back are sequential. The coroutine that runs them after the published value changes is not modelled.
- Coroutines, `Dispatchers`, `LiveData` and `MediatorLiveData` wiring are not modelled. Each `update()` is a function or method of the values it reads. A `?: return` on a missing list becomes an absent result.
- Firestore and Firebase Auth are foreign libraries.
  - Network failures of a backup are only logged and are not modelled.
  - A failed restore fetch is a `None` snapshot.
  - The merge write overwrites top-level fields; nested-map merging is not modelled. Under Firestore's deep merge of `appUsages`, packages of an earlier backup of the same date that today's record lacks stay in the document and come back on restore, which `Backup.DailyRoundTrip` does not capture.
- Backup.UsagesOf: only integer numbers are modelled. A floating-point number in a restored document counts as a non-number, although Kotlin's `toInt()` would truncate it.
- Backup.GoalRow: a floating-point `goalMinutes` counts as missing (0), for the same reason.
- Backup.TrackingRow: a tracked list with a non-string element is treated as an exception. Kotlin's unchecked `as? List<String>` would let such a list through until an element is read as a string.
- `initUser`, `signInWithGoogle` (with its unimplemented anonymous-to-Google merge) and `hasBackupData` of `BackupManager` are not part of this model.
- The Room type converters are not modelled: a stored map or list reads back as written. Migrations are not modelled either.
- HistoryStore.GetEffectiveAppGoal, HistoryStore.GetEffectiveOverallGoal, HistoryStore.GetEffectiveTrackingHistory and HistoryStore.GetLatestTrackingHistory: on a date tie any row with the greatest date may be returned, as SQL leaves the order unspecified. The model's choice is deterministic but not specified.
- HistoryStore.GetDailyUsages, HistoryStore.GetGoalHistoryInRange and HistoryStore.GetTrackingHistoryInRange: the order among rows with the same date is not specified, for the same reason.
- Common.StrLe: compares Unicode code points, while Kotlin's `String.compareTo` compares UTF-16 code units. The two orders differ only for characters outside the Basic Multilingual Plane, which the app's dates and package names do not contain. SQLite's BINARY collation compares UTF-8 bytes, which agrees with code-point order.
- `SimpleDateFormat`, `Locale.KOREAN` and the clock are not modelled. Dates are strings passed in, and the calendar's parser is a parameter function.
