/** The three Room row shapes of the local store. `id` is the auto-generated
    primary key: a row built with the default `id = 0` gets a fresh id when it
    is inserted. */
module Entities {
  import opened Common

  /** A row of `daily_usage_history`: one day of usage minutes per package,
      unique on (uid, date). `date` is "YYYY-MM-DD". */
  datatype DailyUsageEntity = DailyUsageEntity(
    id: int,
    uid: string,
    date: string,
    appUsages: map<string, int>)

  /** A row of `goal_history`: a goal effective from `effectiveDate` on;
      `packageName == None` is the overall goal. */
  datatype GoalHistoryEntity = GoalHistoryEntity(
    id: int,
    uid: string,
    effectiveDate: string,
    packageName: Option<string>,
    goalMinutes: int)

  /** A row of `tracking_history`: the tracked packages from `effectiveDate` on. */
  datatype TrackingHistoryEntity = TrackingHistoryEntity(
    id: int,
    uid: string,
    effectiveDate: string,
    trackedPackages: seq<string>)

  function DailyId(r: DailyUsageEntity): int { r.id }
  function GoalId(r: GoalHistoryEntity): int { r.id }
  function TrackingId(r: TrackingHistoryEntity): int { r.id }

  function DailyDate(r: DailyUsageEntity): string { r.date }
  function GoalDate(r: GoalHistoryEntity): string { r.effectiveDate }
  function TrackingDate(r: TrackingHistoryEntity): string { r.effectiveDate }
}
