/** The sync engine of `BackupManager`: which user id counts as a guest, the
    three backups (each at most one "set with merge" of a document in the
    remote store) and the three restores (each copies one remote collection
    into the local store, document by document).

    The remote store is a map from (user, collection, document id) to the
    document's fields; a merge write overwrites the fields it names and keeps
    the others. */
module Backup {
  import opened Common
  import opened Entities
  import opened HistoryStore

  // ---------------------------------------------------------------------
  // Identity
  // ---------------------------------------------------------------------

  /** The signed-in account, if any. */
  datatype User = User(uid: string, isAnonymous: bool)

  /** `currentUserId()`: guests (nobody signed in, or an anonymous account)
      are `"anonymous"`. */
  function CurrentUserId(user: Option<User>): (r: string)
    ensures user.None? || user.value.isAnonymous ==> r == Anonymous
    ensures r != Anonymous ==> user.Some? && !user.value.isAnonymous && r == user.value.uid
    ensures user.Some? && !user.value.isAnonymous ==> r == user.value.uid
  {
    if user.None? || user.value.isAnonymous then Anonymous else user.value.uid
  }

  // ---------------------------------------------------------------------
  // The remote store
  // ---------------------------------------------------------------------

  /** A field value of a remote document. `VOther` stands for every type the
      restores do not accept as a string, number, list or map. */
  datatype Value =
    | VStr(s: string)
    | VInt(n: int)
    | VList(items: seq<Value>)
    | VMap(entries: map<string, Value>)
    | VNull
    | VOther

  datatype DocKey = DocKey(uid: string, collection: string, docId: string)

  /** `users/{uid}/{collection}/{docId}.set(data, SetOptions.merge())`. */
  datatype RemoteWrite = RemoteWrite(key: DocKey, data: map<string, Value>)

  const DailyRecords: string := "dailyRecords"
  const GoalHistory: string := "goalHistory"
  const TrackingHistory: string := "trackingHistory"

  /** A merge write: the named top-level fields are overwritten, the others
      kept; a missing document is created. */
  function Merge(docs: map<DocKey, map<string, Value>>, w: RemoteWrite): (r: map<DocKey, map<string, Value>>)
    ensures r.Keys == docs.Keys + {w.key}
    ensures forall k :: k in docs && k != w.key ==> r[k] == docs[k]
    ensures forall f :: f in w.data ==> f in r[w.key] && r[w.key][f] == w.data[f]
    ensures w.key in docs ==> forall f :: f in docs[w.key] && f !in w.data ==> f in r[w.key] && r[w.key][f] == docs[w.key][f]
  {
    docs[w.key := (if w.key in docs then docs[w.key] else map[]) + w.data]
  }

  function ApplyWrite(docs: map<DocKey, map<string, Value>>, w: Option<RemoteWrite>): map<DocKey, map<string, Value>> {
    if w.None? then docs else Merge(docs, w.value)
  }

  class RemoteStore {
    var docs: map<DocKey, map<string, Value>>

    constructor ()
      ensures docs == map[]
    {
      docs := map[];
    }

    method Set(w: RemoteWrite)
      modifies this
      ensures docs == Merge(old(docs), w)
    {
      docs := Merge(docs, w);
    }
  }

  // ---------------------------------------------------------------------
  // Backups: which write each one makes
  // ---------------------------------------------------------------------

  /** `safePackageName`: the package name unless it is null or blank. */
  function SafePackageName(packageName: Option<string>): (r: string)
    ensures packageName.Some? && !IsBlank(packageName.value) ==> r == packageName.value
    ensures packageName.None? || IsBlank(packageName.value) ==> r == "overall"
  {
    if packageName.Some? && !IsBlank(packageName.value) then packageName.value else "overall"
  }

  function GoalDocId(e: GoalHistoryEntity): string {
    e.effectiveDate + "_" + SafePackageName(e.packageName)
  }

  /** The write `backupGoalHistory(uid, e)` makes, if any. */
  function GoalBackup(uid: string, e: GoalHistoryEntity): (r: Option<RemoteWrite>)
    ensures r.None? <==> uid == Anonymous || e.goalMinutes <= 0
    ensures r.Some? ==> r.value.key == DocKey(uid, GoalHistory, GoalDocId(e))
  {
    if uid == Anonymous || e.goalMinutes <= 0 then None
    else Some(RemoteWrite(DocKey(uid, GoalHistory, GoalDocId(e)),
      map["effectiveDate" := VStr(e.effectiveDate),
          "packageName" := VStr(SafePackageName(e.packageName)),
          "goalMinutes" := VInt(e.goalMinutes)]))
  }

  function UsagesValue(appUsages: map<string, int>): Value {
    VMap(map p | p in appUsages :: VInt(appUsages[p]))
  }

  function PackagesValue(packages: seq<string>): (r: Value)
    ensures r.VList? && |r.items| == |packages|
    ensures forall i :: 0 <= i < |packages| ==> r.items[i] == VStr(packages[i])
  {
    VList(seq(|packages|, i requires 0 <= i < |packages| => VStr(packages[i])))
  }

  /** The write `backupDailyUsage(uid, e)` makes, if any: document `date`. */
  function DailyBackup(uid: string, e: DailyUsageEntity): (r: Option<RemoteWrite>)
    ensures r.None? <==> uid == Anonymous
    ensures r.Some? ==> r.value.key == DocKey(uid, DailyRecords, e.date)
  {
    if uid == Anonymous then None
    else Some(RemoteWrite(DocKey(uid, DailyRecords, e.date),
      map["date" := VStr(e.date), "appUsages" := UsagesValue(e.appUsages)]))
  }

  /** The write `backupTrackingHistory(uid, e)` makes, if any: document
      `effectiveDate`. */
  function TrackingBackup(uid: string, e: TrackingHistoryEntity): (r: Option<RemoteWrite>)
    ensures r.None? <==> uid == Anonymous || |e.trackedPackages| == 0
    ensures r.Some? ==> r.value.key == DocKey(uid, TrackingHistory, e.effectiveDate)
  {
    if uid == Anonymous || |e.trackedPackages| == 0 then None
    else Some(RemoteWrite(DocKey(uid, TrackingHistory, e.effectiveDate),
      map["effectiveDate" := VStr(e.effectiveDate), "trackedPackages" := PackagesValue(e.trackedPackages)]))
  }

  method BackupGoalHistory(remote: RemoteStore, uid: string, entity: GoalHistoryEntity)
    modifies remote
    ensures remote.docs == ApplyWrite(old(remote.docs), GoalBackup(uid, entity))
  {
    if uid == Anonymous {
      return;
    }
    if entity.goalMinutes <= 0 {
      return;
    }
    var safePackageName := SafePackageName(entity.packageName);
    var docId := entity.effectiveDate + "_" + safePackageName;
    var data := map["effectiveDate" := VStr(entity.effectiveDate),
                    "packageName" := VStr(safePackageName),
                    "goalMinutes" := VInt(entity.goalMinutes)];
    remote.Set(RemoteWrite(DocKey(uid, GoalHistory, docId), data));
  }

  method BackupDailyUsage(remote: RemoteStore, uid: string, entity: DailyUsageEntity)
    modifies remote
    ensures remote.docs == ApplyWrite(old(remote.docs), DailyBackup(uid, entity))
  {
    if uid == Anonymous {
      return;
    }
    var data := map["date" := VStr(entity.date), "appUsages" := UsagesValue(entity.appUsages)];
    remote.Set(RemoteWrite(DocKey(uid, DailyRecords, entity.date), data));
  }

  method BackupTrackingHistory(remote: RemoteStore, uid: string, entity: TrackingHistoryEntity)
    modifies remote
    ensures remote.docs == ApplyWrite(old(remote.docs), TrackingBackup(uid, entity))
  {
    if uid == Anonymous {
      return;
    }
    if |entity.trackedPackages| == 0 {
      return;
    }
    var data := map["effectiveDate" := VStr(entity.effectiveDate),
                    "trackedPackages" := PackagesValue(entity.trackedPackages)];
    remote.Set(RemoteWrite(DocKey(uid, TrackingHistory, entity.effectiveDate), data));
  }

  /** A guest's writes never reach the remote store, and neither does a goal
      of 0 minutes or less nor an empty tracked list. */
  lemma SkippedBackups(uid: string, g: GoalHistoryEntity, d: DailyUsageEntity, t: TrackingHistoryEntity)
    ensures uid == Anonymous ==> GoalBackup(uid, g).None? && DailyBackup(uid, d).None? && TrackingBackup(uid, t).None?
    ensures g.goalMinutes <= 0 ==> GoalBackup(uid, g).None?
    ensures t.trackedPackages == [] ==> TrackingBackup(uid, t).None?
  {
  }

  /** For ISO dates the goal document id is the date, `_`, and the safe
      name; two goals share a document exactly when they share both, so a
      later goal for the same day and package overwrites the earlier one. */
  lemma GoalDocIdShared(a: GoalHistoryEntity, b: GoalHistoryEntity)
    requires IsIsoDate(a.effectiveDate) && IsIsoDate(b.effectiveDate)
    ensures GoalDocId(a) == GoalDocId(b) <==>
      a.effectiveDate == b.effectiveDate && SafePackageName(a.packageName) == SafePackageName(b.packageName)
  {
    if GoalDocId(a) == GoalDocId(b) {
      assert GoalDocId(a)[..10] == a.effectiveDate;
      assert GoalDocId(b)[..10] == b.effectiveDate;
      assert GoalDocId(a)[11..] == SafePackageName(a.packageName);
      assert GoalDocId(b)[11..] == SafePackageName(b.packageName);
    }
  }

  // ---------------------------------------------------------------------
  // Restores: from a remote document to a local row
  // ---------------------------------------------------------------------

  /** A remote document as the snapshot lists it. */
  datatype Doc = Doc(id: string, fields: map<string, Value>)

  /** `doc.getString(name)`: null when absent or null, the string when it is
      one; any other type throws (`None`). */
  function GetString(fields: map<string, Value>, name: string): Option<Option<string>> {
    if name !in fields || fields[name].VNull? then Some(None)
    else if fields[name].VStr? then Some(Some(fields[name].s))
    else None
  }

  /** `doc.getString(name) ?: doc.id`. */
  function StringOrId(doc: Doc, name: string): Option<string> {
    match GetString(doc.fields, name)
    case None => None
    case Some(v) => Some(v.GetOr(doc.id))
  }

  /** `(x as Number).toInt()` on every value of the map; a non-number throws. */
  function UsagesOf(entries: map<string, Value>): Option<map<string, int>> {
    if forall p :: p in entries ==> entries[p].VInt? then Some(map p | p in entries :: ToInt32(entries[p].n))
    else None
  }

  /** The row `restoreDailyRecordsToRoom` upserts for `doc`, or `None` when
      mapping it throws. */
  function DailyRow(uid: string, doc: Doc): Option<DailyUsageEntity> {
    var date := StringOrId(doc, "date");
    var raw := if "appUsages" in doc.fields && doc.fields["appUsages"].VMap? then doc.fields["appUsages"].entries else map[];
    var usages := UsagesOf(raw);
    if date.None? || usages.None? then None
    else Some(DailyUsageEntity(0, uid, date.value, usages.value))
  }

  /** The row `restoreGoalHistoryToRoom` inserts for `doc`, or `None` when
      mapping it throws. */
  function GoalRow(uid: string, doc: Doc): Option<GoalHistoryEntity> {
    var effectiveDate := StringOrId(doc, "effectiveDate");
    var packageName := GetString(doc.fields, "packageName");
    var goalMinutes := if "goalMinutes" in doc.fields && doc.fields["goalMinutes"].VInt?
                       then ToInt32(doc.fields["goalMinutes"].n) else 0;
    if effectiveDate.None? || packageName.None? then None
    else Some(GoalHistoryEntity(0, uid, effectiveDate.value, packageName.value, goalMinutes))
  }

  /** The strings of a list; a non-string element throws. */
  function StringsOf(items: seq<Value>): (r: Option<seq<string>>)
    ensures r.Some? <==> forall i :: 0 <= i < |items| ==> items[i].VStr?
    ensures r.Some? ==> |r.value| == |items| && forall i :: 0 <= i < |items| ==> r.value[i] == items[i].s
  {
    if forall i :: 0 <= i < |items| ==> items[i].VStr? then Some(seq(|items|, i requires 0 <= i < |items| => items[i].s))
    else None
  }

  /** The row `restoreTrackingHistoryToRoom` inserts for `doc`, or `None` when
      mapping it throws. */
  function TrackingRow(uid: string, doc: Doc): Option<TrackingHistoryEntity> {
    var effectiveDate := StringOrId(doc, "effectiveDate");
    var packages := if "trackedPackages" in doc.fields && doc.fields["trackedPackages"].VList?
                    then StringsOf(doc.fields["trackedPackages"].items) else Some([]);
    if effectiveDate.None? || packages.None? then None
    else Some(TrackingHistoryEntity(0, uid, effectiveDate.value, packages.value))
  }

  /** The field fallbacks of the restores: a missing date falls back to the
      document id, missing usages to an empty map, a missing goal to 0, a
      missing tracked list to an empty list; the package name is copied as
      it is. */
  lemma RestoreFallbacks(uid: string, id: string)
    ensures DailyRow(uid, Doc(id, map[])) == Some(DailyUsageEntity(0, uid, id, map[]))
    ensures GoalRow(uid, Doc(id, map[])) == Some(GoalHistoryEntity(0, uid, id, None, 0))
    ensures TrackingRow(uid, Doc(id, map[])) == Some(TrackingHistoryEntity(0, uid, id, []))
    ensures forall name: string :: (GoalRow(uid, Doc(id, map["packageName" := VStr(name)])) ==
      Some(GoalHistoryEntity(0, uid, id, Some(name), 0)))
  {
  }

  // ---------------------------------------------------------------------
  // Backup then restore
  // ---------------------------------------------------------------------

  /** A backed-up daily record restores to the same date and minutes,
      whatever else the remote document held before. */
  lemma DailyRoundTrip(docs: map<DocKey, map<string, Value>>, uid: string, e: DailyUsageEntity)
    requires uid != Anonymous
    requires forall p :: p in e.appUsages ==> IsInt32(e.appUsages[p])
    ensures var w := DailyBackup(uid, e).value;
      DailyRow(uid, Doc(w.key.docId, Merge(docs, w)[w.key])) == Some(DailyUsageEntity(0, uid, e.date, e.appUsages))
  {
    var w := DailyBackup(uid, e).value;
    var doc := Doc(w.key.docId, Merge(docs, w)[w.key]);
    assert doc.fields["date"] == VStr(e.date);
    assert StringOrId(doc, "date") == Some(e.date);
    assert doc.fields["appUsages"] == UsagesValue(e.appUsages);
    UsagesRoundTrip(e.appUsages);
  }

  /** The minutes map written to the remote store reads back unchanged. */
  lemma UsagesRoundTrip(m: map<string, int>)
    requires forall p :: p in m ==> IsInt32(m[p])
    ensures UsagesOf(UsagesValue(m).entries) == Some(m)
  {
    var entries := UsagesValue(m).entries;
    forall p | p in m ensures ToInt32(entries[p].n) == m[p] {
      ToInt32Identity(m[p]);
    }
    assert (map p | p in entries :: ToInt32(entries[p].n)) == m;
  }

  /** A backed-up goal restores with its date and minutes, but with the safe
      name as its package: an overall goal comes back named `"overall"`. */
  lemma GoalRoundTrip(docs: map<DocKey, map<string, Value>>, uid: string, e: GoalHistoryEntity)
    requires uid != Anonymous && e.goalMinutes > 0 && IsInt32(e.goalMinutes)
    ensures var w := GoalBackup(uid, e).value;
      GoalRow(uid, Doc(w.key.docId, Merge(docs, w)[w.key]))
        == Some(GoalHistoryEntity(0, uid, e.effectiveDate, Some(SafePackageName(e.packageName)), e.goalMinutes))
  {
    ToInt32Identity(e.goalMinutes);
  }

  /** So an overall goal that went through the remote store is no longer an
      overall goal locally: `getEffectiveOverallGoal` never finds it. */
  lemma RestoredOverallGoalIsNotOverall(docs: map<DocKey, map<string, Value>>, uid: string, e: GoalHistoryEntity, targetDate: string)
    requires uid != Anonymous && e.goalMinutes > 0 && IsInt32(e.goalMinutes) && e.packageName.None?
    ensures var w := GoalBackup(uid, e).value;
      var row := GoalRow(uid, Doc(w.key.docId, Merge(docs, w)[w.key])).value;
      !OverallGoalCandidate(row, uid, targetDate) && row.packageName == Some("overall")
  {
    GoalRoundTrip(docs, uid, e);
  }

  /** A backed-up tracking snapshot restores to the same date and list. */
  lemma TrackingRoundTrip(docs: map<DocKey, map<string, Value>>, uid: string, e: TrackingHistoryEntity)
    requires uid != Anonymous && |e.trackedPackages| > 0
    ensures var w := TrackingBackup(uid, e).value;
      TrackingRow(uid, Doc(w.key.docId, Merge(docs, w)[w.key])) == Some(TrackingHistoryEntity(0, uid, e.effectiveDate, e.trackedPackages))
  {
    var w := TrackingBackup(uid, e).value;
    var items := PackagesValue(e.trackedPackages).items;
    assert Merge(docs, w)[w.key]["trackedPackages"].items == items;
    assert StringsOf(items).value == e.trackedPackages;
  }

  // ---------------------------------------------------------------------
  // Restores: the loops
  // ---------------------------------------------------------------------

  /** The values before the first failure: the rows a restore writes before
      an exception ends it. */
  function Prefix<T>(results: seq<Option<T>>): (r: seq<T>)
    ensures |r| <= |results|
    ensures forall i :: 0 <= i < |r| ==> results[i] == Some(r[i])
    ensures |r| < |results| ==> results[|r|].None?
  {
    if |results| == 0 || results[0].None? then [] else [results[0].value] + Prefix(results[1..])
  }

  predicate AllSome<T>(results: seq<Option<T>>) {
    forall i :: 0 <= i < |results| ==> results[i].Some?
  }

  /** The first results are the successes `rows`. */
  ghost predicate Matches<T>(results: seq<Option<T>>, rows: seq<T>) {
    |rows| <= |results| && forall j :: 0 <= j < |rows| ==> results[j] == Some(rows[j])
  }

  lemma MatchesSnoc<T>(results: seq<Option<T>>, rows: seq<T>, x: T)
    requires Matches(results, rows) && |rows| < |results| && results[|rows|] == Some(x)
    ensures Matches(results, rows + [x])
  {
  }

  lemma PrefixUpTo<T>(results: seq<Option<T>>, rows: seq<T>)
    requires Matches(results, rows)
    requires |rows| == |results| || results[|rows|].None?
    ensures Prefix(results) == rows
  {
    var p := Prefix(results);
    assert |p| == |rows|;
  }

  function DailyResults(uid: string, docs: seq<Doc>): (r: seq<Option<DailyUsageEntity>>)
    ensures |r| == |docs| && forall i :: 0 <= i < |docs| ==> r[i] == DailyRow(uid, docs[i])
  {
    seq(|docs|, i requires 0 <= i < |docs| => DailyRow(uid, docs[i]))
  }

  function GoalResults(uid: string, docs: seq<Doc>): (r: seq<Option<GoalHistoryEntity>>)
    ensures |r| == |docs| && forall i :: 0 <= i < |docs| ==> r[i] == GoalRow(uid, docs[i])
  {
    seq(|docs|, i requires 0 <= i < |docs| => GoalRow(uid, docs[i]))
  }

  function TrackingResults(uid: string, docs: seq<Doc>): (r: seq<Option<TrackingHistoryEntity>>)
    ensures |r| == |docs| && forall i :: 0 <= i < |docs| ==> r[i] == TrackingRow(uid, docs[i])
  {
    seq(|docs|, i requires 0 <= i < |docs| => TrackingRow(uid, docs[i]))
  }

  /** What a restore reports: false for a guest, a failed fetch (`None`), an
      empty collection, or a document whose mapping throws. */
  predicate Restored<T>(uid: string, snapshot: Option<seq<Doc>>, results: seq<Option<T>>) {
    uid != Anonymous && snapshot.Some? && |snapshot.value| > 0 && AllSome(results)
  }

  /** Whether a restore gets as far as writing: a signed-in user and a
      nonempty fetched collection. */
  predicate Writes(uid: string, snapshot: Option<seq<Doc>>) {
    uid != Anonymous && snapshot.Some? && |snapshot.value| > 0
  }

  /** The daily table's key-value view after upserting `rows` in order. */
  function UpsertAll(view: map<(string, string), map<string, int>>, rows: seq<DailyUsageEntity>)
    : map<(string, string), map<string, int>>
  {
    if |rows| == 0 then view
    else
      var last := rows[|rows| - 1];
      UpsertAll(view, rows[..|rows| - 1])[(last.uid, last.date) := last.appUsages]
  }

  /** Upserting a sequence of records lays their last value per key over
      the table. */
  lemma {:induction false} UpsertAllOverlays(view: map<(string, string), map<string, int>>, rows: seq<DailyUsageEntity>)
    ensures UpsertAll(view, rows) == view + UpsertAll(map[], rows)
    decreases |rows|
  {
    if |rows| > 0 {
      var last := rows[|rows| - 1];
      UpsertAllOverlays(view, rows[..|rows| - 1]);
      var a := UpsertAll(map[], rows[..|rows| - 1]);
      assert (view + a)[(last.uid, last.date) := last.appUsages] == view + a[(last.uid, last.date) := last.appUsages];
    }
  }

  /** Restoring the same daily documents twice leaves the table as
      restoring them once. */
  lemma DailyRestoreIdempotent(view: map<(string, string), map<string, int>>, rows: seq<DailyUsageEntity>)
    ensures UpsertAll(UpsertAll(view, rows), rows) == UpsertAll(view, rows)
  {
    UpsertAllOverlays(view, rows);
    UpsertAllOverlays(UpsertAll(view, rows), rows);
    var a := UpsertAll(map[], rows);
    assert (view + a) + a == view + a;
  }

  /** The rows an append-only restore adds: `rows` with consecutive ids from
      the table's counter. */
  function Numbered<T>(rows: seq<T>, next: int, withId: (T, int) -> T): (r: seq<T>)
    ensures |r| == |rows|
  {
    if |rows| == 0 then [] else [withId(rows[0], next)] + Numbered(rows[1..], next + 1, withId)
  }

  function SetGoalId(g: GoalHistoryEntity, id: int): GoalHistoryEntity { g.(id := id) }
  function SetTrackingId(t: TrackingHistoryEntity, id: int): TrackingHistoryEntity { t.(id := id) }

  /** Goal and tracking restores append: a second restore of the same `n`
      documents adds `n` more rows, each a copy, but for its id, of a row
      the first one added. */
  lemma AppendRestoreDuplicates(table: seq<GoalHistoryEntity>, rows: seq<GoalHistoryEntity>, next: int)
    ensures var once := table + Numbered(rows, next, SetGoalId);
      var twice := once + Numbered(rows, next + |rows|, SetGoalId);
      && |twice| == |table| + 2 * |rows|
      && forall i :: 0 <= i < |rows| ==>
           twice[|table| + i].(id := 0) == twice[|table| + |rows| + i].(id := 0) == rows[i].(id := 0)
  {
    forall i | 0 <= i < |rows| ensures Numbered(rows, next, SetGoalId)[i].(id := 0) == rows[i].(id := 0) {
      NumberedAt(rows, next, SetGoalId, i);
    }
    forall i | 0 <= i < |rows| ensures Numbered(rows, next + |rows|, SetGoalId)[i].(id := 0) == rows[i].(id := 0) {
      NumberedAt(rows, next + |rows|, SetGoalId, i);
    }
  }

  lemma {:induction false} NumberedAt<T>(rows: seq<T>, next: int, withId: (T, int) -> T, i: nat)
    requires i < |rows|
    ensures Numbered(rows, next, withId)[i] == withId(rows[i], next + i)
    decreases i
  {
    if i > 0 {
      NumberedAt(rows[1..], next + 1, withId, i - 1);
    }
  }

  /** `restoreDailyRecordsToRoom`: upsert every document's record under the
      current user; an exception ends the loop, keeping what was written. */
  method RestoreDailyRecordsToRoom(dao: HistoryDao, user: Option<User>, snapshot: Option<seq<Doc>>) returns (ok: bool)
    requires dao.Valid()
    modifies dao
    ensures dao.Valid()
    ensures var uid := CurrentUserId(user);
      && ok == Restored(uid, snapshot, DailyResults(uid, snapshot.GetOr([])))
      && (Writes(uid, snapshot) ==>
            DailyView(dao.daily) == UpsertAll(old(DailyView(dao.daily)), Prefix(DailyResults(uid, snapshot.value))))
      && (!Writes(uid, snapshot) ==> dao.daily == old(dao.daily))
    ensures dao.goals == old(dao.goals) && dao.tracking == old(dao.tracking)
  {
    var uid := CurrentUserId(user);
    if uid == Anonymous || snapshot.None? || |snapshot.value| == 0 {
      return false;
    }
    ok := UpsertDailyRows(dao, uid, snapshot.value);
  }

  /** The loop of `restoreDailyRecordsToRoom`. */
  method UpsertDailyRows(dao: HistoryDao, uid: string, docs: seq<Doc>) returns (ok: bool)
    requires dao.Valid()
    modifies dao
    ensures dao.Valid()
    ensures ok == AllSome(DailyResults(uid, docs))
    ensures DailyView(dao.daily) == UpsertAll(old(DailyView(dao.daily)), Prefix(DailyResults(uid, docs)))
    ensures dao.goals == old(dao.goals) && dao.tracking == old(dao.tracking)
  {
    ghost var results := DailyResults(uid, docs);
    ghost var view0 := DailyView(dao.daily);
    ghost var written: seq<DailyUsageEntity> := [];
    var i := 0;
    while i < |docs|
      invariant 0 <= i <= |docs| && |written| == i
      invariant dao.Valid()
      invariant Matches(results, written)
      invariant DailyView(dao.daily) == UpsertAll(view0, written)
      invariant dao.goals == old(dao.goals) && dao.tracking == old(dao.tracking)
    {
      var row := MapDailyDoc(uid, docs[i]);
      if row.None? {
        PrefixUpTo(results, written);
        return false;
      }
      dao.UpsertDailyUsage(row.value);
      MatchesSnoc(results, written, row.value);
      written := written + [row.value];
      assert written[..i] == written[..|written| - 1];
      i := i + 1;
    }
    PrefixUpTo(results, written);
    ok := true;
  }

  /** `restoreGoalHistoryToRoom`: insert every document's goal as a new row. */
  method RestoreGoalHistoryToRoom(dao: HistoryDao, user: Option<User>, snapshot: Option<seq<Doc>>) returns (ok: bool)
    requires dao.Valid()
    modifies dao
    ensures dao.Valid()
    ensures var uid := CurrentUserId(user);
      && ok == Restored(uid, snapshot, GoalResults(uid, snapshot.GetOr([])))
      && (Writes(uid, snapshot) ==>
            dao.goals == old(dao.goals) + Numbered(Prefix(GoalResults(uid, snapshot.value)), old(dao.nextGoalId), SetGoalId))
      && (!Writes(uid, snapshot) ==> dao.goals == old(dao.goals))
    ensures dao.daily == old(dao.daily) && dao.tracking == old(dao.tracking)
  {
    var uid := CurrentUserId(user);
    if uid == Anonymous || snapshot.None? || |snapshot.value| == 0 {
      return false;
    }
    ok := InsertGoalRows(dao, uid, snapshot.value);
  }

  /** The loop of `restoreGoalHistoryToRoom`. */
  method InsertGoalRows(dao: HistoryDao, uid: string, docs: seq<Doc>) returns (ok: bool)
    requires dao.Valid()
    modifies dao
    ensures dao.Valid()
    ensures ok == AllSome(GoalResults(uid, docs))
    ensures dao.goals == old(dao.goals) + Numbered(Prefix(GoalResults(uid, docs)), old(dao.nextGoalId), SetGoalId)
    ensures dao.daily == old(dao.daily) && dao.tracking == old(dao.tracking)
  {
    ghost var results := GoalResults(uid, docs);
    ghost var next0 := dao.nextGoalId;
    ghost var written: seq<GoalHistoryEntity> := [];
    ghost var table0, added := dao.goals, [];
    var i := 0;
    while i < |docs|
      invariant 0 <= i <= |docs| && |written| == i
      invariant dao.Valid()
      invariant Matches(results, written)
      invariant dao.nextGoalId == next0 + i
      invariant dao.goals == table0 + added && added == Numbered(written, next0, SetGoalId)
      invariant dao.daily == old(dao.daily) && dao.tracking == old(dao.tracking)
    {
      var row := MapGoalDoc(uid, docs[i]);
      if row.None? {
        PrefixUpTo(results, written);
        return false;
      }
      ghost var y := SetGoalId(row.value, next0 + |written|);
      AppendGoal(dao, row.value);
      SnocAssoc(table0, added, y);
      NumberedSnoc(written, row.value, next0, SetGoalId);
      MatchesSnoc(results, written, row.value);
      added := added + [y];
      written := written + [row.value];
      i := i + 1;
    }
    PrefixUpTo(results, written);
    ok := true;
  }

  /** `restoreTrackingHistoryToRoom`: insert every document's snapshot as a
      new row. */
  method RestoreTrackingHistoryToRoom(dao: HistoryDao, user: Option<User>, snapshot: Option<seq<Doc>>) returns (ok: bool)
    requires dao.Valid()
    modifies dao
    ensures dao.Valid()
    ensures var uid := CurrentUserId(user);
      && ok == Restored(uid, snapshot, TrackingResults(uid, snapshot.GetOr([])))
      && (Writes(uid, snapshot) ==>
            dao.tracking == old(dao.tracking) + Numbered(Prefix(TrackingResults(uid, snapshot.value)), old(dao.nextTrackingId), SetTrackingId))
      && (!Writes(uid, snapshot) ==> dao.tracking == old(dao.tracking))
    ensures dao.daily == old(dao.daily) && dao.goals == old(dao.goals)
  {
    var uid := CurrentUserId(user);
    if uid == Anonymous || snapshot.None? || |snapshot.value| == 0 {
      return false;
    }
    ok := InsertTrackingRows(dao, uid, snapshot.value);
  }

  /** One document of `restoreDailyRecordsToRoom` mapped to its row. */
  method MapDailyDoc(uid: string, doc: Doc) returns (row: Option<DailyUsageEntity>)
    ensures row == DailyRow(uid, doc)
    ensures row.Some? ==> row.value.id == 0
  {
    row := DailyRow(uid, doc);
  }

  /** One document of `restoreGoalHistoryToRoom` mapped to its row. */
  method MapGoalDoc(uid: string, doc: Doc) returns (row: Option<GoalHistoryEntity>)
    ensures row == GoalRow(uid, doc)
    ensures row.Some? ==> row.value.id == 0
  {
    row := GoalRow(uid, doc);
  }

  /** One document of `restoreTrackingHistoryToRoom` mapped to its row. */
  method MapTrackingDoc(uid: string, doc: Doc) returns (row: Option<TrackingHistoryEntity>)
    ensures row == TrackingRow(uid, doc)
    ensures row.Some? ==> row.value.id == 0
  {
    row := TrackingRow(uid, doc);
  }

  /** The loop of `restoreTrackingHistoryToRoom`. */
  method InsertTrackingRows(dao: HistoryDao, uid: string, docs: seq<Doc>) returns (ok: bool)
    requires dao.Valid()
    modifies dao
    ensures dao.Valid()
    ensures ok == AllSome(TrackingResults(uid, docs))
    ensures dao.tracking == old(dao.tracking) + Numbered(Prefix(TrackingResults(uid, docs)), old(dao.nextTrackingId), SetTrackingId)
    ensures dao.daily == old(dao.daily) && dao.goals == old(dao.goals)
  {
    ghost var results := TrackingResults(uid, docs);
    ghost var next0 := dao.nextTrackingId;
    ghost var written: seq<TrackingHistoryEntity> := [];
    ghost var table0, added := dao.tracking, [];
    var i := 0;
    while i < |docs|
      invariant 0 <= i <= |docs| && |written| == i
      invariant dao.Valid()
      invariant Matches(results, written)
      invariant dao.nextTrackingId == next0 + i
      invariant dao.tracking == table0 + added && added == Numbered(written, next0, SetTrackingId)
      invariant dao.daily == old(dao.daily) && dao.goals == old(dao.goals)
    {
      var row := MapTrackingDoc(uid, docs[i]);
      if row.None? {
        PrefixUpTo(results, written);
        return false;
      }
      ghost var y := SetTrackingId(row.value, next0 + |written|);
      AppendTracking(dao, row.value);
      SnocAssoc(table0, added, y);
      NumberedSnoc(written, row.value, next0, SetTrackingId);
      MatchesSnoc(results, written, row.value);
      added := added + [y];
      written := written + [row.value];
      i := i + 1;
    }
    PrefixUpTo(results, written);
    ok := true;
  }

  /** `insertGoalHistory` of a row without an id: it is appended with the
      next id. */
  method AppendGoal(dao: HistoryDao, row: GoalHistoryEntity)
    requires dao.Valid() && row.id == 0
    modifies dao
    ensures dao.Valid()
    ensures dao.goals == old(dao.goals) + [SetGoalId(row, old(dao.nextGoalId))]
    ensures dao.nextGoalId == old(dao.nextGoalId) + 1
    ensures dao.daily == old(dao.daily) && dao.tracking == old(dao.tracking)
  {
    dao.InsertGoalHistory(row);
  }

  /** `insertTrackingHistory` of a row without an id: it is appended with
      the next id. */
  method AppendTracking(dao: HistoryDao, row: TrackingHistoryEntity)
    requires dao.Valid() && row.id == 0
    modifies dao
    ensures dao.Valid()
    ensures dao.tracking == old(dao.tracking) + [SetTrackingId(row, old(dao.nextTrackingId))]
    ensures dao.nextTrackingId == old(dao.nextTrackingId) + 1
    ensures dao.daily == old(dao.daily) && dao.goals == old(dao.goals)
  {
    dao.InsertTrackingHistory(row);
  }

  lemma SnocAssoc<T>(a: seq<T>, b: seq<T>, y: T)
    ensures a + b + [y] == a + (b + [y])
  {
  }

  lemma {:induction false} NumberedSnoc<T>(rows: seq<T>, x: T, next: int, withId: (T, int) -> T)
    ensures Numbered(rows + [x], next, withId) == Numbered(rows, next, withId) + [withId(x, next + |rows|)]
    decreases |rows|
  {
    if |rows| > 0 {
      assert (rows + [x])[1..] == rows[1..] + [x];
      NumberedSnoc(rows[1..], x, next + 1, withId);
    }
  }
}
